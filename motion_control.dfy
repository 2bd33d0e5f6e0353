// MotionControlSystem: for every pressed key bound to turning left or right
// the entity turns by rotationRate · time, and for every pressed accelerate key
// its velocity gains accelerationRate · time along its heading. Keys bound
// twice act twice; the key sets are walked in no particular order.

module MotionControl {
  import opened Vectors
  import opened Components

  /** `step` added `n` times. */
  function Repeat(n: nat, step: real): real {
    if n == 0 then 0.0 else Repeat(n - 1, step) + step
  }

  lemma {:induction false} RepeatIsProduct(n: nat, step: real)
    ensures Repeat(n, step) == n as real * step
  {
    if n > 0 {
      RepeatIsProduct(n - 1, step);
    }
  }

  /** How the steering of one update changes an entity, given the keys held down. */
  datatype Heading = Heading(rotation: real, velocity: Vector)

  /** The turn one pressed key gives: rotationRate · time. */
  function TurnStep(c: MotionControls, time: real): real {
    c.rotationRate * time
  }

  /** The thrust one pressed key gives along an axis whose cosine or sine of the heading is `trig`. */
  function Thrust(trig: real, c: MotionControls, time: real): real {
    trig * c.accelerationRate * time
  }

  function Steer(h: Heading, c: MotionControls, keysDown: set<int>, time: real, cos: real -> real, sin: real -> real): Heading
  {
    var rotation := h.rotation - Repeat(|c.left * keysDown|, TurnStep(c, time)) + Repeat(|c.right * keysDown|, TurnStep(c, time));
    var push := |c.accelerate * keysDown|;
    Heading(rotation, Vector(h.velocity.x + Repeat(push, Thrust(cos(rotation), c, time)),
                             h.velocity.y + Repeat(push, Thrust(sin(rotation), c, time))))
  }

  /** The net turn is one turn step for every pressed right key less one for every pressed left
      key; each pressed accelerate key adds one thrust along the heading after turning. */
  lemma SteerIsNetKeyCount(h: Heading, c: MotionControls, keysDown: set<int>, time: real, cos: real -> real, sin: real -> real)
    ensures var r := Steer(h, c, keysDown, time, cos, sin);
            r.rotation == h.rotation + (|c.right * keysDown| - |c.left * keysDown|) as real * TurnStep(c, time) &&
            r.velocity.x == h.velocity.x + |c.accelerate * keysDown| as real * Thrust(cos(r.rotation), c, time) &&
            r.velocity.y == h.velocity.y + |c.accelerate * keysDown| as real * Thrust(sin(r.rotation), c, time)
  {
    var r := Steer(h, c, keysDown, time, cos, sin);
    var turn := TurnStep(c, time);
    var l, rt, push := |c.left * keysDown|, |c.right * keysDown|, |c.accelerate * keysDown|;
    var rotation := h.rotation - Repeat(l, turn) + Repeat(rt, turn);
    assert r.rotation == rotation;
    var dx, dy := Thrust(cos(rotation), c, time), Thrust(sin(rotation), c, time);
    assert r.velocity == Vector(h.velocity.x + Repeat(push, dx), h.velocity.y + Repeat(push, dy));
    RepeatIsProduct(l, turn);
    RepeatIsProduct(rt, turn);
    RepeatIsProduct(push, dx);
    RepeatIsProduct(push, dy);
    assert (rt - l) as real * turn == rt as real * turn - l as real * turn;
  }

  /** With no bound key held, nothing changes. */
  lemma NoKeysNoSteering(h: Heading, c: MotionControls, keysDown: set<int>, time: real, cos: real -> real, sin: real -> real)
    requires c.left * keysDown == {} && c.right * keysDown == {} && c.accelerate * keysDown == {}
    ensures Steer(h, c, keysDown, time, cos, sin) == h
  {
  }

  /** Walking one more key of `keys` adds one to the count of pressed keys walked when it is pressed. */
  lemma WalkOneKey(keys: set<int>, rest: set<int>, keysDown: set<int>, key: int)
    requires rest <= keys && key in rest
    ensures |(keys - (rest - {key})) * keysDown| == |(keys - rest) * keysDown| + (if key in keysDown then 1 else 0)
  {
    var walked := (keys - rest) * keysDown;
    if key in keysDown {
      assert (keys - (rest - {key})) * keysDown == walked + {key};
    } else {
      assert (keys - (rest - {key})) * keysDown == walked;
    }
  }

  lemma NonEmptyHasKey(keys: set<int>)
    requires keys != {}
    ensures exists key :: key in keys
  {
    if forall key :: key !in keys {
      assert false;
    }
  }

  datatype Steerable = Steerable(controls: MotionControls, position: Position, motion: Motion)

  /** `for key in left where isKeyDown(key) { rotation -= turn }`. */
  method TurnLeft(position: Position, left: set<int>, keysDown: set<int>, turn: real)
    modifies position`rotation
    ensures position.rotation == old(position.rotation) - Repeat(|left * keysDown|, turn)
  {
    var rest := left;
    while rest != {}
      invariant rest <= left
      invariant position.rotation == old(position.rotation) - Repeat(|(left - rest) * keysDown|, turn)
      decreases rest
    {
      NonEmptyHasKey(rest);
      var key :| key in rest;
      WalkOneKey(left, rest, keysDown, key);
      if key in keysDown {
        position.rotation := position.rotation - turn;
      }
      rest := rest - {key};
    }
    assert left - {} == left;
  }

  /** `for key in right where isKeyDown(key) { rotation += turn }`. */
  method TurnRight(position: Position, right: set<int>, keysDown: set<int>, turn: real)
    modifies position`rotation
    ensures position.rotation == old(position.rotation) + Repeat(|right * keysDown|, turn)
  {
    var rest := right;
    while rest != {}
      invariant rest <= right
      invariant position.rotation == old(position.rotation) + Repeat(|(right - rest) * keysDown|, turn)
      decreases rest
    {
      NonEmptyHasKey(rest);
      var key :| key in rest;
      WalkOneKey(right, rest, keysDown, key);
      if key in keysDown {
        position.rotation := position.rotation + turn;
      }
      rest := rest - {key};
    }
    assert right - {} == right;
  }

  /** `velocity += (dx, dy)`. */
  method Push(motion: Motion, dx: real, dy: real)
    modifies motion`velocity
    ensures motion.velocity.x == old(motion.velocity.x) + dx && motion.velocity.y == old(motion.velocity.y) + dy
  {
    motion.velocity := Vector(motion.velocity.x + dx, motion.velocity.y + dy);
  }

  /** `for key in accelerate where isKeyDown(key) { velocity += (dx, dy) }`. */
  method Accelerate(motion: Motion, accelerate: set<int>, keysDown: set<int>, dx: real, dy: real)
    modifies motion`velocity
    ensures motion.velocity == Vector(old(motion.velocity.x) + Repeat(|accelerate * keysDown|, dx),
                                      old(motion.velocity.y) + Repeat(|accelerate * keysDown|, dy))
  {
    var rest := accelerate;
    ghost var pressed: nat := 0;
    while rest != {}
      invariant rest <= accelerate
      invariant pressed == |(accelerate - rest) * keysDown|
      invariant motion.velocity.x == old(motion.velocity.x) + Repeat(pressed, dx)
      invariant motion.velocity.y == old(motion.velocity.y) + Repeat(pressed, dy)
      decreases rest
    {
      NonEmptyHasKey(rest);
      var key :| key in rest;
      WalkOneKey(accelerate, rest, keysDown, key);
      if key in keysDown {
        Push(motion, dx, dy);
        pressed := pressed + 1;
      }
      rest := rest - {key};
    }
    assert accelerate - {} == accelerate;
  }

  /** The loop body for one entity of the family (MotionControls, Position, Motion). */
  method SteerOne(m: Steerable, keysDown: set<int>, time: real, cos: real -> real, sin: real -> real)
    modifies m.position`rotation, m.motion`velocity
    ensures HeadingOf(m) == Steer(old(HeadingOf(m)), m.controls, keysDown, time, cos, sin)
  {
    var control, position, motion := m.controls, m.position, m.motion;
    ghost var expected := Steer(HeadingOf(m), control, keysDown, time, cos, sin);
    var turn := TurnStep(control, time);
    TurnLeft(position, control.left, keysDown, turn);
    TurnRight(position, control.right, keysDown, turn);
    assert position.rotation == expected.rotation;
    Accelerate(motion, control.accelerate, keysDown, Thrust(cos(position.rotation), control, time), Thrust(sin(position.rotation), control, time));
  }

  function HeadingOf(m: Steerable): Heading
    reads m.position, m.motion
  {
    Heading(m.position.rotation, m.motion.velocity)
  }

  /** The headings of the family, in family order. */
  ghost function Headings(family: seq<Steerable>): (hs: seq<Heading>)
    reads set m | m in family :: m.position
    reads set m | m in family :: m.motion
    ensures |hs| == |family|
    ensures forall i | 0 <= i < |family| :: hs[i] == HeadingOf(family[i])
  {
    if family == [] then [] else [HeadingOf(family[0])] + Headings(family[1..])
  }

  /** The first `k` entities have been steered from `headings`; the others are as they were. */
  ghost predicate SteeredBefore(family: seq<Steerable>, headings: seq<Heading>, keysDown: set<int>, time: real,
                                cos: real -> real, sin: real -> real, k: nat)
    reads set m | m in family :: m.position
    reads set m | m in family :: m.motion
  {
    |headings| == |family| &&
    forall i | 0 <= i < |family| ::
      HeadingOf(family[i]) == if i < k then Steer(headings[i], family[i].controls, keysDown, time, cos, sin) else headings[i]
  }

  /** The loop body of the update for the `k`-th entity, with its effect accumulated. */
  method SteerNext(family: seq<Steerable>, k: nat, keysDown: set<int>, time: real, cos: real -> real, sin: real -> real,
                   ghost headings: seq<Heading>)
    requires forall i, j | 0 <= i < j < |family| :: family[i].position != family[j].position && family[i].motion != family[j].motion
    requires k < |family| && SteeredBefore(family, headings, keysDown, time, cos, sin, k)
    modifies family[k].position`rotation, family[k].motion`velocity
    ensures SteeredBefore(family, headings, keysDown, time, cos, sin, k + 1)
  {
    SteerOne(family[k], keysDown, time, cos, sin);
  }

  /** MotionControlSystem.update(time:); `keysDown` is what `isKeyDown` consults. */
  method MotionControlUpdate(family: seq<Steerable>, keysDown: set<int>, time: real, cos: real -> real, sin: real -> real)
    requires forall i, j | 0 <= i < j < |family| :: family[i].position != family[j].position && family[i].motion != family[j].motion
    modifies set m | m in family :: m.position
    modifies set m | m in family :: m.motion
    ensures forall i | 0 <= i < |family| ::
              HeadingOf(family[i]) == Steer(old(HeadingOf(family[i])), family[i].controls, keysDown, time, cos, sin) &&
              family[i].position.position == old(family[i].position.position) &&
              family[i].motion.angularVelocity == old(family[i].motion.angularVelocity) &&
              family[i].motion.damping == old(family[i].motion.damping)
  {
    ghost var headings := Headings(family);
    for k := 0 to |family|
      invariant SteeredBefore(family, headings, keysDown, time, cos, sin, k)
      invariant forall i | 0 <= i < |family| ::
                  family[i].position.position == old(family[i].position.position) &&
                  family[i].motion.angularVelocity == old(family[i].motion.angularVelocity) &&
                  family[i].motion.damping == old(family[i].motion.damping)
    {
      SteerNext(family, k, keysDown, time, cos, sin, headings);
    }
  }
}
