// MovementSystem: every moving entity advances by its velocity, wraps around
// the screen edges, turns by its angular velocity and, when damped, slows down
// along each axis. `cos` and `sin` are the game's trigonometric functions,
// taken as parameters.

module Movement {
  import opened Vectors
  import opened Components

  /** One coordinate after moving: pulled back by one screen size if it left the screen. */
  function Wrap(c: real, size: real): (r: real)
    ensures r == c || r == c + size || r == c - size
    ensures c < 0.0 ==> r == c + size
  {
    var lifted := if c < 0.0 then c + size else c;
    if lifted > size then lifted - size else lifted
  }

  /** A coordinate that starts on screen and moves by at most one screen size stays on screen. */
  lemma WrapStaysOnScreen(c: real, d: real, size: real)
    requires 0.0 <= c <= size
    requires Abs(d) <= size
    ensures 0.0 <= Wrap(c + d, size) <= size
  {
  }

  /** One velocity coordinate after damping by `amount`. */
  function Damp(v: real, amount: real): (r: real)
    requires amount >= 0.0
    ensures Abs(r) == if Abs(v) > amount then Abs(v) - amount else 0.0
    ensures (v >= 0.0 ==> r >= 0.0) && (v <= 0.0 ==> r <= 0.0)
  {
    if v > amount then v - amount
    else if v < -amount then v + amount
    else 0.0
  }

  /** Damping never speeds an axis up. */
  lemma DampNeverSpeedsUp(v: real, amount: real)
    requires amount >= 0.0
    ensures Abs(Damp(v, amount)) <= Abs(v)
  {
  }

  /** The amount one velocity coordinate is damped by: |trig · damping · time| for the cosine or
      sine of the new rotation. */
  function DampAmount(trig: real, damping: real, time: real): (a: real)
    ensures a >= 0.0
  {
    Abs(trig * damping * time)
  }

  /** The values an entity of the family (Position, Motion) holds. */
  datatype Body = Body(position: Vector, rotation: real, velocity: Vector, angularVelocity: real, damping: real)

  /** One entity after one update on a `width` by `height` screen. */
  function Move(b: Body, time: real, width: real, height: real, cos: real -> real, sin: real -> real): (r: Body)
    ensures r.position.x == Wrap(b.position.x + Scaled(b.velocity, time).x, width)
    ensures r.position.y == Wrap(b.position.y + Scaled(b.velocity, time).y, height)
    ensures r.rotation == b.rotation + b.angularVelocity * time
    ensures r.angularVelocity == b.angularVelocity && r.damping == b.damping
    ensures b.damping <= 0.0 ==> r.velocity == b.velocity
    ensures Abs(r.velocity.x) <= Abs(b.velocity.x) && Abs(r.velocity.y) <= Abs(b.velocity.y)
    ensures b.velocity.x >= 0.0 ==> r.velocity.x >= 0.0
    ensures b.velocity.x <= 0.0 ==> r.velocity.x <= 0.0
    ensures b.velocity.y >= 0.0 ==> r.velocity.y >= 0.0
    ensures b.velocity.y <= 0.0 ==> r.velocity.y <= 0.0
  {
    var moved := Plus(b.position, Scaled(b.velocity, time));
    var position := Vector(Wrap(moved.x, width), Wrap(moved.y, height));
    var rotation := b.rotation + b.angularVelocity * time;
    var velocity :=
      if b.damping > 0.0 then
        var xDamp := DampAmount(cos(rotation), b.damping, time);
        var yDamp := DampAmount(sin(rotation), b.damping, time);
        DampNeverSpeedsUp(b.velocity.x, xDamp);
        DampNeverSpeedsUp(b.velocity.y, yDamp);
        Vector(Damp(b.velocity.x, xDamp), Damp(b.velocity.y, yDamp))
      else b.velocity;
    b.(position := position, rotation := rotation, velocity := velocity)
  }

  /** An entity on screen whose step this update is at most one screen size stays on screen. */
  lemma MoveStaysOnScreen(b: Body, time: real, width: real, height: real, cos: real -> real, sin: real -> real)
    requires 0.0 <= b.position.x <= width && 0.0 <= b.position.y <= height
    requires Abs(Scaled(b.velocity, time).x) <= width && Abs(Scaled(b.velocity, time).y) <= height
    ensures var r := Move(b, time, width, height, cos, sin);
            0.0 <= r.position.x <= width && 0.0 <= r.position.y <= height
  {
    WrapStaysOnScreen(b.position.x, Scaled(b.velocity, time).x, width);
    WrapStaysOnScreen(b.position.y, Scaled(b.velocity, time).y, height);
  }

  datatype Mover = Mover(position: Position, motion: Motion)

  function BodyOf(m: Mover): Body
    reads m.position, m.motion
  {
    Body(m.position.position, m.position.rotation, m.motion.velocity, m.motion.angularVelocity, m.motion.damping)
  }

  function Bodies(family: seq<Mover>): (bs: seq<Body>)
    reads set m | m in family :: m.position
    reads set m | m in family :: m.motion
    ensures |bs| == |family|
    ensures forall i | 0 <= i < |family| :: bs[i] == BodyOf(family[i])
  {
    if family == [] then [] else [BodyOf(family[0])] + Bodies(family[1..])
  }

  /** The loop body for one entity. */
  method MoveOne(m: Mover, time: real, width: real, height: real, cos: real -> real, sin: real -> real)
    modifies m.position, m.motion
    ensures BodyOf(m) == Move(old(BodyOf(m)), time, width, height, cos, sin)
  {
    Advance(m.position, m.motion.velocity, m.motion.angularVelocity, time, width, height);
    Slow(m.motion, m.position.rotation, time, cos, sin);
  }

  /** Moves a position by one step of `velocity`, wraps it, and turns it by `angularVelocity`. */
  method Advance(p: Position, velocity: Vector, angularVelocity: real, time: real, width: real, height: real)
    modifies p
    ensures p.position == Vector(Wrap(old(p.position).x + Scaled(velocity, time).x, width),
                                 Wrap(old(p.position).y + Scaled(velocity, time).y, height))
    ensures p.rotation == old(p.rotation) + angularVelocity * time
  {
    p.position := Plus(p.position, Scaled(velocity, time));
    if p.position.x < 0.0 {
      p.position := p.position.(x := p.position.x + width);
    }
    if p.position.x > width {
      p.position := p.position.(x := p.position.x - width);
    }
    if p.position.y < 0.0 {
      p.position := p.position.(y := p.position.y + height);
    }
    if p.position.y > height {
      p.position := p.position.(y := p.position.y - height);
    }
    p.rotation := p.rotation + angularVelocity * time;
  }

  /** Damps a motion's velocity along each axis when its damping is positive. */
  method Slow(motion: Motion, rotation: real, time: real, cos: real -> real, sin: real -> real)
    modifies motion`velocity
    ensures motion.velocity ==
              if motion.damping > 0.0 then
                Vector(Damp(old(motion.velocity).x, DampAmount(cos(rotation), motion.damping, time)),
                       Damp(old(motion.velocity).y, DampAmount(sin(rotation), motion.damping, time)))
              else old(motion.velocity)
  {
    if motion.damping > 0.0 {
      var xDamp := DampAmount(cos(rotation), motion.damping, time);
      var yDamp := DampAmount(sin(rotation), motion.damping, time);
      if motion.velocity.x > xDamp {
        motion.velocity := motion.velocity.(x := motion.velocity.x - xDamp);
      } else if motion.velocity.x < -xDamp {
        motion.velocity := motion.velocity.(x := motion.velocity.x + xDamp);
      } else {
        motion.velocity := motion.velocity.(x := 0.0);
      }
      if motion.velocity.y > yDamp {
        motion.velocity := motion.velocity.(y := motion.velocity.y - yDamp);
      } else if motion.velocity.y < -yDamp {
        motion.velocity := motion.velocity.(y := motion.velocity.y + yDamp);
      } else {
        motion.velocity := motion.velocity.(y := 0.0);
      }
    }
  }

  /** MovementSystem.update(time:) over the family (Position, Motion). */
  method MovementUpdate(family: seq<Mover>, time: real, width: real, height: real, cos: real -> real, sin: real -> real)
    requires forall i, j | 0 <= i < j < |family| :: family[i].position != family[j].position && family[i].motion != family[j].motion
    modifies set m | m in family :: m.position
    modifies set m | m in family :: m.motion
    ensures forall i | 0 <= i < |family| :: BodyOf(family[i]) == Move(old(BodyOf(family[i])), time, width, height, cos, sin)
  {
    for k := 0 to |family|
      invariant forall i | 0 <= i < k :: BodyOf(family[i]) == Move(old(BodyOf(family[i])), time, width, height, cos, sin)
      invariant forall i | k <= i < |family| :: BodyOf(family[i]) == old(BodyOf(family[i]))
    {
      MoveOne(family[k], time, width, height, cos, sin);
    }
  }
}
