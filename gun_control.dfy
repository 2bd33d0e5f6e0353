// GunControlSystem: a gun shoots while its trigger key is held, but no more
// often than its minimum shot interval allows.

module GunControl {
  import opened Vectors
  import opened Ecs
  import opened Components

  /** One gun's update: the new time since its last shot and whether it fires. */
  function GunStep(timeSinceLastShot: real, interval: real, triggerDown: bool, time: real): (r: (real, bool))
    ensures r.1 <==> triggerDown && timeSinceLastShot + time >= interval
    ensures r.0 == if r.1 then 0.0 else timeSinceLastShot + time
  {
    var waited := timeSinceLastShot + time;
    if triggerDown && waited >= interval then (0.0, true) else (waited, false)
  }

  /** Total time of a run of updates, each given as (trigger held, time). */
  function Elapsed(steps: seq<(bool, real)>): real {
    if steps == [] then 0.0 else Elapsed(steps[..|steps| - 1]) + steps[|steps| - 1].1
  }

  /** One gun over a run of updates from `t0`: its final time since the last shot and, per
      update, whether it fired. */
  function Fires(t0: real, interval: real, steps: seq<(bool, real)>): (r: (real, seq<bool>))
    ensures |r.1| == |steps|
  {
    if steps == [] then (t0, [])
    else
      var (t, fired) := Fires(t0, interval, steps[..|steps| - 1]);
      var (down, time) := steps[|steps| - 1];
      var (t', fire) := GunStep(t, interval, down, time);
      (t', fired + [fire])
  }

  /** The index of the last update that fired, or -1. */
  function LastFire(fired: seq<bool>): (i: int)
    ensures -1 <= i < |fired|
    ensures i >= 0 ==> fired[i]
    ensures forall k | i < k < |fired| :: !fired[k]
  {
    if fired == [] then -1
    else if fired[|fired| - 1] then |fired| - 1
    else LastFire(fired[..|fired| - 1])
  }

  lemma {:induction false} FiresPrefix(t0: real, interval: real, steps: seq<(bool, real)>, j: nat)
    requires j <= |steps|
    ensures Fires(t0, interval, steps[..j]).1 == Fires(t0, interval, steps).1[..j]
    decreases |steps|
  {
    if j < |steps| {
      var n := |steps| - 1;
      assert steps[..n][..j] == steps[..j];
      FiresPrefix(t0, interval, steps[..n], j);
    } else {
      assert steps[..j] == steps;
    }
  }

  lemma {:induction false} ElapsedSplit(steps: seq<(bool, real)>, i: nat)
    requires i <= |steps|
    ensures Elapsed(steps) == Elapsed(steps[..i]) + Elapsed(steps[i..])
    decreases |steps|
  {
    if i == |steps| {
      assert steps[..i] == steps;
      assert steps[i..] == [];
    } else {
      var n := |steps| - 1;
      ElapsedSplit(steps[..n], i);
      assert steps[..n][..i] == steps[..i];
      assert steps[..n][i..] == steps[i..][..|steps[i..]| - 1];
    }
  }

  lemma LastFireAppend(fired: seq<bool>, b: bool)
    ensures LastFire(fired + [b]) == if b then |fired| else LastFire(fired)
  {
    assert (fired + [b])[..|fired|] == fired;
  }

  lemma ElapsedAppend(steps: seq<(bool, real)>, from: nat)
    requires from < |steps|
    ensures Elapsed(steps[from..]) == Elapsed(steps[from..|steps| - 1]) + steps[|steps| - 1].1
  {
    assert steps[from..][..|steps| - 1 - from] == steps[from..|steps| - 1];
  }

  /** The time since the last shot a run of updates leaves, given the updates and whether each fired. */
  function Waited(t0: real, steps: seq<(bool, real)>, fired: seq<bool>): real
    requires |fired| == |steps|
  {
    var l := LastFire(fired);
    (if l < 0 then t0 else 0.0) + Elapsed(steps[l + 1..])
  }

  lemma WaitedAppend(t0: real, steps: seq<(bool, real)>, fired: seq<bool>, step: (bool, real), fire: bool)
    requires |fired| == |steps|
    ensures Waited(t0, steps + [step], fired + [fire]) ==
              if fire then 0.0 else Waited(t0, steps, fired) + step.1
  {
    LastFireAppend(fired, fire);
    var all := steps + [step];
    if !fire {
      var l := LastFire(fired) + 1;
      ElapsedAppend(all, l);
      assert all[l..|all| - 1] == steps[l..];
    } else {
      assert all[|steps| + 1..] == [];
    }
  }

  /** The time since the last shot is the time elapsed since the last update that fired, or
      since the start when none did. */
  lemma {:induction false} FiresTracksTimeSinceLastShot(t0: real, interval: real, steps: seq<(bool, real)>)
    ensures Fires(t0, interval, steps).0 == Waited(t0, steps, Fires(t0, interval, steps).1)
  {
    if steps != [] {
      var n := |steps| - 1;
      var prefix := steps[..n];
      FiresTracksTimeSinceLastShot(t0, interval, prefix);
      var r := Fires(t0, interval, prefix);
      var step := GunStep(r.0, interval, steps[n].0, steps[n].1);
      assert Fires(t0, interval, steps) == (step.0, r.1 + [step.1]);
      assert prefix + [steps[n]] == steps;
      WaitedAppend(t0, prefix, r.1, steps[n], step.1);
    }
  }

  /** An update that fires found at least the minimum shot interval waited, counting its own time. */
  lemma FiredAfterInterval(t0: real, interval: real, steps: seq<(bool, real)>, j: nat)
    requires j < |steps| && Fires(t0, interval, steps).1[j]
    ensures Fires(t0, interval, steps[..j]).0 + steps[j].1 >= interval
  {
    FiresPrefix(t0, interval, steps, j + 1);
    var p := steps[..j + 1];
    assert p[..|p| - 1] == steps[..j] && p[|p| - 1] == steps[j];
  }

  lemma ElapsedRange(steps: seq<(bool, real)>, a: nat, b: nat)
    requires a <= b < |steps|
    ensures Elapsed(steps[a..b + 1]) == Elapsed(steps[a..b]) + steps[b].1
  {
    var s := steps[a..b + 1];
    assert s[..|s| - 1] == steps[a..b] && s[|s| - 1] == steps[b];
  }

  /** Between two consecutive shots at least the minimum shot interval has elapsed. */
  lemma ShotsAreSpaced(t0: real, interval: real, steps: seq<(bool, real)>, i: nat, j: nat)
    requires i < j < |steps|
    requires Fires(t0, interval, steps).1[i] && Fires(t0, interval, steps).1[j]
    requires forall k | i < k < j :: !Fires(t0, interval, steps).1[k]
    ensures Elapsed(steps[i + 1..j + 1]) >= interval
  {
    var fired := Fires(t0, interval, steps).1;
    var before := steps[..j];
    FiresPrefix(t0, interval, steps, j);
    FiredAfterInterval(t0, interval, steps, j);
    FiresTracksTimeSinceLastShot(t0, interval, before);
    assert fired[..j][i];
    assert LastFire(fired[..j]) == i;
    ElapsedRange(steps, i + 1, j);
    assert before[i + 1..] == steps[i + 1..j];
  }

  /** A member of the family (Gun, GunControls, Position, Audio); GunControls contributes its
      trigger key. */
  datatype GunMember = GunMember(entity: EntityId, gun: Gun, trigger: int, audio: Audio)

  /** A member's values the update reads or must keep: entity, time since last shot, minimum
      interval, trigger key, and the offset and bullet lifetime that `createBullet` later reads. */
  datatype GunView = GunView(entity: EntityId, timeSinceLastShot: real, minimumShotInterval: real, trigger: int,
                             offsetFromParent: Vector, bulletLifetime: real)

  function Views(family: seq<GunMember>): (vs: seq<GunView>)
    reads set m | m in family :: m.gun
    ensures |vs| == |family|
    ensures forall i | 0 <= i < |family| ::
              vs[i] == GunView(family[i].entity, family[i].gun.timeSinceLastShot, family[i].gun.minimumShotInterval, family[i].trigger,
                               family[i].gun.offsetFromParent, family[i].gun.bulletLifetime)
  {
    if family == [] then []
    else
      var m := family[0];
      [GunView(m.entity, m.gun.timeSinceLastShot, m.gun.minimumShotInterval, m.trigger, m.gun.offsetFromParent, m.gun.bulletLifetime)] +
        Views(family[1..])
  }

  function Fired(v: GunView, keysDown: set<int>, time: real): bool {
    GunStep(v.timeSinceLastShot, v.minimumShotInterval, v.trigger in keysDown, time).1
  }

  /** The bullets the first `n` guns create in one update, in family order. */
  function VolleyBefore(views: seq<GunView>, n: nat, keysDown: set<int>, time: real): (requests: seq<Request>)
    requires n <= |views|
    ensures |requests| <= n
    ensures forall r | r in requests :: r.CreateBullet?
  {
    if n == 0 then []
    else
      VolleyBefore(views, n - 1, keysDown, time) +
        (if Fired(views[n - 1], keysDown, time) then [CreateBullet(views[n - 1].entity)] else [])
  }

  /** The bullets one update creates, one per firing gun, in family order. */
  function Volley(views: seq<GunView>, keysDown: set<int>, time: real): (requests: seq<Request>)
    ensures |requests| <= |views|
    ensures forall r | r in requests :: r.CreateBullet?
  {
    VolleyBefore(views, |views|, keysDown, time)
  }

  /** `VolleyIsTheFiringGuns` for the first `n` guns. */
  lemma {:induction false} VolleyBeforeIsTheFiringGuns(views: seq<GunView>, n: nat, keysDown: set<int>, time: real)
    requires n <= |views|
    ensures forall i | 0 <= i < n && Fired(views[i], keysDown, time) ::
              CreateBullet(views[i].entity) in VolleyBefore(views, n, keysDown, time)
    ensures forall r | r in VolleyBefore(views, n, keysDown, time) ::
              exists i :: 0 <= i < n && views[i].entity == r.gun && Fired(views[i], keysDown, time)
  {
    if n > 0 {
      VolleyBeforeIsTheFiringGuns(views, n - 1, keysDown, time);
    }
  }

  /** A bullet is requested for every gun that fires, and every request comes from a gun that fires. */
  lemma VolleyIsTheFiringGuns(views: seq<GunView>, keysDown: set<int>, time: real)
    ensures forall i | 0 <= i < |views| && Fired(views[i], keysDown, time) :: CreateBullet(views[i].entity) in Volley(views, keysDown, time)
    ensures forall r | r in Volley(views, keysDown, time) ::
              exists i :: 0 <= i < |views| && views[i].entity == r.gun && Fired(views[i], keysDown, time)
  {
    VolleyBeforeIsTheFiringGuns(views, |views|, keysDown, time);
  }

  /** A member after its update, given what the update read of it and its sound queue before. */
  ghost predicate Updated(m: GunMember, v: GunView, toPlay: seq<Sound>, keysDown: set<int>, time: real)
    reads m.gun, m.audio
  {
    var step := GunStep(v.timeSinceLastShot, v.minimumShotInterval, v.trigger in keysDown, time);
    m.gun.shooting == (v.trigger in keysDown) &&
    m.gun.timeSinceLastShot == step.0 &&
    m.gun.minimumShotInterval == v.minimumShotInterval &&
    m.gun.offsetFromParent == v.offsetFromParent && m.gun.bulletLifetime == v.bulletLifetime &&
    m.audio.toPlay == toPlay + (if step.1 then [ShootGun] else [])
  }

  function View(m: GunMember): GunView
    reads m.gun
  {
    GunView(m.entity, m.gun.timeSinceLastShot, m.gun.minimumShotInterval, m.trigger, m.gun.offsetFromParent, m.gun.bulletLifetime)
  }

  /** The loop body for one member; reports whether the gun fired. */
  method UpdateGun(m: GunMember, keysDown: set<int>, time: real) returns (fire: bool)
    modifies m.gun, m.audio
    ensures Updated(m, old(View(m)), old(m.audio.toPlay), keysDown, time)
    ensures fire == Fired(old(View(m)), keysDown, time)
  {
    m.gun.shooting := m.trigger in keysDown;
    m.gun.timeSinceLastShot := m.gun.timeSinceLastShot + time;
    fire := m.gun.shooting && m.gun.timeSinceLastShot >= m.gun.minimumShotInterval;
    if fire {
      m.audio.Play(ShootGun);
      m.gun.timeSinceLastShot := 0.0;
    }
  }

  /** The sound queues of the family's audio components, in family order. */
  ghost function GunPlays(family: seq<GunMember>): (ps: seq<seq<Sound>>)
    reads set m | m in family :: m.audio
    ensures |ps| == |family|
    ensures forall i | 0 <= i < |family| :: ps[i] == family[i].audio.toPlay
  {
    if family == [] then [] else [family[0].audio.toPlay] + GunPlays(family[1..])
  }

  /** The first `k` members are updated from what the update read of them and their sound queues
      before; the others are as they were. */
  ghost predicate UpdatedBefore(family: seq<GunMember>, before: seq<GunView>, plays: seq<seq<Sound>>,
                                keysDown: set<int>, time: real, k: nat)
    reads set m | m in family :: m.gun
    reads set m | m in family :: m.audio
  {
    |before| == |family| && |plays| == |family| &&
    (forall i | 0 <= i < k && i < |family| :: Updated(family[i], before[i], plays[i], keysDown, time)) &&
    forall i | k <= i < |family| :: View(family[i]) == before[i] && family[i].audio.toPlay == plays[i]
  }

  /** The loop body of the update for the `k`-th member, with its effect accumulated. */
  method UpdateNext(family: seq<GunMember>, k: nat, keysDown: set<int>, time: real, requests: seq<Request>,
                    ghost before: seq<GunView>, ghost plays: seq<seq<Sound>>)
    returns (requests': seq<Request>)
    requires forall i, j | 0 <= i < j < |family| :: family[i].gun != family[j].gun && family[i].audio != family[j].audio
    requires k < |family| && UpdatedBefore(family, before, plays, keysDown, time, k)
    requires requests == VolleyBefore(before, k, keysDown, time)
    modifies family[k].gun, family[k].audio
    ensures UpdatedBefore(family, before, plays, keysDown, time, k + 1)
    ensures requests' == VolleyBefore(before, k + 1, keysDown, time)
  {
    var m := family[k];
    var fire := UpdateGun(m, keysDown, time);
    requests' := requests + if fire then [CreateBullet(m.entity)] else [];
  }

  /** GunControlSystem.update(time:); `keysDown` is what `isKeyDown` consults. */
  method GunControlUpdate(family: seq<GunMember>, keysDown: set<int>, time: real) returns (requests: seq<Request>)
    requires forall i, j | 0 <= i < j < |family| :: family[i].gun != family[j].gun && family[i].audio != family[j].audio
    modifies set m | m in family :: m.gun
    modifies set m | m in family :: m.audio
    ensures UpdatedBefore(family, old(Views(family)), old(GunPlays(family)), keysDown, time, |family|)
    ensures requests == Volley(old(Views(family)), keysDown, time)
  {
    ghost var before, plays := Views(family), GunPlays(family);
    requests := [];
    for k := 0 to |family|
      invariant UpdatedBefore(family, before, plays, keysDown, time, k)
      invariant requests == VolleyBefore(before, k, keysDown, time)
    {
      requests := UpdateNext(family, k, keysDown, time, requests, before, plays);
    }
  }
}
