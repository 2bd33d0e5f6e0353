// CollisionSystem: a bullet that touches an asteroid destroys it, splitting an
// asteroid bigger than 10 into two smaller ones, and a spaceship that touches
// an asteroid is wrecked. The asteroid family changes during the update: a hit
// asteroid leaves it at once (its `destroyed` state has no Collision
// component) and the two fragments join it at once, so later bullets and the
// spaceship pass see the new field.

module Collision {
  import opened Options
  import opened Vectors
  import opened Ecs
  import opened Components

  /** A member of the asteroid family as values: which entity, where, how big. */
  datatype Rock = Rock(ref: EntityRef, position: Vector, radius: real)

  /** A bullet at `at` is inside the asteroid. */
  predicate Hits(r: Rock, at: Vector) {
    DistanceSq(r.position, at) <= r.radius * r.radius
  }

  /** The first asteroid in family order the bullet is inside, or |rocks| when there is none. */
  function FirstHit(rocks: seq<Rock>, at: Vector): (i: nat)
    ensures i <= |rocks|
    ensures forall j | 0 <= j < i :: !Hits(rocks[j], at)
    ensures i < |rocks| ==> Hits(rocks[i], at)
  {
    if rocks == [] then 0
    else if Hits(rocks[0], at) then 0
    else 1 + FirstHit(rocks[1..], at)
  }

  /** A random offset `.random(in: 0...10) - 5` in each coordinate. */
  predicate Jitter(j: Vector) {
    WithinBox(j, Zero, 5.0)
  }

  /** The two fragments of a hit asteroid bigger than 10, made by the create requests numbered
      `created` and `created + 1`; none for a smaller one. */
  function Fragments(parent: Rock, j1: Vector, j2: Vector, created: nat): (fs: seq<Rock>)
    ensures |fs| == if parent.radius > 10.0 then 2 else 0
    ensures forall f | f in fs :: f.radius == parent.radius - 10.0 && f.radius > 0.0
    ensures forall k | 0 <= k < |fs| :: fs[k].ref == Created(created + k)
    ensures Jitter(j1) && Jitter(j2) ==> forall f | f in fs :: WithinBox(f.position, parent.position, 5.0)
  {
    if parent.radius > 10.0 then
      [Rock(Created(created), Plus(parent.position, j1), parent.radius - 10.0),
       Rock(Created(created + 1), Plus(parent.position, j2), parent.radius - 10.0)]
    else []
  }

  /** The create requests for fragments. */
  function Spawns(fs: seq<Rock>): (requests: seq<Request>)
    ensures |requests| == |fs|
    ensures forall k | 0 <= k < |fs| :: requests[k] == CreateAsteroid(fs[k].radius, fs[k].position)
  {
    seq(|fs|, k requires 0 <= k < |fs| => CreateAsteroid(fs[k].radius, fs[k].position))
  }

  /** The bullet pass so far: the asteroid family, the requests made, how many asteroids were
      created, and the asteroids hit, in order. */
  datatype Outcome = Outcome(rocks: seq<Rock>, log: seq<Request>, created: nat, hits: seq<EntityRef>)

  /** One bullet at `at`: the first asteroid it is inside is hit, or nothing happens. */
  function Struck(o: Outcome, bullet: EntityId, at: Vector, j1: Vector, j2: Vector): (r: Outcome)
  {
    var i := FirstHit(o.rocks, at);
    if i == |o.rocks| then o
    else
      var hit := o.rocks[i];
      var fs := Fragments(hit, j1, j2, o.created);
      Outcome(o.rocks[..i] + o.rocks[i + 1..] + fs,
              o.log + [Destroy(bullet)] + Spawns(fs) + [ChangeAsteroidState(hit.ref, Destroyed)],
              o.created + |fs|,
              o.hits + [hit.ref])
  }

  /** A bullet hits an asteroid exactly when it is inside one. A hit records the first such
      asteroid and takes it out of the family while its fragments join; a miss changes nothing. */
  lemma StruckOutcome(o: Outcome, bullet: EntityId, at: Vector, j1: Vector, j2: Vector)
    ensures Struck(o, bullet, at, j1, j2).hits != o.hits <==> exists j | 0 <= j < |o.rocks| :: Hits(o.rocks[j], at)
    ensures Struck(o, bullet, at, j1, j2).hits == o.hits ==> Struck(o, bullet, at, j1, j2) == o
    ensures var r := Struck(o, bullet, at, j1, j2); var i := FirstHit(o.rocks, at);
            i < |o.rocks| ==> r.hits == o.hits + [o.rocks[i].ref]
    ensures var r := Struck(o, bullet, at, j1, j2); var i := FirstHit(o.rocks, at);
            i < |o.rocks| ==>
              multiset(r.rocks) + multiset{o.rocks[i]} == multiset(o.rocks) + multiset(Fragments(o.rocks[i], j1, j2, o.created))
  {
    var i := FirstHit(o.rocks, at);
    if i < |o.rocks| {
      assert o.rocks == o.rocks[..i] + [o.rocks[i]] + o.rocks[i + 1..];
    } else {
      assert forall j | 0 <= j < |o.rocks| :: !Hits(o.rocks[j], at);
    }
  }

  /** What a bullet asks for: on a hit, the bullet's destruction, the fragments' creation and the
      asteroid's move to its destroyed state, in that order; on a miss, nothing. */
  lemma StruckLog(o: Outcome, bullet: EntityId, at: Vector, j1: Vector, j2: Vector)
    ensures var r := Struck(o, bullet, at, j1, j2); FirstHit(o.rocks, at) == |o.rocks| ==> r == o
    ensures var r := Struck(o, bullet, at, j1, j2); var i := FirstHit(o.rocks, at);
            i < |o.rocks| ==>
              var fs := Fragments(o.rocks[i], j1, j2, o.created);
              r.hits == o.hits + [o.rocks[i].ref] &&
              |r.log| == |o.log| + |fs| + 2 && r.log[..|o.log|] == o.log && r.log[|o.log|] == Destroy(bullet) &&
              r.log[|o.log| + 1..|r.log| - 1] == Spawns(fs) &&
              r.log[|r.log| - 1] == ChangeAsteroidState(o.rocks[i].ref, Destroyed)
  {
    var i := FirstHit(o.rocks, at);
    if i < |o.rocks| {
      var fs := Fragments(o.rocks[i], j1, j2, o.created);
      var r := Struck(o, bullet, at, j1, j2);
      assert r.log == o.log + [Destroy(bullet)] + Spawns(fs) + [ChangeAsteroidState(o.rocks[i].ref, Destroyed)];
      assert r.log[|o.log| + 1..|r.log| - 1] == Spawns(fs);
    }
  }

  /** The bullets in family order, each seeing the field the ones before it left; bullet k draws
      its fragments' offsets from jitter[2k] and jitter[2k + 1]. */
  function Volleys(start: Outcome, bullets: seq<(EntityId, Vector)>, jitter: seq<Vector>): (r: Outcome)
    requires |jitter| >= 2 * |bullets|
    ensures |r.hits| <= |start.hits| + |bullets|
  {
    if bullets == [] then start
    else
      var n := |bullets| - 1;
      Struck(Volleys(start, bullets[..n], jitter), bullets[n].0, bullets[n].1, jitter[2 * n], jitter[2 * n + 1])
  }

  lemma VolleysStep(start: Outcome, bullets: seq<(EntityId, Vector)>, jitter: seq<Vector>, k: nat)
    requires |jitter| >= 2 * |bullets| && k < |bullets|
    ensures Volleys(start, bullets[..k + 1], jitter) ==
            Struck(Volleys(start, bullets[..k], jitter), bullets[k].0, bullets[k].1, jitter[2 * k], jitter[2 * k + 1])
  {
    var p := bullets[..k + 1];
    assert p[..|p| - 1] == bullets[..k] && p[|p| - 1] == bullets[k];
    assert Volleys(start, p, jitter) ==
           Struck(Volleys(start, p[..|p| - 1], jitter), p[|p| - 1].0, p[|p| - 1].1, jitter[2 * k], jitter[2 * k + 1]);
  }

  predicate UniqueRefs(refs: seq<EntityRef>) {
    forall i, j | 0 <= i < j < |refs| :: refs[i] != refs[j]
  }

  function RefsOf(rocks: seq<Rock>): (refs: seq<EntityRef>)
    ensures |refs| == |rocks|
    ensures forall i | 0 <= i < |rocks| :: refs[i] == rocks[i].ref
  {
    seq(|rocks|, i requires 0 <= i < |rocks| => rocks[i].ref)
  }

  lemma UniqueAppend(a: seq<EntityRef>, b: seq<EntityRef>)
    requires UniqueRefs(a) && UniqueRefs(b)
    requires forall r | r in a :: r !in b
    ensures UniqueRefs(a + b)
  {
    forall i, j | 0 <= i < j < |a + b| ensures (a + b)[i] != (a + b)[j] {
      if j < |a| {
        assert (a + b)[i] == a[i] && (a + b)[j] == a[j];
      } else if i >= |a| {
        assert (a + b)[i] == b[i - |a|] && (a + b)[j] == b[j - |a|];
      } else {
        assert (a + b)[i] == a[i] && (a + b)[j] == b[j - |a|];
        assert a[i] in a;
      }
    }
  }

  /** Taking one entity out of a list of distinct entities leaves a list of distinct entities without it. */
  lemma UniqueWithout(s: seq<EntityRef>, i: nat)
    requires UniqueRefs(s) && i < |s|
    ensures UniqueRefs(s[..i] + s[i + 1..])
    ensures forall r | r in s[..i] + s[i + 1..] :: r in s && r != s[i]
  {
    var t := s[..i] + s[i + 1..];
    forall a, b | 0 <= a < b < |t| ensures t[a] != t[b] {
      var a' := if a < i then a else a + 1;
      var b' := if b < i then b else b + 1;
      assert t[a] == s[a'] && t[b] == s[b'];
    }
    forall k | 0 <= k < |t| ensures t[k] in s && t[k] != s[i] {
      var k' := if k < i then k else k + 1;
      assert t[k] == s[k'];
    }
  }

  /** Every entity is in the family at most once and is either in the family or already hit, and
      entities made in this update are numbered below `created`. */
  predicate WellFormed(o: Outcome) {
    UniqueRefs(RefsOf(o.rocks)) && UniqueRefs(o.hits) &&
    (forall r | r in RefsOf(o.rocks) :: r !in o.hits) &&
    (forall r | r in RefsOf(o.rocks) && r.Created? :: r.index < o.created) &&
    (forall r | r in o.hits && r.Created? :: r.index < o.created)
  }

  lemma StruckWellFormed(o: Outcome, bullet: EntityId, at: Vector, j1: Vector, j2: Vector)
    requires WellFormed(o)
    ensures WellFormed(Struck(o, bullet, at, j1, j2))
  {
    var i := FirstHit(o.rocks, at);
    if i < |o.rocks| {
      var x := o.rocks[i].ref;
      var fs := Fragments(o.rocks[i], j1, j2, o.created);
      var r := Struck(o, bullet, at, j1, j2);
      var refs := RefsOf(o.rocks);
      var kept := refs[..i] + refs[i + 1..];
      assert RefsOf(r.rocks) == kept + RefsOf(fs);
      UniqueWithout(refs, i);
      assert forall k | 0 <= k < |fs| :: RefsOf(fs)[k] == Created(o.created + k);
      assert UniqueRefs(RefsOf(fs));
      UniqueAppend(kept, RefsOf(fs));
      assert x !in o.hits by { assert x in refs; }
      UniqueAppend(o.hits, [x]);
    }
  }

  /** The bullet pass starts from the asteroid family with nothing requested or hit yet. */
  function Start(rocks: seq<Rock>): Outcome {
    Outcome(rocks, [], 0, [])
  }

  /** No asteroid is hit twice, however many bullets touch it, and every asteroid made in the
      update is numbered by its create request. */
  lemma {:induction false} VolleysWellFormed(start: Outcome, bullets: seq<(EntityId, Vector)>, jitter: seq<Vector>)
    requires |jitter| >= 2 * |bullets|
    requires WellFormed(start)
    ensures WellFormed(Volleys(start, bullets, jitter))
    ensures UniqueRefs(Volleys(start, bullets, jitter).hits)
  {
    if bullets != [] {
      var n := |bullets| - 1;
      VolleysWellFormed(start, bullets[..n], jitter);
      StruckWellFormed(Volleys(start, bullets[..n], jitter), bullets[n].0, bullets[n].1, jitter[2 * n], jitter[2 * n + 1]);
    }
  }

  /** One bullet adds only its own destruction, fragment creations and the hit asteroid's change
      to `.destroyed`, and forgets no hit. */
  lemma StruckRequests(o: Outcome, bullet: EntityId, at: Vector, j1: Vector, j2: Vector)
    ensures var r := Struck(o, bullet, at, j1, j2);
            forall q | q in r.log ::
              q in o.log || q == Destroy(bullet) || q.CreateAsteroid? ||
              (q.ChangeAsteroidState? && q.asteroid in r.hits && q.asteroidState == Destroyed)
    ensures forall h | h in o.hits :: h in Struck(o, bullet, at, j1, j2).hits
  {
    StruckLog(o, bullet, at, j1, j2);
    var i := FirstHit(o.rocks, at);
    if i < |o.rocks| {
      var r := Struck(o, bullet, at, j1, j2);
      var fs := Fragments(o.rocks[i], j1, j2, o.created);
      forall q | q in r.log
        ensures q in o.log || q == Destroy(bullet) || q.CreateAsteroid? ||
                (q.ChangeAsteroidState? && q.asteroid in r.hits && q.asteroidState == Destroyed)
      {
        var j :| 0 <= j < |r.log| && r.log[j] == q;
        if j < |o.log| {
          assert q == r.log[..|o.log|][j];
        } else if |o.log| < j < |r.log| - 1 {
          assert q == Spawns(fs)[j - |o.log| - 1];
        }
      }
    }
  }

  /** Only bullets are destroyed. */
  lemma {:induction false} VolleysDestroyOnlyBullets(bullets: seq<(EntityId, Vector)>, rocks: seq<Rock>, jitter: seq<Vector>)
    requires |jitter| >= 2 * |bullets|
    ensures forall q | q in Volleys(Start(rocks), bullets, jitter).log && q.Destroy? ::
              exists k | 0 <= k < |bullets| :: bullets[k].0 == q.entity
  {
    if bullets != [] {
      var n := |bullets| - 1;
      var o := Volleys(Start(rocks), bullets[..n], jitter);
      VolleysDestroyOnlyBullets(bullets[..n], rocks, jitter);
      var r := Struck(o, bullets[n].0, bullets[n].1, jitter[2 * n], jitter[2 * n + 1]);
      assert Volleys(Start(rocks), bullets, jitter) == r;
      StruckRequests(o, bullets[n].0, bullets[n].1, jitter[2 * n], jitter[2 * n + 1]);
      forall q | q in r.log && q.Destroy?
        ensures exists k | 0 <= k < |bullets| :: bullets[k].0 == q.entity
      {
        if q in o.log {
          var k :| 0 <= k < n && bullets[..n][k].0 == q.entity;
          assert bullets[k].0 == q.entity;
        } else {
          assert bullets[n].0 == q.entity;
        }
      }
    }
  }

  /** The bullet pass only destroys, creates and changes asteroids, and only asteroids that were
      hit change state, always to `.destroyed`. */
  lemma {:induction false} VolleysChangeOnlyHits(bullets: seq<(EntityId, Vector)>, rocks: seq<Rock>, jitter: seq<Vector>)
    requires |jitter| >= 2 * |bullets|
    ensures var o := Volleys(Start(rocks), bullets, jitter);
            forall q | q in o.log && q.ChangeAsteroidState? :: q.asteroid in o.hits && q.asteroidState == Destroyed
    ensures forall q | q in Volleys(Start(rocks), bullets, jitter).log :: q.Destroy? || q.CreateAsteroid? || q.ChangeAsteroidState?
  {
    if bullets != [] {
      var n := |bullets| - 1;
      var o := Volleys(Start(rocks), bullets[..n], jitter);
      VolleysChangeOnlyHits(bullets[..n], rocks, jitter);
      assert Volleys(Start(rocks), bullets, jitter) == Struck(o, bullets[n].0, bullets[n].1, jitter[2 * n], jitter[2 * n + 1]);
      StruckRequests(o, bullets[n].0, bullets[n].1, jitter[2 * n], jitter[2 * n + 1]);
    }
  }

  /** A member of the spaceship family as values. */
  datatype Ship = Ship(entity: EntityId, position: Vector, radius: real)

  /** The spaceship and the asteroid overlap. */
  predicate Touches(r: Rock, ship: Ship) {
    DistanceSq(r.position, ship.position) <= (r.radius + ship.radius) * (r.radius + ship.radius)
  }

  predicate Crashes(ship: Ship, rocks: seq<Rock>) {
    exists j | 0 <= j < |rocks| :: Touches(rocks[j], ship)
  }

  /** The requests the first `n` spaceships issue in the spaceship pass, in family order. */
  function WrecksBefore(ships: seq<Ship>, n: nat, rocks: seq<Rock>): (log: seq<Request>)
    requires n <= |ships|
    ensures |log| <= n
    ensures forall q | q in log :: q.ChangeSpaceshipState? && q.spaceshipState == Destoyed
  {
    if n == 0 then []
    else
      WrecksBefore(ships, n - 1, rocks) + if Crashes(ships[n - 1], rocks) then [ChangeSpaceshipState(ships[n - 1].entity, Destoyed)] else []
  }

  /** The spaceship pass: each spaceship touching an asteroid is moved to its wrecked state, once. */
  function Wrecks(ships: seq<Ship>, rocks: seq<Rock>): (log: seq<Request>)
    ensures |log| <= |ships|
    ensures forall q | q in log :: q.ChangeSpaceshipState? && q.spaceshipState == Destoyed
  {
    WrecksBefore(ships, |ships|, rocks)
  }

  /** `WrecksAreTheCrashes` for the first `n` spaceships. */
  lemma {:induction false} WrecksBeforeAreTheCrashes(ships: seq<Ship>, n: nat, rocks: seq<Rock>)
    requires n <= |ships|
    ensures forall e :: ChangeSpaceshipState(e, Destoyed) in WrecksBefore(ships, n, rocks) <==>
                        exists k | 0 <= k < n :: ships[k].entity == e && Crashes(ships[k], rocks)
  {
    if n > 0 {
      WrecksBeforeAreTheCrashes(ships, n - 1, rocks);
    }
  }

  /** A spaceship is wrecked exactly when it touches some asteroid. */
  lemma WrecksAreTheCrashes(ships: seq<Ship>, rocks: seq<Rock>)
    ensures forall e :: ChangeSpaceshipState(e, Destoyed) in Wrecks(ships, rocks) <==>
                        exists k | 0 <= k < |ships| :: ships[k].entity == e && Crashes(ships[k], rocks)
  {
    WrecksBeforeAreTheCrashes(ships, |ships|, rocks);
  }

  /** A member of the asteroid family: its entity, position, collision radius and audio component. */
  datatype AsteroidMember = AsteroidMember(ref: EntityRef, position: Vector, radius: real, audio: Audio)

  /** A member of the spaceship family. */
  datatype ShipMember = ShipMember(entity: EntityId, position: Vector, radius: real, audio: Audio)

  function RockOf(m: AsteroidMember): Rock {
    Rock(m.ref, m.position, m.radius)
  }

  function Rocks(family: seq<AsteroidMember>): (rocks: seq<Rock>)
    ensures |rocks| == |family|
    ensures forall i | 0 <= i < |family| :: rocks[i] == RockOf(family[i])
  {
    seq(|family|, i requires 0 <= i < |family| => RockOf(family[i]))
  }

  function ShipOf(m: ShipMember): Ship {
    Ship(m.entity, m.position, m.radius)
  }

  function Ships(family: seq<ShipMember>): (ships: seq<Ship>)
    ensures |ships| == |family|
    ensures forall i | 0 <= i < |family| :: ships[i] == ShipOf(family[i])
  {
    seq(|family|, i requires 0 <= i < |family| => ShipOf(family[i]))
  }

  function Audios(family: seq<AsteroidMember>): set<Audio> {
    set m | m in family :: m.audio
  }

  /** Every entity has its own audio component. */
  predicate SeparateAudio(asteroids: seq<AsteroidMember>, ships: seq<ShipMember>) {
    (forall p, q | 0 <= p < q < |asteroids| :: asteroids[p].audio != asteroids[q].audio) &&
    (forall p, q | 0 <= p < q < |ships| :: ships[p].audio != ships[q].audio) &&
    (forall p, k | 0 <= p < |asteroids| && 0 <= k < |ships| :: asteroids[p].audio != ships[k].audio)
  }

  /** The asteroid family as the update finds it: existing entities, each listed once and each
      with its own audio component. */
  predicate Founding(asteroids: seq<AsteroidMember>) {
    (forall m | m in asteroids :: m.ref.Entity?) && UniqueRefs(RefsOf(Rocks(asteroids))) &&
    forall p, q | 0 <= p < q < |asteroids| :: asteroids[p].audio != asteroids[q].audio
  }

  /** The inner loop of the bullet pass, which stops at the first asteroid the bullet is inside. */
  method FindHit(family: seq<AsteroidMember>, at: Vector) returns (i: nat)
    ensures i == FirstHit(Rocks(family), at)
  {
    i := 0;
    while i < |family|
      invariant i <= |family|
      invariant forall j | 0 <= j < i :: !Hits(RockOf(family[j]), at)
    {
      if Hits(RockOf(family[i]), at) {
        break;
      }
      i := i + 1;
    }
    FirstHitIsFirst(Rocks(family), at, i);
  }

  /** Any index before which no asteroid is hit, and at which one is or the family ends, is the first hit. */
  lemma {:induction false} FirstHitIsFirst(rocks: seq<Rock>, at: Vector, i: nat)
    requires i <= |rocks|
    requires forall j | 0 <= j < i :: !Hits(rocks[j], at)
    requires i < |rocks| ==> Hits(rocks[i], at)
    ensures FirstHit(rocks, at) == i
  {
    if rocks != [] && i > 0 {
      FirstHitIsFirst(rocks[1..], at, i - 1);
    }
  }

  /** Two fragments of a hit asteroid bigger than 10, each with its own new audio component. */
  method Split(parent: AsteroidMember, j1: Vector, j2: Vector, created: nat) returns (fragments: seq<AsteroidMember>)
    ensures Rocks(fragments) == Fragments(RockOf(parent), j1, j2, created)
    ensures forall m | m in fragments :: m.ref.Created? && fresh(m.audio)
  {
    fragments := [];
    if parent.radius > 10.0 {
      var first := new Audio();
      var second := new Audio();
      fragments := [AsteroidMember(Created(created), Plus(parent.position, j1), parent.radius - 10.0, first),
                    AsteroidMember(Created(created + 1), Plus(parent.position, j2), parent.radius - 10.0, second)];
    }
  }

  /** One iteration of the bullet pass. */
  method Shoot(family: seq<AsteroidMember>, log: seq<Request>, created: nat, ghost hits: seq<EntityRef>,
               bullet: EntityId, at: Vector, j1: Vector, j2: Vector, games: seq<GameState>)
    returns (family': seq<AsteroidMember>, log': seq<Request>, created': nat, hit: Option<AsteroidMember>)
    requires DistinctGames(games)
    modifies (set g | g in games), Audios(family)
    ensures var r := Struck(Outcome(Rocks(family), log, created, hits), bullet, at, j1, j2);
            Rocks(family') == r.rocks && log' == r.log && created' == r.created &&
            r.hits == hits + (if hit.Some? then [hit.value.ref] else [])
    ensures hit.Some? ==> hit.value in family && hit.value.audio.toPlay == old(hit.value.audio.toPlay) + [ExplodeAsteroid]
    ensures forall a | a in Audios(family) && (hit.None? || a != hit.value.audio) :: a.toPlay == old(a.toPlay)
    ensures forall m | m in family' :: m in family || (m.ref.Created? && fresh(m.audio))
    ensures forall i | 0 <= i < |games| ::
              games[i].Value() == old(games[i].Value()).(hits := old(games[i].hits) + if hit.Some? then 1 else 0)
  {
    var i := FindHit(family, at);
    if i == |family| {
      return family, log, created, None;
    }
    var asteroid := family[i];
    var fragments := Split(asteroid, j1, j2, created);
    log' := log + [Destroy(bullet)] + Spawns(Rocks(fragments));
    created' := created + |fragments|;
    log' := log' + [ChangeAsteroidState(asteroid.ref, Destroyed)];
    asteroid.audio.Play(ExplodeAsteroid);
    CountHit(games);
    family' := family[..i] + family[i + 1..] + fragments;
    assert forall m | m in family[..i] + family[i + 1..] :: m in family;
    assert Rocks(family') == Rocks(family)[..i] + Rocks(family)[i + 1..] + Rocks(fragments);
    hit := Some(asteroid);
  }

  /** The inner loop of the spaceship pass, which stops at the first asteroid the spaceship touches. */
  method Touching(family: seq<AsteroidMember>, ship: Ship) returns (crash: bool)
    ensures crash <==> Crashes(ship, Rocks(family))
  {
    crash := false;
    var i := 0;
    while i < |family|
      invariant i <= |family|
      invariant forall j | 0 <= j < i :: !Touches(RockOf(family[j]), ship)
    {
      if Touches(RockOf(family[i]), ship) {
        crash := true;
        break;
      }
      i := i + 1;
    }
    assert crash ==> Touches(Rocks(family)[i], ship);
    assert !crash ==> forall j | 0 <= j < |family| :: !Touches(Rocks(family)[j], ship);
  }

  /** The asteroid family during the bullet pass: its values are the pass's outcome so far, its
      members are the original ones or fragments with audio components of their own, and each
      original asteroid has played its explosion exactly when it has been hit. */
  ghost predicate Tracks(family: seq<AsteroidMember>, asteroids: seq<AsteroidMember>, o: Outcome)
  {
    Rocks(family) == o.rocks && WellFormed(o) &&
    forall m | m in family :: m in asteroids || (m.ref.Created? && m.audio !in Audios(asteroids))
  }

  /** One iteration of the bullet pass, with its effect on the original asteroids' audio. */
  method Fire(games: seq<GameState>, asteroids: seq<AsteroidMember>, family: seq<AsteroidMember>,
              log: seq<Request>, created: nat, ghost o: Outcome,
              bullet: EntityId, at: Vector, j1: Vector, j2: Vector)
    returns (family': seq<AsteroidMember>, log': seq<Request>, created': nat, ghost o': Outcome)
    requires DistinctGames(games)
    requires Founding(asteroids)
    requires Tracks(family, asteroids, o) && log == o.log && created == o.created
    modifies (set g | g in games), Audios(family)
    ensures o' == Struck(o, bullet, at, j1, j2)
    ensures log' == o'.log && created' == o'.created &&
            forall m | m in family' :: m in family || (m.ref.Created? && fresh(m.audio))
    ensures Tracks(family', asteroids, o')
    ensures forall i | 0 <= i < |asteroids| ::
              asteroids[i].audio.toPlay ==
                old(asteroids[i].audio.toPlay) + if asteroids[i].ref in o'.hits && asteroids[i].ref !in o.hits then [ExplodeAsteroid] else []
    ensures forall i | 0 <= i < |games| ::
              games[i].Value() == old(games[i].Value()).(hits := old(games[i].hits) + |o'.hits| - |o.hits|)
  {
    o' := Struck(o, bullet, at, j1, j2);
    assert Outcome(Rocks(family), log, created, o.hits) == o;
    StruckWellFormed(o, bullet, at, j1, j2);
    ghost var hits' := Struck(o, bullet, at, j1, j2).hits;
    var hit;
    family', log', created', hit := Shoot(family, log, created, o.hits, bullet, at, j1, j2, games);
    forall i | 0 <= i < |asteroids|
      ensures asteroids[i].audio.toPlay ==
              old(asteroids[i].audio.toPlay) + if hit.Some? && hit.value == asteroids[i] then [ExplodeAsteroid] else []
      ensures asteroids[i].ref in hits' <==> asteroids[i].ref in o.hits || (hit.Some? && hit.value == asteroids[i])
      ensures hit.Some? && hit.value == asteroids[i] ==> asteroids[i].ref !in o.hits
    {
      if hit.Some? {
        var x := hit.value;
        if x.ref.Created? {
          assert x.audio != asteroids[i].audio && x.ref != asteroids[i].ref;
        } else {
          var p :| 0 <= p < |asteroids| && asteroids[p] == x;
          if p != i {
            assert RefsOf(Rocks(asteroids))[p] != RefsOf(Rocks(asteroids))[i];
          } else {
            assert x.ref in RefsOf(o.rocks) by {
              var q :| 0 <= q < |family| && family[q] == x;
              assert RefsOf(o.rocks)[q] == x.ref;
            }
          }
        }
      }
    }
  }

  /** The sound queues of the asteroid family's audio components, in family order. */
  ghost function Plays(asteroids: seq<AsteroidMember>): (ps: seq<seq<Sound>>)
    reads Audios(asteroids)
    ensures |ps| == |asteroids|
    ensures forall i | 0 <= i < |asteroids| :: ps[i] == asteroids[i].audio.toPlay
  {
    if asteroids == [] then [] else [asteroids[0].audio.toPlay] + Plays(asteroids[1..])
  }

  /** Every original asteroid has queued one `explodeAsteroid` since `plays` exactly when it is
      among `hits`. */
  ghost predicate Ledger(asteroids: seq<AsteroidMember>, plays: seq<seq<Sound>>, hits: seq<EntityRef>)
    reads Audios(asteroids)
  {
    |plays| == |asteroids| &&
    forall i | 0 <= i < |asteroids| ::
      asteroids[i].audio.toPlay == plays[i] + if asteroids[i].ref in hits then [ExplodeAsteroid] else []
  }

  /** Every game has counted `n` hits since `values`, and nothing else has changed. */
  ghost predicate Tally(games: seq<GameState>, values: seq<Game>, n: nat)
    reads set g | g in games
  {
    |values| == |games| &&
    forall i | 0 <= i < |games| :: games[i].Value() == values[i].(hits := values[i].hits + n)
  }

  /** `Fire`, with its effect on the sound queues and the games accumulated since the pass began. */
  method FireStep(games: seq<GameState>, asteroids: seq<AsteroidMember>, family: seq<AsteroidMember>,
                  log: seq<Request>, created: nat, ghost o: Outcome, ghost plays: seq<seq<Sound>>, ghost values: seq<Game>,
                  bullet: EntityId, at: Vector, j1: Vector, j2: Vector)
    returns (family': seq<AsteroidMember>, log': seq<Request>, created': nat, ghost o': Outcome)
    requires DistinctGames(games)
    requires Founding(asteroids)
    requires Tracks(family, asteroids, o) && log == o.log && created == o.created
    requires Ledger(asteroids, plays, o.hits) && Tally(games, values, |o.hits|)
    modifies (set g | g in games), Audios(family)
    ensures o' == Struck(o, bullet, at, j1, j2)
    ensures Tracks(family', asteroids, o') && log' == o'.log && created' == o'.created
    ensures forall m | m in family' :: m in family || (m.ref.Created? && fresh(m.audio))
    ensures Ledger(asteroids, plays, o'.hits) && Tally(games, values, |o'.hits|)
  {
    StruckOutcome(o, bullet, at, j1, j2);
    family', log', created', o' := Fire(games, asteroids, family, log, created, o, bullet, at, j1, j2);
    assert forall i | 0 <= i < |asteroids| :: asteroids[i].ref in o.hits ==> asteroids[i].ref in o'.hits;
  }

  /** The bullet pass: `for (bulletEntity, _, bulletPosition, _) in bullets.entityAndComponents { … }`. */
  method BulletPass(games: seq<GameState>, asteroids: seq<AsteroidMember>, bullets: seq<(EntityId, Vector)>, jitter: seq<Vector>)
    returns (family: seq<AsteroidMember>, requests: seq<Request>)
    requires DistinctGames(games)
    requires |jitter| >= 2 * |bullets|
    requires Founding(asteroids)
    modifies (set g | g in games), Audios(asteroids)
    ensures var o := Volleys(Start(Rocks(asteroids)), bullets, jitter);
            Rocks(family) == o.rocks && requests == o.log
    ensures var o := Volleys(Start(Rocks(asteroids)), bullets, jitter);
            forall i | 0 <= i < |games| ::
              games[i].Value() == old(games[i].Value()).(hits := old(games[i].hits) + |o.hits|)
    ensures var o := Volleys(Start(Rocks(asteroids)), bullets, jitter);
            forall i | 0 <= i < |asteroids| ::
              asteroids[i].audio.toPlay == old(asteroids[i].audio.toPlay) + if asteroids[i].ref in o.hits then [ExplodeAsteroid] else []
  {
    ghost var start := Start(Rocks(asteroids));
    ghost var plays, values := Plays(asteroids), GameValues(games);
    ghost var o := start;
    family := asteroids;
    var created := 0;
    requests := [];
    for k := 0 to |bullets|
      invariant o == Volleys(start, bullets[..k], jitter)
      invariant Tracks(family, asteroids, o) && requests == o.log && created == o.created
      invariant forall m | m in family :: m in asteroids || fresh(m.audio)
      invariant Ledger(asteroids, plays, o.hits) && Tally(games, values, |o.hits|)
    {
      VolleysStep(start, bullets, jitter, k);
      family, requests, created, o :=
        FireStep(games, asteroids, family, requests, created, o, plays, values, bullets[k].0, bullets[k].1, jitter[2 * k], jitter[2 * k + 1]);
    }
    assert bullets[..|bullets|] == bullets;
  }

  /** One iteration of the spaceship pass. */
  method Wreck(games: seq<GameState>, ship: ShipMember, family: seq<AsteroidMember>) returns (crash: bool)
    requires DistinctGames(games)
    modifies (set g | g in games), ship.audio
    ensures crash <==> Crashes(ShipOf(ship), Rocks(family))
    ensures ship.audio.toPlay == old(ship.audio.toPlay) + if crash then [ExplodeShip] else []
    ensures forall i | 0 <= i < |games| ::
              games[i].Value() == old(games[i].Value()).(lives := old(games[i].lives) - if crash then 1 else 0)
  {
    crash := Touching(family, ShipOf(ship));
    if crash {
      ship.audio.Play(ExplodeShip);
      LoseLife(games);
    }
  }

  /** The sound queues of the spaceship family's audio components, in family order. */
  ghost function ShipPlays(ships: seq<ShipMember>): (ps: seq<seq<Sound>>)
    reads set s | s in ships :: s.audio
    ensures |ps| == |ships|
    ensures forall i | 0 <= i < |ships| :: ps[i] == ships[i].audio.toPlay
  {
    if ships == [] then [] else [ships[0].audio.toPlay] + ShipPlays(ships[1..])
  }

  /** The first `k` spaceships have queued one `explodeShip` since `plays` exactly when they touch
      an asteroid; the others have queued nothing. */
  ghost predicate ShipLedger(ships: seq<ShipMember>, plays: seq<seq<Sound>>, rocks: seq<Rock>, k: nat)
    reads set s | s in ships :: s.audio
  {
    |plays| == |ships| &&
    forall i | 0 <= i < |ships| ::
      ships[i].audio.toPlay == plays[i] + if i < k && Crashes(ShipOf(ships[i]), rocks) then [ExplodeShip] else []
  }

  /** Every game has lost `n` lives since `values`, and nothing else has changed. */
  ghost predicate Toll(games: seq<GameState>, values: seq<Game>, n: nat)
    reads set g | g in games
  {
    |values| == |games| &&
    forall i | 0 <= i < |games| :: games[i].Value() == values[i].(lives := values[i].lives - n)
  }

  /** `Wreck` for the `k`-th spaceship, with its effect accumulated since the pass began. */
  method WreckStep(games: seq<GameState>, ships: seq<ShipMember>, family: seq<AsteroidMember>, k: nat, log: seq<Request>,
                   ghost views: seq<Ship>, ghost rocks: seq<Rock>, ghost plays: seq<seq<Sound>>, ghost values: seq<Game>)
    returns (log': seq<Request>)
    requires DistinctGames(games)
    requires forall p, q | 0 <= p < q < |ships| :: ships[p].audio != ships[q].audio
    requires k < |ships| && views == Ships(ships) && rocks == Rocks(family)
    requires log == WrecksBefore(views, k, rocks)
    requires ShipLedger(ships, plays, rocks, k) && Toll(games, values, |log|)
    modifies (set g | g in games), ships[k].audio
    ensures log' == WrecksBefore(views, k + 1, rocks)
    ensures ShipLedger(ships, plays, rocks, k + 1) && Toll(games, values, |log'|)
  {
    var crash := Wreck(games, ships[k], family);
    log' := log + if crash then [ChangeSpaceshipState(ships[k].entity, Destoyed)] else [];
  }

  /** The spaceship pass: `for (spaceship, spaceshipPosition, spaceshipCollision, spaceshipAudio) in spaceships { … }`. */
  method ShipPass(games: seq<GameState>, ships: seq<ShipMember>, family: seq<AsteroidMember>)
    returns (requests: seq<Request>)
    requires DistinctGames(games)
    requires forall p, q | 0 <= p < q < |ships| :: ships[p].audio != ships[q].audio
    modifies (set g | g in games), (set s | s in ships :: s.audio)
    ensures requests == Wrecks(Ships(ships), Rocks(family))
    ensures forall i | 0 <= i < |games| ::
              games[i].Value() == old(games[i].Value()).(lives := old(games[i].lives) - |requests|)
    ensures forall k | 0 <= k < |ships| ::
              ships[k].audio.toPlay == old(ships[k].audio.toPlay) + if Crashes(ShipOf(ships[k]), Rocks(family)) then [ExplodeShip] else []
  {
    ghost var views, rocks := Ships(ships), Rocks(family);
    ghost var plays, values := ShipPlays(ships), GameValues(games);
    requests := [];
    for k := 0 to |ships|
      invariant requests == WrecksBefore(views, k, rocks)
      invariant ShipLedger(ships, plays, rocks, k) && Toll(games, values, |requests|)
    {
      requests := WreckStep(games, ships, family, k, requests, views, rocks, plays, values);
    }
  }

  /** CollisionSystem.update(time:) over the game, spaceship, asteroid and bullet families, with
      the random fragment offsets drawn in order from `jitter`. */
  method CollisionUpdate(games: seq<GameState>, ships: seq<ShipMember>, asteroids: seq<AsteroidMember>,
                         bullets: seq<(EntityId, Vector)>, jitter: seq<Vector>)
    returns (requests: seq<Request>)
    requires DistinctGames(games)
    requires |jitter| >= 2 * |bullets|
    requires forall m | m in asteroids :: m.ref.Entity?
    requires UniqueRefs(RefsOf(Rocks(asteroids)))
    requires SeparateAudio(asteroids, ships)
    modifies (set g | g in games), Audios(asteroids), (set s | s in ships :: s.audio)
    ensures var o := Volleys(Start(Rocks(asteroids)), bullets, jitter);
            requests == o.log + Wrecks(Ships(ships), o.rocks)
    ensures var o := Volleys(Start(Rocks(asteroids)), bullets, jitter);
            forall i | 0 <= i < |games| ::
              games[i].Value() == old(games[i].Value()).(hits := old(games[i].hits) + |o.hits|,
                                                         lives := old(games[i].lives) - |Wrecks(Ships(ships), o.rocks)|)
    ensures var o := Volleys(Start(Rocks(asteroids)), bullets, jitter);
            forall i | 0 <= i < |asteroids| ::
              asteroids[i].audio.toPlay == old(asteroids[i].audio.toPlay) + if asteroids[i].ref in o.hits then [ExplodeAsteroid] else []
    ensures var o := Volleys(Start(Rocks(asteroids)), bullets, jitter);
            forall k | 0 <= k < |ships| ::
              ships[k].audio.toPlay == old(ships[k].audio.toPlay) + if Crashes(ShipOf(ships[k]), o.rocks) then [ExplodeShip] else []
  {
    assert forall k | 0 <= k < |ships| :: ships[k].audio !in Audios(asteroids);
    var family, shot := BulletPass(games, asteroids, bullets, jitter);
    var wrecked := ShipPass(games, ships, family);
    requests := shot + wrecked;
  }
}
