// WaitForStartSystem: once the start screen has been clicked, every game is
// reset for a new start, every asteroid left from the previous game is
// destroyed, and the start screen itself goes. The asteroid family shrinks as
// its entities are destroyed, so only the first game's pass finds asteroids.

module WaitForStartSystem {
  import opened Ecs
  import opened Components

  /** The destroy requests for every entity of a list, in order. */
  function DestroyAll(entities: seq<EntityId>): (requests: seq<Request>)
    ensures |requests| == |entities|
    ensures forall i | 0 <= i < |entities| :: requests[i] == Destroy(entities[i])
  {
    if entities == [] then [] else DestroyAll(entities[..|entities| - 1]) + [Destroy(entities[|entities| - 1])]
  }

  /** The requests of one triggered wait entity after `games` passes of the game loop: the
      asteroids go in the first pass, and every pass destroys the wait entity. */
  function PassRequests(wait: EntityId, games: nat, asteroids: seq<EntityId>): seq<Request> {
    if games == 0 then [] else DestroyAll(asteroids) + seq(games, _ => Destroy(wait))
  }

  /** Whether one of the first `n` wait entities, given as (entity, startGame), has been clicked. */
  predicate StartedBefore(waits: seq<(EntityId, bool)>, n: nat)
    requires n <= |waits|
  {
    n > 0 && (waits[n - 1].1 || StartedBefore(waits, n - 1))
  }

  /** Whether any wait entity has been clicked. */
  predicate AnyStart(waits: seq<(EntityId, bool)>) {
    StartedBefore(waits, |waits|)
  }

  /** The requests of the first `n` wait entities, for `games` game entities and the asteroid
      family: only the first clicked wait entity still finds asteroids. */
  function RequestsBefore(waits: seq<(EntityId, bool)>, n: nat, games: nat, asteroids: seq<EntityId>): seq<Request>
    requires n <= |waits|
  {
    if n == 0 then []
    else
      var before := RequestsBefore(waits, n - 1, games, asteroids);
      if waits[n - 1].1 then before + PassRequests(waits[n - 1].0, games, if StartedBefore(waits, n - 1) then [] else asteroids)
      else before
  }

  /** The requests one update issues, for wait entities given as (entity, startGame) in family
      order, `games` game entities and the asteroid family. */
  function StartRequests(waits: seq<(EntityId, bool)>, games: nat, asteroids: seq<EntityId>): seq<Request> {
    RequestsBefore(waits, |waits|, games, asteroids)
  }

  /** The entities of the clicked wait entities among the first `n`. */
  ghost function ClickedBefore(waits: seq<(EntityId, bool)>, n: nat): set<EntityId>
    requires n <= |waits|
  {
    set i | 0 <= i < n && waits[i].1 :: waits[i].0
  }

  /** The first `n` wait entities request nothing but destroys of asteroids and of clicked wait
      entities, and nothing at all without a game. */
  lemma {:induction false} OnlyClearsBefore(waits: seq<(EntityId, bool)>, n: nat, games: nat, asteroids: seq<EntityId>)
    requires n <= |waits|
    ensures games == 0 ==> RequestsBefore(waits, n, games, asteroids) == []
    ensures forall r | r in RequestsBefore(waits, n, games, asteroids) ::
              r.Destroy? && (r.entity in asteroids || r.entity in ClickedBefore(waits, n))
  {
    if n > 0 {
      var m := n - 1;
      OnlyClearsBefore(waits, m, games, asteroids);
      assert ClickedBefore(waits, m) <= ClickedBefore(waits, n);
      if waits[m].1 {
        var rest := if StartedBefore(waits, m) then [] else asteroids;
        var pass := PassRequests(waits[m].0, games, rest);
        assert waits[m].0 in ClickedBefore(waits, n);
        forall r | r in pass
          ensures r.Destroy? && (r.entity in asteroids || r.entity in ClickedBefore(waits, n))
        {
          var k :| 0 <= k < |pass| && pass[k] == r;
          if k >= |rest| {
            assert r == Destroy(waits[m].0);
          }
        }
      }
    }
  }

  /** With a game, the first `n` wait entities destroy every clicked one among them. */
  lemma {:induction false} WaitsClearedBefore(waits: seq<(EntityId, bool)>, n: nat, games: nat, asteroids: seq<EntityId>)
    requires n <= |waits| && games > 0
    ensures forall i | 0 <= i < n && waits[i].1 :: Destroy(waits[i].0) in RequestsBefore(waits, n, games, asteroids)
  {
    if n > 0 {
      var m := n - 1;
      WaitsClearedBefore(waits, m, games, asteroids);
      var before := RequestsBefore(waits, m, games, asteroids);
      var all := RequestsBefore(waits, n, games, asteroids);
      var pass := if waits[m].1 then PassRequests(waits[m].0, games, if StartedBefore(waits, m) then [] else asteroids) else [];
      assert all == before + pass;
      forall i | 0 <= i < n && waits[i].1 ensures Destroy(waits[i].0) in all {
        if i == m {
          assert pass[|pass| - 1] == Destroy(waits[m].0);
        } else {
          assert Destroy(waits[i].0) in before;
        }
      }
    }
  }

  /** With a game, once one of the first `n` wait entities has been clicked every asteroid is
      destroyed. */
  lemma {:induction false} AsteroidsClearedBefore(waits: seq<(EntityId, bool)>, n: nat, games: nat, asteroids: seq<EntityId>)
    requires n <= |waits| && games > 0
    ensures StartedBefore(waits, n) ==> forall a | a in asteroids :: Destroy(a) in RequestsBefore(waits, n, games, asteroids)
  {
    if n > 0 {
      var m := n - 1;
      AsteroidsClearedBefore(waits, m, games, asteroids);
      var before := RequestsBefore(waits, m, games, asteroids);
      var all := RequestsBefore(waits, n, games, asteroids);
      if waits[m].1 {
        var rest := if StartedBefore(waits, m) then [] else asteroids;
        var pass := PassRequests(waits[m].0, games, rest);
        assert all == before + pass;
        forall a | a in asteroids ensures Destroy(a) in all {
          if StartedBefore(waits, m) {
            assert Destroy(a) in before;
          } else {
            var i :| 0 <= i < |asteroids| && asteroids[i] == a;
            assert pass[i] == Destroy(a);
          }
        }
      } else {
        assert all == before;
      }
    }
  }

  /** With at least one game and a clicked wait entity, every asteroid is destroyed and every
      clicked wait entity is destroyed; without a game nothing is requested. Only asteroids and
      clicked wait entities are ever destroyed. */
  lemma StartClearsTheField(waits: seq<(EntityId, bool)>, games: nat, asteroids: seq<EntityId>)
    ensures games == 0 ==> StartRequests(waits, games, asteroids) == []
    ensures games > 0 && AnyStart(waits) ==> forall a | a in asteroids :: Destroy(a) in StartRequests(waits, games, asteroids)
    ensures games > 0 ==> forall i | 0 <= i < |waits| && waits[i].1 :: Destroy(waits[i].0) in StartRequests(waits, games, asteroids)
    ensures forall r | r in StartRequests(waits, games, asteroids) ::
              r.Destroy? && (r.entity in asteroids || exists i :: 0 <= i < |waits| && waits[i].1 && waits[i].0 == r.entity)
  {
    OnlyClearsBefore(waits, |waits|, games, asteroids);
    if games > 0 {
      WaitsClearedBefore(waits, |waits|, games, asteroids);
      AsteroidsClearedBefore(waits, |waits|, games, asteroids);
    }
  }

  datatype Waiting = Waiting(entity: EntityId, wait: WaitForStart)

  function Flags(waits: seq<Waiting>): (vs: seq<(EntityId, bool)>)
    reads set w | w in waits :: w.wait
    ensures |vs| == |waits|
    ensures forall i | 0 <= i < |waits| :: vs[i] == (waits[i].entity, waits[i].wait.startGame)
  {
    if waits == [] then [] else [(waits[0].entity, waits[0].wait.startGame)] + Flags(waits[1..])
  }

  /** `for (asteroidEntity, _) in asteroids { destroy(asteroidEntity) }`. */
  method DestroyEach(asteroids: seq<EntityId>) returns (requests: seq<Request>)
    ensures requests == DestroyAll(asteroids)
  {
    requests := [];
    for a := 0 to |asteroids|
      invariant requests == DestroyAll(asteroids[..a])
    {
      assert asteroids[..a + 1][..a] == asteroids[..a];
      requests := requests + [Destroy(asteroids[a])];
    }
    assert asteroids[..|asteroids|] == asteroids;
  }

  /** The game loop run for one clicked wait entity; `field` is the asteroid family on entry. */
  method StartGames(entity: EntityId, wait: WaitForStart, games: seq<GameState>, field: seq<EntityId>) returns (requests: seq<Request>)
    requires DistinctGames(games)
    modifies wait, set g | g in games
    ensures requests == PassRequests(entity, |games|, field)
    ensures forall i | 0 <= i < |games| :: games[i].Value() == StartOfGame
    ensures wait.startGame == (old(wait.startGame) && games == [])
  {
    var remaining := field;
    requests := [];
    for g := 0 to |games|
      invariant requests == PassRequests(entity, g, field)
      invariant remaining == if g == 0 then field else []
      invariant wait.startGame == (old(wait.startGame) && g == 0)
      invariant forall i | 0 <= i < g :: games[i].Value() == StartOfGame
    {
      var destroyed := DestroyEach(remaining);
      requests := requests + destroyed;
      remaining := [];
      games[g].SetForStart();
      wait.startGame := false;
      requests := requests + [Destroy(entity)];
      assert PassRequests(entity, g + 1, field) == PassRequests(entity, g, field) + (if g == 0 then DestroyAll(field) else []) + [Destroy(entity)];
    }
  }

  /** The loop body for one wait entity: the game loop runs only when it has been clicked. */
  method Visit(entity: EntityId, wait: WaitForStart, games: seq<GameState>, remaining: seq<EntityId>)
    returns (more: seq<Request>, left: seq<EntityId>)
    requires DistinctGames(games)
    modifies wait, set g | g in games
    ensures more == if old(wait.startGame) then PassRequests(entity, |games|, remaining) else []
    ensures left == if old(wait.startGame) && games != [] then [] else remaining
    ensures wait.startGame == (old(wait.startGame) && games == [])
    ensures forall i | 0 <= i < |games| ::
              games[i].Value() == if old(wait.startGame) then StartOfGame else old(games[i].Value())
  {
    more, left := [], remaining;
    if wait.startGame {
      more := StartGames(entity, wait, games, remaining);
      if games != [] {
        left := [];
      }
    }
  }

  /** WaitForStartSystem.update() over the wait, game and asteroid families. */
  method WaitForStartUpdate(waits: seq<Waiting>, games: seq<GameState>, asteroids: seq<EntityId>) returns (requests: seq<Request>)
    requires forall i, j | 0 <= i < j < |waits| :: waits[i].wait != waits[j].wait
    requires DistinctGames(games)
    modifies set w | w in waits :: w.wait
    modifies set g | g in games
    ensures requests == StartRequests(old(Flags(waits)), |games|, asteroids)
    ensures forall i | 0 <= i < |waits| :: waits[i].wait.startGame == (old(waits[i].wait.startGame) && games == [])
    ensures forall i | 0 <= i < |games| ::
              games[i].Value() == if AnyStart(old(Flags(waits))) then StartOfGame else old(games[i].Value())
  {
    ghost var flags := Flags(waits);
    var remaining := asteroids;
    requests := [];
    for w := 0 to |waits|
      invariant remaining == if StartedBefore(flags, w) && games != [] then [] else asteroids
      invariant requests == RequestsBefore(flags, w, |games|, asteroids)
      invariant forall i | 0 <= i < |waits| :: waits[i].wait.startGame == (flags[i].1 && (i >= w || games == []))
      invariant forall i | 0 <= i < |games| ::
                  games[i].Value() == if StartedBefore(flags, w) then StartOfGame else old(games[i].Value())
    {
      var wait := waits[w].wait;
      assert wait.startGame == flags[w].1;
      assert RequestsBefore(flags, w + 1, |games|, asteroids) == RequestsBefore(flags, w, |games|, asteroids) +
               if flags[w].1 then PassRequests(flags[w].0, |games|, remaining) else [];
      var more;
      more, remaining := Visit(waits[w].entity, wait, games, remaining);
      requests := requests + more;
    }
  }
}
