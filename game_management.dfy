// GameManagementSystem: for every game being played, a lost spaceship is
// replaced once the screen centre is clear of asteroids, the game ends when no
// lives are left, and a cleared field starts the next level with more
// asteroids placed away from the spaceship. A spaceship created here joins the
// spaceship family at once, and asteroids created here join the asteroid family
// at once, which later games of the same update see.

module GameManagement {
  import opened Vectors
  import opened Ecs
  import opened Components

  /** An asteroid as this system sees it. */
  datatype Rock = Rock(position: Vector, radius: real)

  /** Radius of the asteroids a new level starts with. */
  const LevelAsteroidRadius: real := 30.0

  /** Where a new spaceship appears: the centre of a `width` by `height` screen. */
  function Centre(width: real, height: real): Vector {
    Vector(width * 0.5, height * 0.5)
  }

  /** An asteroid too close to `at` for a spaceship to appear there: within its radius plus 50. */
  predicate Blocks(r: Rock, at: Vector) {
    DistanceSq(r.position, at) <= (r.radius + 50.0) * (r.radius + 50.0)
  }

  predicate ClearOfAsteroids(rocks: seq<Rock>, at: Vector) {
    forall i | 0 <= i < |rocks| :: !Blocks(rocks[i], at)
  }

  predicate OnScreen(p: Vector, width: real, height: real) {
    0.0 <= p.x <= width && 0.0 <= p.y <= height
  }

  /** A place a new level's asteroid may take: on screen and more than 80 from the spaceship. */
  predicate SafeFrom(p: Vector, ship: Vector, width: real, height: real) {
    OnScreen(p, width, height) && DistanceSq(p, ship) > 80.0 * 80.0
  }

  /** What one game's pass asks the entity creator for. */
  datatype Planned = PlanSpaceship | PlanWaitForClick | PlanAsteroid(avoid: Vector)

  /** The level-ups for the spaceships in family order: each adds one level and plans 2 + the new
      level asteroids away from that spaceship. */
  function LevelUps(level: int, ships: seq<Vector>): (r: (int, seq<Planned>))
    requires level >= 0
    ensures r.0 == level + |ships|
    ensures forall p | p in r.1 :: p.PlanAsteroid? && p.avoid in ships
  {
    if ships == [] then (level, [])
    else
      var n := |ships| - 1;
      var (l, planned) := LevelUps(level, ships[..n]);
      var l' := l + 1;
      (l', planned + seq(2 + l', _ => PlanAsteroid(ships[n])))
  }

  /** Over n level-ups from `level` the asteroids planned number n · (2 + level) + n · (n + 1) / 2,
      written here doubled. */
  lemma {:induction false} LevelUpCount(level: int, ships: seq<Vector>)
    requires level >= 0
    ensures 2 * |LevelUps(level, ships).1| == |ships| * (5 + 2 * level + |ships|)
  {
    if ships != [] {
      var n := |ships| - 1;
      LevelUpCount(level, ships[..n]);
      var m := |LevelUps(level, ships[..n]).1|;
      assert |LevelUps(level, ships).1| == m + 2 + level + n + 1;
      assert 2 * m == n * (5 + 2 * level + n);
      assert (n + 1) * (5 + 2 * level + n + 1) == n * (5 + 2 * level + n) + 2 * (3 + level + n);
    }
  }

  /** The families one update reads: spaceship positions, the asteroids present when the update
      began, how many asteroids it has created since, and whether there are no bullets. */
  datatype Field = Field(ships: seq<Vector>, rocks: seq<Rock>, spawned: nat, noBullets: bool)

  /** Asteroids created by this update only ever come with a spaceship present. */
  predicate Coherent(f: Field) {
    f.spawned > 0 ==> f.ships != []
  }

  /** One game's pass: the game after it, the families after it, and what it asked for. */
  function GamePass(g: Game, f: Field, centre: Vector): (r: (Game, Field, seq<Planned>))
    requires g.level >= 0
    ensures r.0.lives == g.lives && r.0.hits == g.hits && r.0.level >= g.level
    ensures r.1.rocks == f.rocks && r.1.noBullets == f.noBullets
    ensures f.ships <= r.1.ships && r.1.spawned >= f.spawned
    ensures Coherent(f) ==> Coherent(r.1)
    ensures !g.playing ==> r == (g, f, [])
  {
    if !g.playing then (g, f, [])
    else
      var (g1, f1, first) :=
        if f.ships == [] then
          if g.lives > 0 then
            if ClearOfAsteroids(f.rocks, centre) then (g, f.(ships := [centre]), [PlanSpaceship]) else (g, f, [])
          else (g.(playing := false), f, [PlanWaitForClick])
        else (g, f, []);
      if |f1.rocks| + f1.spawned == 0 && f1.noBullets && f1.ships != [] then
        var (level, planned) := LevelUps(g1.level, f1.ships);
        (g1.(level := level), f1.(spawned := f1.spawned + |planned|), first + planned)
      else (g1, f1, first)
  }

  /** What one game's pass asks for, and when. */
  lemma GamePassPlans(g: Game, f: Field, centre: Vector)
    requires g.level >= 0
    // a spaceship is asked for exactly when the game is on, none is left, lives remain and the centre is clear
    ensures var r := GamePass(g, f, centre); PlanSpaceship in r.2 <==> g.playing && f.ships == [] && g.lives > 0 && ClearOfAsteroids(f.rocks, centre)
    // the game ends exactly when it is on, no spaceship is left and no lives remain
    ensures var r := GamePass(g, f, centre); r.0.playing != g.playing <==> g.playing && f.ships == [] && g.lives <= 0
    ensures var r := GamePass(g, f, centre); g.playing && f.ships == [] && g.lives <= 0 ==> r.2 == [PlanWaitForClick] && r.0 == g.(playing := false)
    // a new level exactly when the game is on and, after the respawn step, the field has a spaceship and no asteroids or bullets
    ensures var r := GamePass(g, f, centre); r.0.level != g.level ==> |f.rocks| + f.spawned == 0 && f.noBullets && r.1.ships != []
    ensures var r := GamePass(g, f, centre);
            g.playing && |f.rocks| + f.spawned == 0 && f.noBullets && r.1.ships != [] ==> r.0.level > g.level
    ensures var r := GamePass(g, f, centre); forall p | p in r.2 && p.PlanAsteroid? :: |f.rocks| + f.spawned == 0 && f.noBullets && p.avoid in r.1.ships
  {
  }

  predicate LevelsNatural(games: seq<Game>) {
    forall i | 0 <= i < |games| :: games[i].level >= 0
  }

  /** The passes of the first `n` games in family order, each seeing the families the passes
      before it left. */
  function ManageBefore(games: seq<Game>, n: nat, f: Field, centre: Vector): (r: (seq<Game>, Field, seq<Planned>))
    requires n <= |games| && LevelsNatural(games)
    ensures |r.0| == n
    ensures forall i | 0 <= i < n :: r.0[i].lives == games[i].lives && r.0[i].hits == games[i].hits
    ensures forall i | 0 <= i < n && !games[i].playing :: r.0[i] == games[i]
    ensures r.1.rocks == f.rocks && r.1.noBullets == f.noBullets
    ensures Coherent(f) ==> Coherent(r.1)
  {
    if n == 0 then ([], f, [])
    else
      var (done, f1, planned) := ManageBefore(games, n - 1, f, centre);
      var (g, f2, more) := GamePass(games[n - 1], f1, centre);
      (done + [g], f2, planned + more)
  }

  /** Every game's pass in family order. */
  function Manage(games: seq<Game>, f: Field, centre: Vector): (r: (seq<Game>, Field, seq<Planned>))
    requires LevelsNatural(games)
    ensures |r.0| == |games|
    ensures forall i | 0 <= i < |games| :: r.0[i].lives == games[i].lives && r.0[i].hits == games[i].hits
    ensures forall i | 0 <= i < |games| && !games[i].playing :: r.0[i] == games[i]
    ensures r.1.rocks == f.rocks && r.1.noBullets == f.noBullets
    ensures Coherent(f) ==> Coherent(r.1)
  {
    ManageBefore(games, |games|, f, centre)
  }

  /** A request log does what a plan asks, with each new level asteroid of radius 30 placed safely. */
  predicate Fulfils(requests: seq<Request>, planned: seq<Planned>, width: real, height: real) {
    |requests| == |planned| &&
    forall i | 0 <= i < |planned| ::
      match planned[i]
      case PlanSpaceship => requests[i] == CreateSpaceship
      case PlanWaitForClick => requests[i] == CreateWaitForClick
      case PlanAsteroid(ship) =>
        requests[i].CreateAsteroid? && requests[i].radius == LevelAsteroidRadius &&
        SafeFrom(requests[i].at, ship, width, height)
  }

  lemma FulfilsConcat(a: seq<Request>, b: seq<Request>, p: seq<Planned>, q: seq<Planned>, width: real, height: real)
    requires Fulfils(a, p, width, height) && Fulfils(b, q, width, height)
    ensures Fulfils(a + b, p + q, width, height)
  {
    forall i | 0 <= i < |p + q|
      ensures match (p + q)[i]
              case PlanSpaceship => (a + b)[i] == CreateSpaceship
              case PlanWaitForClick => (a + b)[i] == CreateWaitForClick
              case PlanAsteroid(ship) =>
                (a + b)[i].CreateAsteroid? && (a + b)[i].radius == LevelAsteroidRadius &&
                SafeFrom((a + b)[i].at, ship, width, height)
    {
      if i >= |p| {
        assert (p + q)[i] == q[i - |p|] && (a + b)[i] == b[i - |a|];
      } else {
        assert (p + q)[i] == p[i] && (a + b)[i] == a[i];
      }
    }
  }

  /** A screen wider than 160 always has a place more than 80 from any spaceship, so the source's
      redraw loop ends. */
  lemma SafePlaceExists(ship: Vector, width: real, height: real)
    requires width > 160.0 && height >= 0.0
    ensures exists p :: SafeFrom(p, ship, width, height)
  {
    var x := if ship.x <= width * 0.5 then width else 0.0;
    var p := Vector(x, 0.0);
    var dx := x - ship.x;
    assert dx * dx > 80.0 * 80.0 by {
      assert dx > 80.0 || dx < -80.0;
      if dx > 80.0 {
        assert dx * dx > 80.0 * dx;
      } else {
        assert dx * dx > -80.0 * dx;
      }
    }
    var dy := 0.0 - ship.y;
    assert dy * dy >= 0.0;
    assert DistanceSq(p, ship) == dx * dx + dy * dy;
    assert SafeFrom(p, ship, width, height);
  }

  /** The asteroid check of the spaceship branch, which stops at the first blocking asteroid. */
  method ClearToAddSpaceship(asteroids: seq<Rock>, at: Vector) returns (clear: bool)
    ensures clear <==> ClearOfAsteroids(asteroids, at)
  {
    clear := true;
    var i := 0;
    while i < |asteroids|
      invariant 0 <= i <= |asteroids|
      invariant ClearOfAsteroids(asteroids[..i], at)
    {
      if Blocks(asteroids[i], at) {
        clear := false;
        break;
      }
      i := i + 1;
    }
    assert clear ==> asteroids[..i] == asteroids;
  }

  /** One spaceship's share of a level-up: 2 + the new level asteroids placed safely from it. */
  method SpawnAround(ship: Vector, count: nat, width: real, height: real) returns (requests: seq<Request>)
    requires width > 160.0 && height >= 0.0
    ensures Fulfils(requests, seq(count, _ => PlanAsteroid(ship)), width, height)
  {
    requests := [];
    for k := 0 to count
      invariant Fulfils(requests, seq(k, _ => PlanAsteroid(ship)), width, height)
    {
      SafePlaceExists(ship, width, height);
      var position :| SafeFrom(position, ship, width, height);
      requests := requests + [CreateAsteroid(LevelAsteroidRadius, position)];
    }
  }

  /** `for (_, spaceshipPosition) in spaceships { … }` of the next-level branch. */
  method LevelUp(game: GameState, ships: seq<Vector>, width: real, height: real) returns (requests: seq<Request>)
    requires game.level >= 0
    requires width > 160.0 && height >= 0.0
    modifies game`level
    ensures game.level == LevelUps(old(game.level), ships).0
    ensures Fulfils(requests, LevelUps(old(game.level), ships).1, width, height)
  {
    requests := [];
    for s := 0 to |ships|
      invariant game.level == LevelUps(old(game.level), ships[..s]).0
      invariant Fulfils(requests, LevelUps(old(game.level), ships[..s]).1, width, height)
    {
      assert ships[..s + 1][..s] == ships[..s];
      game.level := game.level + 1;
      var count := 2 + game.level;
      var created := SpawnAround(ships[s], count, width, height);
      FulfilsConcat(requests, created, LevelUps(old(game.level), ships[..s]).1, seq(count, _ => PlanAsteroid(ships[s])), width, height);
      requests := requests + created;
    }
    assert ships[..|ships|] == ships;
  }

  /** The asteroids a request log adds to the asteroid family. */
  function NewRocks(requests: seq<Request>): (rocks: seq<Rock>)
    ensures |rocks| == |requests|
    ensures forall i | 0 <= i < |requests| && requests[i].CreateAsteroid? ::
              rocks[i] == Rock(requests[i].at, requests[i].radius)
  {
    if requests == [] then []
    else
      var r := requests[0];
      [if r.CreateAsteroid? then Rock(r.at, r.radius) else Rock(Zero, 0.0)] + NewRocks(requests[1..])
  }

  /** The asteroid family as the update has it: the asteroids present at the start and the ones it
      has created since. */
  predicate FamilyMatches(asteroids: seq<Rock>, f: Field) {
    |asteroids| == |f.rocks| + f.spawned && (f.spawned == 0 ==> asteroids == f.rocks)
  }

  /** The body of the games loop for one game. */
  method ManageGame(game: GameState, f: Field, asteroids: seq<Rock>, width: real, height: real)
    returns (f': Field, asteroids': seq<Rock>, requests: seq<Request>)
    requires game.level >= 0 && Coherent(f) && FamilyMatches(asteroids, f)
    requires width > 160.0 && height >= 0.0
    modifies game
    ensures var (g, field, planned) := GamePass(old(game.Value()), f, Centre(width, height));
            game.Value() == g && f' == field && FamilyMatches(asteroids', field) && Fulfils(requests, planned, width, height)
  {
    ghost var expected := GamePass(game.Value(), f, Centre(width, height));
    f', asteroids', requests := f, asteroids, [];
    if game.playing {
      if f'.ships == [] {
        if game.lives > 0 {
          var newSpaceshipPosition := Centre(width, height);
          var clear := ClearToAddSpaceship(asteroids', newSpaceshipPosition);
          if clear {
            requests := requests + [CreateSpaceship];
            f' := f'.(ships := [newSpaceshipPosition]);
          }
        } else {
          game.playing := false;
          requests := requests + [CreateWaitForClick];
        }
      }
      if asteroids' == [] && f'.noBullets && f'.ships != [] {
        var created := LevelUp(game, f'.ships, width, height);
        var planned := LevelUps(old(game.level), f'.ships).1;
        FulfilsConcat(requests, created, if requests == [] then [] else [PlanSpaceship], planned, width, height);
        requests := requests + created;
        f' := f'.(spawned := f'.spawned + |created|);
        asteroids' := asteroids' + NewRocks(created);
      }
    }
  }

  /** One turn of the games loop: the pass of game `k`, appended to what the passes before it did. */
  method ManageNext(game: GameState, f: Field, asteroids: seq<Rock>, requests: seq<Request>, width: real, height: real,
                    ghost before: seq<Game>, k: nat, ghost start: Field, ghost acc: (seq<Game>, Field, seq<Planned>))
    returns (f': Field, asteroids': seq<Rock>, requests': seq<Request>, ghost acc': (seq<Game>, Field, seq<Planned>))
    requires k < |before| && LevelsNatural(before) && game.Value() == before[k]
    requires acc == ManageBefore(before, k, start, Centre(width, height))
    requires f == acc.1 && Coherent(f) && FamilyMatches(asteroids, f)
    requires Fulfils(requests, acc.2, width, height)
    requires width > 160.0 && height >= 0.0
    modifies game
    ensures acc' == ManageBefore(before, k + 1, start, Centre(width, height))
    ensures f' == acc'.1 && Coherent(f') && FamilyMatches(asteroids', f')
    ensures Fulfils(requests', acc'.2, width, height)
    ensures acc'.0 == acc.0 + [game.Value()]
  {
    ghost var pass := GamePass(before[k], f, Centre(width, height));
    var more;
    f', asteroids', more := ManageGame(game, f, asteroids, width, height);
    FulfilsConcat(requests, more, acc.2, pass.2, width, height);
    requests' := requests + more;
    acc' := (acc.0 + [pass.0], pass.1, acc.2 + pass.2);
  }

  /** GameManagementSystem.update(time:) over the game, spaceship, asteroid and bullet families
      of a `width` by `height` screen. */
  method GameManagementUpdate(games: seq<GameState>, ships: seq<Vector>, rocks: seq<Rock>, noBullets: bool, width: real, height: real)
    returns (requests: seq<Request>)
    requires DistinctGames(games)
    requires forall i | 0 <= i < |games| :: games[i].level >= 0
    requires width > 160.0 && height >= 0.0
    modifies set g | g in games
    ensures var (after, _, planned) := Manage(old(GameValues(games)), Field(ships, rocks, 0, noBullets), Centre(width, height));
            GameValues(games) == after && Fulfils(requests, planned, width, height)
  {
    ghost var before := GameValues(games);
    var f := Field(ships, rocks, 0, noBullets);
    ghost var start := f;
    var asteroids := rocks;
    ghost var centre := Centre(width, height);
    ghost var acc: (seq<Game>, Field, seq<Planned>) := ([], f, []);
    requests := [];
    for k := 0 to |games|
      invariant acc == ManageBefore(before, k, start, centre)
      invariant f == acc.1 && Coherent(f) && FamilyMatches(asteroids, f)
      invariant Fulfils(requests, acc.2, width, height)
      invariant |acc.0| == k && forall i | 0 <= i < k :: games[i].Value() == acc.0[i]
      invariant forall i | k <= i < |games| :: games[i].Value() == before[i]
    {
      f, asteroids, requests, acc := ManageNext(games[k], f, asteroids, requests, width, height, before, k, start, acc);
      assert forall i | 0 <= i < |games| && i != k :: games[i] != games[k];
    }
  }
}
