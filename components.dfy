// The game's components that systems update in place, and the read-only
// settings some of them carry.

module Components {
  import opened Vectors

  /** Audio.Sound; each case names the file it plays. */
  datatype Sound = ExplodeAsteroid | ExplodeShip | ShootGun

  function FileName(s: Sound): string {
    match s
    case ExplodeAsteroid => "asteroid.wav"
    case ExplodeShip => "ship.wav"
    case ShootGun => "shoot.wav"
  }

  /** No two sounds share a file. */
  lemma FileNamesDistinct(a: Sound, b: Sound)
    ensures FileName(a) == FileName(b) ==> a == b
  {
  }

  /** An entity's queue of sounds waiting to be played. */
  class Audio {
    var toPlay: seq<Sound>

    constructor ()
      ensures toPlay == []
    {
      toPlay := [];
    }

    method Play(sound: Sound)
      modifies this
      ensures toPlay == old(toPlay) + [sound]
    {
      toPlay := toPlay + [sound];
    }
  }

  /** The values a GameState holds. */
  datatype Game = Game(lives: int, level: int, hits: int, playing: bool)

  /** What `setForStart` puts in place. */
  const StartOfGame: Game := Game(3, 0, 0, true)

  /** A game set for start is being played with lives to spare. */
  lemma StartIsPlayable()
    ensures StartOfGame.playing && StartOfGame.lives > 0
    ensures StartOfGame.level == 0 && StartOfGame.hits == 0
  {
  }

  class GameState {
    var lives: int
    var level: int
    var hits: int
    var playing: bool

    constructor ()
      ensures Value() == Game(0, 0, 0, false)
    {
      lives, level, hits, playing := 0, 0, 0, false;
    }

    function Value(): Game
      reads this
    {
      Game(lives, level, hits, playing)
    }

    /** The same values whatever came before, so calling it again changes nothing. */
    method SetForStart()
      modifies this
      ensures Value() == StartOfGame
    {
      lives := 3;
      level := 0;
      hits := 0;
      playing := true;
    }
  }

  predicate DistinctGames(games: seq<GameState>) {
    forall i, j | 0 <= i < j < |games| :: games[i] != games[j]
  }

  function GameValues(games: seq<GameState>): (vs: seq<Game>)
    reads set g | g in games
    ensures |vs| == |games|
    ensures forall i | 0 <= i < |games| :: vs[i] == games[i].Value()
  {
    if games == [] then [] else [games[0].Value()] + GameValues(games[1..])
  }

  /** `for game in games { game.hits += 1 }`. */
  method CountHit(games: seq<GameState>)
    requires DistinctGames(games)
    modifies set g | g in games
    ensures forall i | 0 <= i < |games| :: games[i].Value() == old(games[i].Value()).(hits := old(games[i].hits) + 1)
  {
    for k := 0 to |games|
      invariant forall i | 0 <= i < k :: games[i].Value() == old(games[i].Value()).(hits := old(games[i].hits) + 1)
      invariant forall i | k <= i < |games| :: games[i].Value() == old(games[i].Value())
    {
      games[k].hits := games[k].hits + 1;
    }
  }

  /** `for game in games { game.lives -= 1 }`. */
  method LoseLife(games: seq<GameState>)
    requires DistinctGames(games)
    modifies set g | g in games
    ensures forall i | 0 <= i < |games| :: games[i].Value() == old(games[i].Value()).(lives := old(games[i].lives) - 1)
  {
    for k := 0 to |games|
      invariant forall i | 0 <= i < k :: games[i].Value() == old(games[i].Value()).(lives := old(games[i].lives) - 1)
      invariant forall i | k <= i < |games| :: games[i].Value() == old(games[i].Value())
    {
      games[k].lives := games[k].lives - 1;
    }
  }

  /** The wait-for-start screen's flag, raised by the screen's click closure. */
  class WaitForStart {
    var startGame: bool

    constructor ()
      ensures !startGame
    {
      startGame := false;
    }

    /** The closure the screen calls when clicked. */
    method Click()
      modifies this
      ensures startGame
    {
      startGame := true;
    }
  }

  class Position {
    var position: Vector
    var rotation: real

    constructor (x: real, y: real, rotation: real)
      ensures position == Vector(x, y) && this.rotation == rotation
    {
      position := Vector(x, y);
      this.rotation := rotation;
    }
  }

  class Motion {
    var velocity: Vector
    var angularVelocity: real
    var damping: real

    constructor (velocityX: real, velocityY: real, angularVelocity: real, damping: real)
      ensures velocity == Vector(velocityX, velocityY)
      ensures this.angularVelocity == angularVelocity && this.damping == damping
    {
      velocity := Vector(velocityX, velocityY);
      this.angularVelocity := angularVelocity;
      this.damping := damping;
    }
  }

  class Gun {
    var shooting: bool
    var offsetFromParent: Vector
    var timeSinceLastShot: real
    var minimumShotInterval: real
    var bulletLifetime: real

    constructor (offsetX: real, offsetY: real, minimumShotInterval: real, bulletLifetime: real)
      ensures !shooting && offsetFromParent == Vector(offsetX, offsetY) && timeSinceLastShot == 0.0
      ensures this.minimumShotInterval == minimumShotInterval && this.bulletLifetime == bulletLifetime
    {
      shooting := false;
      offsetFromParent := Vector(offsetX, offsetY);
      timeSinceLastShot := 0.0;
      this.minimumShotInterval := minimumShotInterval;
      this.bulletLifetime := bulletLifetime;
    }
  }

  class Bullet {
    var lifeRemaining: real

    constructor (lifetime: real)
      ensures lifeRemaining == lifetime
    {
      lifeRemaining := lifetime;
    }
  }

  class DeathThroes {
    var countdown: real

    constructor (duration: real)
      ensures countdown == duration
    {
      countdown := duration;
    }
  }

  /** The key bindings and rates of a steerable entity; no system changes them. */
  datatype MotionControls = MotionControls(
    left: set<int>, right: set<int>, accelerate: set<int>,
    accelerationRate: real, rotationRate: real)
}
