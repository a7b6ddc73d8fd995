/** The component records of the game's entities and its tuning constants. */
module Components {

  // Screen and player
  const ScreenSize: int := 160
  const SquareSize: nat := 20
  const SquareColor: nat := 0x43
  const PlayerSpeed: int := 2
  const Gravity: real := 0.5
  const JumpPower: real := 8.0
  const Friction: real := 0.8
  const GroundLevel: int := 140
  const MaxVelocityY: real := 15.0
  /** Where the player starts and where a reset puts it. */
  const StartX: int := ScreenSize / 2 - SquareSize / 2

  // Obstacles
  const PoolSize: nat := 10
  const ObstacleBaseSize: nat := 2
  /** Declared next to the base size but never used: a spawn sets MaxSize to SpawnMaxSize. */
  const ObstacleMaxSize: nat := 20
  const SpawnMaxSize: nat := 30
  const ObstacleSpeed: real := 0.004
  const ObstacleSpawnRate: int := 120
  const SpawnX: int := 79
  const SpawnY: int := 61
  const SpawnColor: nat := 0x32
  /** How far an obstacle descends while Z goes from 0 to 1. */
  const DepthSpan: real := 40.0
  /** An obstacle can only hit the player once its bottom edge is this low. */
  const ForegroundBand: int := 158

  // Score
  const ScoreIncrementRate: int := 50

  // Menu cursor values
  const MenuStart: int := 0
  const MenuResume: int := 1
  const MenuRestart: int := 2

  datatype Position = Position(x: int, y: int)

  /** `Size` is an unsigned integer in the source, `Color` a palette selector. */
  datatype Drawable = Drawable(size: nat, color: nat)

  datatype Physics = Physics(
    velocityX: real,
    velocityY: real,
    onGround: bool,
    gravity: real,
    jumpPower: real,
    friction: real)

  /** The perspective state of one obstacle slot: Z is 0 at the vanishing
      point and grows by Speed every frame the slot is active. */
  datatype Depth = Depth(z: real, speed: real, baseSize: nat, maxSize: nat, active: bool)

  /** The player entity: its PlayerInput speed and its three components. */
  datatype Player = Player(speed: int, pos: Position, drawable: Drawable, physics: Physics)

  /** One index of the three parallel obstacle arrays, seen together. */
  datatype Slot = Slot(pos: Position, drawable: Drawable, depth: Depth)

  /** A retired slot: every field at its zero value. */
  const EmptySlot: Slot := Slot(Position(0, 0), Drawable(0, 0), Depth(0.0, 0.0, 0, 0, false))

  /** What a spawn writes into the slot it fills. */
  const SpawnedSlot: Slot :=
    Slot(Position(SpawnX, SpawnY), Drawable(ObstacleBaseSize, SpawnColor),
         Depth(0.0, ObstacleSpeed, ObstacleBaseSize, SpawnMaxSize, true))

  /** The unsigned size arithmetic of a slot cannot wrap and its depth never
      recedes; every slot the game can reach satisfies this. */
  predicate WellFormed(d: Depth) {
    d.baseSize <= d.maxSize && 0.0 <= d.z && 0.0 <= d.speed
  }

  predicate PoolWellFormed(slots: seq<Slot>) {
    forall i :: 0 <= i < |slots| ==> WellFormed(slots[i].depth)
  }
}
