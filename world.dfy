/** The game's package-level state as one object, and its systems as
    methods that update it in place. Each method is proved to have exactly
    the effect that module Simulation describes. */
module Game {
  import opened Numeric
  import opened Components
  import opened Gamepad
  import opened Kinematics
  import opened ObstaclePool
  import opened Collision
  import opened Simulation

  /** The three parallel obstacle arrays seen slot by slot. */
  function Zip(ps: seq<Position>, ds: seq<Drawable>, zs: seq<Depth>): seq<Slot>
    requires |ps| == |ds| == |zs|
  {
    seq(|ps|, i requires 0 <= i < |ps| => Slot(ps[i], ds[i], zs[i]))
  }

  /** obstacleSystem split at the end of the spawn attempt: the slots and
      timer it leaves, then the sweep over them. */
  lemma ObstacleStepBy(w: WorldState, spawned: seq<Slot>, timer: int)
    requires PoolWellFormed(w.slots)
    requires spawned == if w.spawnTimer + 1 >= ObstacleSpawnRate then Spawn(w.slots) else w.slots
    requires timer == if w.spawnTimer + 1 >= ObstacleSpawnRate then 0 else w.spawnTimer + 1
    ensures PoolWellFormed(spawned)
    ensures ObstacleStep(w) == w.(slots := AdvanceAll(spawned), spawnTimer := if AnyRetiring(spawned) then 0 else timer)
  {}

  class World {
    // The player entity's components.
    var playerSpeed: int
    var squarePosition: Position
    var squareDrawable: Drawable
    var squarePhysics: Physics

    // The obstacle pool: ten slots spread over three arrays.
    const obstaclePositions: array<Position>
    const obstacleDrawables: array<Drawable>
    const obstacleDepths: array<Depth>

    var obstacleSpawnTimer: int
    var score: int
    var scoreTimer: int
    var gameState: GameState
    var menuOption: int
    var previousInput: bv8

    ghost predicate Valid()
      reads obstacleDepths
    {
      && obstaclePositions.Length == PoolSize
      && obstacleDrawables.Length == PoolSize
      && obstacleDepths.Length == PoolSize
      && forall i :: 0 <= i < PoolSize ==> WellFormed(obstacleDepths[i])
    }

    ghost function Slots(): (s: seq<Slot>)
      reads obstaclePositions, obstacleDrawables, obstacleDepths
      requires Valid()
      ensures |s| == PoolSize && PoolWellFormed(s)
    {
      Zip(obstaclePositions[..], obstacleDrawables[..], obstacleDepths[..])
    }

    ghost function PlayerModel(): Player
      reads this
    {
      Player(playerSpeed, squarePosition, squareDrawable, squarePhysics)
    }

    ghost function Model(): WorldState
      reads this, obstaclePositions, obstacleDrawables, obstacleDepths
      requires Valid()
    {
      WorldState(PlayerModel(), Slots(), obstacleSpawnTimer, score, scoreTimer, gameState, menuOption, previousInput)
    }

    /** start: the player standing centred on the ground, every slot
        inactive, the score zeroed and the main menu showing. */
    constructor Start()
      ensures Valid() && Model() == Initial()
    {
      obstaclePositions := new Position[PoolSize](_ => Position(0, 0));
      obstacleDrawables := new Drawable[PoolSize](_ => Drawable(0, 0));
      obstacleDepths := new Depth[PoolSize](_ => EmptySlot.depth);
      playerSpeed := PlayerSpeed;
      squarePosition := Position(ScreenSize / 2 - SquareSize / 2, GroundLevel);
      squareDrawable := Drawable(SquareSize, SquareColor);
      squarePhysics := Physics(0.0, 0.0, true, Gravity, JumpPower, Friction);
      obstacleSpawnTimer := 0;
      new;
      label Built:
      for i := 0 to PoolSize
        invariant unchanged@Built(this)
        invariant forall j :: 0 <= j < PoolSize ==> obstacleDepths[j] == EmptySlot.depth
        invariant forall j :: 0 <= j < PoolSize ==> obstaclePositions[j] == EmptySlot.pos
        invariant forall j :: 0 <= j < PoolSize ==> obstacleDrawables[j] == EmptySlot.drawable
      {
        obstacleDepths[i] := obstacleDepths[i].(active := false);
      }
      score := 0;
      scoreTimer := 0;
      gameState := Menu;
      menuOption := MenuStart;
      previousInput := 0;
      assert forall j :: 0 <= j < PoolSize ==> Slots()[j] == EmptySlot;
      assert Slots() == Initial().slots;
    }

    /** update: one frame. */
    method Update(pad: bv8)
      requires Valid()
      modifies this, obstaclePositions, obstacleDrawables, obstacleDepths
      ensures Valid() && Model() == Step(old(Model()), pad)
    {
      match gameState {
        case Menu =>
          MenuSystem(pad);
        case Playing =>
          PlayFrame(pad);
        case Paused =>
          MenuSystem(pad);
      }
      previousInput := pad;
    }

    /** update's Playing case: the pause check, then every system in order. */
    method PlayFrame(pad: bv8)
      requires Valid()
      modifies this`squarePosition, this`squarePhysics, this`obstacleSpawnTimer, this`score, this`scoreTimer
      modifies this`gameState, this`menuOption, obstaclePositions, obstacleDrawables, obstacleDepths
      ensures Valid() && Model() == PlayStep(old(Model()), pad)
    {
      if Edge(pad, previousInput, ButtonTwo) {
        gameState := Paused;
        menuOption := MenuResume;
      }
      ghost var w0 := Model();
      assert w0 == if Edge(pad, old(previousInput), ButtonTwo) then old(Model()).(state := Paused, menuOption := MenuResume) else old(Model());
      InputSystem(pad);
      PhysicsSystem();
      MovementSystem();
      assert Model() == w0.(player := MovementStep(PhysicsStep(InputStep(w0.player, pad))));
      CollisionSystem();
      ObstacleSystem();
      ScoreSystem();
    }

    /** inputSystem. */
    method InputSystem(pad: bv8)
      modifies this`squarePhysics
      ensures PlayerModel() == InputStep(old(PlayerModel()), pad)
    {
      if pad & ButtonLeft != 0 {
        squarePhysics := squarePhysics.(velocityX := -(playerSpeed as real));
      } else if pad & ButtonRight != 0 {
        squarePhysics := squarePhysics.(velocityX := playerSpeed as real);
      } else {
        squarePhysics := squarePhysics.(velocityX := squarePhysics.velocityX * squarePhysics.friction);
      }
      if pad & ButtonUp != 0 && squarePhysics.onGround {
        squarePhysics := squarePhysics.(velocityY := -squarePhysics.jumpPower);
        squarePhysics := squarePhysics.(onGround := false);
      }
    }

    /** physicsSystem. */
    method PhysicsSystem()
      modifies this`squarePhysics
      ensures PlayerModel() == PhysicsStep(old(PlayerModel()))
    {
      if !squarePhysics.onGround {
        squarePhysics := squarePhysics.(velocityY := squarePhysics.velocityY + squarePhysics.gravity);
        if squarePhysics.velocityY > MaxVelocityY {
          squarePhysics := squarePhysics.(velocityY := MaxVelocityY);
        }
      }
    }

    /** movementSystem. */
    method MovementSystem()
      modifies this`squarePosition, this`squarePhysics
      ensures PlayerModel() == MovementStep(old(PlayerModel()))
    {
      squarePosition := squarePosition.(x := squarePosition.x + Trunc(squarePhysics.velocityX));
      if squarePosition.x < 0 {
        squarePosition := squarePosition.(x := 1);
        squarePhysics := squarePhysics.(velocityX := 0.0);
      } else if squarePosition.x > ScreenSize - squareDrawable.size {
        squarePosition := squarePosition.(x := ScreenSize - squareDrawable.size - 1);
        squarePhysics := squarePhysics.(velocityX := 0.0);
      }
      squarePosition := squarePosition.(y := squarePosition.y + Trunc(squarePhysics.velocityY));
      if squarePosition.y >= GroundLevel {
        squarePosition := squarePosition.(y := GroundLevel);
        squarePhysics := squarePhysics.(velocityY := 0.0);
        squarePhysics := squarePhysics.(onGround := true);
      }
    }

    /** obstacleSystem. */
    method ObstacleSystem()
      requires Valid()
      modifies this`obstacleSpawnTimer, obstaclePositions, obstacleDrawables, obstacleDepths
      ensures Valid() && Model() == ObstacleStep(old(Model()))
    {
      ghost var w := Model();
      obstacleSpawnTimer := obstacleSpawnTimer + 1;
      if obstacleSpawnTimer >= ObstacleSpawnRate {
        SpawnObstacle();
        obstacleSpawnTimer := 0;
      }
      ObstacleStepBy(w, Slots(), obstacleSpawnTimer);
      AdvanceObstacles();
    }

    /** obstacleSystem's sweep: every active slot is advanced, in index order. */
    method AdvanceObstacles()
      requires Valid()
      modifies this`obstacleSpawnTimer, obstaclePositions, obstacleDrawables, obstacleDepths
      ensures Valid() && Slots() == AdvanceAll(old(Slots()))
      ensures obstacleSpawnTimer == if AnyRetiring(old(Slots())) then 0 else old(obstacleSpawnTimer)
    {
      ghost var spawned := Slots();
      for i := 0 to PoolSize
        invariant Valid()
        invariant Slots() == AdvanceAll(spawned[..i]) + spawned[i..]
        invariant obstacleSpawnTimer == if AnyRetiring(spawned[..i]) then 0 else old(obstacleSpawnTimer)
      {
        ghost var current := Slots();
        assert current[i] == spawned[i];
        SweepExtends(spawned, i);
        AnyRetiringExtends(spawned, i);
        AdvanceOne(i);
      }
      assert spawned[..PoolSize] == spawned;
    }

    /** One iteration of obstacleSystem's sweep: slot i moves only if active. */
    method AdvanceOne(i: int)
      requires Valid() && 0 <= i < PoolSize
      modifies this`obstacleSpawnTimer, obstaclePositions, obstacleDrawables, obstacleDepths
      ensures Valid()
      ensures Slots() == old(Slots())[i := if old(Slots())[i].depth.active then AdvanceSlot(old(Slots())[i]) else old(Slots())[i]]
      ensures obstacleSpawnTimer == if Retiring(old(Slots())[i]) then 0 else old(obstacleSpawnTimer)
    {
      if obstacleDepths[i].active {
        UpdateObstacle(i);
      } else {
        assert Slots() == old(Slots())[i := old(Slots())[i]];
      }
    }

    /** spawnObstacle: the first inactive slot, scanning upward, gets the
        spawn values. */
    method SpawnObstacle()
      requires Valid()
      modifies obstaclePositions, obstacleDrawables, obstacleDepths
      ensures Valid() && Slots() == Spawn(old(Slots()))
    {
      var i := 0;
      while i < PoolSize
        invariant 0 <= i <= PoolSize
        invariant Valid() && Slots() == old(Slots())
        invariant AllActive(Slots()[..i])
      {
        if !obstacleDepths[i].active {
          ghost var before := Slots();
          var position := obstaclePositions[i];
          var drawable := obstacleDrawables[i];
          var depth := obstacleDepths[i];
          position := position.(x := SpawnX);
          position := position.(y := SpawnY);
          drawable := drawable.(size := ObstacleBaseSize);
          drawable := drawable.(color := SpawnColor);
          depth := depth.(z := 0.0);
          depth := depth.(speed := ObstacleSpeed);
          depth := depth.(baseSize := ObstacleBaseSize);
          depth := depth.(maxSize := SpawnMaxSize);
          depth := depth.(active := true);
          Store(i, Slot(position, drawable, depth));
          forall j | 0 <= j < PoolSize && j != i
            ensures Spawn(before)[j] == before[j]
          {
            if i < j {
              assert before[..j][i] == before[i];
            }
          }
          assert Slots() == Spawn(before);
          break;
        }
        assert Slots()[..i + 1] == Slots()[..i] + [Slots()[i]];
        i := i + 1;
      }
      assert i == PoolSize ==> Slots()[..i] == Slots();
    }

    /** updateObstacle(index). The slot's three components are read into
        locals, updated field by field as the source does, and written back. */
    method UpdateObstacle(index: int)
      requires Valid() && 0 <= index < PoolSize
      modifies this`obstacleSpawnTimer, obstaclePositions, obstacleDrawables, obstacleDepths
      ensures Valid()
      ensures Slots() == old(Slots())[index := AdvanceSlot(old(Slots())[index])]
      ensures obstacleSpawnTimer == if AtBoundary(old(Slots())[index]) then 0 else old(obstacleSpawnTimer)
    {
      ghost var s := Slots()[index];
      var position := obstaclePositions[index];
      var drawable := obstacleDrawables[index];
      var depth := obstacleDepths[index];
      depth := depth.(z := depth.z + depth.speed);

      if position.y + drawable.size == ScreenSize {
        depth := Depth(0.0, 0.0, 0, 0, false);
        position := Position(0, 0);
        drawable := Drawable(0, 0);
        depth := depth.(active := false);
        Store(index, Slot(position, drawable, depth));
        obstacleSpawnTimer := 0;
        return;
      }

      var currentSize := GrownSize(depth.baseSize, depth.maxSize, depth.z);
      drawable := drawable.(size := currentSize);

      var sizeOffset := currentSize / 2;
      position := position.(x := SpawnX - sizeOffset);
      position := position.(y := SpawnY + Descent(depth.z));

      if position.x < 0 {
        position := position.(x := 0);
      }
      if position.x + currentSize > ScreenSize {
        position := position.(x := ScreenSize - currentSize);
      }
      if position.y + currentSize > ScreenSize {
        position := position.(y := ScreenSize - currentSize);
      }
      assert Slot(position, drawable, depth) == AdvanceSlot(s);
      Store(index, Slot(position, drawable, depth));
    }

    /** Writes one slot back into the three parallel arrays. */
    method Store(i: int, s: Slot)
      requires Valid() && 0 <= i < PoolSize && WellFormed(s.depth)
      modifies obstaclePositions, obstacleDrawables, obstacleDepths
      ensures Valid() && Slots() == old(Slots())[i := s]
    {
      obstaclePositions[i] := s.pos;
      obstacleDrawables[i] := s.drawable;
      obstacleDepths[i] := s.depth;
      assert forall j :: 0 <= j < PoolSize ==> Slots()[j] == old(Slots())[i := s][j];
    }

    /** collisionSystem: scan the slots from the highest index down; the
        first active one that hits the player resets the game. */
    method CollisionSystem()
      requires Valid()
      modifies this`squarePosition, this`squarePhysics, this`obstacleSpawnTimer, this`score, this`scoreTimer
      modifies obstacleDepths
      ensures Valid() && Model() == CollisionStep(old(Model()))
    {
      var i := PoolSize - 1;
      while i >= 0
        invariant -1 <= i < PoolSize
        invariant Valid() && Model() == old(Model())
        invariant forall j :: i < j < PoolSize ==> !(Slots()[j].depth.active && Hits(PlayerModel(), Slots()[j]))
      {
        if obstacleDepths[i].active {
          var playerLeft := squarePosition.x;
          var playerRight := squarePosition.x + squareDrawable.size;
          var playerTop := squarePosition.y;
          var playerBottom := squarePosition.y + squareDrawable.size;

          var obstacleLeft := obstaclePositions[i].x;
          var obstacleRight := obstaclePositions[i].x + obstacleDrawables[i].size;
          var obstacleTop := obstaclePositions[i].y;
          var obstacleBottom := obstaclePositions[i].y + obstacleDrawables[i].size;

          if playerRight >= obstacleLeft && playerLeft <= obstacleRight &&
             playerBottom >= obstacleTop && playerTop <= obstacleBottom && obstacleBottom >= ForegroundBand
          {
            assert Slots()[i].depth.active && Hits(PlayerModel(), Slots()[i]);
            ResetGame();
            return;
          }
        }
        i := i - 1;
      }
    }

    /** resetGame. */
    method ResetGame()
      requires Valid()
      modifies this`squarePosition, this`squarePhysics, this`obstacleSpawnTimer, this`score, this`scoreTimer
      modifies obstacleDepths
      ensures Valid() && Model() == ResetState(old(Model()))
    {
      squarePosition := squarePosition.(x := ScreenSize / 2 - SquareSize / 2);
      squarePosition := squarePosition.(y := GroundLevel);

      squarePhysics := squarePhysics.(velocityX := 0.0);
      squarePhysics := squarePhysics.(velocityY := 0.0);
      squarePhysics := squarePhysics.(onGround := true);

      label Moved:
      for i := 0 to PoolSize
        invariant unchanged@Moved(this)
        invariant forall j :: 0 <= j < i ==> obstacleDepths[j] == old(obstacleDepths[j]).(active := false)
        invariant forall j :: i <= j < PoolSize ==> obstacleDepths[j] == old(obstacleDepths[j])
      {
        obstacleDepths[i] := obstacleDepths[i].(active := false);
      }

      obstacleSpawnTimer := 0;
      score := 0;
      scoreTimer := 0;
      assert Valid();
      assert PlayerModel() == ResetState(old(Model())).player;
      assert forall j :: 0 <= j < PoolSize ==> Slots()[j] == ResetState(old(Model())).slots[j];
      assert Slots() == ResetState(old(Model())).slots;
    }

    /** scoreSystem. */
    method ScoreSystem()
      requires Valid()
      modifies this`score, this`scoreTimer
      ensures Valid() && Model() == ScoreStep(old(Model()))
    {
      scoreTimer := scoreTimer + 1;
      if scoreTimer >= ScoreIncrementRate {
        score := score + 1;
        scoreTimer := 0;
      }
    }

    /** menuSystem: cursor navigation, then the selection. */
    method MenuSystem(pad: bv8)
      requires Valid()
      modifies this`squarePosition, this`squarePhysics, this`obstacleSpawnTimer, this`score, this`scoreTimer
      modifies this`gameState, this`menuOption, obstacleDepths
      ensures Valid() && Model() == MenuStep(old(Model()), pad)
    {
      ghost var w := Model();
      if Edge(pad, previousInput, ButtonDown) {
        if gameState == Menu {
          menuOption := MenuStart;
        } else if gameState == Paused {
          menuOption := menuOption + 1;
          if menuOption > MenuRestart {
            menuOption := MenuResume;
          }
        }
      } else if Edge(pad, previousInput, ButtonUp) {
        if gameState == Paused {
          menuOption := menuOption - 1;
          if menuOption < MenuResume {
            menuOption := MenuRestart;
          }
        }
      }
      assert menuOption == Navigate(w, pad);
      ghost var navigated := Model();
      assert navigated == w.(menuOption := Navigate(w, pad));

      if Edge(pad, previousInput, ButtonOne) {
        if menuOption == MenuStart {
          gameState := Playing;
          score := 0;
          scoreTimer := 0;
          assert Slots() == navigated.slots;
          assert Model() == navigated.(state := Playing, score := 0, scoreTimer := 0);
        } else if menuOption == MenuResume {
          gameState := Playing;
          assert Model() == navigated.(state := Playing);
        } else if menuOption == MenuRestart {
          ResetGame();
          ghost var reset := Model();
          assert reset == ResetState(navigated);
          gameState := Playing;
          score := 0;
          scoreTimer := 0;
          assert Model() == reset.(state := Playing, score := 0, scoreTimer := 0);
        } else {
          assert Model() == navigated;
        }
      } else {
        assert Model() == navigated;
      }
    }
  }
}
