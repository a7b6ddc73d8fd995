/** The whole game state and the effect of each system, and of one frame,
    on it. The World class in module Game performs exactly these steps in
    place. */
module Simulation {
  import opened Numeric
  import opened Components
  import opened Gamepad
  import opened Kinematics
  import opened ObstaclePool
  import opened Collision

  datatype GameState = Menu | Playing | Paused

  /** Everything the frame loop reads or writes: the player, the ten slots
      (positions, drawables and depths side by side), the counters, the
      state machine and the pad snapshot of the previous frame. */
  datatype WorldState = WorldState(
    player: Player,
    slots: seq<Slot>,
    spawnTimer: int,
    score: int,
    scoreTimer: int,
    state: GameState,
    menuOption: int,
    previousInput: bv8)

  /** The state `start` leaves behind. */
  function Initial(): (r: WorldState)
    ensures Inv(r) && NoneActive(r.slots)
    ensures r.state == Menu && r.player.pos == Position(StartX, GroundLevel) && r.player.physics.onGround
  {
    WorldState(
      Player(PlayerSpeed, Position(StartX, GroundLevel), Drawable(SquareSize, SquareColor),
             Physics(0.0, 0.0, true, Gravity, JumpPower, Friction)),
      seq(PoolSize, _ => EmptySlot),
      0, 0, 0, Menu, MenuStart, 0)
  }

  predicate NoneActive(slots: seq<Slot>) {
    forall i :: 0 <= i < |slots| ==> !slots[i].depth.active
  }

  /** resetGame: the player back at the start and at rest, every slot
      inactive (its other fields kept), the spawn timer and score zeroed;
      the state machine is left alone. */
  function ResetState(w: WorldState): (r: WorldState)
    ensures r.player == w.player.(pos := Position(StartX, GroundLevel),
                                  physics := w.player.physics.(velocityX := 0.0, velocityY := 0.0, onGround := true))
    ensures |r.slots| == |w.slots| && NoneActive(r.slots)
    ensures forall i :: 0 <= i < |w.slots| ==>
              r.slots[i].pos == w.slots[i].pos && r.slots[i].drawable == w.slots[i].drawable &&
              r.slots[i].depth == w.slots[i].depth.(active := false)
    ensures r.spawnTimer == 0 && r.score == 0 && r.scoreTimer == 0
    ensures r.state == w.state && r.menuOption == w.menuOption && r.previousInput == w.previousInput
  {
    var deactivated := seq(|w.slots|, i requires 0 <= i < |w.slots| =>
                             w.slots[i].(depth := w.slots[i].depth.(active := false)));
    w.(player := w.player.(pos := Position(StartX, GroundLevel),
                          physics := w.player.physics.(velocityX := 0.0, velocityY := 0.0, onGround := true)),
       slots := deactivated, spawnTimer := 0, score := 0, scoreTimer := 0)
  }

  /** Resetting twice is resetting once. */
  lemma ResetIdempotent(w: WorldState)
    ensures ResetState(ResetState(w)) == ResetState(w)
  {
    var once := ResetState(w);
    var twice := ResetState(once);
    assert twice.slots == once.slots;
  }

  predicate Collides(w: WorldState) {
    exists i :: 0 <= i < |w.slots| && w.slots[i].depth.active && Hits(w.player, w.slots[i])
  }

  /** collisionSystem: any active slot hitting the player resets the game
      (which slot is found first does not change the outcome). */
  function CollisionStep(w: WorldState): (r: WorldState)
    ensures r == w || r == ResetState(w)
    ensures Collides(w) ==> r == ResetState(w)
    ensures !Collides(w) ==> r == w
    ensures !Collides(r)
  {
    if Collides(w) then ResetState(w) else w
  }

  predicate AnyRetiring(slots: seq<Slot>) {
    exists i :: 0 <= i < |slots| && Retiring(slots[i])
  }

  lemma AnyRetiringExtends(slots: seq<Slot>, i: nat)
    requires i < |slots|
    ensures AnyRetiring(slots[..i + 1]) <==> AnyRetiring(slots[..i]) || Retiring(slots[i])
  {
    if AnyRetiring(slots[..i + 1]) && !Retiring(slots[i]) {
      var j :| 0 <= j < i + 1 && Retiring(slots[..i + 1][j]);
      assert slots[..i][j] == slots[j];
    }
    if Retiring(slots[i]) {
      assert slots[..i + 1][i] == slots[i];
    }
    if AnyRetiring(slots[..i]) {
      var j :| 0 <= j < i && Retiring(slots[..i][j]);
      assert slots[..i + 1][j] == slots[j];
    }
  }

  /** obstacleSystem: tick the spawn timer, make exactly one spawn attempt
      when it reaches the spawn rate, then advance every active slot; any
      retirement zeroes the timer. */
  function ObstacleStep(w: WorldState): (r: WorldState)
    requires PoolWellFormed(w.slots)
    ensures r == w.(slots := r.slots, spawnTimer := r.spawnTimer)
    ensures |r.slots| == |w.slots| && PoolWellFormed(r.slots)
    ensures 0 <= w.spawnTimer ==> 0 <= r.spawnTimer < ObstacleSpawnRate
    ensures w.spawnTimer + 1 >= ObstacleSpawnRate ==> r.slots == AdvanceAll(Spawn(w.slots)) && r.spawnTimer == 0
    ensures w.spawnTimer + 1 < ObstacleSpawnRate ==> r.slots == AdvanceAll(w.slots)
    ensures w.spawnTimer + 1 < ObstacleSpawnRate ==>
              r.spawnTimer == if AnyRetiring(w.slots) then 0 else w.spawnTimer + 1
  {
    var timer := w.spawnTimer + 1;
    var due := timer >= ObstacleSpawnRate;
    var spawned := if due then Spawn(w.slots) else w.slots;
    var timer' := if due then 0 else timer;
    w.(slots := AdvanceAll(spawned), spawnTimer := if AnyRetiring(spawned) then 0 else timer')
  }

  /** scoreSystem: one point per ScoreIncrementRate frames. */
  function ScoreStep(w: WorldState): (r: WorldState)
    ensures r == w.(score := r.score, scoreTimer := r.scoreTimer)
    ensures 0 <= w.scoreTimer < ScoreIncrementRate ==>
              0 <= r.scoreTimer < ScoreIncrementRate &&
              r.score * ScoreIncrementRate + r.scoreTimer == w.score * ScoreIncrementRate + w.scoreTimer + 1
  {
    var timer := w.scoreTimer + 1;
    if timer >= ScoreIncrementRate then w.(score := w.score + 1, scoreTimer := 0)
    else w.(scoreTimer := timer)
  }

  function ScoreFrames(w: WorldState, n: nat): WorldState {
    if n == 0 then w else ScoreStep(ScoreFrames(w, n - 1))
  }

  /** After n frames of play the score has grown by the number of completed
      ScoreIncrementRate-frame periods. */
  lemma {:induction false} ScoreAfterFrames(w: WorldState, n: nat)
    requires 0 <= w.scoreTimer < ScoreIncrementRate
    ensures ScoreFrames(w, n).score == w.score + (w.scoreTimer + n) / ScoreIncrementRate
    ensures ScoreFrames(w, n).scoreTimer == (w.scoreTimer + n) % ScoreIncrementRate
  {
    if n > 0 {
      ScoreAfterFrames(w, n - 1);
      var before := ScoreFrames(w, n - 1);
      var after := ScoreFrames(w, n);
      assert after.score * 50 + after.scoreTimer == w.score * 50 + w.scoreTimer + n;
      assert 0 <= after.scoreTimer < 50;
    }
  }

  /** menuSystem's navigation: Down and Up move between Resume and Restart
      while paused; Down on the main menu selects Start. */
  function Navigate(w: WorldState, pad: bv8): (cursor: int)
    ensures !Edge(pad, w.previousInput, ButtonDown) && !Edge(pad, w.previousInput, ButtonUp) ==>
              cursor == w.menuOption
    ensures w.state == Menu && Edge(pad, w.previousInput, ButtonDown) ==> cursor == MenuStart
    ensures w.state == Menu && !Edge(pad, w.previousInput, ButtonDown) ==> cursor == w.menuOption
    ensures w.state == Paused && MenuResume <= w.menuOption <= MenuRestart ==>
              MenuResume <= cursor <= MenuRestart
    ensures w.state == Paused && MenuResume <= w.menuOption <= MenuRestart &&
            (Edge(pad, w.previousInput, ButtonDown) || Edge(pad, w.previousInput, ButtonUp)) ==>
              cursor == MenuResume + MenuRestart - w.menuOption
  {
    if Edge(pad, w.previousInput, ButtonDown) then
      if w.state == Menu then MenuStart
      else if w.state == Paused then
        (if w.menuOption + 1 > MenuRestart then MenuResume else w.menuOption + 1)
      else w.menuOption
    else if Edge(pad, w.previousInput, ButtonUp) then
      if w.state == Paused then
        (if w.menuOption - 1 < MenuResume then MenuRestart else w.menuOption - 1)
      else w.menuOption
    else w.menuOption
  }

  /** menuSystem's selection of the option under the cursor. */
  function Confirm(w: WorldState): (r: WorldState)
    ensures MenuStart <= w.menuOption <= MenuRestart ==> r.state == Playing
    ensures w.menuOption == MenuStart ==> r == w.(state := Playing, score := 0, scoreTimer := 0)
    ensures w.menuOption == MenuResume ==> r == w.(state := Playing)
    ensures w.menuOption == MenuRestart ==> r == ResetState(w).(state := Playing)
    ensures !(MenuStart <= w.menuOption <= MenuRestart) ==> r == w
  {
    if w.menuOption == MenuStart then w.(state := Playing, score := 0, scoreTimer := 0)
    else if w.menuOption == MenuResume then w.(state := Playing)
    else if w.menuOption == MenuRestart then ResetState(w).(state := Playing, score := 0, scoreTimer := 0)
    else w
  }

  /** menuSystem. */
  function MenuStep(w: WorldState, pad: bv8): (r: WorldState)
    ensures r.previousInput == w.previousInput
    // Held buttons do nothing: only a new press changes anything.
    ensures pad & !w.previousInput == 0 ==> r == w
    ensures !Edge(pad, w.previousInput, ButtonOne) ==> r == w.(menuOption := r.menuOption)
    ensures Edge(pad, w.previousInput, ButtonOne) ==> r == Confirm(w.(menuOption := Navigate(w, pad)))
    ensures !Edge(pad, w.previousInput, ButtonOne) ==> r.menuOption == Navigate(w, pad)
  {
    NoNewPressNoEdge(pad, w.previousInput);
    var w' := w.(menuOption := Navigate(w, pad));
    if Edge(pad, w.previousInput, ButtonOne) then Confirm(w') else w'
  }

  /** With no newly pressed bit no button has an edge. */
  lemma NoNewPressNoEdge(pad: bv8, previous: bv8)
    ensures pad & !previous == 0 ==>
              && !Edge(pad, previous, ButtonOne) && !Edge(pad, previous, ButtonTwo)
              && !Edge(pad, previous, ButtonUp) && !Edge(pad, previous, ButtonDown)
  {}

  /** The systems of one Playing frame, in the source's order: the pause
      check does not skip the rest of the frame, and collisions are tested
      before the obstacles advance. */
  function PlayStep(w: WorldState, pad: bv8): (r: WorldState)
    requires PoolWellFormed(w.slots)
    ensures PoolWellFormed(r.slots) && |r.slots| == |w.slots|
    ensures r.state == (if Edge(pad, w.previousInput, ButtonTwo) then Paused else w.state)
    ensures r.menuOption == (if Edge(pad, w.previousInput, ButtonTwo) then MenuResume else w.menuOption)
    ensures r.previousInput == w.previousInput
  {
    var w0 := if Edge(pad, w.previousInput, ButtonTwo) then w.(state := Paused, menuOption := MenuResume) else w;
    var moved := w0.(player := MovementStep(PhysicsStep(InputStep(w0.player, pad))));
    ScoreStep(ObstacleStep(CollisionStep(moved)))
  }

  /** Pausing does not skip the frame: a Button 2 edge gives the same frame
      as the same pad without Button 2, then switches to the pause menu. */
  lemma PauseRunsTheFrame(w: WorldState, pad: bv8)
    requires PoolWellFormed(w.slots) && Edge(pad, w.previousInput, ButtonTwo)
    ensures PlayStep(w, pad) == PlayStep(w, pad & !ButtonTwo).(state := Paused, menuOption := MenuResume)
  {
    var held := pad & !ButtonTwo;
    assert !Edge(held, w.previousInput, ButtonTwo);
    InputIgnoresButtonTwo(w.player, pad);
    var moved := w.(player := MovementStep(PhysicsStep(InputStep(w.player, pad))));
    SystemsIgnoreMenu(moved, Paused, MenuResume);
  }

  /** inputSystem does not look at Button 2. */
  lemma InputIgnoresButtonTwo(p: Player, pad: bv8)
    ensures InputStep(p, pad & !ButtonTwo) == InputStep(p, pad)
  {
    var held := pad & !ButtonTwo;
    assert Pressed(held, ButtonLeft) == Pressed(pad, ButtonLeft);
    assert Pressed(held, ButtonRight) == Pressed(pad, ButtonRight);
    assert Pressed(held, ButtonUp) == Pressed(pad, ButtonUp);
  }

  /** The systems of a Playing frame neither read nor write the game state
      and the menu cursor. */
  lemma SystemsIgnoreMenu(w: WorldState, state: GameState, cursor: int)
    requires PoolWellFormed(w.slots)
    ensures ScoreStep(ObstacleStep(CollisionStep(w.(state := state, menuOption := cursor))))
         == ScoreStep(ObstacleStep(CollisionStep(w))).(state := state, menuOption := cursor)
  {
    var m := w.(state := state, menuOption := cursor);
    assert Collides(m) == Collides(w);
    assert CollisionStep(m) == CollisionStep(w).(state := state, menuOption := cursor);
  }

  /** Collisions are handled before the obstacles advance: a frame whose
      moved player hits an obstacle ends with every slot inactive, the spawn
      timer and the score timer at 1 (they ticked after the reset) and the
      score at 0. */
  lemma CollisionBeforeAdvance(w: WorldState, pad: bv8)
    requires PoolWellFormed(w.slots)
    requires Collides(w.(player := MovementStep(PhysicsStep(InputStep(w.player, pad)))))
    ensures NoneActive(PlayStep(w, pad).slots)
    ensures PlayStep(w, pad).spawnTimer == 1
    ensures PlayStep(w, pad).score == 0 && PlayStep(w, pad).scoreTimer == 1
    ensures PlayStep(w, pad).player.pos == Position(StartX, GroundLevel)
  {
    var w0 := if Edge(pad, w.previousInput, ButtonTwo) then w.(state := Paused, menuOption := MenuResume) else w;
    var moved := w0.(player := MovementStep(PhysicsStep(InputStep(w0.player, pad))));
    assert moved.slots == w.slots && moved.player == w.(player := MovementStep(PhysicsStep(InputStep(w.player, pad)))).player;
    var reset := CollisionStep(moved);
    assert reset == ResetState(moved);
    var advanced := ObstacleStep(reset);
    assert advanced.slots == AdvanceAll(reset.slots);
    assert !AnyRetiring(reset.slots);
    assert advanced.slots == reset.slots;
  }

  /** update: one frame, dispatched on the game state, ending with the pad
      remembered for the next frame's edge detection. */
  function Step(w: WorldState, pad: bv8): (r: WorldState)
    requires PoolWellFormed(w.slots)
    ensures PoolWellFormed(r.slots) && |r.slots| == |w.slots|
    ensures r.previousInput == pad
  {
    var r := match w.state
      case Menu => MenuStep(w, pad)
      case Playing => PlayStep(w, pad)
      case Paused => MenuStep(w, pad);
    r.(previousInput := pad)
  }

  /** The state machine of one frame, and what a frame does while a menu is
      shown. */
  lemma StepTransitions(w: WorldState, pad: bv8)
    requires PoolWellFormed(w.slots)
    // The state machine.
    ensures w.state == Playing ==> Step(w, pad).state == (if Edge(pad, w.previousInput, ButtonTwo) then Paused else Playing)
    ensures w.state == Menu ==> Step(w, pad).state == Menu || Step(w, pad).state == Playing
    ensures w.state == Paused ==> Step(w, pad).state == Paused || Step(w, pad).state == Playing
    ensures w.state != Playing && !Edge(pad, w.previousInput, ButtonOne) ==> Step(w, pad).state == w.state
    ensures w.state == Menu && w.menuOption == MenuStart && Edge(pad, w.previousInput, ButtonOne) ==>
              && Step(w, pad).state == Playing && Step(w, pad).score == 0 && Step(w, pad).scoreTimer == 0
              && Step(w, pad).player == w.player
    // While a menu is shown the game itself is frozen, unless Restart is chosen.
    ensures w.state != Playing && !(Edge(pad, w.previousInput, ButtonOne) && Navigate(w, pad) == MenuRestart) ==>
              Step(w, pad).player == w.player && Step(w, pad).slots == w.slots && Step(w, pad).spawnTimer == w.spawnTimer
    ensures w.state != Playing && pad & !w.previousInput == 0 ==> Step(w, pad) == w.(previousInput := pad)
  {
    NoNewPressNoEdge(pad, w.previousInput);
  }

  /** How far a player moving upward at speed `-v` can still rise: gravity
      takes 0.5 off the speed every frame, so the remaining climb is at most
      the square of the speed. Zero once the player is not moving up. */
  function Climb(v: real): (c: real)
    ensures 0.0 <= c
  {
    if v < 0.0 then MulNonneg(-v, -v); v * v else 0.0
  }

  /** The player the game reaches: its constants, inside the screen (the
      climb still ahead of it fits under the top edge), standing on the
      ground at rest whenever it is grounded, and both velocities bounded. */
  ghost predicate PlayerInv(p: Player) {
    && p.speed == PlayerSpeed && p.drawable.size == SquareSize
    && p.physics.gravity == Gravity && p.physics.jumpPower == JumpPower && p.physics.friction == Friction
    && 0 <= p.pos.x <= ScreenSize - SquareSize && 0 <= p.pos.y <= GroundLevel
    && Climb(p.physics.velocityY) <= p.pos.y as real
    && (p.physics.onGround ==> p.pos.y == GroundLevel && p.physics.velocityY == 0.0)
    && -(PlayerSpeed as real) <= p.physics.velocityX <= PlayerSpeed as real
    && -JumpPower <= p.physics.velocityY <= MaxVelocityY
  }

  /** Every slot the game reaches: well formed, and an active one carries
      the spawn constants. */
  ghost predicate SlotInv(s: Slot) {
    && WellFormed(s.depth)
    && (s.depth.active ==>
          s.depth.speed == ObstacleSpeed && s.depth.baseSize == ObstacleBaseSize && s.depth.maxSize == SpawnMaxSize)
  }

  ghost predicate Inv(w: WorldState) {
    && PlayerInv(w.player)
    && |w.slots| == PoolSize && (forall i :: 0 <= i < |w.slots| ==> SlotInv(w.slots[i]))
    && 0 <= w.spawnTimer < ObstacleSpawnRate
    && 0 <= w.score && 0 <= w.scoreTimer < ScoreIncrementRate
    && MenuStart <= w.menuOption <= MenuRestart
    && (w.state == Menu ==> w.menuOption == MenuStart)
    && (w.state == Paused ==> w.menuOption != MenuStart)
  }

  lemma PlayerStepsKeepInv(p: Player, pad: bv8)
    requires PlayerInv(p)
    ensures PlayerInv(MovementStep(PhysicsStep(InputStep(p, pad))))
  {
    var p1 := InputStep(p, pad);
    assert -(PlayerSpeed as real) <= p1.physics.velocityX <= PlayerSpeed as real;
    assert -JumpPower <= p1.physics.velocityY <= MaxVelocityY;
    assert Climb(p1.physics.velocityY) <= p1.pos.y as real;
    var p2 := PhysicsStep(p1);
    assert -JumpPower <= p2.physics.velocityY <= MaxVelocityY;
    VerticalStepKeepsClimb(p1);
  }

  /** Gravity, then the vertical move: the player stays under the top edge,
      because one frame's rise is paid for by the climb left. */
  lemma VerticalStepKeepsClimb(p: Player)
    requires p.physics.gravity == Gravity && 0 <= p.pos.y <= GroundLevel
    requires Climb(p.physics.velocityY) <= p.pos.y as real
    requires p.physics.onGround ==> p.pos.y == GroundLevel && p.physics.velocityY == 0.0
    requires p.physics.velocityY <= MaxVelocityY
    ensures var r := MovementStep(PhysicsStep(p));
            && 0 <= r.pos.y <= GroundLevel
            && Climb(r.physics.velocityY) <= r.pos.y as real
            && (r.physics.onGround ==> r.pos.y == GroundLevel && r.physics.velocityY == 0.0)
  {
    var q := PhysicsStep(p);
    var r := MovementStep(q);
    var v := p.physics.velocityY;
    var v' := q.physics.velocityY;
    if r.pos.y < GroundLevel {
      assert !p.physics.onGround;
      assert v' == Min(v + Gravity, MaxVelocityY);
      if v' < 0.0 {
        assert v' == v + 0.5;
        assert v' * v' == v * v + v + 0.25;
        assert Climb(v) == v * v;
        assert (r.pos.y as real) >= p.pos.y as real + v';
      }
    }
  }

  lemma PoolStepsKeepInv(slots: seq<Slot>, due: bool)
    requires forall i :: 0 <= i < |slots| ==> SlotInv(slots[i])
    ensures PoolWellFormed(slots)
    ensures var spawned := if due then Spawn(slots) else slots;
            forall i :: 0 <= i < |slots| ==> SlotInv(AdvanceAll(spawned)[i])
  {
    var spawned := if due then Spawn(slots) else slots;
    assert forall i :: 0 <= i < |slots| ==> SlotInv(spawned[i]);
  }

  lemma MenuKeepsInv(w: WorldState, pad: bv8)
    requires Inv(w) && w.state != Playing
    ensures Inv(MenuStep(w, pad))
  {
    var w' := w.(menuOption := Navigate(w, pad));
    if Edge(pad, w.previousInput, ButtonOne) && w'.menuOption == MenuRestart {
      var r := ResetState(w');
      assert forall i :: 0 <= i < |r.slots| ==> SlotInv(r.slots[i]);
    }
  }

  lemma CollisionKeepsInv(w: WorldState)
    requires Inv(w)
    ensures Inv(CollisionStep(w))
  {
    if Collides(w) {
      var r := ResetState(w);
      assert forall i :: 0 <= i < |r.slots| ==> SlotInv(r.slots[i]);
    }
  }

  lemma ObstacleKeepsInv(w: WorldState)
    requires Inv(w)
    ensures PoolWellFormed(w.slots) && Inv(ObstacleStep(w))
  {
    PoolStepsKeepInv(w.slots, w.spawnTimer + 1 >= ObstacleSpawnRate);
  }

  lemma PlayKeepsInv(w: WorldState, pad: bv8)
    requires Inv(w) && w.state == Playing
    ensures PoolWellFormed(w.slots) && Inv(PlayStep(w, pad))
  {
    assert PoolWellFormed(w.slots);
    var w0 := if Edge(pad, w.previousInput, ButtonTwo) then w.(state := Paused, menuOption := MenuResume) else w;
    PlayerStepsKeepInv(w0.player, pad);
    var moved := w0.(player := MovementStep(PhysicsStep(InputStep(w0.player, pad))));
    CollisionKeepsInv(moved);
    var collided := CollisionStep(moved);
    ObstacleKeepsInv(collided);
    var advanced := ObstacleStep(collided);
    assert PlayStep(w, pad) == ScoreStep(advanced);
  }

  /** Every frame keeps the invariant: the player inside the screen, never
      below the ground, the fall speed capped, the counters in range, and the cursor
      on Start in the main menu and on Resume or Restart while paused. */
  lemma StepKeepsInv(w: WorldState, pad: bv8)
    requires Inv(w)
    ensures PoolWellFormed(w.slots) && Inv(Step(w, pad))
  {
    assert PoolWellFormed(w.slots);
    if w.state == Playing {
      PlayKeepsInv(w, pad);
    } else {
      MenuKeepsInv(w, pad);
    }
  }

  /** From power-on, pressing Button 1 on the main menu starts a game with
      score 0 and the player standing at the start position. */
  lemma StartGame(pad: bv8)
    requires Pressed(pad, ButtonOne)
    ensures Step(Initial(), pad).state == Playing
    ensures Step(Initial(), pad).score == 0
    ensures Step(Initial(), pad).player.pos == Position(StartX, GroundLevel)
  {}
}
