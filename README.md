# A verified model of the per-frame simulation of a WASM-4 mini-game

The game is a single Go file for the WASM-4 fantasy console. The player is a
20-pixel square that runs left and right and jumps. Obstacles appear at a
vanishing point (79, 61), grow and descend as they "approach", and reset
the game when one reaches the foreground and overlaps the player. A score
grows with time survived. A main menu and a pause menu are driven by
gamepad edges: a button counts only on the frame it goes from released to
pressed.

The model keeps the source's shape. Its package-level variables become one
object, `Game.World`:

- the player's speed and its three component records;
- the three parallel obstacle arrays of length 10;
- the spawn timer, the score counters, the game state, the menu cursor and
  the previous frame's pad.

Its functions become methods that update that object in place. Each method
is proved to have exactly the effect of a pure step function on a
`WorldState` value (module `Simulation`). The properties of the game are
proved as lemmas about those step functions.

Modules, in dependency order:

- `Numeric`: Go's float-to-integer conversion, which truncates toward zero.
- `Components`: the component records, the tuning constants, and one
  obstacle slot seen across the three arrays.
- `Gamepad`: the WASM-4 button bits and edge detection.
- `Kinematics`: `inputSystem`, `physicsSystem` and `movementSystem` acting on
  the player.
- `ObstaclePool`: `spawnObstacle`, `updateObstacle` and the sweep of
  `obstacleSystem`, plus the lifetime of one obstacle.
- `Collision`: the overlap test of `collisionSystem` and an independent
  "shared pixel" definition of overlap.
- `Simulation`: the whole state, one function per system, one frame
  (`update`) and the frame invariant.
- `Game`: the `World` class and its in-place methods.

Behaviours of the code that are kept as written:

- A spawn sets an obstacle's MaxSize to 30, not to the declared constant 20.
- Z is never capped at 1, so an obstacle keeps growing past MaxSize.
- Retirement tests the position stored by the previous update. A fresh
  obstacle reaches the bottom edge on frame 358, at size 42, and is retired
  on frame 359.
- `resetGame` only clears the Active flags. The other slot fields stay.
- Pressing Button 2 switches to the pause menu, but the rest of that frame's
  systems still run.
- Collisions are tested before the obstacles advance.
- The collision scan runs from index 9 down. The model proves that the scan
  order does not change the outcome.

## Model

| member | source | states |
|---|---|---|
| Numeric.Trunc | main.go:206 | Go's `int(f)`: the result lies within one of the input, on the zero side |
| Kinematics.InputStep | main.go:168-188 | Left sets VelocityX to -Speed and wins over Right, which sets +Speed; with neither, VelocityX becomes VelocityX·Friction, which for a friction in [0,1] shrinks it toward zero without flipping its sign; Up jumps (VelocityY = -JumpPower, airborne) only from the ground, otherwise VelocityY and OnGround are kept; position, size and constants are untouched |
| Kinematics.FrictionApplied | main.go:180 | scaling by a friction in [0,1] keeps the velocity between zero and its old value |
| Kinematics.PhysicsStep | main.go:191-201 | only VelocityY changes; on the ground nothing changes; in the air VelocityY becomes min(VelocityY + Gravity, 15), so it never exceeds the cap and never decreases |
| Kinematics.MovementStep | main.go:204-226 | X moves by the truncated velocity, keeping VelocityX, whenever that stays within [0, 160 - Size]; past the left wall it is set to 1 and past the right wall to 160 - Size - 1, with VelocityX zeroed; X stays on screen; Y never ends below the ground, and it ends on the ground exactly when the move reaches it, landing the player with VelocityY zero |
| Kinematics.CoastNeverFlips | main.go:178-181 | over any number of frames without horizontal input, friction never reverses or grows the horizontal velocity |
| Kinematics.FallingSpeed | main.go:193-199 | after n airborne frames the fall speed is min(v + n·Gravity, 15) |
| Kinematics.FallingMonotone | main.go:193-199 | the fall speed never decreases from one airborne frame to a later one and stays at or under the cap |
| ObstaclePool.FirstFree | main.go:290-291 | returns the lowest-index inactive slot, and returns nothing exactly when every slot is active |
| ObstaclePool.Spawn | main.go:288-308 | exactly the lowest-index inactive slot receives the spawn values (79, 61, size 2, colour 0x32, Z 0, speed 0.004, base 2, max 30, active); every other slot is unchanged; a full pool is unchanged |
| ObstaclePool.SpawnAddsOne | main.go:288-308 | a spawn raises the number of active obstacles by exactly one, unless the pool is full |
| ObstaclePool.GrownSize | main.go:326-327 | the size is BaseSize plus the truncation of Z·(MaxSize - BaseSize), so it is never below BaseSize |
| ObstaclePool.AdvanceSlot | main.go:311-352 | a slot whose stored bottom edge lies on 160 is reset to all zeroes; otherwise Z grows by Speed, the size follows GrownSize, the slot is centred on column 79 and descends by trunc(40·Z) while it fits, is clamped to the screen, and lands exactly on the bottom edge once it reaches it |
| ObstaclePool.AdvanceAll | main.go:279-284 | every active slot is advanced and every inactive one is left alone |
| ObstaclePool.SpawnedSlotApproaches | main.go:311-352 | for its first 357 frames a spawned obstacle stays active, with Z = n·0.004, above the bottom edge |
| ObstaclePool.SpawnedSlotLifetime | main.go:313-351 | on frame 358 it sits on the bottom edge, still active, at size 42 (past MaxSize 30, since Z is never capped); frame 359 retires it to all zeroes |
| ObstaclePool.SpawnedSlotStaysRetired | main.go:279-284 | after retirement the sweep never touches the slot again |
| Collision.Hits | main.go:360-373 | the source's five comparisons; whenever they hold, the point at the larger left edge and larger top edge lies on both squares |
| Collision.HitsIffSharedPoint | main.go:360-373 | the four edge comparisons hold exactly when the two closed squares share a point; the fifth requires the obstacle's bottom edge at 158 or below |
| Collision.SameSquareHits | main.go:372-373 | an obstacle drawn on the player's own square hits exactly when its bottom edge is in the foreground band |
| Collision.ApartNeverHits | main.go:372-373 | squares separated on either axis never hit |
| Simulation.Initial | main.go:99-134 | the power-on state: no slot active, the main menu with the cursor on Start, the player standing at the start position, and the frame invariant holds |
| Simulation.ResetState | main.go:383-404 | the player is back at the start position, at rest and on the ground; every slot is inactive with its other fields kept; the spawn timer and score are zeroed; the state machine and the pad memory are untouched |
| Simulation.ResetIdempotent | main.go:383-404 | resetting twice is resetting once |
| Simulation.CollisionStep | main.go:355-380 | the game is reset when some active slot hits the player, whichever slot the scan meets first, and left unchanged when none does; afterwards nothing hits |
| Simulation.ObstacleStep | main.go:269-285 | the timer ticks; at 120 exactly one spawn attempt is made and the timer restarts; then every active slot advances; a retirement zeroes the timer; the timer stays in [0, 120); nothing else changes |
| Simulation.ScoreStep | main.go:424-430 | score·50 + timer grows by exactly one per frame, with the timer in [0, 50); nothing else changes |
| Simulation.ScoreAfterFrames | main.go:424-430 | after n frames the score has grown by (timer + n) / 50 and the timer is (timer + n) mod 50 |
| Simulation.Navigate | main.go:443-460 | with no Down or Up edge the cursor stays put; Down on the main menu selects Start; while paused, Down or Up toggles the cursor between Resume and Restart and never leaves them |
| Simulation.Confirm | main.go:463-480 | Start plays from score 0; Resume plays on; Restart resets, then plays from score 0; any other cursor value does nothing |
| Simulation.MenuStep | main.go:440-481 | without a Button 1 edge only the cursor moves; with one, the navigated cursor is confirmed; a pad with no newly pressed button changes nothing |
| Simulation.PlayStep | main.go:144-158 | a Button 2 edge ends the frame Paused with the cursor on Resume, otherwise state and cursor are kept; the pool stays well formed and the same size; the pad memory is not touched |
| Simulation.PauseRunsTheFrame | main.go:146-157 | pausing does not skip the frame: with a Button 2 edge the frame equals the frame for the same pad without Button 2, then switched to Paused with the cursor on Resume |
| Simulation.InputIgnoresButtonTwo | main.go:174-187 | inputSystem gives the same result whether or not Button 2 is held |
| Simulation.SystemsIgnoreMenu | main.go:153-156 | collision, obstacle and score handling neither read nor change the game state and the menu cursor |
| Simulation.CollisionBeforeAdvance | main.go:153-156 | collision runs before the obstacles advance and the score ticks: a colliding frame ends with every slot inactive, spawn timer 1, score 0, score timer 1 and the player at the start position |
| Simulation.Step | main.go:137-165 | one frame dispatched on the game state; the pad is remembered for the next frame's edge detection |
| Simulation.StepTransitions | main.go:137-165 | while playing, a Button 2 edge pauses and nothing else leaves play; menus go only to play; without a Button 1 edge a menu stays; Start begins at score 0; while a menu is shown, the player, the obstacles and the spawn timer are frozen unless Restart is chosen; held buttons do nothing in a menu |
| Simulation.PlayerStepsKeepInv | main.go:168-226 | the player systems keep the player inside the screen (0 ≤ X ≤ 140, 0 ≤ Y ≤ 140), standing still on the ground whenever grounded, with -2 ≤ VelocityX ≤ 2 and -8 ≤ VelocityY ≤ 15 |
| Simulation.VerticalStepKeepsClimb | main.go:193-225 | after gravity and the vertical move the player is still between the top edge and the ground, with the climb its upward speed allows (at most that speed squared) still fitting below the top edge, and grounded only at rest on the ground |
| Simulation.PoolStepsKeepInv | main.go:269-308 | spawning and advancing keep every slot well formed and every active slot on the spawn constants |
| Simulation.CollisionKeepsInv | main.go:355-404 | collision handling keeps the frame invariant |
| Simulation.ObstacleKeepsInv | main.go:269-352 | obstacle handling keeps the frame invariant |
| Simulation.MenuKeepsInv | main.go:440-481 | menu handling keeps the frame invariant: the cursor on Start in the main menu and on Resume or Restart while paused |
| Simulation.PlayKeepsInv | main.go:144-158 | a Playing frame keeps the frame invariant |
| Simulation.StepKeepsInv | main.go:137-165 | every frame keeps the frame invariant: the player inside the screen and never below the ground, both velocities bounded, the counters in range, the cursor valid for the state |
| Simulation.StartGame | main.go:463-469 | from power-on, Button 1 starts a game at score 0 with the player at the start position |
| Game.World.Start | main.go:99-134 | the object is built in the power-on state |
| Game.World.Update | main.go:137-165 | one frame in place, equal to Step on the object's state |
| Game.World.PlayFrame | main.go:144-158 | the Playing case of update in place, equal to PlayStep |
| Game.World.InputSystem | main.go:168-188 | equal to InputStep on the player |
| Game.World.PhysicsSystem | main.go:191-201 | equal to PhysicsStep on the player |
| Game.World.MovementSystem | main.go:204-226 | equal to MovementStep on the player |
| Game.World.ObstacleSystem | main.go:269-285 | equal to ObstacleStep |
| Game.World.AdvanceObstacles | main.go:279-284 | the loop of obstacleSystem: equal to AdvanceAll, and the timer is zeroed exactly when some active slot retires |
| Game.World.AdvanceOne | main.go:281-283 | one pass of that loop: slot i becomes AdvanceSlot of itself when active and stays as it was otherwise, no other slot changes, and the timer is zeroed exactly when slot i retires |
| Game.World.SpawnObstacle | main.go:288-308 | the loop with `break`, equal to Spawn on the slots |
| Game.World.UpdateObstacle | main.go:311-352 | slot `index` becomes AdvanceSlot of itself, and no other slot changes; the timer is zeroed exactly on retirement |
| Game.World.CollisionSystem | main.go:355-380 | the downward scan with early return, equal to CollisionStep |
| Game.World.ResetGame | main.go:383-404 | equal to ResetState |
| Game.World.ScoreSystem | main.go:424-430 | equal to ScoreStep |
| Game.World.MenuSystem | main.go:440-481 | equal to MenuStep |

## Left out

- Rendering is not modelled, and it changes no game state: `drawBorder`, `renderSystem`, `renderGame`, `drawScore`, `renderMenu`, `renderPauseMenu`, and the `strconv` conversion of the score.
- Memory-mapped I/O is not modelled. The `GAMEPAD1` register becomes the `pad` parameter of `Update`, `PlayFrame`, `InputSystem` and `MenuSystem`. Every read of it within one frame sees the same byte.
- The button bit values come from the WASM-4 console's documented layout (Button 1 = 1, Button 2 = 2, Left = 16, Right = 32, Up = 64, Down = 128). The `w4` package itself is not part of this model.
- The `//go:export` wiring of `start` and `update` is not modelled. `Game.World.Start` is the start-up and `Game.World.Update` is the frame entry point.
- `nextObstacleIndex` is declared but never used. It is left out.
- `float32` values are modelled as exact reals, so the model does not capture float rounding. For example, Z after 358 additions of 0.004 is exactly 1.432 here. `int(...)` and `uint(...)` conversions are `Numeric.Trunc`.
- Machine integer widths are not modelled: Go's `int` is unbounded here, and `Size` is a natural number. The one unsigned subtraction, MaxSize - BaseSize, is kept from wrapping by the precondition below.
- ObstaclePool.AdvanceSlot: requires a well-formed depth (BaseSize ≤ MaxSize, Z ≥ 0, Speed ≥ 0). This is weaker than the source, which also runs on other depths, where the unsigned subtraction would wrap. Every slot the game can reach satisfies it: `Game.World.Valid` carries it, and `Simulation.PoolStepsKeepInv` keeps it.
- Game.World.UpdateObstacle: reads the slot's three records into locals, updates them field by field in the source's order, and writes them back through the helper `Store`. The source writes each field into the arrays directly. Nothing else can observe the arrays meanwhile, so only the order of the writes differs.
- Game.World.SpawnObstacle: fills the slot in the same way, through locals and `Store`.
- Game.World.AdvanceObstacles, Game.World.AdvanceOne and Game.World.PlayFrame: each is a block of code inside the source's `obstacleSystem` or `update`, given a name of its own. The statements and their order are unchanged.
