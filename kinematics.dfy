/** The player's per-frame kinematics: input, gravity and movement with its
    wall and ground clamps. Each function is the effect of one system on the
    player entity; the World class runs them in place. */
module Kinematics {
  import opened Numeric
  import opened Components
  import opened Gamepad

  /** inputSystem: horizontal input or friction, and a jump from the ground. */
  function InputStep(p: Player, pad: bv8): (r: Player)
    ensures r.speed == p.speed && r.pos == p.pos && r.drawable == p.drawable
    ensures r.physics.gravity == p.physics.gravity && r.physics.jumpPower == p.physics.jumpPower
    ensures r.physics.friction == p.physics.friction
    // Left wins over right; either sets the velocity outright.
    ensures Pressed(pad, ButtonLeft) ==> r.physics.velocityX == -(p.speed as real)
    ensures !Pressed(pad, ButtonLeft) && Pressed(pad, ButtonRight) ==> r.physics.velocityX == p.speed as real
    // Without horizontal input friction decays the velocity: no sign flip, no growth.
    ensures !Pressed(pad, ButtonLeft) && !Pressed(pad, ButtonRight) ==>
              r.physics.velocityX == p.physics.velocityX * p.physics.friction
    ensures !Pressed(pad, ButtonLeft) && !Pressed(pad, ButtonRight) && 0.0 <= p.physics.friction <= 1.0 ==>
              (0.0 <= p.physics.velocityX ==> 0.0 <= r.physics.velocityX <= p.physics.velocityX) &&
              (p.physics.velocityX <= 0.0 ==> p.physics.velocityX <= r.physics.velocityX <= 0.0)
    // A jump is honoured only from the ground.
    ensures Pressed(pad, ButtonUp) && p.physics.onGround ==>
              r.physics.velocityY == -p.physics.jumpPower && !r.physics.onGround
    ensures !(Pressed(pad, ButtonUp) && p.physics.onGround) ==>
              r.physics.velocityY == p.physics.velocityY && r.physics.onGround == p.physics.onGround
  {
    var vx :=
      if Pressed(pad, ButtonLeft) then -(p.speed as real)
      else if Pressed(pad, ButtonRight) then p.speed as real
      else FrictionApplied(p.physics.velocityX, p.physics.friction);
    var ph := p.physics.(velocityX := vx);
    var ph' := if Pressed(pad, ButtonUp) && ph.onGround then ph.(velocityY := -ph.jumpPower, onGround := false) else ph;
    p.(physics := ph')
  }

  /** One frame of friction on a velocity. */
  function FrictionApplied(v: real, friction: real): (r: real)
    ensures 0.0 <= friction <= 1.0 && 0.0 <= v ==> 0.0 <= r <= v
    ensures 0.0 <= friction <= 1.0 && v <= 0.0 ==> v <= r <= 0.0
  {
    var m := v * friction;
    if 0.0 <= friction <= 1.0 then MulBetween(v, friction, m); m else m
  }

  /** Scaling by a factor in [0, 1] moves a value toward zero, never past it. */
  lemma MulBetween(v: real, f: real, m: real)
    requires 0.0 <= f <= 1.0 && m == v * f
    ensures 0.0 <= v ==> 0.0 <= m <= v
    ensures v <= 0.0 ==> v <= m <= 0.0
  {
    assert v * f == v - v * (1.0 - f);
    if 0.0 <= v {
      MulNonneg(v, f);
      MulNonneg(v, 1.0 - f);
    } else {
      MulNonneg(-v, f);
      MulNonneg(-v, 1.0 - f);
      assert (-v) * f == -(v * f);
      assert (-v) * (1.0 - f) == -(v * (1.0 - f));
    }
  }

  /** physicsSystem: gravity in the air, capped at the maximum fall speed. */
  function PhysicsStep(p: Player): (r: Player)
    ensures r == p.(physics := p.physics.(velocityY := r.physics.velocityY))
    ensures p.physics.onGround ==> r == p
    ensures !p.physics.onGround ==> r.physics.velocityY <= MaxVelocityY
    ensures !p.physics.onGround ==>
              r.physics.velocityY == Min(p.physics.velocityY + p.physics.gravity, MaxVelocityY)
    ensures !p.physics.onGround && 0.0 <= p.physics.gravity && p.physics.velocityY <= MaxVelocityY ==>
              p.physics.velocityY <= r.physics.velocityY
  {
    if !p.physics.onGround then
      var vy := p.physics.velocityY + p.physics.gravity;
      p.(physics := p.physics.(velocityY := if vy > MaxVelocityY then MaxVelocityY else vy))
    else
      p
  }

  /** movementSystem: apply the velocity, then the wall clamps with their
      1-pixel inset and the ground clamp. */
  function MovementStep(p: Player): (r: Player)
    ensures r.speed == p.speed && r.drawable == p.drawable
    ensures r.physics.gravity == p.physics.gravity && r.physics.jumpPower == p.physics.jumpPower
    ensures r.physics.friction == p.physics.friction
    // Horizontally the player moves freely, or is stopped just inside a wall.
    ensures p.drawable.size < ScreenSize ==> 0 <= r.pos.x <= ScreenSize - p.drawable.size
    ensures 0 <= p.pos.x + Trunc(p.physics.velocityX) <= ScreenSize - p.drawable.size ==>
              r.pos.x == p.pos.x + Trunc(p.physics.velocityX) && r.physics.velocityX == p.physics.velocityX
    ensures p.pos.x + Trunc(p.physics.velocityX) < 0 ==> r.pos.x == 1 && r.physics.velocityX == 0.0
    ensures ScreenSize - p.drawable.size < p.pos.x + Trunc(p.physics.velocityX) && 0 <= p.pos.x + Trunc(p.physics.velocityX) ==>
              r.pos.x == ScreenSize - p.drawable.size - 1 && r.physics.velocityX == 0.0
    // Vertically the player never ends below the ground; reaching it lands.
    ensures r.pos.y <= GroundLevel
    ensures r.pos.y == GroundLevel <==> p.pos.y + Trunc(p.physics.velocityY) >= GroundLevel
    ensures r.pos.y == GroundLevel ==> r.physics.velocityY == 0.0 && r.physics.onGround
    ensures r.pos.y < GroundLevel ==>
              r.pos.y == p.pos.y + Trunc(p.physics.velocityY) &&
              r.physics.velocityY == p.physics.velocityY && r.physics.onGround == p.physics.onGround
  {
    var x0 := p.pos.x + Trunc(p.physics.velocityX);
    var right := ScreenSize - p.drawable.size;
    var x := if x0 < 0 then 1 else if x0 > right then right - 1 else x0;
    var vx := if x0 < 0 || x0 > right then 0.0 else p.physics.velocityX;
    var y0 := p.pos.y + Trunc(p.physics.velocityY);
    var landed := y0 >= GroundLevel;
    p.(pos := Position(x, if landed then GroundLevel else y0),
       physics := p.physics.(velocityX := vx,
                             velocityY := if landed then 0.0 else p.physics.velocityY,
                             onGround := landed || p.physics.onGround))
  }

  /** `n` frames with no horizontal input: only friction acts on VelocityX. */
  function Coast(p: Player, n: nat): Player {
    if n == 0 then p else InputStep(Coast(p, n - 1), 0)
  }

  /** However long the player coasts, friction never reverses or grows the
      horizontal velocity. */
  lemma {:induction false} CoastNeverFlips(p: Player, n: nat)
    requires 0.0 <= p.physics.friction <= 1.0
    ensures Coast(p, n).physics.friction == p.physics.friction
    ensures 0.0 <= p.physics.velocityX ==> 0.0 <= Coast(p, n).physics.velocityX <= p.physics.velocityX
    ensures p.physics.velocityX <= 0.0 ==> p.physics.velocityX <= Coast(p, n).physics.velocityX <= 0.0
  {
    if n > 0 {
      CoastNeverFlips(p, n - 1);
      assert !Pressed(0, ButtonLeft) && !Pressed(0, ButtonRight);
    }
  }

  /** `n` frames of gravity alone, the player staying in the air. */
  function Falling(p: Player, n: nat): Player {
    if n == 0 then p else PhysicsStep(Falling(p, n - 1))
  }

  /** In the air the fall speed grows by Gravity per frame until it reaches
      the cap, and stays there. */
  lemma {:induction false} FallingSpeed(p: Player, n: nat)
    requires !p.physics.onGround && 0.0 <= p.physics.gravity
    requires p.physics.velocityY <= MaxVelocityY
    ensures !Falling(p, n).physics.onGround && Falling(p, n).physics.gravity == p.physics.gravity
    ensures Falling(p, n).physics.velocityY == Min(p.physics.velocityY + n as real * p.physics.gravity, MaxVelocityY)
  {
    if n > 0 {
      FallingSpeed(p, n - 1);
      var g := p.physics.gravity;
      assert (n - 1) as real * g + g == n as real * g;
    }
  }

  /** The fall speed never decreases from one frame to the next in the air. */
  lemma FallingMonotone(p: Player, m: nat, n: nat)
    requires !p.physics.onGround && 0.0 <= p.physics.gravity
    requires p.physics.velocityY <= MaxVelocityY
    requires m <= n
    ensures Falling(p, m).physics.velocityY <= Falling(p, n).physics.velocityY <= MaxVelocityY
  {
    FallingSpeed(p, m);
    FallingSpeed(p, n);
    assert m as real * p.physics.gravity <= n as real * p.physics.gravity;
  }
}
