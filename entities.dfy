/** The entities of `DinoGame`: the player, the fire obstacles and the coins,
    with the geometry each exposes to the collision tests. The player's
    jump physics and sprite animation are specified by functions on values
    (Motion, Sprite) and the classes' methods are proved against them. */
module Entities {
  import opened Geometry

  const WIDTH: real := 800.0
  const HEIGHT: real := 600.0
  const GROUND_HEIGHT: real := 153.0
  /** Base scroll rate of the floor, the obstacles, the coins and the spawn countdowns. */
  const INITIAL_SPEED: real := 200.0
  /** The line the player stands on and the obstacles rest on: HEIGHT - GROUND_HEIGHT + 10. */
  const GROUND_LINE: real := 457.0
  const GRAVITY: real := 400.0
  const JUMP_VELOCITY: real := 400.0
  const SPRITE_DURATION: real := 0.25
  const SPRITE_COUNT: int := 3

  // ---------------------------------------------------------------------
  // Player physics

  /** The vertical state of the player: `jumpHeight`, `vel_y` and `jumping`. */
  datatype Motion = Motion(height: real, vel: real, airborne: bool)

  /** Standing on the floor, at rest. */
  const Grounded: Motion := Motion(0.0, 0.0, false)

  /** A player that is not jumping stands on the floor at rest. */
  predicate Settled(m: Motion) {
    !m.airborne ==> m.height == 0.0 && m.vel == 0.0
  }

  /** `Player.jump`: only a grounded player takes off, with velocity 400. */
  function Launch(m: Motion): (r: Motion)
    ensures r.airborne && r.height == m.height
    ensures m.airborne ==> r == m
    ensures !m.airborne ==> r.vel == JUMP_VELOCITY
    ensures Settled(r)
  {
    if !m.airborne then Motion(m.height, JUMP_VELOCITY, true) else m
  }

  /** Jumping twice in a row is jumping once: there is no double jump. */
  lemma LaunchIdempotent(m: Motion)
    ensures Launch(Launch(m)) == Launch(m)
  {
  }

  /** The physics half of `Player.update`: a trapezoidal step under gravity,
      clamped to the floor (and grounded) when the new height is negative. */
  function Fall(m: Motion, dt: real): (r: Motion)
    ensures !m.airborne ==> r == m
    ensures m.airborne ==> r.height >= 0.0
    ensures m.height >= 0.0 ==> r.height >= 0.0
    ensures m.airborne && !r.airborne ==> r == Grounded
    ensures Settled(m) ==> Settled(r)
  {
    if m.airborne then
      var newVel := m.vel - dt * GRAVITY;
      var height := m.height + (m.vel + newVel) / 2.0 * dt;
      if height < 0.0 then Grounded else Motion(height, newVel, true)
    else m
  }

  /** n ticks of Fall with the same dt. */
  function FallN(m: Motion, dt: real, n: nat): Motion
  {
    if n == 0 then m else Fall(FallN(m, dt, n - 1), dt)
  }

  /** Height and velocity of a jump from the floor tau seconds after take-off. */
  function ArcHeight(tau: real): real { 400.0 * tau - 200.0 * tau * tau }
  function ArcVel(tau: real): real { 400.0 - 400.0 * tau }

  lemma MulMono(a: real, b: real, c: real)
    requires a <= b && 0.0 <= c
    ensures a * c <= b * c
  {
    assert b * c - a * c == (b - a) * c;
  }

  /** The trapezoidal step is exact for constant gravity: one tick of Fall
      from a point of the arc lands on the arc dt later, or on the floor. */
  lemma ArcStep(s: real, dt: real)
    ensures Fall(Motion(ArcHeight(s), ArcVel(s), true), dt) ==
      if ArcHeight(s + dt) < 0.0 then Grounded else Motion(ArcHeight(s + dt), ArcVel(s + dt), true)
  {
    var v := ArcVel(s);
    var nv := v - dt * GRAVITY;
    assert nv == ArcVel(s + dt);
    assert (v + nv) / 2.0 * dt == 400.0 * dt - 400.0 * s * dt - 200.0 * dt * dt;
    assert (s + dt) * (s + dt) == s * s + 2.0 * s * dt + dt * dt;
    assert ArcHeight(s) + (v + nv) / 2.0 * dt == ArcHeight(s + dt);
  }

  /** The arc is at or above the floor for the first two seconds and below it after. */
  lemma ArcSign(tau: real)
    requires 0.0 <= tau
    ensures ArcHeight(tau) >= 0.0 <==> tau <= 2.0
  {
    assert ArcHeight(tau) == 200.0 * tau * (2.0 - tau);
    if tau <= 2.0 {
      MulMono(0.0, 2.0 - tau, 200.0 * tau);
    } else {
      MulMono(2.0 - tau, 0.0, 200.0 * tau);
      assert tau * (2.0 - tau) < 0.0 by {
        MulMono(2.0, tau, tau - 2.0);
        assert (tau - 2.0) * tau >= 2.0 * (tau - 2.0) > 0.0;
      }
    }
  }

  /** Simulated time after n ticks of dt, summed the way the game sums `t`. */
  function Elapsed(dt: real, n: nat): (r: real)
    requires 0.0 < dt
    ensures 0.0 <= r
  {
    if n == 0 then 0.0 else Elapsed(dt, n - 1) + dt
  }

  /** The running sum is n * dt. */
  lemma {:induction false} ElapsedIsProduct(dt: real, n: nat)
    requires 0.0 < dt
    ensures Elapsed(dt, n) == (n as real) * dt
  {
    if n > 0 {
      ElapsedIsProduct(dt, n - 1);
      assert (n as real) * dt == ((n - 1) as real) * dt + dt;
    }
  }

  /** Time only moves forward. */
  lemma {:induction false} ElapsedMono(dt: real, k: nat, n: nat)
    requires 0.0 < dt && k <= n
    ensures Elapsed(dt, k) <= Elapsed(dt, n)
  {
    if k < n {
      ElapsedMono(dt, k, n - 1);
    }
  }

  /** While fewer than two seconds have passed, n ticks of Fall after a jump
      follow the arc exactly. */
  lemma {:induction false} JumpArc(dt: real, n: nat)
    requires 0.0 < dt && Elapsed(dt, n) <= 2.0
    ensures FallN(Launch(Grounded), dt, n) ==
      Motion(ArcHeight(Elapsed(dt, n)), ArcVel(Elapsed(dt, n)), true)
  {
    if n > 0 {
      JumpArc(dt, n - 1);
      ArcAdvance(FallN(Launch(Grounded), dt, n - 1), Elapsed(dt, n - 1), dt);
    }
  }

  /** One tick along the arc while it is still at or above the floor. */
  lemma ArcAdvance(m: Motion, s: real, dt: real)
    requires m == Motion(ArcHeight(s), ArcVel(s), true) && 0.0 <= s + dt <= 2.0
    ensures Fall(m, dt) == Motion(ArcHeight(s + dt), ArcVel(s + dt), true)
  {
    ArcSign(s + dt);
    ArcStep(s, dt);
  }

  /** With every tick lasting dt, a jump from the floor stays in the air
      until the tick n on which 2 seconds of simulated time have passed, and
      on that tick it lands exactly on the floor, at rest. */
  lemma JumpLands(dt: real, n: nat)
    requires 0.0 < dt && n > 0 && Elapsed(dt, n - 1) <= 2.0 < Elapsed(dt, n)
    ensures FallN(Launch(Grounded), dt, n) == Grounded
    ensures forall k: nat :: k < n ==> FallN(Launch(Grounded), dt, k).airborne
  {
    forall k: nat | k < n
      ensures FallN(Launch(Grounded), dt, k).airborne
    {
      ElapsedMono(dt, k, n - 1);
      JumpArc(dt, k);
    }
    LandsOnTick(dt, n);
  }

  lemma LandsOnTick(dt: real, n: nat)
    requires 0.0 < dt && n > 0 && Elapsed(dt, n - 1) <= 2.0 < Elapsed(dt, n)
    ensures FallN(Launch(Grounded), dt, n) == Grounded
  {
    var s := Elapsed(dt, n - 1);
    JumpArc(dt, n - 1);
    ArcSign(s + dt);
    ArcStep(s, dt);
  }

  // ---------------------------------------------------------------------
  // Player animation

  /** `spriteTime` and `spriteIndex`. */
  datatype Sprite = Sprite(time: real, index: int)

  /** Java's `%` on int, which truncates towards zero. */
  function JavaRem(a: int, b: int): (r: int)
    requires b > 0
    ensures a >= 0 ==> 0 <= r < b
  {
    if a >= 0 then a % b else -((-a) % b)
  }

  /** The animation half of `Player.update`: once SPRITE_DURATION has
      accumulated, move to the next of the three frames. */
  function Animate(s: Sprite, dt: real): (r: Sprite)
    ensures 0 <= s.index < SPRITE_COUNT ==> 0 <= r.index < SPRITE_COUNT
    ensures 0.0 <= s.time < SPRITE_DURATION && 0.0 <= dt <= SPRITE_DURATION ==>
      0.0 <= r.time < SPRITE_DURATION
    ensures r.index != s.index <==> s.time + dt >= SPRITE_DURATION
    ensures 0 <= s.index < SPRITE_COUNT && r.index != s.index ==> r.index == (s.index + 1) % SPRITE_COUNT
    ensures r.index != s.index ==> r.time == s.time + dt - SPRITE_DURATION
    ensures r.index == s.index ==> r.time == s.time + dt
  {
    var time := s.time + dt;
    if time >= SPRITE_DURATION then Sprite(time - SPRITE_DURATION, JavaRem(s.index + 1, SPRITE_COUNT))
    else Sprite(time, s.index)
  }

  /** `DinoGame.Player`. */
  class Player {
    var jumpHeight: real
    var velY: real
    var jumping: bool
    var spriteTime: real
    var spriteIndex: int

    function Vertical(): Motion
      reads this
    {
      Motion(jumpHeight, velY, jumping)
    }

    function Frame(): Sprite
      reads this
    {
      Sprite(spriteTime, spriteIndex)
    }

    /** What update, jump and reset keep: grounded means on the floor at
        rest, the player is never below the floor, and the frame index
        names one of the three sprites. */
    ghost predicate Valid()
      reads this
    {
      Settled(Vertical()) && jumpHeight >= 0.0 && 0 <= spriteIndex < SPRITE_COUNT
    }

    constructor ()
      ensures Vertical() == Grounded && Frame() == Sprite(0.0, 0)
      ensures Valid()
    {
      jumpHeight, velY, jumping := 0.0, 0.0, false;
      spriteTime, spriteIndex := 0.0, 0;
    }

    /** `get_x`, `get_y`, `get_w`, `get_h` and `get_collisionShape`: a 90 by
        90 box at x = 60 whose bottom is the ground line raised by the jump. */
    function Hitbox(): (b: Bounds)
      reads this
      ensures b.shape == Box && b.NonNegative()
      ensures b.Bottom() == GROUND_LINE - jumpHeight
    {
      Bounds(Box, 60.0, HEIGHT - GROUND_HEIGHT - 90.0 + 10.0 - jumpHeight, 90.0, 90.0)
    }

    method Reset()
      modifies this`jumping, this`jumpHeight, this`velY
      ensures Vertical() == Grounded
    {
      jumping := false;
      jumpHeight := 0.0;
      velY := 0.0;
    }

    method Update(dt: real)
      modifies this
      ensures Vertical() == Fall(old(Vertical()), dt)
      ensures Frame() == Animate(old(Frame()), dt)
      ensures old(Valid()) ==> Valid()
    {
      if jumping {
        var newVelY := velY - dt * GRAVITY;
        jumpHeight := jumpHeight + (velY + newVelY) / 2.0 * dt;
        velY := newVelY;
        if jumpHeight < 0.0 {
          jumpHeight := 0.0;
          velY := 0.0;
          jumping := false;
        }
      }
      spriteTime := spriteTime + dt;
      if spriteTime >= SPRITE_DURATION {
        spriteTime := spriteTime - SPRITE_DURATION;
        spriteIndex := spriteIndex + 1;
        spriteIndex := JavaRem(spriteIndex, SPRITE_COUNT);
      }
    }

    method Jump()
      modifies this`velY, this`jumping
      ensures Vertical() == Launch(old(Vertical()))
      ensures old(Valid()) ==> Valid()
    {
      if !jumping {
        velY := JUMP_VELOCITY;
        jumping := true;
      }
    }
  }

  // ---------------------------------------------------------------------
  // Obstacles

  /** `Obstacle.ObstacleType`. */
  datatype ObstacleKind = Fire1 | Fire2 | Fire3

  function ObstacleWidth(k: ObstacleKind): real
  {
    match k
    case Fire1 => 50.0
    case Fire2 => 70.0
    case Fire3 => 100.0
  }

  function ObstacleHeight(k: ObstacleKind): real
  {
    match k
    case Fire1 => 50.0
    case Fire2 => 70.0
    case Fire3 => 65.0
  }

  /** `DinoGame.Obstacle`: a fire of one of three sizes that enters at the
      right edge of the screen and scrolls left. */
  class Obstacle {
    const kind: ObstacleKind
    var x: real

    /** The kind is the random draw of the source, passed in. */
    constructor (kind: ObstacleKind)
      ensures this.kind == kind && x == WIDTH
    {
      this.kind := kind;
      x := WIDTH;
    }

    /** A box standing on the ground line. */
    function Hitbox(): (b: Bounds)
      reads this
      ensures b.shape == Box && b.NonNegative() && b.w > 0.0 && b.h > 0.0
      ensures b.x == x && b.Bottom() == GROUND_LINE
    {
      var h := ObstacleHeight(kind);
      Bounds(Box, x, HEIGHT - GROUND_HEIGHT - h + 10.0, ObstacleWidth(kind), h)
    }

    method Update(dt: real)
      modifies this`x
      ensures x == old(x) - dt * INITIAL_SPEED
    {
      x := x - dt * INITIAL_SPEED;
    }
  }

  // ---------------------------------------------------------------------
  // Coins

  /** The band `[HEIGHT - GROUND_HEIGHT - 200, HEIGHT - GROUND_HEIGHT - 50)` a coin's y is drawn from. */
  const COIN_Y_MIN: real := 247.0
  const COIN_Y_MAX: real := 397.0

  /** `DinoGame.Coin`: a circle of diameter 30 that enters at the right edge
      of the screen and scrolls left. */
  class Coin {
    var x: real
    const y: real

    /** The height is the random draw of the source, passed in. */
    constructor (y: real)
      requires COIN_Y_MIN <= y < COIN_Y_MAX
      ensures x == WIDTH && this.y == y
    {
      this.y := y;
      x := WIDTH;
    }

    /** A circle of diameter 30 (its height, 37, plays no part in a circle test). */
    function Hitbox(): (b: Bounds)
      reads this
      ensures b.shape == Circle && b.NonNegative() && b.Radius() == 15.0
      ensures b.x == x && b.y == y
    {
      Bounds(Circle, x, y, 30.0, 37.0)
    }

    method Update(dt: real)
      modifies this`x
      ensures x == old(x) - dt * INITIAL_SPEED
    {
      x := x - INITIAL_SPEED * dt;
    }
  }
}
