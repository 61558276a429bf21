// Horizontal control, ground and wall sensing, and the variable-height jump of
// the player (PlayerMovement). The physics queries of a tick arrive as booleans:
// `groundCast` (the downward box cast under the body collider), `groundOverlap`
// (the overlap circle at the ground-check point) and `wallCast` (the sideways box
// cast in the direction of the horizontal input).

/** Dead zone outside which horizontal input triggers the wall test. */
const WallInputThreshold: real := 0.05
/** Dead zone outside which horizontal input turns the player. */
const FacingInputThreshold: real := 0.1

function Abs(x: real): real { if x < 0.0 then -x else x }

/** The grounded flag a tick computes from whichever sensor is configured. */
function GroundedFrom(hasBodyCollider: bool, hasGroundCheck: bool, groundLayerSet: bool,
                      groundCast: bool, groundOverlap: bool): (grounded: bool)
  ensures hasBodyCollider ==> grounded == groundCast
  ensures !hasBodyCollider ==> (grounded <==> hasGroundCheck && groundLayerSet && groundOverlap)
  ensures !hasBodyCollider && !hasGroundCheck ==> !grounded
{
  if hasBodyCollider then groundCast
  else if hasGroundCheck && groundLayerSet then groundOverlap
  else false
}

/**
 * Whether the player counts as touching a wall: the sideways cast is only made
 * with a body collider and a horizontal input outside the dead zone.
 */
function TouchingWall(hasBodyCollider: bool, inputX: real, wallCast: bool): (touching: bool)
  ensures touching ==> hasBodyCollider && (inputX > WallInputThreshold || inputX < -WallInputThreshold)
  ensures hasBodyCollider && Abs(inputX) > WallInputThreshold ==> touching == wallCast
{
  hasBodyCollider && Abs(inputX) > WallInputThreshold && wallCast
}

/** Horizontal velocity after the movement step of a tick. */
function HorizontalVelocity(inDash: bool, touchingWall: bool, grounded: bool,
                            inputX: real, moveSpeed: real, vx: real): (r: real)
  ensures inDash ==> r == vx
  ensures !inDash && touchingWall && !grounded ==> r == 0.0
  ensures !inDash && !(touchingWall && !grounded) ==> r == inputX * moveSpeed
{
  if inDash then vx
  else if touchingWall && !grounded then 0.0
  else inputX * moveSpeed
}

/** Facing after a tick: turned only by input outside the dead zone, and only with a sprite. */
function FacingAfter(hasSpriteRenderer: bool, inputX: real, facing: int): (r: int)
  ensures (facing == 1 || facing == -1) ==> (r == 1 || r == -1)
  ensures r != facing ==> hasSpriteRenderer && Abs(inputX) > FacingInputThreshold
  ensures hasSpriteRenderer && inputX > FacingInputThreshold ==> r == 1
  ensures hasSpriteRenderer && inputX < -FacingInputThreshold ==> r == -1
{
  if !hasSpriteRenderer then facing
  else if inputX > FacingInputThreshold then 1
  else if inputX < -FacingInputThreshold then -1
  else facing
}

/** The part of the player's state that the jump hold-boost reads and writes. */
datatype JumpBoost = JumpBoost(isJumping: bool, jumpHeld: bool, counter: real, vy: real)

/** One tick of the hold-boost. */
function BoostStep(b: JumpBoost, dt: real, holdForce: real): (r: JumpBoost)
  ensures r.jumpHeld == b.jumpHeld
  ensures b.isJumping && b.jumpHeld && b.counter > 0.0 ==>
            r.isJumping && r.vy == b.vy + holdForce * dt && r.counter == b.counter - dt
  ensures b.isJumping && b.jumpHeld && b.counter <= 0.0 ==>
            !r.isJumping && r.vy == b.vy && r.counter == b.counter
  ensures !(b.isJumping && b.jumpHeld) ==> r == b
{
  if b.isJumping && b.jumpHeld then
    if b.counter > 0.0 then b.(counter := b.counter - dt, vy := b.vy + holdForce * dt)
    else b.(isJumping := false)
  else b
}

/** `n` consecutive ticks of the hold-boost with the same time step. */
function BoostTicks(b: JumpBoost, n: nat, dt: real, holdForce: real): JumpBoost
  decreases n
{
  if n == 0 then b else BoostTicks(BoostStep(b, dt, holdForce), n - 1, dt, holdForce)
}

/** While the counter stays positive, every tick adds `holdForce * dt` and spends `dt`. */
lemma {:induction false} BoostWhileCounterPositive(b: JumpBoost, n: nat, dt: real, holdForce: real)
  requires b.isJumping && b.jumpHeld && dt >= 0.0
  requires n > 0 ==> b.counter - (n - 1) as real * dt > 0.0
  ensures BoostTicks(b, n, dt, holdForce)
       == b.(counter := b.counter - n as real * dt, vy := b.vy + n as real * (holdForce * dt))
  decreases n
{
  if n > 0 {
    var k := (n - 1) as real;
    assert k * dt >= 0.0;
    assert b.counter > 0.0;
    var next := BoostStep(b, dt, holdForce);
    assert next == b.(counter := b.counter - dt, vy := b.vy + holdForce * dt);
    assert n - 1 > 0 ==> next.counter - (n - 2) as real * dt > 0.0 by {
      assert ((n - 2) as real + 1.0) * dt == (n - 2) as real * dt + dt;
    }
    BoostWhileCounterPositive(next, n - 1, dt, holdForce);
    assert (k + 1.0) * dt == k * dt + dt;
    assert (k + 1.0) * (holdForce * dt) == k * (holdForce * dt) + holdForce * dt;
  }
}

/** Once the boost is off (released or exhausted), further boost ticks add nothing. */
lemma {:induction false} BoostIdleStaysIdle(b: JumpBoost, n: nat, dt: real, holdForce: real)
  requires !b.isJumping || !b.jumpHeld
  ensures BoostTicks(b, n, dt, holdForce) == b
  decreases n
{
  if n > 0 {
    BoostIdleStaysIdle(BoostStep(b, dt, holdForce), n - 1, dt, holdForce);
  }
}

/** Ticks compose. */
lemma {:induction false} BoostTicksSplit(b: JumpBoost, m: nat, k: nat, dt: real, holdForce: real)
  ensures BoostTicks(b, m + k, dt, holdForce) == BoostTicks(BoostTicks(b, m, dt, holdForce), k, dt, holdForce)
  decreases m
{
  if m > 0 {
    BoostTicksSplit(BoostStep(b, dt, holdForce), m - 1, k, dt, holdForce);
  }
}

/**
 * With the default tuning (jumpForce 8, jumpHoldForce 3, jumpHoldDuration 0.25)
 * and a 0.02 s fixed step, holding the button boosts on exactly 13 ticks (the
 * counter is still 0.01 > 0 on the 13th), so the boost adds +0.78 to the
 * launch velocity of 8, and it is over from the 14th tick on.
 */
lemma HoldingJumpScenario(n: nat)
  requires n >= 14
  ensures BoostTicks(JumpBoost(true, true, 0.25, 8.0), n, 0.02, 3.0) == JumpBoost(false, true, -0.01, 8.78)
{
  var start := JumpBoost(true, true, 0.25, 8.0);
  BoostWhileCounterPositive(start, 13, 0.02, 3.0);
  var held := BoostTicks(start, 13, 0.02, 3.0);
  assert held == JumpBoost(true, true, -0.01, 8.78);
  BoostTicksSplit(start, 13, n - 13, 0.02, 3.0);
  BoostTicksSplit(held, 1, n - 14, 0.02, 3.0);
  assert BoostTicks(held, 1, 0.02, 3.0) == JumpBoost(false, true, -0.01, 8.78);
  BoostIdleStaysIdle(JumpBoost(false, true, -0.01, 8.78), n - 14, 0.02, 3.0);
}

/**
 * Releasing after five 0.02 s ticks (0.1 s) leaves the boost's contribution
 * at +0.3 over the launch velocity of 8: however many ticks follow, no further
 * boost is added.
 */
lemma ReleaseScenario(n: nat)
  ensures var held := BoostTicks(JumpBoost(true, true, 0.25, 8.0), 5, 0.02, 3.0);
          BoostTicks(held.(jumpHeld := false, isJumping := false), n, 0.02, 3.0).vy == 8.3
{
  var start := JumpBoost(true, true, 0.25, 8.0);
  BoostWhileCounterPositive(start, 5, 0.02, 3.0);
  var released := BoostTicks(start, 5, 0.02, 3.0).(jumpHeld := false, isJumping := false);
  assert released.vy == 8.3;
  BoostIdleStaysIdle(released, n, 0.02, 3.0);
}

class PlayerMovement {
  const rb: Rigidbody
  const moveSpeed: real
  const jumpForce: real
  const jumpHoldForce: real
  const jumpHoldDuration: real
  // Configuration resolved in Awake: a body collider (assigned or found on the
  // object), a ground-check point (assigned or found by name), a non-empty
  // ground layer mask, and a sprite renderer.
  const hasBodyCollider: bool
  const hasGroundCheck: bool
  const groundLayerSet: bool
  const hasSpriteRenderer: bool

  /** False once the component is disabled (the player's death): the engine then stops
      calling the tick and the input callbacks. */
  var enabled: bool
  var moveInput: Vec2
  var jumpTimeCounter: real
  var isJumping: bool
  var jumpHeld: bool
  var jumpQueued: bool
  var isGrounded: bool
  var facingDirection: int
  /** Set by the dash while it owns the horizontal velocity. */
  var inDash: bool

  ghost predicate Valid()
    reads this
  {
    facingDirection == 1 || facingDirection == -1
  }

  /** The hold-boost view of the state. */
  function Boost(): JumpBoost
    reads this, rb
  {
    JumpBoost(isJumping, jumpHeld, jumpTimeCounter, rb.velocity.y)
  }

  constructor (rb: Rigidbody, moveSpeed: real, jumpForce: real, jumpHoldForce: real, jumpHoldDuration: real,
               hasBodyCollider: bool, hasGroundCheck: bool, groundLayerSet: bool, hasSpriteRenderer: bool)
    ensures Valid() && enabled
    ensures this.rb == rb && this.moveSpeed == moveSpeed && this.jumpForce == jumpForce
    ensures this.jumpHoldForce == jumpHoldForce && this.jumpHoldDuration == jumpHoldDuration
    ensures this.hasBodyCollider == hasBodyCollider && this.hasGroundCheck == hasGroundCheck
    ensures this.groundLayerSet == groundLayerSet && this.hasSpriteRenderer == hasSpriteRenderer
    ensures facingDirection == 1 && !inDash && moveInput == ZeroVec
    ensures !isJumping && !jumpHeld && !jumpQueued && !isGrounded && jumpTimeCounter == 0.0
  {
    this.rb := rb;
    this.moveSpeed := moveSpeed;
    this.jumpForce := jumpForce;
    this.jumpHoldForce := jumpHoldForce;
    this.jumpHoldDuration := jumpHoldDuration;
    this.hasBodyCollider := hasBodyCollider;
    this.hasGroundCheck := hasGroundCheck;
    this.groundLayerSet := groundLayerSet;
    this.hasSpriteRenderer := hasSpriteRenderer;
    enabled := true;
    moveInput := ZeroVec;
    jumpTimeCounter := 0.0;
    isJumping := false;
    jumpHeld := false;
    jumpQueued := false;
    isGrounded := false;
    facingDirection := 1;
    inDash := false;
  }

  /** Move input callback: the latest move vector. */
  method OnMove(value: Vec2)
    modifies this`moveInput
    ensures moveInput == if old(enabled) then value else old(moveInput)
  {
    if !enabled { return; }
    moveInput := value;
  }

  /** Jump pressed: jump at once when grounded, otherwise buffer the jump. */
  method OnJumpPressed()
    requires Valid()
    modifies this, rb`velocity
    ensures Valid()
    ensures !old(enabled) ==> unchanged(this) && rb.velocity == old(rb.velocity)
    ensures old(enabled) ==> jumpHeld
    ensures old(enabled) && old(isGrounded) ==>
              isJumping && jumpTimeCounter == jumpHoldDuration && jumpQueued == old(jumpQueued)
              && rb.velocity == Vec2(old(rb.velocity.x), jumpForce)
    ensures old(enabled) && !old(isGrounded) ==>
              jumpQueued && isJumping == old(isJumping) && jumpTimeCounter == old(jumpTimeCounter)
              && rb.velocity == old(rb.velocity)
    ensures enabled == old(enabled) && isGrounded == old(isGrounded) && moveInput == old(moveInput)
    ensures facingDirection == old(facingDirection) && inDash == old(inDash)
  {
    if !enabled { return; }
    jumpHeld := true;
    if isGrounded {
      StartJump();
    } else {
      jumpQueued := true;
    }
  }

  /** Jump released: the hold-boost stops at once. */
  method OnJumpReleased()
    modifies this`jumpHeld, this`isJumping
    ensures old(enabled) ==> !jumpHeld && !isJumping
    ensures !old(enabled) ==> jumpHeld == old(jumpHeld) && isJumping == old(isJumping)
  {
    if !enabled { return; }
    jumpHeld := false;
    isJumping := false;
  }

  /** Launch: vertical velocity becomes jumpForce, the hold counter is re-armed. */
  method StartJump()
    modifies this`isJumping, this`jumpTimeCounter, rb`velocity
    ensures isJumping && jumpTimeCounter == jumpHoldDuration
    ensures rb.velocity == Vec2(old(rb.velocity.x), jumpForce)
  {
    isJumping := true;
    jumpTimeCounter := jumpHoldDuration;
    rb.velocity := Vec2(rb.velocity.x, jumpForce);
  }

  /** One fixed-timestep tick of length `dt`. */
  method FixedUpdate(dt: real, groundCast: bool, groundOverlap: bool, wallCast: bool)
    requires Valid()
    modifies this, rb`velocity
    ensures Valid()
    ensures !old(enabled) ==> unchanged(this) && rb.velocity == old(rb.velocity)
    ensures old(enabled) ==>
      isGrounded == GroundedFrom(hasBodyCollider, hasGroundCheck, groundLayerSet, groundCast, groundOverlap)
    ensures old(enabled) ==>
      rb.velocity.x == HorizontalVelocity(inDash, TouchingWall(hasBodyCollider, moveInput.x, wallCast),
                                          isGrounded, moveInput.x, moveSpeed, old(rb.velocity.x))
    ensures old(enabled) && isGrounded && old(jumpQueued) ==>
      isJumping && jumpTimeCounter == jumpHoldDuration && rb.velocity.y == jumpForce && !jumpQueued
    ensures old(enabled) && !(isGrounded && old(jumpQueued)) ==>
      JumpBoost(isJumping, jumpHeld, jumpTimeCounter, rb.velocity.y)
        == BoostStep(JumpBoost(old(isJumping), old(jumpHeld), old(jumpTimeCounter), old(rb.velocity.y)),
                     dt, jumpHoldForce)
      && jumpQueued == old(jumpQueued)
    ensures old(enabled) ==> facingDirection == FacingAfter(hasSpriteRenderer, moveInput.x, old(facingDirection))
    ensures jumpHeld == old(jumpHeld)
    ensures enabled == old(enabled) && moveInput == old(moveInput) && inDash == old(inDash)
    ensures inDash ==> rb.velocity.x == old(rb.velocity.x)
  {
    if !enabled { return; }
    SenseGround(groundCast, groundOverlap);
    MoveHorizontally(wallCast);
    ApplyHoldBoost(dt);
    if isGrounded && jumpQueued {
      StartJump();
      jumpQueued := false;
    }
    UpdateFacing();
  }

  /** Ground sensing of a tick: the box cast with a body collider, else the overlap circle. */
  method SenseGround(groundCast: bool, groundOverlap: bool)
    modifies this`isGrounded
    ensures isGrounded == GroundedFrom(hasBodyCollider, hasGroundCheck, groundLayerSet, groundCast, groundOverlap)
  {
    if hasBodyCollider {
      isGrounded := groundCast;
    } else {
      if hasGroundCheck && groundLayerSet {
        isGrounded := groundOverlap;
      } else {
        isGrounded := false;
      }
    }
  }

  /** Wall test and horizontal control; the dash, while active, owns the horizontal velocity. */
  method MoveHorizontally(wallCast: bool)
    modifies rb`velocity
    ensures rb.velocity.x == HorizontalVelocity(inDash, TouchingWall(hasBodyCollider, moveInput.x, wallCast),
                                                isGrounded, moveInput.x, moveSpeed, old(rb.velocity.x))
    ensures rb.velocity.y == old(rb.velocity.y)
  {
    var isTouchingWall := false;
    if hasBodyCollider && Abs(moveInput.x) > WallInputThreshold {
      isTouchingWall := wallCast;
    }
    if isTouchingWall && !isGrounded {
      if !inDash {
        rb.velocity := Vec2(0.0, rb.velocity.y);
      }
    } else {
      if !inDash {
        rb.velocity := Vec2(moveInput.x * moveSpeed, rb.velocity.y);
      }
    }
  }

  /** The hold-boost of a tick. */
  method ApplyHoldBoost(dt: real)
    modifies this`isJumping, this`jumpTimeCounter, rb`velocity
    ensures Boost() == BoostStep(old(Boost()), dt, jumpHoldForce)
    ensures rb.velocity.x == old(rb.velocity.x)
  {
    if isJumping && jumpHeld {
      if jumpTimeCounter > 0.0 {
        rb.velocity := Vec2(rb.velocity.x, rb.velocity.y + jumpHoldForce * dt);
        jumpTimeCounter := jumpTimeCounter - dt;
      } else {
        isJumping := false;
      }
    }
  }

  /** Facing follows horizontal input outside the dead zone, when a sprite is present. */
  method UpdateFacing()
    modifies this`facingDirection
    ensures facingDirection == FacingAfter(hasSpriteRenderer, moveInput.x, old(facingDirection))
  {
    if hasSpriteRenderer {
      if moveInput.x > FacingInputThreshold {
        facingDirection := 1;
      } else if moveInput.x < -FacingInputThreshold {
        facingDirection := -1;
      }
    }
  }
}
