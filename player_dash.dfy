// The dash ability (PlayerDash): a cooldown-gated, fixed-duration burst that
// locks its direction at the start, suppresses gravity, rewrites the velocity
// every frame and owns the horizontal velocity (through `inDash` of the
// movement component) until it ends. The dash coroutine is a phase field
// advanced once per frame by `Resume`.

/** Lower bound on the duration used to compute the dash speed. */
const MinDashDuration: real := 0.01

function MaxReal(a: real, b: real): real { if a > b then a else b }

/** Dash speed: the dash distance covered in the (bounded-below) dash duration. */
function DashSpeed(dashDistance: real, dashDuration: real): (speed: real)
  ensures speed * MaxReal(MinDashDuration, dashDuration) == dashDistance
  ensures dashDistance >= 0.0 ==> speed >= 0.0
  ensures dashDuration <= MinDashDuration ==> speed == dashDistance * 100.0
{
  dashDistance / MaxReal(MinDashDuration, dashDuration)
}

/** Direction locked at dash start: right unless the player faces left. */
function DashDirection(facing: int): (dir: int)
  ensures dir == 1 || dir == -1
  ensures dir == 1 <==> facing >= 0
{
  if facing >= 0 then 1 else -1
}

/** Whether a dash request at time `now` starts a dash. */
function DashReady(hasDash: bool, now: real, lastDashTime: real, dashCooldown: real, isDashing: bool): (ready: bool)
  ensures ready ==> hasDash && !isDashing
  ensures ready <==> hasDash && !isDashing && now >= lastDashTime + dashCooldown
{
  if !hasDash then false
  else if now < lastDashTime + dashCooldown then false
  else if isDashing then false
  else true
}

/** Phase of the dash coroutine: between frames it waits either inside the
    dash loop or on the zero-length wait after gravity is restored. */
datatype DashPhase = Idle | Running | Restoring

class PlayerDash {
  const pm: PlayerMovement
  const rb: Rigidbody
  const dashDistance: real
  const dashDuration: real
  /** Gravity scale captured when the component wakes. */
  const originalGravityScale: real

  var hasDash: bool
  var dashCooldown: real
  var lastDashTime: real
  var isDashing: bool
  var phase: DashPhase
  var elapsed: real
  var dir: int
  var speed: real

  ghost predicate Valid()
    reads this, pm, rb
  {
    && (dir == 1 || dir == -1)
    && (isDashing <==> !phase.Idle?)
    && (!phase.Idle? ==> pm.inDash)
    && (phase.Running? ==> rb.gravityScale == 0.0)
    && (!phase.Idle? ==> speed == DashSpeed(dashDistance, dashDuration))
  }

  constructor (pm: PlayerMovement, rb: Rigidbody, hasDash: bool, dashDistance: real, dashDuration: real,
               dashCooldown: real)
    ensures Valid()
    ensures this.pm == pm && this.rb == rb && this.originalGravityScale == rb.gravityScale
    ensures this.hasDash == hasDash && this.dashDistance == dashDistance
    ensures this.dashDuration == dashDuration && this.dashCooldown == dashCooldown
    ensures lastDashTime == -999.0 && !isDashing && phase == Idle
  {
    this.pm := pm;
    this.rb := rb;
    this.originalGravityScale := rb.gravityScale;
    this.hasDash := hasDash;
    this.dashDistance := dashDistance;
    this.dashDuration := dashDuration;
    this.dashCooldown := dashCooldown;
    lastDashTime := -999.0;
    isDashing := false;
    phase := Idle;
    elapsed := 0.0;
    dir := 1;
    speed := 0.0;
  }

  /**
   * Dash request at time `now`, in a frame of length `dt`. A dash that starts
   * runs its first loop iteration (or, with a non-positive duration, its exit)
   * within the same frame.
   */
  method TryStartDash(now: real, dt: real)
    requires Valid()
    modifies this, pm`inDash, rb`velocity, rb`gravityScale
    ensures Valid()
    ensures !DashReady(old(hasDash), now, old(lastDashTime), old(dashCooldown), old(isDashing)) ==>
              unchanged(this) && pm.inDash == old(pm.inDash)
              && rb.velocity == old(rb.velocity) && rb.gravityScale == old(rb.gravityScale)
    ensures DashReady(old(hasDash), now, old(lastDashTime), old(dashCooldown), old(isDashing)) ==>
              && isDashing && pm.inDash && lastDashTime == now
              && dir == DashDirection(pm.facingDirection)
              && speed == DashSpeed(dashDistance, dashDuration)
              && (0.0 < dashDuration ==>
                    phase == Running && elapsed == dt && rb.velocity == Vec2(dir as real * speed, 0.0)
                    && rb.gravityScale == 0.0)
              && (dashDuration <= 0.0 ==>
                    phase == Restoring && rb.velocity == ZeroVec && rb.gravityScale == originalGravityScale)
    ensures hasDash == old(hasDash) && dashCooldown == old(dashCooldown)
  {
    if !hasDash { return; }
    if now < lastDashTime + dashCooldown { return; }
    if isDashing { return; }
    isDashing := true;
    pm.inDash := true;
    lastDashTime := now;
    dir := if pm.facingDirection >= 0 then 1 else -1;
    speed := dashDistance / MaxReal(MinDashDuration, dashDuration);
    rb.velocity := Vec2(0.0, 0.0);
    rb.gravityScale := 0.0;
    elapsed := 0.0;
    phase := Running;
    RunFrame(dt);
  }

  /** The top of the dash loop: another dash frame, or the exit while elapsed has reached the duration. */
  method RunFrame(dt: real)
    requires Valid() && phase == Running
    modifies this`elapsed, this`phase, rb`velocity, rb`gravityScale
    ensures Valid()
    ensures old(elapsed) < dashDuration ==>
              phase == Running && elapsed == old(elapsed) + dt
              && rb.velocity == Vec2(dir as real * speed, 0.0) && rb.gravityScale == 0.0
    ensures dashDuration <= old(elapsed) ==>
              phase == Restoring && elapsed == old(elapsed)
              && rb.velocity == ZeroVec && rb.gravityScale == originalGravityScale
  {
    if elapsed < dashDuration {
      rb.velocity := Vec2(dir as real * speed, 0.0);
      elapsed := elapsed + dt;
    } else {
      rb.velocity := ZeroVec;
      rb.gravityScale := originalGravityScale;
      phase := Restoring;
    }
  }

  /** The coroutine resumes in a later frame of length `dt`. */
  method Resume(dt: real)
    requires Valid()
    modifies this`elapsed, this`phase, this`isDashing, pm`inDash, rb`velocity, rb`gravityScale
    ensures Valid()
    ensures dir == old(dir) && speed == old(speed) && lastDashTime == old(lastDashTime)
    ensures old(phase) == Idle ==>
              unchanged(this) && pm.inDash == old(pm.inDash)
              && rb.velocity == old(rb.velocity) && rb.gravityScale == old(rb.gravityScale)
    ensures old(phase) == Running && old(elapsed) < dashDuration ==>
              phase == Running && elapsed == old(elapsed) + dt
              && rb.velocity == Vec2(dir as real * speed, 0.0) && rb.gravityScale == 0.0
    ensures old(phase) == Running && dashDuration <= old(elapsed) ==>
              phase == Restoring && pm.inDash && isDashing
              && rb.velocity == ZeroVec && rb.gravityScale == originalGravityScale
    ensures old(phase) == Restoring ==>
              phase == Idle && !pm.inDash && !isDashing
              && rb.velocity == old(rb.velocity) && rb.gravityScale == old(rb.gravityScale)
  {
    match phase {
      case Idle =>
      case Running =>
        RunFrame(dt);
      case Restoring =>
        pm.inDash := false;
        isDashing := false;
        phase := Idle;
    }
  }

  /** Picking up the ability. */
  method GrantDash()
    modifies this`hasDash
    ensures hasDash
  {
    hasDash := true;
  }

  method SetCooldown(s: real)
    modifies this`dashCooldown
    ensures dashCooldown == s
  {
    dashCooldown := s;
  }
}

/**
 * The engine running a started dash to its end with a constant frame time `dt`:
 * the dash keeps its velocity for exactly `frames` more frames, the least number
 * whose total time covers what is left of the duration, and then stops the body
 * dead with the original gravity scale back.
 */
method RunDashToEnd(d: PlayerDash, dt: real) returns (frames: nat)
  requires d.Valid() && d.phase == Running && dt > 0.0
  modifies d`elapsed, d`phase, d.rb`velocity, d.rb`gravityScale
  ensures d.Valid() && d.phase == Restoring
  ensures d.rb.velocity == ZeroVec && d.rb.gravityScale == d.originalGravityScale
  ensures d.elapsed == old(d.elapsed) + frames as real * dt
  ensures d.elapsed >= d.dashDuration
  ensures frames > 0 ==> old(d.elapsed) + (frames - 1) as real * dt < d.dashDuration
{
  frames := 0;
  ghost var start := d.elapsed;
  while d.phase == Running
    invariant d.Valid()
    invariant d.phase == Running || d.phase == Restoring
    invariant d.elapsed == start + frames as real * dt
    invariant frames > 0 ==> start + (frames - 1) as real * dt < d.dashDuration
    invariant d.phase == Restoring ==>
                d.elapsed >= d.dashDuration && d.rb.velocity == ZeroVec
                && d.rb.gravityScale == d.originalGravityScale
    decreases if d.phase == Running then 1 else 0, ((d.dashDuration - d.elapsed) / dt).Floor
  {
    ghost var before := d.elapsed;
    d.RunFrame(dt);
    if d.phase == Running {
      assert ((frames + 1) as real) * dt == frames as real * dt + dt;
      DivideLessOne(d.dashDuration - before, dt);
      frames := frames + 1;
    }
  }
}

lemma DivideLessOne(a: real, dt: real)
  requires dt > 0.0
  ensures (a - dt) / dt == a / dt - 1.0
{
  var q, r := a / dt, (a - dt) / dt;
  assert q * dt == a;
  assert r * dt == a - dt;
  var e := r - (q - 1.0);
  assert e * dt == 0.0;
}
