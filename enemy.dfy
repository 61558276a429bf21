// The enemy (Enemy): patrol between two endpoints, chase the player with
// hysteresis (entered by the player's distance to the enemy, left by the
// player's distance to the spawn point), a health pool clamped at zero, and a
// one-shot death that turns every later callback into a no-op.
//
// The player's position is an `Option<Vec2>` input (`None` when there is no
// player in the scene), the enemy's own position is an input as well, and every
// length the engine computes with a square root is supplied together with the
// fact `IsLength` that pins it down.

datatype PatrolMode = Points | Radius

/** The left and right patrol endpoints. */
datatype PatrolEnds = PatrolEnds(left: Vec2, right: Vec2)

/** Distance to the patrol target under which the target counts as reached. */
const ReachEps: real := 0.05
/** Dead zone of the horizontal direction inside which the facing is kept. */
const FacingDeadZone: real := 0.05
/** Default offset of patrol point B in Points mode when the radius is not positive. */
const DefaultPatrolOffset: real := 2.0
/** Vertical lift added to the knockback of an attack hitbox touch. */
const HitLift: real := 0.3

/**
 * The two patrol endpoints fixed when the enemy wakes. In Points mode a missing
 * point A is the spawn point and a missing point B lies to the right of the
 * spawn point by the patrol radius (or by 2 when the radius is not positive);
 * in Radius mode the endpoints are the spawn point shifted left and right by
 * the radius.
 */
function PatrolEndpoints(mode: PatrolMode, spawn: Vec2, pointA: Option<Vec2>, pointB: Option<Vec2>,
                         patrolRadius: real): (ends: PatrolEnds)
  ensures mode == Radius ==>
            ends.left.y == spawn.y && ends.right.y == spawn.y
            && spawn.x - ends.left.x == patrolRadius && ends.right.x - spawn.x == patrolRadius
  ensures mode == Points ==> ends.left == (if pointA.Some? then pointA.value else spawn)
  ensures mode == Points && pointB.Some? ==> ends.right == pointB.value
  ensures mode == Points && pointB.None? ==>
            ends.right.y == spawn.y && ends.right.x > spawn.x
            && ends.right.x - spawn.x == (if patrolRadius > 0.0 then patrolRadius else DefaultPatrolOffset)
{
  match mode
  case Points =>
    var a := if pointA.Some? then pointA.value else spawn;
    var b := if pointB.Some? then pointB.value
             else Add(spawn, Vec2(if patrolRadius > 0.0 then patrolRadius else DefaultPatrolOffset, 0.0));
    PatrolEnds(a, b)
  case Radius =>
    PatrolEnds(Sub(spawn, Vec2(patrolRadius, 0.0)), Add(spawn, Vec2(patrolRadius, 0.0)))
}

/** Starting health: at least one. */
function InitialEnemyHealth(maxHealth: int): (h: int)
  ensures h >= 1 && h >= maxHealth
  ensures maxHealth >= 1 ==> h == maxHealth
{
  if maxHealth > 1 then maxHealth else 1
}

/** Health after a hit of `amount`, clamped at zero. */
function EnemyHealthAfter(health: int, amount: int): (r: int)
  ensures r >= 0
  ensures r == 0 <==> amount >= health
  ensures amount <= health ==> r == health - amount
  ensures amount >= 0 && health >= 0 ==> r <= health
{
  if health - amount > 0 then health - amount else 0
}

/**
 * The chase mode after one Update: a patrolling enemy starts chasing when the
 * player is within the detection radius of the enemy; a chasing enemy gives up
 * when the player is farther than the lose-interest distance from the spawn
 * point; with no player nothing changes.
 */
function NextChasing(chasing: bool, player: Option<Vec2>, pos: Vec2, spawn: Vec2,
                     detectRadius: real, loseInterestDistance: real): (c: bool)
  ensures player.None? ==> c == chasing
  ensures player.Some? && !chasing ==> (c <==> WithinDistance(player.value, pos, detectRadius))
  ensures player.Some? && chasing ==> (c <==> WithinDistance(player.value, spawn, loseInterestDistance))
{
  if player.None? then chasing
  else if !chasing then WithinDistance(player.value, pos, detectRadius)
  else WithinDistance(player.value, spawn, loseInterestDistance)
}

/** The mode switch stated with the engine's distances. */
lemma ChaseSwitchByDistance(chasing: bool, player: Vec2, pos: Vec2, spawn: Vec2,
                            detectRadius: real, loseInterestDistance: real,
                            distToPlayer: real, distPlayerToSpawn: real)
  requires IsLength(Sub(player, pos), distToPlayer)
  requires IsLength(Sub(player, spawn), distPlayerToSpawn)
  ensures !chasing ==>
            (NextChasing(chasing, Some(player), pos, spawn, detectRadius, loseInterestDistance)
             <==> distToPlayer <= detectRadius)
  ensures chasing ==>
            (!NextChasing(chasing, Some(player), pos, spawn, detectRadius, loseInterestDistance)
             <==> distPlayerToSpawn > loseInterestDistance)
{
  WithinDistanceIsDistance(player, pos, detectRadius, distToPlayer);
  WithinDistanceIsDistance(player, spawn, loseInterestDistance, distPlayerToSpawn);
}

/** One frame as Update sees it: where the player is (if anywhere) and where the enemy is. */
datatype Sighting = Sighting(player: Option<Vec2>, pos: Vec2)

/** The chase mode after a run of Updates. */
function ChaseAfter(chasing: bool, frames: seq<Sighting>, spawn: Vec2,
                    detectRadius: real, loseInterestDistance: real): bool
  decreases |frames|
{
  if frames == [] then chasing
  else ChaseAfter(NextChasing(chasing, frames[0].player, frames[0].pos, spawn, detectRadius, loseInterestDistance),
                  frames[1..], spawn, detectRadius, loseInterestDistance)
}

/** Hysteresis, chasing side: once chasing, the enemy keeps chasing for as long as
    the player stays within the lose-interest distance of the spawn point, however
    far the player is from the enemy. */
lemma {:induction false} ChaseIsKept(frames: seq<Sighting>, spawn: Vec2, detectRadius: real, loseInterestDistance: real)
  requires forall i :: 0 <= i < |frames| && frames[i].player.Some? ==>
             WithinDistance(frames[i].player.value, spawn, loseInterestDistance)
  ensures ChaseAfter(true, frames, spawn, detectRadius, loseInterestDistance)
  decreases |frames|
{
  if frames != [] {
    ChaseIsKept(frames[1..], spawn, detectRadius, loseInterestDistance);
  }
}

/** Hysteresis, patrolling side: a patrolling enemy keeps patrolling for as long as
    the player stays outside the detection radius, however far from the spawn point. */
lemma {:induction false} PatrolIsKept(frames: seq<Sighting>, spawn: Vec2, detectRadius: real, loseInterestDistance: real)
  requires forall i :: 0 <= i < |frames| && frames[i].player.Some? ==>
             !WithinDistance(frames[i].player.value, frames[i].pos, detectRadius)
  ensures !ChaseAfter(false, frames, spawn, detectRadius, loseInterestDistance)
  decreases |frames|
{
  if frames != [] {
    PatrolIsKept(frames[1..], spawn, detectRadius, loseInterestDistance);
  }
}

/** The patrol target after reaching the current one: the right point if the
    current target equals the left point (by the engine's approximate equality),
    the left point otherwise. */
function SwapTarget(target: Vec2, leftPoint: Vec2, rightPoint: Vec2): (t: Vec2)
  ensures t == leftPoint || t == rightPoint
  ensures t == rightPoint <==> ApproxEqual(target, leftPoint) || rightPoint == leftPoint
{
  if ApproxEqual(target, leftPoint) then rightPoint else leftPoint
}

lemma ApproxEqualReflexive(v: Vec2)
  ensures ApproxEqual(v, v)
{
  assert Sub(v, v) == ZeroVec;
}

/** With endpoints the engine tells apart, reaching a target always turns the
    patrol toward the other endpoint. */
lemma SwapTargetAlternates(leftPoint: Vec2, rightPoint: Vec2)
  requires !ApproxEqual(rightPoint, leftPoint)
  ensures SwapTarget(leftPoint, leftPoint, rightPoint) == rightPoint
  ensures SwapTarget(rightPoint, leftPoint, rightPoint) == leftPoint
{
  ApproxEqualReflexive(leftPoint);
}

/** Facing after moving along a horizontal direction `xDir`. */
function EnemyFacing(facingRight: bool, xDir: real): (f: bool)
  ensures xDir > FacingDeadZone ==> f
  ensures xDir < -FacingDeadZone ==> !f
  ensures -FacingDeadZone <= xDir <= FacingDeadZone ==> f == facingRight
{
  if xDir > FacingDeadZone then true
  else if xDir < -FacingDeadZone then false
  else facingRight
}

/** The knockback direction of a hit: away from the player, or straight up when
    there is no player; `m` is the distance from the player to the enemy. */
function AwayFromPlayer(player: Option<Vec2>, pos: Vec2, m: real): (dir: Vec2)
  requires player.Some? ==> IsLength(Sub(pos, player.value), m)
  ensures player.None? ==> dir == UpVec
  ensures player.Some? && m > NormalizeEpsilon ==> SqLen(dir) == 1.0 && Scale(dir, m) == Sub(pos, player.value)
  ensures player.Some? && m <= NormalizeEpsilon ==> dir == ZeroVec
{
  if player.Some? then
    NormalizedIsUnit(Sub(pos, player.value), m);
    Normalized(Sub(pos, player.value), m)
  else UpVec
}

class Enemy {
  const rb: Rigidbody
  const mode: PatrolMode
  const spawn: Vec2
  const leftPoint: Vec2
  const rightPoint: Vec2
  const patrolSpeed: real
  const chaseSpeed: real
  const detectRadius: real
  const loseInterestDistance: real
  const contactDamage: int
  const hitKnockbackForce: real
  const contactKnockbackForce: real

  var patrolTarget: Vec2
  var currentHealth: int
  var isDead: bool
  var isChasing: bool
  var facingRight: bool
  var colliderEnabled: bool
  /** How many times the death routine has been started. */
  ghost var deathStarts: nat

  ghost predicate Valid()
    reads this, rb
  {
    && (patrolTarget == leftPoint || patrolTarget == rightPoint)
    && currentHealth >= 0
    && (isDead <==> currentHealth == 0)
    && deathStarts == (if isDead then 1 else 0)
    && (isDead ==> !colliderEnabled && rb.isKinematic)
  }

  /** Awake: spawn point, starting health, patrol endpoints, and the patrol heading right. */
  constructor (rb: Rigidbody, mode: PatrolMode, spawn: Vec2, pointA: Option<Vec2>, pointB: Option<Vec2>,
               patrolRadius: real, patrolSpeed: real, chaseSpeed: real, detectRadius: real,
               loseInterestDistance: real, maxHealth: int, contactDamage: int,
               hitKnockbackForce: real, contactKnockbackForce: real)
    ensures Valid()
    ensures this.rb == rb && this.mode == mode && this.spawn == spawn
    ensures PatrolEnds(leftPoint, rightPoint) == PatrolEndpoints(mode, spawn, pointA, pointB, patrolRadius)
    ensures patrolTarget == rightPoint
    ensures currentHealth == InitialEnemyHealth(maxHealth)
    ensures !isDead && !isChasing && facingRight && colliderEnabled
    ensures this.patrolSpeed == patrolSpeed && this.chaseSpeed == chaseSpeed
    ensures this.detectRadius == detectRadius && this.loseInterestDistance == loseInterestDistance
    ensures this.contactDamage == contactDamage
    ensures this.hitKnockbackForce == hitKnockbackForce && this.contactKnockbackForce == contactKnockbackForce
  {
    this.rb := rb;
    this.mode := mode;
    this.spawn := spawn;
    var ends := PatrolEndpoints(mode, spawn, pointA, pointB, patrolRadius);
    this.leftPoint := ends.left;
    this.rightPoint := ends.right;
    this.patrolSpeed := patrolSpeed;
    this.chaseSpeed := chaseSpeed;
    this.detectRadius := detectRadius;
    this.loseInterestDistance := loseInterestDistance;
    this.contactDamage := contactDamage;
    this.hitKnockbackForce := hitKnockbackForce;
    this.contactKnockbackForce := contactKnockbackForce;
    currentHealth := InitialEnemyHealth(maxHealth);
    isDead := false;
    isChasing := false;
    facingRight := true;
    colliderEnabled := true;
    deathStarts := 0;
    patrolTarget := ends.right;
  }

  /** Per-frame mode update. */
  method Update(player: Option<Vec2>, pos: Vec2)
    modifies this`isChasing
    ensures isDead ==> isChasing == old(isChasing)
    ensures !isDead ==> isChasing == NextChasing(old(isChasing), player, pos, spawn, detectRadius, loseInterestDistance)
  {
    if isDead { return; }
    if player.Some? {
      if !isChasing {
        if WithinDistance(player.value, pos, detectRadius) {
          isChasing := true;
        }
      } else {
        if !WithinDistance(player.value, spawn, loseInterestDistance) {
          isChasing := false;
        }
      }
    }
  }

  /**
   * Per-physics-step movement. `toPlayer` is the distance from the enemy to the
   * player and `toTarget` the distance from the enemy to the patrol target.
   * Dead: the body is held still. Chasing a present player: horizontal velocity
   * along the unit direction to the player. Otherwise: head for the patrol target,
   * or swap the target once within reach of it.
   */
  method FixedUpdate(player: Option<Vec2>, pos: Vec2, toPlayer: real, toTarget: real)
    requires Valid()
    requires player.Some? ==> IsLength(Sub(player.value, pos), toPlayer)
    requires IsLength(Sub(patrolTarget, pos), toTarget)
    modifies this`patrolTarget, this`facingRight, rb`velocity
    ensures Valid()
    ensures old(isDead) ==>
              rb.velocity == ZeroVec && patrolTarget == old(patrolTarget) && facingRight == old(facingRight)
    ensures !isDead && isChasing && player.Some? ==>
              var dir := Normalized(Sub(player.value, pos), toPlayer);
              && rb.velocity == Vec2(dir.x * chaseSpeed, old(rb.velocity.y))
              && facingRight == EnemyFacing(old(facingRight), dir.x)
              && patrolTarget == old(patrolTarget)
    ensures !isDead && !(isChasing && player.Some?) && toTarget > ReachEps ==>
              var dir := Normalized(Sub(old(patrolTarget), pos), toTarget);
              && rb.velocity == Vec2(dir.x * patrolSpeed, old(rb.velocity.y))
              && SqLen(dir) == 1.0
              && facingRight == EnemyFacing(old(facingRight), dir.x)
              && patrolTarget == old(patrolTarget)
    ensures !isDead && !(isChasing && player.Some?) && toTarget <= ReachEps ==>
              patrolTarget == SwapTarget(old(patrolTarget), leftPoint, rightPoint)
              && rb.velocity == old(rb.velocity) && facingRight == old(facingRight)
  {
    if isDead {
      rb.velocity := ZeroVec;
      return;
    }
    if isChasing && player.Some? {
      var dir := Normalized(Sub(player.value, pos), toPlayer);
      rb.velocity := Vec2(dir.x * chaseSpeed, rb.velocity.y);
      UpdateFacing(dir.x);
    } else {
      if toTarget > ReachEps {
        var dir := Normalized(Sub(patrolTarget, pos), toTarget);
        NormalizedIsUnit(Sub(patrolTarget, pos), toTarget);
        rb.velocity := Vec2(dir.x * patrolSpeed, rb.velocity.y);
        UpdateFacing(dir.x);
      } else {
        patrolTarget := SwapTarget(patrolTarget, leftPoint, rightPoint);
      }
    }
  }

  method UpdateFacing(xDir: real)
    modifies this`facingRight
    ensures facingRight == EnemyFacing(old(facingRight), xDir)
  {
    if xDir > FacingDeadZone && !facingRight {
      facingRight := true;
    } else if xDir < -FacingDeadZone && facingRight {
      facingRight := false;
    }
  }

  /**
   * The whole effect of a hit of `amount` with knockback direction `kbDir`: a
   * dead enemy does not change; a live one loses health down to zero and either
   * dies (stopped, kinematic, collider off, the death routine started once) or
   * is knocked along `kbDir`. Patrol, chase and facing state never change.
   */
  twostate predicate HitEffect(amount: int, kbDir: Vec2)
    reads this, rb
  {
    && patrolTarget == old(patrolTarget) && isChasing == old(isChasing) && facingRight == old(facingRight)
    && rb.gravityScale == old(rb.gravityScale)
    && (old(isDead) ==> unchanged(this) && unchanged(rb))
    && (!old(isDead) ==>
          && currentHealth == EnemyHealthAfter(old(currentHealth), amount)
          && (isDead <==> currentHealth == 0)
          && (isDead ==>
                rb.velocity == ZeroVec && rb.isKinematic && !colliderEnabled && deathStarts == old(deathStarts) + 1)
          && (!isDead ==>
                && rb.velocity == Scale(kbDir, hitKnockbackForce) && rb.isKinematic == old(rb.isKinematic)
                && colliderEnabled == old(colliderEnabled) && deathStarts == old(deathStarts)))
  }

  /**
   * A hit of `amount`. The knockback points away from the player at `player`
   * (`AwayFromPlayer`, with `m` the player-to-enemy distance), or up when there
   * is no player; the enemy stands at `pos`.
   */
  method TakeDamage(amount: int, player: Option<Vec2>, pos: Vec2, m: real)
    requires Valid()
    requires player.Some? ==> IsLength(Sub(pos, player.value), m)
    modifies this`currentHealth, this`isDead, this`colliderEnabled, this`deathStarts, rb`velocity, rb`isKinematic
    ensures Valid()
    ensures HitEffect(amount, AwayFromPlayer(player, pos, m))
  {
    if isDead { return; }
    currentHealth := currentHealth - amount;
    if currentHealth < 0 { currentHealth := 0; }
    var kbDir := AwayFromPlayer(player, pos, m);
    rb.velocity := Scale(kbDir, hitKnockbackForce);
    if currentHealth <= 0 {
      StartDeath();
    }
  }

  /** The state-setting start of the death routine. */
  method StartDeath()
    requires !isDead && currentHealth == 0 && deathStarts == 0
    modifies this`isDead, this`colliderEnabled, this`deathStarts, rb`velocity, rb`isKinematic
    ensures isDead && !colliderEnabled && deathStarts == 1
    ensures rb.velocity == ZeroVec && rb.isKinematic
  {
    isDead := true;
    deathStarts := deathStarts + 1;
    rb.velocity := ZeroVec;
    rb.isKinematic := true;
    colliderEnabled := false;
  }

  /**
   * Contact with another body: `pc` and `playerRb` are its PlayerCombat and
   * Rigidbody (null when absent), `otherPos` its position and `m` its distance
   * from the enemy. A vulnerable player takes the contact damage and, if it has a
   * body, is knocked straight away from the enemy.
   */
  method OnCollisionEnter2D(pc: PlayerCombat?, playerRb: Rigidbody?, otherPos: Vec2, pos: Vec2, m: real)
    requires Valid()
    requires pc != null ==> pc.Valid()
    requires IsLength(Sub(otherPos, pos), m)
    modifies (if pc != null then {pc, pc.pm} else {}), playerRb
    ensures Valid()
    ensures pc != null ==> pc.Valid()
    ensures playerRb != null ==> unchanged(playerRb`gravityScale, playerRb`isKinematic)
    ensures old(isDead) || pc == null || old(pc.IsInvulnerable()) ==>
              (pc != null ==> unchanged(pc) && unchanged(pc.pm))
              && (playerRb != null ==> unchanged(playerRb))
    ensures !old(isDead) && pc != null && !old(pc.IsInvulnerable()) ==>
              && pc.HitTaken(contactDamage)
              && (playerRb != null ==>
                    playerRb.velocity == Scale(Normalized(Sub(otherPos, pos), m), contactKnockbackForce))
  {
    if isDead { return; }
    if pc != null {
      if pc.IsInvulnerable() { return; }
      pc.TakeDamage(contactDamage);
      if playerRb != null {
        playerRb.velocity := Scale(Normalized(Sub(otherPos, pos), m), contactKnockbackForce);
      }
    }
  }

  /**
   * Trigger contact: an active attack hitbox knocks the enemy, standing at `pos`,
   * away from the player at `player` with a little lift; `m` is the
   * player-to-enemy distance and `lm` the length of the lifted direction. The
   * damage itself comes from the hitbox, not from here.
   */
  method OnTriggerEnter2D(other: AttackHitbox?, player: Option<Vec2>, pos: Vec2, m: real, lm: real)
    requires player.Some? ==> IsLength(Sub(pos, player.value), m)
    requires IsLength(Add(AwayFromPlayer(player, pos, m), Vec2(0.0, HitLift)), lm)
    modifies rb`velocity
    ensures !isDead && other != null && other.active ==>
              rb.velocity == Scale(Normalized(Add(AwayFromPlayer(player, pos, m), Vec2(0.0, HitLift)), lm),
                                   hitKnockbackForce)
    ensures isDead || other == null || !other.active ==> rb.velocity == old(rb.velocity)
  {
    if isDead { return; }
    if other != null && other.active {
      var kbDir := AwayFromPlayer(player, pos, m);
      rb.velocity := Scale(Normalized(Add(kbDir, Vec2(0.0, HitLift)), lm), hitKnockbackForce);
    }
  }
}
