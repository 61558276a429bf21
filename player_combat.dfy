// The player's health pool, invulnerability window and directional attack
// (PlayerCombat). The two coroutines of the component are phase fields: the
// attack window/cooldown is advanced by `AttackResume`, the invulnerability
// blink loop by `BlinkResume`, each call standing for the coroutine waking
// from its current wait.

// ---------------------------------------------------------------------------
// Health pool

datatype HealthPool = HealthPool(current: int, max: int)

/** The health-changed notification `(current, max)`. */
datatype HealthChanged = HealthChanged(current: int, max: int)

predicate PoolValid(p: HealthPool) { 1 <= p.max && 0 <= p.current <= p.max }

function Clamp(v: int, lo: int, hi: int): (r: int)
  requires lo <= hi
  ensures lo <= r <= hi
  ensures lo <= v <= hi ==> r == v
  ensures v < lo ==> r == lo
  ensures v > hi ==> r == hi
{
  if v < lo then lo else if v > hi then hi else v
}

/** Awake's normalisation of the configured values. */
function InitialPool(maxHealth: int, currentHealth: int): (p: HealthPool)
  ensures PoolValid(p) && p.current >= 1
  ensures p.max == if maxHealth < 1 then 1 else maxHealth
  ensures 1 <= currentHealth <= p.max ==> p.current == currentHealth
  ensures currentHealth <= 0 || currentHealth >= p.max ==> p.current == p.max
{
  var max := if maxHealth < 1 then 1 else maxHealth;
  var current := Clamp(currentHealth, 0, max);
  HealthPool(if current == 0 then max else current, max)
}

/** Health after a hit of `dmg` that is not blocked by invulnerability. */
function DamagedPool(p: HealthPool, dmg: int): (r: HealthPool)
  requires PoolValid(p)
  ensures PoolValid(r) && r.max == p.max
  ensures r.current == 0 <==> dmg >= p.current
  ensures dmg >= 0 ==> r.current <= p.current
  ensures 0 <= dmg <= p.current ==> r.current == p.current - dmg
{
  HealthPool(Clamp(p.current - dmg, 0, p.max), p.max)
}

function HealedPool(p: HealthPool, amount: int): (r: HealthPool)
  requires PoolValid(p)
  ensures PoolValid(r) && r.max == p.max
  ensures amount >= 0 ==> r.current >= p.current
  ensures amount >= 0 && p.current + amount >= p.max ==> r.current == p.max
  ensures -p.current <= amount <= p.max - p.current ==> r.current == p.current + amount
{
  HealthPool(Clamp(p.current + amount, 0, p.max), p.max)
}

function ResizedPool(p: HealthPool, newMax: int): (r: HealthPool)
  requires PoolValid(p)
  ensures PoolValid(r)
  ensures r.max == if newMax < 1 then 1 else newMax
  ensures r.current == if p.current <= r.max then p.current else r.max
{
  var max := if newMax < 1 then 1 else newMax;
  HealthPool(Clamp(p.current, 0, max), max)
}

/** The health mutations that get through: unblocked damage, healing and resizing. */
datatype HealthEvent = Damage(dmg: int) | Heal(amount: int) | Resize(newMax: int)

function ApplyHealthEvent(p: HealthPool, e: HealthEvent): (r: HealthPool)
  requires PoolValid(p)
  ensures PoolValid(r)
{
  match e
  case Damage(dmg) => DamagedPool(p, dmg)
  case Heal(amount) => HealedPool(p, amount)
  case Resize(newMax) => ResizedPool(p, newMax)
}

/** Any sequence of mutations keeps `0 <= current <= max` and `max >= 1`, and
    changes `max` only through resizing. */
function ApplyHealthEvents(p: HealthPool, es: seq<HealthEvent>): (r: HealthPool)
  requires PoolValid(p)
  ensures PoolValid(r)
  ensures (forall i :: 0 <= i < |es| ==> !es[i].Resize?) ==> r.max == p.max
  decreases |es|
{
  if es == [] then p else ApplyHealthEvents(ApplyHealthEvent(p, es[0]), es[1..])
}

/** The events of a run of unblocked hits. */
function Damages(dmgs: seq<int>): (es: seq<HealthEvent>)
  ensures |es| == |dmgs|
  ensures forall i :: 0 <= i < |dmgs| ==> es[i] == Damage(dmgs[i])
  decreases |dmgs|
{
  if dmgs == [] then [] else [Damage(dmgs[0])] + Damages(dmgs[1..])
}

/** Under non-negative hits alone health never rises, and it ends at zero once
    the hits add up to the health there was. */
lemma {:induction false} DamageOnlyLowersHealth(p: HealthPool, dmgs: seq<int>)
  requires PoolValid(p)
  requires forall i :: 0 <= i < |dmgs| ==> dmgs[i] >= 0
  ensures ApplyHealthEvents(p, Damages(dmgs)).current <= p.current
  ensures SumInts(dmgs) >= p.current ==> ApplyHealthEvents(p, Damages(dmgs)).current == 0
  decreases |dmgs|
{
  if dmgs != [] {
    var es := Damages(dmgs);
    assert es[0] == Damage(dmgs[0]) && es[1..] == Damages(dmgs[1..]);
    var q := DamagedPool(p, dmgs[0]);
    DamageOnlyLowersHealth(q, dmgs[1..]);
  }
}

// ---------------------------------------------------------------------------
// Attack direction

datatype HitboxDir = Up | Down | Left | Right

const VerticalAttackThreshold: real := 0.5
const HorizontalAttackThreshold: real := 0.1

/**
 * The hitbox an attack uses, from the move vector at attack start, the grounded
 * flag and the facing direction: up input first, then down input in the air,
 * then horizontal input; down input on the ground and a neutral stick fall
 * back to the facing side.
 */
function ChooseHitbox(move: Vec2, grounded: bool, facing: int): (d: HitboxDir)
  ensures d == Up <==> move.y > VerticalAttackThreshold
  ensures d == Down <==> move.y < -VerticalAttackThreshold && !grounded
  ensures move.y < -VerticalAttackThreshold && grounded ==> d == (if facing >= 0 then Right else Left)
  ensures -VerticalAttackThreshold <= move.y <= VerticalAttackThreshold ==>
            d == (if move.x > HorizontalAttackThreshold then Right
                  else if move.x < -HorizontalAttackThreshold then Left
                  else if facing >= 0 then Right else Left)
{
  if move.y > VerticalAttackThreshold then Up
  else if move.y < -VerticalAttackThreshold && !grounded then Down
  else
    var usedFacing := (move.y < -VerticalAttackThreshold && grounded)
                      || !(move.x > HorizontalAttackThreshold || move.x < -HorizontalAttackThreshold);
    if usedFacing then (if facing >= 0 then Right else Left)
    else if move.x > HorizontalAttackThreshold then Right
    else Left
}

/** Where the attack coroutine waits: in the hitbox window (with the hitbox it
    switched on, if that slot was assigned) or in the cooldown after it. */
datatype AttackPhase = Ready | Striking(chosen: Option<AttackHitbox>) | Recovering

// ---------------------------------------------------------------------------
// Invulnerability

/** The wait of one pass of the blink loop, in seconds. */
const BlinkInterval: real := 0.12

lemma FloorStepsDown(x: real)
  ensures (x - 1.0).Floor == x.Floor - 1
{
}

// ---------------------------------------------------------------------------
// The component

class PlayerCombat {
  const pm: PlayerMovement
  /** The assigned hitbox slots (an unassigned slot has no entry). */
  const hitboxes: map<HitboxDir, AttackHitbox>
  const invulDuration: real
  const attackDamage: int

  var maxHealth: int
  var currentHealth: int
  var notifications: seq<HealthChanged>

  var isInvulnerable: bool
  var invulElapsed: real
  var spriteEnabled: bool
  /** Blink waits completed by the running blink loop. */
  ghost var blinks: nat

  var canAttack: bool
  var attack: AttackPhase

  function Pool(): HealthPool
    reads this
  {
    HealthPool(currentHealth, maxHealth)
  }

  ghost predicate Valid()
    reads this, hitboxes.Values
    ensures Valid() ==>
      forall d1, d2 :: d1 in hitboxes && d2 in hitboxes && hitboxes[d1].active && hitboxes[d2].active ==>
        hitboxes[d1] == hitboxes[d2]
  {
    && pm.hasSpriteRenderer
    && PoolValid(Pool())
    && invulElapsed == blinks as real * BlinkInterval
    && (isInvulnerable ==> invulElapsed < invulDuration)
    && (canAttack <==> attack.Ready?)
    && (attack.Striking? && attack.chosen.Some? ==> attack.chosen.value in hitboxes.Values)
    && (forall d :: d in hitboxes ==>
          (hitboxes[d].active <==> attack.Striking? && attack.chosen == Some(hitboxes[d])))
  }

  /** Some hitbox of the player is switched on; under the invariant, exactly
      when an attack window is open on a hitbox that was found. */
  predicate HasActiveHitbox(): (b: bool)
    reads this, hitboxes.Values
    ensures Valid() ==> (b <==> attack.Striking? && attack.chosen.Some?)
  {
    exists d :: d in hitboxes && hitboxes[d].active
  }

  /** Whether a hit would be ignored now. */
  function IsInvulnerable(): (b: bool)
    reads this
    ensures b <==> isInvulnerable
  {
    isInvulnerable
  }

  /**
   * The whole effect of `TakeDamage(dmg)` on this component and its movement
   * component. Invulnerable: nothing changes. Otherwise the pool takes the
   * clamped hit, one notification `(current, max)` is sent, the invulnerability
   * window opens (with the sprite toggled) and, at zero health, movement is
   * disabled. The attack state, the maximum and every movement field other
   * than `enabled` never change.
   */
  twostate predicate HitTaken(dmg: int)
    requires old(PoolValid(Pool()))
    reads this, pm
  {
    && maxHealth == old(maxHealth) && canAttack == old(canAttack) && attack == old(attack)
    && unchanged(pm`moveInput, pm`jumpTimeCounter, pm`isJumping, pm`jumpHeld, pm`jumpQueued,
                 pm`isGrounded, pm`facingDirection, pm`inDash)
    && (old(isInvulnerable) ==> unchanged(this) && pm.enabled == old(pm.enabled))
    && (!old(isInvulnerable) ==>
          && Pool() == DamagedPool(old(Pool()), dmg)
          && notifications == old(notifications) + [HealthChanged(currentHealth, maxHealth)]
          && (isInvulnerable <==> 0.0 < invulDuration)
          && invulElapsed == 0.0 && blinks == 0
          && spriteEnabled == (if 0.0 < invulDuration then !old(spriteEnabled) else true)
          && (currentHealth == 0 ==> !pm.enabled)
          && (currentHealth != 0 ==> pm.enabled == old(pm.enabled)))
  }

  /** Awake: health normalised and announced, every assigned hitbox switched off. */
  constructor (pm: PlayerMovement, hitboxes: map<HitboxDir, AttackHitbox>, maxHealth: int, currentHealth: int,
               invulDuration: real, attackDamage: int)
    requires pm.hasSpriteRenderer
    modifies hitboxes.Values
    ensures Valid()
    ensures this.pm == pm && this.hitboxes == hitboxes
    ensures this.invulDuration == invulDuration && this.attackDamage == attackDamage
    ensures Pool() == InitialPool(maxHealth, currentHealth)
    ensures notifications == [HealthChanged(this.currentHealth, this.maxHealth)]
    ensures !isInvulnerable && spriteEnabled && canAttack && attack == Ready
    ensures forall d :: d in hitboxes ==> !hitboxes[d].active && hitboxes[d].damage == old(hitboxes[d].damage)
  {
    this.pm := pm;
    this.hitboxes := hitboxes;
    this.invulDuration := invulDuration;
    this.attackDamage := attackDamage;
    var pool := InitialPool(maxHealth, currentHealth);
    this.maxHealth := pool.max;
    this.currentHealth := pool.current;
    isInvulnerable := false;
    invulElapsed := 0.0;
    spriteEnabled := true;
    blinks := 0;
    canAttack := true;
    attack := Ready;
    new;
    SetAllHitboxesInactive();
    notifications := [HealthChanged(this.currentHealth, this.maxHealth)];
  }

  method SetAllHitboxesInactive()
    modifies hitboxes.Values
    ensures forall d :: d in hitboxes ==> !hitboxes[d].active && hitboxes[d].damage == old(hitboxes[d].damage)
  {
    forall h | h in hitboxes.Values {
      h.active := false;
    }
  }

  /**
   * Attack request with the current move vector. Ignored while an attack or its
   * cooldown is running; otherwise the chosen hitbox gets the attack damage and
   * is switched on.
   */
  method TryAttack(move: Vec2)
    requires Valid()
    modifies this`canAttack, this`attack, hitboxes.Values
    ensures Valid()
    ensures !old(canAttack) ==>
              canAttack == old(canAttack) && attack == old(attack)
              && forall h :: h in hitboxes.Values ==> h.active == old(h.active) && h.damage == old(h.damage)
    ensures old(canAttack) ==>
              var d := ChooseHitbox(move, pm.isGrounded, pm.facingDirection);
              && !canAttack
              && (d in hitboxes ==>
                    attack == Striking(Some(hitboxes[d])) && hitboxes[d].active
                    && hitboxes[d].damage == attackDamage)
              && (d !in hitboxes ==> attack == Striking(None))
              && forall h :: h in hitboxes.Values && !(d in hitboxes && h == hitboxes[d]) ==>
                   !h.active && h.damage == old(h.damage)
  {
    if !canAttack { return; }
    canAttack := false;
    var d := ChooseHitbox(move, pm.isGrounded, pm.facingDirection);
    if d in hitboxes {
      var chosen := hitboxes[d];
      chosen.damage := attackDamage;
      chosen.active := true;
      attack := Striking(Some(chosen));
    } else {
      attack := Striking(None);
    }
  }

  /** The attack coroutine wakes: the window closes (hitbox off), then the cooldown ends. */
  method AttackResume()
    requires Valid()
    modifies this`canAttack, this`attack, hitboxes.Values
    ensures Valid()
    ensures old(attack).Ready? ==> attack == Ready && canAttack
    ensures old(attack).Striking? ==> attack == Recovering && !canAttack
    ensures old(attack).Recovering? ==> attack == Ready && canAttack
    ensures forall h :: h in hitboxes.Values ==> !h.active && h.damage == old(h.damage)
  {
    match attack {
      case Ready =>
      case Striking(chosen) =>
        if chosen.Some? {
          chosen.value.active := false;
        }
        attack := Recovering;
      case Recovering =>
        canAttack := true;
        attack := Ready;
    }
  }

  /** A hit of `dmg`: ignored while invulnerable; otherwise clamps, notifies, starts the
      invulnerability window and, at zero health, the death. */
  method TakeDamage(dmg: int)
    requires Valid()
    modifies this`currentHealth, this`notifications, this`isInvulnerable, this`invulElapsed,
             this`spriteEnabled, this`blinks, pm`enabled
    ensures Valid()
    ensures HitTaken(dmg)
  {
    if IsInvulnerable() { return; }
    currentHealth := DamagedPool(Pool(), dmg).current;
    notifications := notifications + [HealthChanged(currentHealth, maxHealth)];
    StartInvulnerability();
    if currentHealth <= 0 {
      Die();
    }
  }

  /** The blink loop up to its first wait. */
  method StartInvulnerability()
    requires PoolValid(Pool())
    modifies this`isInvulnerable, this`invulElapsed, this`spriteEnabled, this`blinks
    ensures (isInvulnerable <==> 0.0 < invulDuration) && invulElapsed == 0.0 && blinks == 0
    ensures spriteEnabled == if 0.0 < invulDuration then !old(spriteEnabled) else true
  {
    isInvulnerable := true;
    invulElapsed := 0.0;
    blinks := 0;
    if invulElapsed < invulDuration {
      spriteEnabled := !spriteEnabled;
    } else {
      spriteEnabled := true;
      isInvulnerable := false;
    }
  }

  /** The blink loop wakes after one blink interval: it blinks again, or ends the
      window with the sprite shown. */
  method BlinkResume()
    requires Valid()
    modifies this`isInvulnerable, this`invulElapsed, this`spriteEnabled, this`blinks
    ensures Valid()
    ensures !old(isInvulnerable) ==>
              !isInvulnerable && invulElapsed == old(invulElapsed) && spriteEnabled == old(spriteEnabled)
    ensures old(isInvulnerable) ==>
              invulElapsed == old(invulElapsed) + BlinkInterval && blinks == old(blinks) + 1
              && (isInvulnerable <==> invulElapsed < invulDuration)
              && spriteEnabled == (if isInvulnerable then !old(spriteEnabled) else true)
  {
    if !isInvulnerable { return; }
    invulElapsed := invulElapsed + BlinkInterval;
    blinks := blinks + 1;
    if invulElapsed < invulDuration {
      spriteEnabled := !spriteEnabled;
    } else {
      spriteEnabled := true;
      isInvulnerable := false;
    }
  }

  /** Death disables the movement component. */
  method Die()
    modifies pm`enabled
    ensures !pm.enabled
  {
    pm.enabled := false;
  }

  method Heal(amount: int)
    requires Valid()
    modifies this`currentHealth, this`notifications
    ensures Valid()
    ensures Pool() == HealedPool(old(Pool()), amount)
    ensures notifications == old(notifications) + [HealthChanged(currentHealth, maxHealth)]
  {
    currentHealth := HealedPool(Pool(), amount).current;
    notifications := notifications + [HealthChanged(currentHealth, maxHealth)];
  }

  method SetMaxHealth(newMax: int)
    requires Valid()
    modifies this`maxHealth, this`currentHealth, this`notifications
    ensures Valid()
    ensures Pool() == ResizedPool(old(Pool()), newMax)
    ensures notifications == old(notifications) + [HealthChanged(currentHealth, maxHealth)]
  {
    var pool := ResizedPool(Pool(), newMax);
    maxHealth := pool.max;
    currentHealth := pool.current;
    notifications := notifications + [HealthChanged(currentHealth, maxHealth)];
  }
}

/**
 * The engine waking the blink loop every blink interval until the window ends.
 * The window lasts the least multiple of the blink interval that reaches
 * `invulDuration` (counted from the hit, where `invulElapsed` is zero); the
 * sprite is shown at the end and the player is vulnerable again.
 */
method RunInvulnerabilityToEnd(pc: PlayerCombat) returns (waits: nat)
  requires pc.Valid() && pc.isInvulnerable
  modifies pc`isInvulnerable, pc`invulElapsed, pc`spriteEnabled, pc`blinks
  ensures pc.Valid() && !pc.isInvulnerable && pc.spriteEnabled
  ensures waits > 0 && pc.blinks == old(pc.blinks) + waits
  ensures pc.invulElapsed == old(pc.invulElapsed) + waits as real * BlinkInterval
  ensures pc.invulElapsed >= pc.invulDuration
  ensures pc.invulElapsed - BlinkInterval < pc.invulDuration
{
  waits := 0;
  while pc.isInvulnerable
    invariant pc.Valid()
    invariant pc.blinks == old(pc.blinks) + waits
    invariant pc.invulElapsed == old(pc.invulElapsed) + waits as real * BlinkInterval
    invariant !pc.isInvulnerable ==>
                waits > 0 && pc.invulElapsed >= pc.invulDuration && pc.spriteEnabled
                && pc.invulElapsed - BlinkInterval < pc.invulDuration
    decreases if pc.isInvulnerable then ((pc.invulDuration - pc.invulElapsed) / BlinkInterval).Floor + 1 else 0
  {
    FloorStepsDown((pc.invulDuration - pc.invulElapsed) / BlinkInterval);
    pc.BlinkResume();
    waits := waits + 1;
  }
}
