// The player's attack hitbox (AttackHitbox): switched off when it wakes, and on
// touching something it deals its damage to that object's damageable component,
// falling back to a bare EnemyHealth component when the object has none.

/** The components that take damage through the damageable interface. */
datatype Damageable = EnemyTarget(enemy: Enemy) | SpikeTarget(spike: Spike) | HealthTarget(health: EnemyHealth)

/** What a touched object offers: the damageable component the engine's lookup
    returns first (if any) and its EnemyHealth component (if any). */
datatype Target = Target(damageable: Option<Damageable>, enemyHealth: Option<EnemyHealth>)

/** Where a hit goes. */
datatype Route = ToDamageable(receiver: Damageable) | ToEnemyHealth(health: EnemyHealth) | NoRoute

/** EnemyHealth is itself damageable, so an object with one always has a damageable component. */
predicate Consistent(t: Target)
{
  t.enemyHealth.Some? ==> t.damageable.Some?
}

/** The dispatch order: the damageable component first, then the EnemyHealth fallback. */
function RouteOf(t: Target): (r: Route)
  ensures t.damageable.Some? ==> r == ToDamageable(t.damageable.value)
  ensures t.damageable.None? && t.enemyHealth.Some? ==> r == ToEnemyHealth(t.enemyHealth.value)
  ensures r == NoRoute <==> t.damageable.None? && t.enemyHealth.None?
  ensures Consistent(t) ==> !r.ToEnemyHealth?
{
  if t.damageable.Some? then ToDamageable(t.damageable.value)
  else if t.enemyHealth.Some? then ToEnemyHealth(t.enemyHealth.value)
  else NoRoute
}

/** The objects a hit on `t` may change. */
function TargetFrame(t: Target): set<object>
{
  (match t.damageable
   case Some(EnemyTarget(e)) => {e, e.rb}
   case Some(HealthTarget(h)) => {h}
   case _ => {})
  + (if t.enemyHealth.Some? then {t.enemyHealth.value} else {})
}

/** A touched enemy must be in a consistent state. */
ghost predicate TargetReady(t: Target)
  reads if t.damageable.Some? && t.damageable.value.EnemyTarget? then {t.damageable.value.enemy, t.damageable.value.enemy.rb} else {}
{
  t.damageable.Some? && t.damageable.value.EnemyTarget? ==> t.damageable.value.enemy.Valid()
}

class AttackHitbox {
  /** Damage dealt per touch, written by the player's attack before switching the hitbox on. */
  var damage: int
  /** Whether the hitbox's game object is active; an inactive object sees no contacts. */
  var active: bool

  /** Awake: the hitbox starts switched off. */
  constructor ()
    ensures damage == 1 && !active
  {
    damage := 1;
    active := false;
  }

  /**
   * Touching `t`: exactly one receiver takes this hitbox's damage, chosen by `RouteOf`.
   * An enemy receiver stands at `pos` and is knocked away from the player at
   * `player`, at distance `m`.
   */
  method OnTriggerEnter2D(t: Target, player: Option<Vec2>, pos: Vec2, m: real)
    requires TargetReady(t)
    requires player.Some? ==> IsLength(Sub(pos, player.value), m)
    modifies TargetFrame(t)
    ensures TargetReady(t)
    ensures var r := RouteOf(t);
            && (active && r.ToDamageable? && r.receiver.EnemyTarget? ==>
                  r.receiver.enemy.HitEffect(damage, AwayFromPlayer(player, pos, m)))
            && (active && r.ToDamageable? && r.receiver.HealthTarget? ==>
                  r.receiver.health.State() == HitStep(old(r.receiver.health.State()), damage))
            && (active && r.ToEnemyHealth? ==>
                  r.health.State() == HitStep(old(r.health.State()), damage))
            && (t.enemyHealth.Some? && !(active && r == ToDamageable(HealthTarget(t.enemyHealth.value)))
                && !(active && r.ToEnemyHealth?) ==>
                  t.enemyHealth.value.State() == old(t.enemyHealth.value.State()))
            && (!active || r.NoRoute? || (r.ToDamageable? && r.receiver.SpikeTarget?) ==>
                  forall o :: o in TargetFrame(t) ==> unchanged(o))
  {
    if !active { return; }
    match t.damageable {
      case Some(receiver) =>
        match receiver {
          case EnemyTarget(e) => e.TakeDamage(damage, player, pos, m);
          case SpikeTarget(s) => s.TakeDamage(damage);
          case HealthTarget(h) => h.TakeDamage(damage);
        }
      case None =>
        if t.enemyHealth.Some? {
          t.enemyHealth.value.TakeDamage(damage);
        }
    }
  }
}

/**
 * An attack that lands on a plain EnemyHealth: the hitbox the attack switches on
 * deals exactly the attack damage the player configured.
 */
method AttackOnEnemyHealth(pc: PlayerCombat, move: Vec2, h: EnemyHealth)
  requires pc.Valid() && pc.canAttack
  requires ChooseHitbox(move, pc.pm.isGrounded, pc.pm.facingDirection) in pc.hitboxes
  modifies pc`canAttack, pc`attack, pc.hitboxes.Values, h
  ensures pc.Valid()
  ensures h.hp == old(h.hp) - pc.attackDamage
{
  pc.TryAttack(move);
  var hb := pc.hitboxes[ChooseHitbox(move, pc.pm.isGrounded, pc.pm.facingDirection)];
  hb.OnTriggerEnter2D(Target(Some(HealthTarget(h)), Some(h)), None, ZeroVec, 0.0);
}
