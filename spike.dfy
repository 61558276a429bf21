// A spike hazard (Spike): touching it hurts and knocks the player back, unless
// the player is attacking (a parry, which only bounces the player) or is
// invulnerable (nothing happens). Hitting the spike with a hitbox does nothing.

datatype SpikeOutcome = NoContact | Parry | Immune | Hurt

/**
 * What a trigger contact does, from whether the touching object has a
 * PlayerCombat and a Rigidbody, whether one of its attack hitboxes is active and
 * whether it is invulnerable. The parry test comes before the invulnerability test.
 */
function SpikeContact(hasCombat: bool, hasBody: bool, hitboxActive: bool, invulnerable: bool): (o: SpikeOutcome)
  ensures o == NoContact <==> !(hasCombat && hasBody)
  ensures o == Parry <==> hasCombat && hasBody && hitboxActive
  ensures o == Immune <==> hasCombat && hasBody && !hitboxActive && invulnerable
  ensures o == Hurt <==> hasCombat && hasBody && !hitboxActive && !invulnerable
{
  if !hasCombat || !hasBody then NoContact
  else if hitboxActive then Parry
  else if invulnerable then Immune
  else Hurt
}

class Spike {
  const damage: int
  /** Velocity given to a player hurt by the spike. */
  const contactKnockback: Vec2
  /** Velocity given to a player whose attack hits the spike. */
  const parryKnockback: Vec2

  /** The configured directions come with their lengths; each knockback is the
      normalised direction times its force. */
  constructor (damage: int, knockbackDirection: Vec2, knockbackDirectionLength: real, knockbackForce: real,
               attackKnockbackDirection: Vec2, attackKnockbackDirectionLength: real, attackKnockbackForce: real)
    requires IsLength(knockbackDirection, knockbackDirectionLength)
    requires IsLength(attackKnockbackDirection, attackKnockbackDirectionLength)
    ensures this.damage == damage
    ensures contactKnockback == Scale(Normalized(knockbackDirection, knockbackDirectionLength), knockbackForce)
    ensures parryKnockback ==
              Scale(Normalized(attackKnockbackDirection, attackKnockbackDirectionLength), attackKnockbackForce)
  {
    this.damage := damage;
    contactKnockback := Scale(Normalized(knockbackDirection, knockbackDirectionLength), knockbackForce);
    parryKnockback := Scale(Normalized(attackKnockbackDirection, attackKnockbackDirectionLength), attackKnockbackForce);
  }

  /** Trigger contact with an object whose PlayerCombat is `pc` and whose Rigidbody is `playerRb`. */
  method OnTriggerEnter2D(pc: PlayerCombat?, playerRb: Rigidbody?)
    requires pc != null ==> pc.Valid()
    modifies (if pc != null then {pc, pc.pm} else {}), playerRb
    ensures pc != null ==> pc.Valid()
    ensures playerRb != null ==> unchanged(playerRb`gravityScale, playerRb`isKinematic)
    ensures var o := SpikeContact(pc != null, playerRb != null,
                                  pc != null && old(pc.HasActiveHitbox()), pc != null && old(pc.IsInvulnerable()));
            && (o != Hurt && pc != null ==> unchanged(pc) && unchanged(pc.pm))
            && (o != Parry && o != Hurt && playerRb != null ==> unchanged(playerRb))
            && (o == Parry ==> playerRb.velocity == parryKnockback)
            && (o == Hurt ==> pc.HitTaken(damage) && playerRb.velocity == contactKnockback)
  {
    if pc == null || playerRb == null { return; }
    if pc.HasActiveHitbox() {
      playerRb.velocity := parryKnockback;
      return;
    }
    if pc.IsInvulnerable() { return; }
    pc.TakeDamage(damage);
    playerRb.velocity := contactKnockback;
  }

  /** Being hit does nothing to a spike. */
  method TakeDamage(amount: int)
    ensures unchanged(this)
  {
  }
}
