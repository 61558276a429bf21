// Worked examples: fresh components with the default tuning, driven through
// the modelled callbacks.

/**
 * Full health 5 of 5, a hit of 2 (the default 2 s invulnerability starts), a
 * second hit inside the window (ignored), the window run out (17 blinks of
 * 0.12 s, 2.04 s in all), then a third hit that lands.
 */
method InvulnerabilityScenario() returns (afterSecondHit: int, blinks: nat, afterThirdHit: int,
                                         notes: seq<HealthChanged>)
  ensures afterSecondHit == 3
  ensures blinks == 17
  ensures afterThirdHit == 1
  ensures notes == [HealthChanged(5, 5), HealthChanged(3, 5), HealthChanged(1, 5)]
{
  var rb := new Rigidbody(1.0);
  var pm := new PlayerMovement(rb, 5.0, 8.0, 3.0, 0.25, true, true, true, true);
  var pc := new PlayerCombat(pm, map[], 5, 5, 2.0, 1);
  pc.TakeDamage(2);
  pc.TakeDamage(2);
  afterSecondHit := pc.currentHealth;
  blinks := RunInvulnerabilityToEnd(pc);
  pc.TakeDamage(2);
  afterThirdHit := pc.currentHealth;
  notes := pc.notifications;
}

/** An enemy patrolling a radius of 3 around the spawn point (0, 0) turns at x = -3 and x = 3. */
lemma PatrolEndsScenario()
  ensures PatrolEndpoints(Radius, ZeroVec, None, None, 3.0) == PatrolEnds(Vec2(-3.0, 0.0), Vec2(3.0, 0.0))
{
}

/**
 * A dash of 6 units in 0.18 s facing right, at 50 frames per second: 100/3
 * units per second for nine frames (the one that starts it and eight more, in
 * exact arithmetic, where 0.02 + 8 * 0.02 reaches 0.18 exactly), then the body
 * stops dead with gravity back at its original scale.
 */
method DashScenario() returns (dashVelocity: Vec2, laterFrames: nat, endVelocity: Vec2, endGravity: real)
  ensures dashVelocity == Vec2(100.0 / 3.0, 0.0)
  ensures laterFrames == 8
  ensures endVelocity == ZeroVec && endGravity == 1.0
{
  var rb := new Rigidbody(1.0);
  var pm := new PlayerMovement(rb, 5.0, 8.0, 3.0, 0.25, true, true, true, true);
  var d := new PlayerDash(pm, rb, true, 6.0, 0.18, 0.5);
  d.TryStartDash(1.0, 0.02);
  dashVelocity := rb.velocity;
  laterFrames := RunDashToEnd(d, 0.02);
  endVelocity, endGravity := rb.velocity, rb.gravityScale;
}
