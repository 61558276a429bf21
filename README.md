# TheHutch gameplay rules in Dafny

This project models the gameplay core of the Unity 2D platformer *TheHutch* and proves properties of that model. Each MonoBehaviour of the core is a Dafny class with the component's fields, and each callback is a method whose postconditions relate the new state to the old one:

- `PlayerMovement`: horizontal control, ground and wall sensing, and a variable-height jump with buffering.
- `PlayerDash`: a cooldown-gated dash that owns the velocity while it runs.
- `PlayerCombat`: a clamped health pool, an invulnerability window with blinking, and a directional attack with one hitbox window and a cooldown.
- `Enemy`: patrol/chase hysteresis, a patrol target that toggles between two endpoints, a clamped health pool, and a one-shot death.
- `Spike`, `AttackHitbox` and `EnemyHealth`: the damage routing between the other components.

The pure decisions inside the callbacks are functions with their own contracts: the hitbox priority chain, the patrol endpoints, the chase switch, the dash gate and the spike outcome. The lemmas beside them state what holds over whole runs:

- health stays in range over any sequence of damage, heal and resize events;
- the jump boost totals;
- chase and patrol are each kept for as long as the player's distances say so;
- patrol targets alternate;
- EnemyHealth hit points are the starting points minus the sum of the hits.

Engine services become inputs:

- **Physics queries.** The box casts and the overlap circle are booleans.
- **Player lookup.** `FindObjectOfType` becomes an `Option<Vec2>` player position, passed to `Enemy.Update`, `Enemy.FixedUpdate`, `Enemy.TakeDamage`, `Enemy.OnTriggerEnter2D` and, for an enemy receiver, `AttackHitbox.OnTriggerEnter2D`. The hit knockback direction is `AwayFromPlayer` of that position.
- **Positions.** The entity's own position is a parameter.
- **Square roots.** Every vector length is a real `m` passed together with the fact `IsLength(v, m)`, i.e. `m >= 0` and `m * m == |v|^2`. Unity's `Normalize` is then exact division, and a length of at most `1e-5` gives the zero vector.
- **Vector equality.** The engine's approximate `==` (squared distance below `1e-10`) is `ApproxEqual`.

Coroutines are phase fields, and a resume method stands for the coroutine waking from its current wait:

- the attack: `AttackPhase` and `PlayerCombat.AttackResume`;
- the invulnerability blink loop: `PlayerCombat.BlinkResume`;
- the dash: `DashPhase` and `PlayerDash.Resume`/`PlayerDash.RunFrame`.

The driver methods run these to completion with a fixed step and prove how many steps that takes: `RunDashToEnd` and `RunInvulnerabilityToEnd`.

Disabled and inactive objects get no callbacks from the engine:

- A disabled `PlayerMovement` (after the player's death) has `enabled == false`, and its callbacks return at once.
- An inactive hitbox has `active == false`, and its trigger handler returns at once.

`Spike.TakeDamage` has an empty body and an empty `modifies` frame; its contract states that the spike is unchanged.

Behaviour of the code that the model keeps as written:

- **Invulnerability.** It is a flag that the blink loop clears; no deadline is kept. The window is the least multiple of the 0.12 s blink interval that reaches `invulDuration`: with the default 2.0 s that is 17 blinks, so the window lasts at least 2.04 s (each wait resumes on a frame, which the model does not time).
- **Jump boost.** Holding the jump with the default tuning and a 0.02 s step boosts on 13 ticks, giving +0.78. That is one tick more than `jumpHoldDuration / dt` = 12.5 rounds down to, because on the 13th tick the counter is still 0.01 > 0 (`HoldingJumpScenario`).
- **Dash speed and restore.** The dash speed divides by `max(0.01, dashDuration)`. The gravity scale restored after a dash is the one captured when the component woke, whatever it was at dash start.
- **Player death.** The player dies when health is clamped to zero (`<= 0` in the code).
- **Patrol swap.** The two patrol-mode swap branches are identical, so the swap is modelled once (`SwapTarget`).

## Model

| member | source | states |
|---|---|---|
| Normalized | Assets/Scripts/Enemy.cs:159-160 | the engine's normalisation: scaling the result back by the length gives the vector; a length at most 1e-5 gives zero |
| NormalizedIsUnit | Assets/Scripts/Enemy.cs:173-177 | a normalised vector longer than the epsilon has squared length exactly 1 |
| WithinDistanceIsDistance | Assets/Scripts/Enemy.cs:124-137 | the squared-distance test agrees with `Distance(a, b) <= r` on the true distance |
| GroundedFrom | Assets/Scripts/PlayerMovement.cs:127-142 | the grounded flag is the box cast with a body collider, else the overlap circle only with a ground check and a ground layer, else false |
| TouchingWall | Assets/Scripts/PlayerMovement.cs:145-154 | a wall counts only with a body collider and horizontal input beyond 0.05, and then exactly when the side cast hits |
| HorizontalVelocity | Assets/Scripts/PlayerMovement.cs:156-171 | during a dash vx is kept; against a wall in the air it is 0; otherwise input times move speed |
| FacingAfter | Assets/Scripts/PlayerMovement.cs:204-217 | facing stays ±1 and changes only with a sprite and input beyond 0.1, toward the input's sign |
| BoostStep | Assets/Scripts/PlayerMovement.cs:173-185 | a held, active jump with a positive counter gains holdForce·dt and spends dt; with the counter used up the boost switches off; otherwise nothing changes |
| BoostWhileCounterPositive | Assets/Scripts/PlayerMovement.cs:173-185 | while the counter stays positive, n held ticks add n·holdForce·dt to vy and take n·dt off the counter |
| BoostIdleStaysIdle | Assets/Scripts/PlayerMovement.cs:173-185 | once the jump is released or exhausted, further boost ticks add nothing to vy or the counter |
| BoostTicksSplit | Assets/Scripts/PlayerMovement.cs:173-185 | ticks of the hold boost compose: m + k ticks are m ticks followed by k ticks |
| HoldingJumpScenario | Assets/Scripts/PlayerMovement.cs:173-185 | with the default tuning a held jump boosts on exactly 13 ticks, adding +0.78 to the launch velocity of 8, and the boost is then off |
| ReleaseScenario | Assets/Scripts/PlayerMovement.cs:112-116 | after a release at 0.1 s the boost's contribution stays at +0.3 over the launch velocity for any number of later boost ticks |
| PlayerMovement.constructor | Assets/Scripts/PlayerMovement.cs:48-67 | a new player faces right, enabled, not jumping, nothing queued or held |
| PlayerMovement.OnMove | Assets/Scripts/PlayerMovement.cs:92-95 | an enabled player records the move vector; a disabled one ignores it |
| PlayerMovement.OnJumpPressed | Assets/Scripts/PlayerMovement.cs:97-110 | pressing sets the held flag; grounded it launches (vy = jumpForce, vx kept, counter re-armed), in the air it only queues the jump |
| PlayerMovement.OnJumpReleased | Assets/Scripts/PlayerMovement.cs:112-116 | releasing clears both the held flag and the boost |
| PlayerMovement.StartJump | Assets/Scripts/PlayerMovement.cs:118-123 | the launch sets vy to jumpForce, keeps vx and sets the counter to the hold duration |
| PlayerMovement.FixedUpdate | Assets/Scripts/PlayerMovement.cs:125-218 | one tick: grounded from the sensors, vx by the wall/dash rule, the boost step or a buffered jump, facing by input; nothing when disabled |
| PlayerMovement.SenseGround | Assets/Scripts/PlayerMovement.cs:127-142 | the tick's grounded flag is `GroundedFrom` of the sensor results |
| PlayerMovement.MoveHorizontally | Assets/Scripts/PlayerMovement.cs:144-171 | vx becomes `HorizontalVelocity` of the wall test and the input, and vy is untouched |
| PlayerMovement.ApplyHoldBoost | Assets/Scripts/PlayerMovement.cs:173-185 | the boost state advances by one `BoostStep` and vx is untouched |
| PlayerMovement.UpdateFacing | Assets/Scripts/PlayerMovement.cs:204-217 | facing becomes `FacingAfter` of the input |
| DashSpeed | Assets/Scripts/PlayerDash.cs:98 | speed times max(0.01, duration) is the dash distance |
| DashDirection | Assets/Scripts/PlayerDash.cs:96 | the direction is +1 exactly when facing ≥ 0, else −1 |
| DashReady | Assets/Scripts/PlayerDash.cs:79-88 | a dash starts iff the ability is held, no dash runs, and the cooldown since the last start has passed |
| PlayerDash.constructor | Assets/Scripts/PlayerDash.cs:42-49 | the component captures the body's gravity scale and starts idle with the last dash at −999 |
| PlayerDash.TryStartDash | Assets/Scripts/PlayerDash.cs:79-123 | if not ready nothing changes; else the dash starts at `now`, the direction is locked, gravity is 0 and the first frame sets velocity (dir·speed, 0) |
| PlayerDash.RunFrame | Assets/Scripts/PlayerDash.cs:109-129 | before the duration is used up the velocity is (dir·speed, 0) and time advances; after it, velocity 0 and the Awake gravity scale |
| PlayerDash.Resume | Assets/Scripts/PlayerDash.cs:90-136 | a later frame runs the loop or, after the zero wait, clears the dash flags; direction, speed and start time never change |
| PlayerDash.GrantDash | Assets/Scripts/PlayerDash.cs:193-196 | the ability is held afterwards |
| PlayerDash.SetCooldown | Assets/Scripts/PlayerDash.cs:201 | the cooldown becomes the given value |
| RunDashToEnd | Assets/Scripts/PlayerDash.cs:106-129 | a running dash ends after the least number of frames whose time covers the duration, stopped dead with the Awake gravity scale |
| Clamp | Assets/Scripts/PlayerCombat.cs:45 | the result lies in [lo, hi], equals v inside it, and is the nearer bound outside it |
| InitialPool | Assets/Scripts/PlayerCombat.cs:43-46 | after Awake max ≥ 1 and 1 ≤ current ≤ max; an initial current of 0 becomes max |
| DamagedPool | Assets/Scripts/PlayerCombat.cs:161-162 | a hit clamps current − dmg to [0, max]; health is zero iff the hit is at least the health; max unchanged |
| HealedPool | Assets/Scripts/PlayerCombat.cs:199-203 | healing clamps current + amount to [0, max], never lowers health for a non-negative amount, and caps at max |
| ResizedPool | Assets/Scripts/PlayerCombat.cs:217-223 | max becomes max(1, newMax) and current is cut down to it |
| ApplyHealthEvent | Assets/Scripts/PlayerCombat.cs:157-223 | any single damage, heal or resize keeps 0 ≤ current ≤ max and max ≥ 1 |
| ApplyHealthEvents | Assets/Scripts/PlayerCombat.cs:157-223 | any sequence of them keeps the pool valid, and without a resize max is unchanged |
| DamageOnlyLowersHealth | Assets/Scripts/PlayerCombat.cs:157-174 | non-negative hits never raise health, and hits summing to the health leave it at zero |
| ChooseHitbox | Assets/Scripts/PlayerCombat.cs:87-128 | Up iff y > 0.5; Down iff y < −0.5 in the air; grounded down input and neutral input use the facing side; otherwise x's sign picks Right or Left |
| PlayerCombat.HasActiveHitbox | Assets/Scripts/Spike.cs:21-22 | the spike's parry test: some hitbox is on, which under the invariant is exactly an open attack window on a found hitbox |
| PlayerCombat.Valid | Assets/Scripts/PlayerCombat.cs:130-146 | the combat invariant implies that at most one hitbox object is active |
| PlayerCombat.constructor | Assets/Scripts/PlayerCombat.cs:36-53 | Awake normalises the pool, switches every hitbox off and sends one notification (current, max); the player must have a sprite renderer |
| PlayerCombat.SetAllHitboxesInactive | Assets/Scripts/PlayerCombat.cs:149-155 | every assigned hitbox is off afterwards, with its damage unchanged |
| PlayerCombat.TryAttack | Assets/Scripts/PlayerCombat.cs:72-137 | ignored while busy; otherwise busy, and only the chosen hitbox is on, carrying the attack damage |
| PlayerCombat.AttackResume | Assets/Scripts/PlayerCombat.cs:139-146 | the window end switches the hitbox off and starts the cooldown; the cooldown end makes attacks possible again |
| PlayerCombat.TakeDamage | Assets/Scripts/PlayerCombat.cs:157-174 | `HitTaken`: invulnerable, nothing changes; otherwise the clamped hit, one notification (current, max), invulnerability at once, and death at zero disables movement; attack state, maximum and every other movement field kept |
| PlayerCombat.StartInvulnerability | Assets/Scripts/PlayerCombat.cs:176-185 | the window opens with elapsed 0 and the sprite toggled, or closes at once when the duration is not positive |
| PlayerCombat.BlinkResume | Assets/Scripts/PlayerCombat.cs:182-189 | one blink interval passes; the sprite toggles while time remains, and at the end it is shown and the window closes |
| PlayerCombat.Die | Assets/Scripts/PlayerCombat.cs:192-197 | the movement component is disabled |
| PlayerCombat.Heal | Assets/Scripts/PlayerCombat.cs:199-203 | the pool becomes `HealedPool` and one notification (current, max) is sent |
| PlayerCombat.IsInvulnerable | Assets/Scripts/PlayerCombat.cs:205-208 | the query answers true exactly while the invulnerability flag is set |
| PlayerCombat.SetMaxHealth | Assets/Scripts/PlayerCombat.cs:217-223 | the pool becomes `ResizedPool` and one notification (current, max) is sent |
| RunInvulnerabilityToEnd | Assets/Scripts/PlayerCombat.cs:176-190 | the window lasts the least number of 0.12 s blinks reaching the duration, and ends vulnerable with the sprite shown |
| PatrolEndpoints | Assets/Scripts/Enemy.cs:80-104 | Radius mode: spawn ± radius on the spawn's height; Points mode: A or the spawn, and B or the spawn plus the radius (2 if the radius is not positive) to the right |
| InitialEnemyHealth | Assets/Scripts/Enemy.cs:78 | starting health is max(1, maxHealth) |
| EnemyHealthAfter | Assets/Scripts/Enemy.cs:224-225 | health after a hit is max(0, h − amount): zero iff the hit is at least the health |
| NextChasing | Assets/Scripts/Enemy.cs:121-142 | no player: unchanged; patrolling: chase iff the player is within detectRadius of the enemy; chasing: keep iff within loseInterestDistance of the spawn |
| ChaseSwitchByDistance | Assets/Scripts/Enemy.cs:124-141 | the switch holds with the engine's distances: enter iff distToPlayer ≤ detectRadius, leave iff distPlayerToSpawn > loseInterestDistance |
| ChaseIsKept | Assets/Scripts/Enemy.cs:127-141 | a chase continues over any run of frames in which the player stays within the lose-interest distance of the spawn |
| PatrolIsKept | Assets/Scripts/Enemy.cs:127-141 | patrol continues over any run of frames in which the player stays outside the detection radius |
| SwapTarget | Assets/Scripts/Enemy.cs:180-191 | the new target is an endpoint, the right one exactly when the old target equals the left one (or both endpoints coincide) |
| SwapTargetAlternates | Assets/Scripts/Enemy.cs:180-191 | with distinguishable endpoints, reaching one always heads for the other |
| EnemyFacing | Assets/Scripts/Enemy.cs:205-217 | facing turns right beyond +0.05, left below −0.05, and is kept in between |
| AwayFromPlayer | Assets/Scripts/Enemy.cs:231-237 | the knockback direction is the unit vector from the player to the enemy, or up with no player |
| Enemy.constructor | Assets/Scripts/Enemy.cs:71-108 | Awake fixes the endpoints by `PatrolEndpoints`, health by `InitialEnemyHealth`, and heads for the right point |
| Enemy.Update | Assets/Scripts/Enemy.cs:110-142 | alive, the chase flag becomes `NextChasing`; dead, it is unchanged |
| Enemy.FixedUpdate | Assets/Scripts/Enemy.cs:153-193 | dead: velocity zero; chasing: vx is chaseSpeed times the unit direction's x, vy kept; patrolling: the same at patrolSpeed toward the target, or the target swaps within 0.05 |
| Enemy.UpdateFacing | Assets/Scripts/Enemy.cs:205-217 | facing becomes `EnemyFacing` of the direction |
| Enemy.TakeDamage | Assets/Scripts/Enemy.cs:220-246 | `HitEffect`: dead, nothing changes; else health max(0, h − amount) and either the death (stopped, kinematic, collider off, started once) or a knockback along `AwayFromPlayer`; patrol, chase and facing kept |
| Enemy.StartDeath | Assets/Scripts/Enemy.cs:294-301 | death sets `isDead`, stops the body, makes it kinematic and disables the collider; it starts once |
| Enemy.OnCollisionEnter2D | Assets/Scripts/Enemy.cs:249-270 | dead enemy, no PlayerCombat or invulnerable player: player and body unchanged; else the player's `HitTaken(contactDamage)` and a knockback away from the enemy; the body's gravity and kinematic flag kept |
| Enemy.OnTriggerEnter2D | Assets/Scripts/Enemy.cs:273-292 | an active hitbox sets only the enemy's velocity, along `AwayFromPlayer` lifted by 0.3 and normalised; health never changes here |
| HitStep | Assets/Scripts/EnemyHealth.cs:13-18 | a hit subtracts its amount with no clamp and requests removal iff the result is at most 0 |
| HitsTotal | Assets/Scripts/EnemyHealth.cs:13-18 | after any run of hits, hp is the starting hp minus the sum of the amounts |
| HitsBelowZeroAllRemove | Assets/Scripts/EnemyHealth.cs:13-18 | with no dead guard, every later non-negative hit at or below zero requests removal again |
| EnemyHealth.constructor | Assets/Scripts/EnemyHealth.cs:8-11 | hp starts at maxHp |
| EnemyHealth.TakeDamage | Assets/Scripts/EnemyHealth.cs:13-18 | the component's state advances by `HitStep` |
| EnemyHealth.Die | Assets/Scripts/EnemyHealth.cs:20-24 | one more removal request |
| RouteOf | Assets/Scripts/AttackHitbox.cs:14-31 | the damageable component first, the EnemyHealth fallback only without one, nothing without either |
| AttackHitbox.constructor | Assets/Scripts/AttackHitbox.cs:8-12 | a new hitbox is inactive, with damage 1 |
| AttackHitbox.OnTriggerEnter2D | Assets/Scripts/AttackHitbox.cs:14-31 | an active hitbox deals its damage once to the receiver `RouteOf` picks, an enemy receiver with the whole `Enemy.HitEffect`; the fallback is skipped when a damageable exists; inactive, no route or a spike: nothing changes |
| AttackOnEnemyHealth | Assets/Scripts/PlayerCombat.cs:130-137 | an attack that touches an EnemyHealth lowers its hp by exactly the player's attack damage |
| SpikeContact | Assets/Scripts/Spike.cs:13-34 | no effect without both components; parry iff a hitbox is active; else immune iff invulnerable; else hurt |
| Spike.constructor | Assets/Scripts/Spike.cs:7-11 | the knockbacks are the normalised configured directions times their forces |
| Spike.OnTriggerEnter2D | Assets/Scripts/Spike.cs:13-34 | parry only sets the parry velocity and leaves the player's components unchanged; an invulnerable player and its body are untouched; otherwise the player's `HitTaken(damage)` and the contact knockback; gravity and kinematic flag kept |
| Spike.TakeDamage | Assets/Scripts/Spike.cs:37 | being hit leaves the spike unchanged |
| InvulnerabilityScenario | Assets/Scripts/PlayerCombat.cs:157-190 | 5/5 hit by 2 is 3/5; a second hit in the window is ignored; the window lasts 17 blinks; a third hit leaves 1/5 |
| PatrolEndsScenario | Assets/Scripts/Enemy.cs:100-107 | an enemy at (0, 0) with radius 3 patrols between x = −3 and x = 3 |
| DashScenario | Assets/Scripts/PlayerDash.cs:90-136 | a dash of 6 in 0.18 s at 50 frames/s runs at 100/3 for 8 more frames in exact arithmetic (this tuning sits on the frame boundary), then velocity is zero and gravity is 1 |

## Left out

- Animation, sprite flipping, colour fades, afterimages, gizmos and logging: presentation only.
- The timed part of the enemy's death routine (the darken and fade loops and the final `Destroy`): visual only. The model stops at the state it sets.
- The Input System plumbing and the dash's keyboard fallback in `Update`. Input arrives as direct method calls.
- The attack's waits (`attackDuration`, `attackCooldown`) are not timed. `AttackResume` stands for each wait ending.
- `PlayerDash.airNoFall` is never read by the code. The model forces vy to 0 during a dash, as the code does.
- The null checks `pm == null || rb == null` in `TryStartDash`: both components are required on the player. The player's sprite renderer is assumed present, because the blink loop uses it unguarded: the `PlayerCombat` constructor requires `pm.hasSpriteRenderer` and `PlayerCombat.Valid` keeps it.
- Every assigned hitbox slot of `PlayerCombat` is assumed to carry an `AttackHitbox` component (`ah != null`).
- Each hitbox is assumed to have woken (its `Awake` switching it off) when it is created, as for an object active in the scene at load. A hitbox object that starts inactive only wakes on its first activation; that later switch-off is not modelled.
- DamagedPool: `currentHealth - amount` is exact, so 32-bit wrap-around on extreme amounts is not modelled. For example `TakeDamage(int.MinValue)` at 5/5 wraps to a negative difference in the game, clamped to 0 (a death), and is a full heal here.
- HealedPool: `currentHealth + amount` is exact. `Heal(int.MaxValue)` at 5/5 wraps to a negative sum in the game, clamped to 0, and stays at 5 here.
- EnemyHealthAfter: `currentHealth - amount` is exact, without 32-bit wrap-around.
- HitStep: `hp - amount` is exact, without 32-bit wrap-around; `HitsTotal` sums the hits without wrap-around too.
- Float32 rounding: all quantities are exact reals. For example, `invulElapsed` is exactly `blinks · 0.12`, and the jump counter is exact. Where an accumulated time lands exactly on a threshold, rounding can also change how many frames a loop runs.
- DashScenario: the tuning puts the dash exactly on the `elapsed < dashDuration` boundary, since 0.02 + 8 · 0.02 = 0.18. In float32 the nine sums of 0.02 fall just below 0.18, so the game runs one more dash frame: 9 more frames, 0.2 s and about 6.67 units instead of 6. The scenario states the exact-real count of 8.
- Enemy.OnTriggerEnter2D: its contract does not restate `Valid()`. The method writes only `rb.velocity`, which `Valid` does not mention, but with both length facts in context the solver cannot close the restated invariant within the resource limit.
- Enemy.OnCollisionEnter2D: positions are 2-D. The code normalises the 3-D difference of the two transforms before dropping z, so the model assumes the player and the enemy have equal z; with different z the game's contact knockback is shorter than `contactKnockbackForce`.
- Normalized: the engine's square root is not computed. The length is an input tied to its vector by `IsLength`, and the same holds wherever a distance is needed.
- The engine's velocity integration between ticks (gravity, contacts, collisions) is not modelled: the boost lemmas cover only the boost's own writes to vy.
- BoostIdleStaysIdle: iterates the hold boost alone. In the game vy still changes after the boost is off: gravity acts between ticks, and a jump buffered in the air fires on landing (`StartJump`, which the model's `PlayerMovement.FixedUpdate` does include).
- HoldingJumpScenario: +0.78 is the boost's total. The game's peak vy is lower, because gravity acts during the 13 ticks.
- ReleaseScenario: +0.3 is the boost's contribution. The game's vy falls after the release because of gravity.
- PlayerCombat.HasActiveHitbox: the spike looks up an `AttackHitbox` among the player's children. The model assumes those components are exactly the assigned hitbox slots, and that the lookup skips inactive children. Then "some slot is active" is the same as the lookup finding an active hitbox.
- The order in which the engine delivers the hitbox's and the enemy's trigger callbacks for one touch is not modelled. Each callback is modelled on its own.
- Concurrency is not modelled: the engine runs everything on one thread.
- The camera, parallax, health display and jump-reach visualiser files are not part of this model.
