# Death, buffs and contact damage of a 2D action game, in Dafny

This project models the gameplay core of a Unity 2D game. The core has five scripts:

- **PlayerDeathBuffSystem**: the player's health, the survival timer, death, the stacking buffs a player earns by surviving long enough before dying, and the delayed respawn.
- **PlayerMovement2D**: running, ground and double jumps, the dash with its cooldown, the melee attack with its cooldown and hit-box window, and facing.
- **hitScript**: the player's hit box. It deals damage to the boss and receives damage from enemies behind an invulnerability window.
- **EnemyDamage**: contact damage, given on entering the player and then at most once per interval while the contact lasts.
- **BossManager**: boss health, the unguarded defeat hook and the damage flash.

Each script follows the same two-part pattern:

1. A module of pure rules. Datatypes hold the script's state, and one function performs each operation as a transition. The lemmas in that module (and in the `*_facts.dfy` files) state the properties the script promises.
2. A class with the script's own fields, updated in place. Each method is proved to perform the transition of the same name on the class's view (`Model()`, `State()`, `Guard()`, `Contact()`).

The class methods call each other the way the scripts do. For example, `Die` calls `GrantRandomBuff`, which calls `Apply*Buff`, which writes into the movement controller and the hit script.

Engine features become explicit model elements:

- **Coroutines and `Invoke`** are phase fields: the pending respawn, the dash wait, the pending `DisableHitBox` calls, the invulnerability waits and the boss flash. `Tick(dt)` is the scheduler's step after `Update`. Unity measures a wait from the frame in which it was started and first checks it in the next frame. So a wait started during a frame (by an input callback, a hit or `Update`) is marked `justStarted`, and the `Tick` of that same frame only clears the mark. From the next frame on, each `Tick` charges its frame time. A wait ends on the first step at which its remaining time minus the frame time is at or below zero. A wait that a `Tick` chains after another one (the next flash wait, the boss's fade) starts unmarked, since it begins in the scheduler's own step.
- **Engine inputs are parameters:** `Time.deltaTime` is `dt` and `Time.time` is `now`. The ground probe and the input callbacks are a `FrameInput`. The roll of `Random.Range` in `GrantRandomBuff` is a `roll: BuffType` parameter.
- **Singletons are references:** `PlayerDeathBuffSystem.instance`, `hitScript.instance` and `BossManager.instance` are fields that hold the other objects.

Times, health and stats are exact reals.

Quirks of the scripts the model keeps:

- The Cooldown and AttackSpeed buffs both overwrite `attackSpeed`, so after `ReapplyAllBuffs` the Cooldown stacks have no effect.
- Death never calls `ResetDashState`.
- The boss's `Die` has no guard and runs on every hit that leaves no health.
- The invulnerability window opens even when the player system ignored the damage because the player was dead or respawning.
- A player who walks off a ledge cannot jump at all until landing again.
- `EnemyDamage` moves its clock on a delivery even when the hit script has no player to forward the damage to.
- Every attack invokes its own `DisableHitBox` half a second later. With an attack cooldown under 0.5 s (the buffs allow 0.1 s), the call invoked by an earlier attack can close the hit box of a later one early.

## Model

| member | source | states |
|---|---|---|
| Buffs.Grant | GMTK2025-main/Assets/Scripts/Player/PlayerDeathBuffSystem.cs:202-233 | the chosen counter goes up by exactly one and every other counter is unchanged |
| Buffs.ReapplyAll | GMTK2025-main/Assets/Scripts/Player/PlayerDeathBuffSystem.cs:353-360 | after the five applies in order, the hit script holds 10 + d·damageBuffAmount and the controller holds attackSpeed = max(0.1, 1 − a·attackSpeedBuffAmount), moveSpeed = 5 + m·movementBuffAmount, jumpForce = 10 + h·highJumpBuffAmount and doubleJumpForce = 8 + h·highJumpBuffAmount; an unassigned reference stays unassigned and the enabled flag is kept |
| Buffs.ReapplyIdempotent | GMTK2025-main/Assets/Scripts/Player/PlayerDeathBuffSystem.cs:353-360 | reapplying twice with the same counters gives what reapplying once gives |
| Buffs.ReapplyForgetsOldValues | GMTK2025-main/Assets/Scripts/Player/PlayerDeathBuffSystem.cs:238-282 | the reapplied values depend only on the counters and amounts, not on what the targets held before |
| Buffs.CooldownStacksOverwritten | GMTK2025-main/Assets/Scripts/Player/PlayerDeathBuffSystem.cs:246-272 | changing the Cooldown counter changes nothing ReapplyAllBuffs writes, because the AttackSpeed write comes after it |
| Buffs.AttackSpeedBounds | GMTK2025-main/Assets/Scripts/Player/PlayerDeathBuffSystem.cs:246-272 | both attack-cooldown formulas are always at least 0.1, and at most 1.0 when the amounts are non-negative |
| Buffs.StatsMonotone | GMTK2025-main/Assets/Scripts/Player/PlayerDeathBuffSystem.cs:238-282 | with non-negative amounts, more stacks give at least as much damage, speed and jump force and at most as long an attack cooldown |
| Buffs.DamageMonotone | GMTK2025-main/Assets/Scripts/Player/PlayerDeathBuffSystem.cs:242 | the damage formula does not decrease in the damage stacks |
| Buffs.MoveSpeedMonotone | GMTK2025-main/Assets/Scripts/Player/PlayerDeathBuffSystem.cs:260 | the move-speed formula does not decrease in the movement stacks |
| Buffs.JumpMonotone | GMTK2025-main/Assets/Scripts/Player/PlayerDeathBuffSystem.cs:279-280 | both jump-force formulas do not decrease in the high-jump stacks |
| Buffs.AttackSpeedMonotone | GMTK2025-main/Assets/Scripts/Player/PlayerDeathBuffSystem.cs:269-270 | the AttackSpeed cooldown formula does not increase in its stacks |
| Buffs.CooldownMonotone | GMTK2025-main/Assets/Scripts/Player/PlayerDeathBuffSystem.cs:251-252 | the Cooldown formula does not increase in its stacks |
| Buffs.GrantAddsOne | GMTK2025-main/Assets/Scripts/Player/PlayerDeathBuffSystem.cs:197-233 | a grant adds one stack in all and lowers no counter |
| PlayerLife.Init | GMTK2025-main/Assets/Scripts/Player/PlayerDeathBuffSystem.cs:64-102 | Awake leaves a player that satisfies the flag invariant, with health in range when maxHealth is not negative |
| PlayerLife.Update | GMTK2025-main/Assets/Scripts/Player/PlayerDeathBuffSystem.cs:104-114 | survivalTime grows by dt while the player is alive and stays put while dead; nothing else changes, and the invariant is kept |
| PlayerLife.SetMoveEnabled | GMTK2025-main/Assets/Scripts/Player/PlayerDeathBuffSystem.cs:170-173 | only the controller's enabled flag is written, and only when the controller is present |
| PlayerLife.Halt | GMTK2025-main/Assets/Scripts/Player/PlayerDeathBuffSystem.cs:162-166 | only the velocity of the controller's rigid body is written, to zero, and only when the controller is present |
| PlayerLife.TakeDamage | GMTK2025-main/Assets/Scripts/Player/PlayerDeathBuffSystem.cs:116-133 | a dead or respawning player is left exactly as it was; the invariant is kept |
| PlayerLife.Heal | GMTK2025-main/Assets/Scripts/Player/PlayerDeathBuffSystem.cs:135-142 | only currentHealth can change, and the invariant is kept |
| PlayerLife.Die | GMTK2025-main/Assets/Scripts/Player/PlayerDeathBuffSystem.cs:144-195 | the guard makes a second call a no-op; health, timer, threshold and amounts are kept; the stacks gain the rolled kind exactly when the player survived at least buffThreshold; from a consistent state with no health left the invariant holds |
| PlayerLife.MarkDead | GMTK2025-main/Assets/Scripts/Player/PlayerDeathBuffSystem.cs:152-173 | isDead is set, the controller's body is stopped and movement is disabled; nothing else changes |
| PlayerLife.ScheduleRespawn | GMTK2025-main/Assets/Scripts/Player/PlayerDeathBuffSystem.cs:185-194 | only isRespawning and the pending respawn change |
| PlayerLife.GrantRandomBuff | GMTK2025-main/Assets/Scripts/Player/PlayerDeathBuffSystem.cs:197-236 | one more stack of the rolled kind, and that kind's stat pushed from the new counters |
| PlayerLife.StartRespawnCoroutine | GMTK2025-main/Assets/Scripts/Player/PlayerDeathBuffSystem.cs:284-295 | only isRespawning and the pending respawn change; nothing is written elsewhere |
| PlayerLife.FinishRespawn | GMTK2025-main/Assets/Scripts/Player/PlayerDeathBuffSystem.cs:297-347 | full health, survival timer at zero, both flags clear, stacks kept; the body stopped, movement re-enabled and every stat recomputed |
| PlayerLife.RespawnPlayerDirect | GMTK2025-main/Assets/Scripts/Player/PlayerDeathBuffSystem.cs:421-467 | does nothing while isRespawning, otherwise performs the same reset as the coroutine |
| PlayerLife.Tick | GMTK2025-main/Assets/Scripts/Player/PlayerDeathBuffSystem.cs:186-194 | with no respawn pending nothing changes; stacks, amounts and maxHealth are never changed; the invariant is kept |
| PlayerLife.ForceDeath | GMTK2025-main/Assets/Scripts/Player/PlayerDeathBuffSystem.cs:399-406 | a dead player is left as it was; the invariant is kept |
| PlayerLife.ResetBuffs | GMTK2025-main/Assets/Scripts/Player/PlayerDeathBuffSystem.cs:409-418 | all five counters are zero and every stat is recomputed from them |
| PlayerLifeFacts.TakeDamageOutcome | GMTK2025-main/Assets/Scripts/Player/PlayerDeathBuffSystem.cs:116-133 | health becomes max(health − damage, 0); the player dies exactly when health − damage ≤ 0; a non-lethal hit changes only health |
| PlayerLifeFacts.HealthStaysInRange | GMTK2025-main/Assets/Scripts/Player/PlayerDeathBuffSystem.cs:124-142 | non-negative damage, healing, the timer, the scheduler, forced death and the buff reset keep health within [0, maxHealth] |
| PlayerLifeFacts.SurvivalTimeAddsUp | GMTK2025-main/Assets/Scripts/Player/PlayerDeathBuffSystem.cs:107-110 | over any run of frames the survival timer of a living player grows by exactly the sum of the frame times, a dead player's stays put, and nothing else changes |
| PlayerLifeFacts.HealRules | GMTK2025-main/Assets/Scripts/Player/PlayerDeathBuffSystem.cs:135-142 | healing a dead player does nothing; otherwise health becomes min(health + amount, maxHealth) |
| PlayerLifeFacts.DeathHappensOnce | GMTK2025-main/Assets/Scripts/Player/PlayerDeathBuffSystem.cs:129-152 | after a lethal hit, a second hit, ForceDeath or Die changes nothing |
| PlayerLifeFacts.DeathSchedulesRespawn | GMTK2025-main/Assets/Scripts/Player/PlayerDeathBuffSystem.cs:144-195 | dying sets isDead, stops the body, disables movement, and schedules the coroutine (isRespawning set) when active or the two-second Invoke otherwise, marked as started in this frame |
| PlayerLifeFacts.DeathBuff | GMTK2025-main/Assets/Scripts/Player/PlayerDeathBuffSystem.cs:176-236 | a death at or past the threshold adds exactly one stack in total and pushes the rolled kind's stat; an earlier death keeps every counter and every pushed stat |
| PlayerLifeFacts.DamageBuffReachesHitScript | GMTK2025-main/Assets/Scripts/Player/PlayerDeathBuffSystem.cs:238-244 | a damage buff granted on death sets the hit script's playerDamage to 10 + (d + 1)·damageBuffAmount |
| PlayerLifeFacts.RespawnRestores | GMTK2025-main/Assets/Scripts/Player/PlayerDeathBuffSystem.cs:297-347 | when the delay of a respawn from an earlier frame runs out, either path restores full health, a zero timer and clear flags, keeps the stacks, stops the body, re-enables movement and reapplies every buff |
| PlayerLifeFacts.DeathFrameDoesNotCount | GMTK2025-main/Assets/Scripts/Player/PlayerDeathBuffSystem.cs:185-194 | the frame in which the respawn was scheduled does not count towards its delay, however long it is; only the mark is cleared |
| PlayerLifeFacts.DeadThroughoutDelay | GMTK2025-main/Assets/Scripts/Player/PlayerDeathBuffSystem.cs:284-295 | after the frame that scheduled the respawn, while the frame times add up to less than the delay, only the remaining wait shrinks, by exactly their sum |
| PlayerLifeFacts.RespawnTiming | GMTK2025-main/Assets/Scripts/Player/PlayerDeathBuffSystem.cs:144-195 | after a death, the player stays dead through the death frame and every later frame before the frame times since the death frame reach 2 s, and respawns at full health on the frame that reaches it |
| PlayerLifeFacts.ResetRestoresBaseStats | GMTK2025-main/Assets/Scripts/Player/PlayerDeathBuffSystem.cs:409-418 | after ResetBuffs no stack is left and the targets hold the base values 10, 1.0, 5, 10 and 8 |
| PlayerLifeFacts.StepKeepsInv | GMTK2025-main/Assets/Scripts/Player/PlayerDeathBuffSystem.cs:51-53 | every event keeps the safety flags consistent with the pending respawn |
| PlayerLifeFacts.RunKeepsInv | GMTK2025-main/Assets/Scripts/Player/PlayerDeathBuffSystem.cs:51-53 | every run of events keeps the flag invariant |
| PlayerLifeFacts.StepStacks | GMTK2025-main/Assets/Scripts/Player/PlayerDeathBuffSystem.cs:197-233 | no event other than ResetBuffs lowers a counter, and one event adds at most one stack |
| PlayerLifeFacts.StacksNeverDecrease | GMTK2025-main/Assets/Scripts/Player/PlayerDeathBuffSystem.cs:25-30 | over a run without ResetBuffs the counters never drop, and they gain at most one stack per event |
| PlayerLifeFacts.LethalHitAfterLongLife | GMTK2025-main/Assets/Scripts/Player/PlayerDeathBuffSystem.cs:104-195 | scenario: the player runs for 31 s and a 150-point hit kills them, stopping the body and granting a damage stack (playerDamage 15) with movement disabled; they stay dead through the rest of that frame, and two seconds later are back at 100 health with movement enabled |
| Player.PlayerDeathBuffSystem.constructor | GMTK2025-main/Assets/Scripts/Player/PlayerDeathBuffSystem.cs:64-102 | Awake: the initial player, and the hit script's player instance set to the new object |
| Player.PlayerDeathBuffSystem.Update | GMTK2025-main/Assets/Scripts/Player/PlayerDeathBuffSystem.cs:104-114 | the fields perform PlayerLife.Update |
| Player.PlayerDeathBuffSystem.TakeDamage | GMTK2025-main/Assets/Scripts/Player/PlayerDeathBuffSystem.cs:116-133 | the fields and the written targets perform PlayerLife.TakeDamage; the controller changes only in the fields the buff system writes |
| Player.PlayerDeathBuffSystem.Heal | GMTK2025-main/Assets/Scripts/Player/PlayerDeathBuffSystem.cs:135-142 | the fields perform PlayerLife.Heal |
| Player.PlayerDeathBuffSystem.Die | GMTK2025-main/Assets/Scripts/Player/PlayerDeathBuffSystem.cs:144-195 | the fields and targets perform PlayerLife.Die; of the controller only the buffed stats, the enabled flag and the body's velocity change, so its dash, jumps, attack, gravity and impulses are untouched, since Die never calls ResetDashState |
| Player.PlayerDeathBuffSystem.MarkDead | GMTK2025-main/Assets/Scripts/Player/PlayerDeathBuffSystem.cs:152-173 | performs PlayerLife.MarkDead, zeroing the controller's body velocity before disabling it |
| Player.PlayerDeathBuffSystem.ScheduleRespawn | GMTK2025-main/Assets/Scripts/Player/PlayerDeathBuffSystem.cs:185-194 | performs PlayerLife.ScheduleRespawn |
| Player.PlayerDeathBuffSystem.GrantRandomBuff | GMTK2025-main/Assets/Scripts/Player/PlayerDeathBuffSystem.cs:197-236 | performs PlayerLife.GrantRandomBuff for the rolled kind |
| Player.PlayerDeathBuffSystem.ApplyDamageBuff | GMTK2025-main/Assets/Scripts/Player/PlayerDeathBuffSystem.cs:238-244 | the hit script's playerDamage becomes the damage formula when the reference is assigned; the player's own state is unchanged |
| Player.PlayerDeathBuffSystem.ApplyCooldownBuff | GMTK2025-main/Assets/Scripts/Player/PlayerDeathBuffSystem.cs:246-254 | the controller's attackSpeed becomes the Cooldown formula; nothing else changes |
| Player.PlayerDeathBuffSystem.ApplyMovementBuff | GMTK2025-main/Assets/Scripts/Player/PlayerDeathBuffSystem.cs:256-262 | the controller's moveSpeed becomes the movement formula; nothing else changes |
| Player.PlayerDeathBuffSystem.ApplyAttackSpeedBuff | GMTK2025-main/Assets/Scripts/Player/PlayerDeathBuffSystem.cs:264-272 | the controller's attackSpeed becomes the AttackSpeed formula; nothing else changes |
| Player.PlayerDeathBuffSystem.ApplyHighJumpBuff | GMTK2025-main/Assets/Scripts/Player/PlayerDeathBuffSystem.cs:274-282 | both jump forces become the high-jump formulas; nothing else changes |
| Player.PlayerDeathBuffSystem.StartRespawnCoroutine | GMTK2025-main/Assets/Scripts/Player/PlayerDeathBuffSystem.cs:284-295 | performs PlayerLife.StartRespawnCoroutine |
| Player.PlayerDeathBuffSystem.FinishRespawn | GMTK2025-main/Assets/Scripts/Player/PlayerDeathBuffSystem.cs:297-347 | performs PlayerLife.FinishRespawn, zeroing the controller's body velocity before enabling it |
| Player.PlayerDeathBuffSystem.RespawnPlayerDirect | GMTK2025-main/Assets/Scripts/Player/PlayerDeathBuffSystem.cs:421-467 | performs PlayerLife.RespawnPlayerDirect, zeroing the controller's body velocity before enabling it |
| Player.PlayerDeathBuffSystem.ReapplyAllBuffs | GMTK2025-main/Assets/Scripts/Player/PlayerDeathBuffSystem.cs:353-360 | the targets become Buffs.ReapplyAll of the counters; the player's state is unchanged |
| Player.PlayerDeathBuffSystem.Tick | GMTK2025-main/Assets/Scripts/Player/PlayerDeathBuffSystem.cs:186-194 | performs PlayerLife.Tick |
| Player.PlayerDeathBuffSystem.GetBuffStacks | GMTK2025-main/Assets/Scripts/Player/PlayerDeathBuffSystem.cs:385-396 | returns the counter of the asked kind |
| Player.PlayerDeathBuffSystem.ForceDeath | GMTK2025-main/Assets/Scripts/Player/PlayerDeathBuffSystem.cs:399-406 | performs PlayerLife.ForceDeath |
| Player.PlayerDeathBuffSystem.ResetBuffs | GMTK2025-main/Assets/Scripts/Player/PlayerDeathBuffSystem.cs:409-418 | performs PlayerLife.ResetBuffs |
| MoveRules.Init | GMTK2025-main/Assets/Scripts/Player/PlayerMovement.cs:9-52 | the field initialisers satisfy the controller invariant |
| MoveRules.Countdown | GMTK2025-main/Assets/Scripts/Player/PlayerMovement.cs:240-248 | pending Invoke calls all stay positive, and the list shrinks exactly when one comes due |
| MoveRules.HandleAttack | GMTK2025-main/Assets/Scripts/Player/PlayerMovement.cs:233-243 | only the attack state changes, and its invariant is kept |
| MoveRules.PerformDash | GMTK2025-main/Assets/Scripts/Player/PlayerMovement.cs:262-291 | only the dash state and the body change; no impulse is added; isDashing matches the dash phase |
| MoveRules.TryDash | GMTK2025-main/Assets/Scripts/Player/PlayerMovement.cs:250-260 | a refused dash (canDash down) changes nothing; the dash invariant is kept |
| MoveRules.ReceiveInput | GMTK2025-main/Assets/Scripts/Player/PlayerMovement.cs:191-220 | the axis is stored, a jump press only sets jumpInput, no impulse is added, and the invariant is kept |
| MoveRules.CheckGrounded | GMTK2025-main/Assets/Scripts/Player/PlayerMovement.cs:300-310 | only the jump state changes, jumpInput is kept, and the invariant is kept |
| MoveRules.HandleMovement | GMTK2025-main/Assets/Scripts/Player/PlayerMovement.cs:312-319 | only the horizontal velocity can change |
| MoveRules.Jump | GMTK2025-main/Assets/Scripts/Player/PlayerMovement.cs:323-341 | one impulse is added per jump used, and jumpCount stays in [0, 2] |
| MoveRules.HandleJump | GMTK2025-main/Assets/Scripts/Player/PlayerMovement.cs:321-343 | the request is consumed, one impulse is added per jump used, and the invariant is kept |
| MoveRules.HandleFlip | GMTK2025-main/Assets/Scripts/Player/PlayerMovement.cs:345-355 | only the facing flag can change |
| MoveRules.UpdateCooldowns | GMTK2025-main/Assets/Scripts/Player/PlayerMovement.cs:363-386 | only the two flags and their timers change, and the invariant is kept |
| MoveRules.ResumeDash | GMTK2025-main/Assets/Scripts/Player/PlayerMovement.cs:291-297 | only isDashing, the dash phase and the gravity scale change; the dash invariant is kept |
| MoveRules.RunInvokes | GMTK2025-main/Assets/Scripts/Player/PlayerMovement.cs:245-248 | only the hit box and its pending calls change; the attack invariant is kept |
| MoveRules.Tick | GMTK2025-main/Assets/Scripts/Player/PlayerMovement.cs:262-298 | the scheduler step changes only the hit box and its pending calls, the dash phase and the gravity scale, moves the calls invoked this frame into the countdown, and keeps the invariant |
| MovementFacts.ReceiveInputKeepsInv | GMTK2025-main/Assets/Scripts/Player/PlayerMovement.cs:191-243 | the input callbacks keep the invariant |
| MovementFacts.UpdateKeepsInv | GMTK2025-main/Assets/Scripts/Player/PlayerMovement.cs:139-150 | every Update keeps jumpCount in [0, 2], timers run out under raised flags, isDashing matches the coroutine, and an active hit box has a pending DisableHitBox |
| MovementFacts.TickKeepsInv | GMTK2025-main/Assets/Scripts/Player/PlayerMovement.cs:245-298 | the scheduler step keeps the invariant |
| MovementFacts.FrameKeepsInv | GMTK2025-main/Assets/Scripts/Player/PlayerMovement.cs:139-150 | a whole frame (Update and then the scheduler) keeps the invariant |
| MovementFacts.StepKeepsInv | GMTK2025-main/Assets/Scripts/Player/PlayerMovement.cs:139-150 | each single event keeps the invariant |
| MovementFacts.RunKeepsInv | GMTK2025-main/Assets/Scripts/Player/PlayerMovement.cs:24-30 | every run of events keeps the invariant: frames with their own frame times, every setter, ResetDashState, and the buff system's writes of attackSpeed, enabled and the body's velocity |
| MovementFacts.JumpCountResetOnlyOnLanding | GMTK2025-main/Assets/Scripts/Player/PlayerMovement.cs:300-310 | jumpCount is reset to 0 exactly on the not-grounded to grounded edge and is kept otherwise |
| MovementFacts.JumpCountDropsOnlyOnLanding | GMTK2025-main/Assets/Scripts/Player/PlayerMovement.cs:300-343 | over a frame, jumpCount only drops on a landing of an enabled controller |
| MovementFacts.JumpRules | GMTK2025-main/Assets/Scripts/Player/PlayerMovement.cs:321-343 | a ground jump needs ground and no jump used and sets the count to 1 with jumpForce; a double jump needs hasDoubleJump and one jump used and sets it to 2 with doubleJumpForce; the count changes exactly in those cases; jumpInput is always false after |
| MovementFacts.NoJumpAfterWalkingOff | GMTK2025-main/Assets/Scripts/Player/PlayerMovement.cs:326-334 | in the air with no jump used, neither jump rule fires |
| MovementFacts.AirborneFrame | GMTK2025-main/Assets/Scripts/Player/PlayerMovement.cs:321-343 | an airborne frame adds as many impulses as jumps it uses |
| MovementFacts.AirborneJumpsBounded | GMTK2025-main/Assets/Scripts/Player/PlayerMovement.cs:321-343 | over any number of airborne frames, at most 2 − jumpCount jumps, and none after walking off a ledge |
| MovementFacts.AirborneNoFirstJump | GMTK2025-main/Assets/Scripts/Player/PlayerMovement.cs:326-334 | an airborne frame with no jump used yet still has none and adds no impulse |
| MovementFacts.DashDirectionIsUnit | GMTK2025-main/Assets/Scripts/Player/PlayerMovement.cs:269-277 | the dash direction is ±1: the sign of the axis, or the facing direction when the axis is 0 |
| MovementFacts.DashGate | GMTK2025-main/Assets/Scripts/Player/PlayerMovement.cs:250-286 | a dash starts exactly when canDash and not dashing, setting isDashing, clearing canDash, starting the cooldown, zeroing gravity and setting the dash velocity; otherwise nothing changes |
| MovementFacts.NoDashDuringCooldown | GMTK2025-main/Assets/Scripts/Player/PlayerMovement.cs:250-266 | a dash request while the cooldown timer runs changes nothing |
| MovementFacts.DashSurvivesItsFrame | GMTK2025-main/Assets/Scripts/Player/PlayerMovement.cs:139-150 | a dash started by a frame's input is still running at the end of that frame, however long, with the dash velocity, zero gravity and its full wait left |
| MovementFacts.InputStartsDash | GMTK2025-main/Assets/Scripts/Player/PlayerMovement.cs:250-291 | the dash input of an able controller starts a dash marked as begun this frame, with zero gravity and the dash velocity |
| MovementFacts.TickSkipsFreshDash | GMTK2025-main/Assets/Scripts/Player/PlayerMovement.cs:291 | the scheduler step of the frame that started a dash changes nothing of the dash but its mark, and nothing of the body |
| MovementFacts.DashEnds | GMTK2025-main/Assets/Scripts/Player/PlayerMovement.cs:291-295 | a dash from an earlier frame ends on the first step at which its wait runs out, restoring the saved gravity |
| MovementFacts.DashContinues | GMTK2025-main/Assets/Scripts/Player/PlayerMovement.cs:291 | before its wait runs out, a dash from an earlier frame goes on, its wait shortened by exactly the frame time, the body untouched |
| MovementFacts.DashCooldownFrame | GMTK2025-main/Assets/Scripts/Player/PlayerMovement.cs:376-385 | one frame on cooldown: no dash, and the timer loses dt if enabled |
| MovementFacts.CooldownHoldsOverFrames | GMTK2025-main/Assets/Scripts/Player/PlayerMovement.cs:376-385 | while the cooldown has not run out, no run of frames starts a dash, and the timer loses exactly the enabled frames' time |
| MovementFacts.ResetDash | GMTK2025-main/Assets/Scripts/Player/PlayerMovement.cs:424-439 | ResetDashState sets isDashing false, canDash true and the timer to 0, restores gravity, stops the body, keeps pending hit-box calls and keeps the invariant |
| MovementFacts.AttackGate | GMTK2025-main/Assets/Scripts/Player/PlayerMovement.cs:233-243 | an attack fires only when canAttack, opening the hit box, invoking a 0.5 s DisableHitBox that starts counting next frame, and starting the cooldown at attackSpeed; otherwise nothing changes |
| MovementFacts.HitBoxSurvivesItsFrame | GMTK2025-main/Assets/Scripts/Player/PlayerMovement.cs:233-248 | a hit box opened by a frame's input is still active at the end of that frame, however long, unless an earlier attack's DisableHitBox comes due in it; its call joins the countdown with the full 0.5 s |
| MovementFacts.CooldownRules | GMTK2025-main/Assets/Scripts/Player/PlayerMovement.cs:363-386 | a timer runs only while its flag is down, and the flag rises exactly when the timer is at or below zero |
| MovementFacts.MovementVelocity | GMTK2025-main/Assets/Scripts/Player/PlayerMovement.cs:312-319 | not dashing: vx = axis·moveSpeed and vy kept; dashing: nothing changes |
| MovementFacts.FlipFacing | GMTK2025-main/Assets/Scripts/Player/PlayerMovement.cs:345-361 | positive axis faces right, negative faces left, zero changes nothing |
| MovementFacts.SettersTouchOneField | GMTK2025-main/Assets/Scripts/Player/PlayerMovement.cs:388-412 | each setter, and each of the buff system's direct writes of attackSpeed and the body's velocity, overwrites only its own field; the last write wins; writes to different fields commute; the invariant is kept |
| MovementFacts.DisabledFrameDoesNothing | GMTK2025-main/Assets/Scripts/Player/PlayerMovement.cs:111-137 | a disabled controller ignores its frames |
| Movement.PlayerMovement2D.constructor | GMTK2025-main/Assets/Scripts/Player/PlayerMovement.cs:9-58 | the fields start as MoveRules.Init |
| Movement.PlayerMovement2D.Update | GMTK2025-main/Assets/Scripts/Player/PlayerMovement.cs:139-150 | the fields perform MoveRules.Update, in the source's call order |
| Movement.PlayerMovement2D.ReceiveInput | GMTK2025-main/Assets/Scripts/Player/PlayerMovement.cs:191-220 | performs MoveRules.ReceiveInput |
| Movement.PlayerMovement2D.OnMove | GMTK2025-main/Assets/Scripts/Player/PlayerMovement.cs:208-211 | performs MoveRules.OnMove |
| Movement.PlayerMovement2D.OnJump | GMTK2025-main/Assets/Scripts/Player/PlayerMovement.cs:213-220 | performs MoveRules.OnJump |
| Movement.PlayerMovement2D.HandleAttack | GMTK2025-main/Assets/Scripts/Player/PlayerMovement.cs:233-243 | performs MoveRules.HandleAttack |
| Movement.PlayerMovement2D.TryDash | GMTK2025-main/Assets/Scripts/Player/PlayerMovement.cs:250-260 | performs MoveRules.TryDash |
| Movement.PlayerMovement2D.PerformDash | GMTK2025-main/Assets/Scripts/Player/PlayerMovement.cs:262-291 | performs MoveRules.PerformDash |
| Movement.PlayerMovement2D.CheckGrounded | GMTK2025-main/Assets/Scripts/Player/PlayerMovement.cs:300-310 | performs MoveRules.CheckGrounded |
| Movement.PlayerMovement2D.HandleMovement | GMTK2025-main/Assets/Scripts/Player/PlayerMovement.cs:312-319 | performs MoveRules.HandleMovement |
| Movement.PlayerMovement2D.HandleJump | GMTK2025-main/Assets/Scripts/Player/PlayerMovement.cs:321-343 | performs MoveRules.HandleJump |
| Movement.PlayerMovement2D.Jump | GMTK2025-main/Assets/Scripts/Player/PlayerMovement.cs:323-341 | performs MoveRules.Jump |
| Movement.PlayerMovement2D.HandleFlip | GMTK2025-main/Assets/Scripts/Player/PlayerMovement.cs:345-355 | performs MoveRules.HandleFlip |
| Movement.PlayerMovement2D.Flip | GMTK2025-main/Assets/Scripts/Player/PlayerMovement.cs:357-361 | performs MoveRules.Flip |
| Movement.PlayerMovement2D.UpdateCooldowns | GMTK2025-main/Assets/Scripts/Player/PlayerMovement.cs:363-386 | performs MoveRules.UpdateCooldowns |
| Movement.PlayerMovement2D.Tick | GMTK2025-main/Assets/Scripts/Player/PlayerMovement.cs:262-298 | performs MoveRules.Tick |
| Movement.PlayerMovement2D.ResumeDash | GMTK2025-main/Assets/Scripts/Player/PlayerMovement.cs:291-297 | performs MoveRules.ResumeDash |
| Movement.PlayerMovement2D.RunInvokes | GMTK2025-main/Assets/Scripts/Player/PlayerMovement.cs:245-248 | performs MoveRules.RunInvokes |
| Movement.PlayerMovement2D.SetMoveSpeed | GMTK2025-main/Assets/Scripts/Player/PlayerMovement.cs:389-392 | performs MoveRules.SetMoveSpeed |
| Movement.PlayerMovement2D.SetJumpForce | GMTK2025-main/Assets/Scripts/Player/PlayerMovement.cs:394-397 | performs MoveRules.SetJumpForce |
| Movement.PlayerMovement2D.SetDoubleJumpForce | GMTK2025-main/Assets/Scripts/Player/PlayerMovement.cs:399-402 | performs MoveRules.SetDoubleJumpForce |
| Movement.PlayerMovement2D.SetDashPower | GMTK2025-main/Assets/Scripts/Player/PlayerMovement.cs:404-407 | performs MoveRules.SetDashPower |
| Movement.PlayerMovement2D.SetDashCooldown | GMTK2025-main/Assets/Scripts/Player/PlayerMovement.cs:409-412 | performs MoveRules.SetDashCooldown |
| Movement.PlayerMovement2D.SetAttackSpeed | GMTK2025-main/Assets/Scripts/Player/PlayerDeathBuffSystem.cs:252 | the buff system's direct write of the public attackSpeed field |
| Movement.PlayerMovement2D.SetEnabled | GMTK2025-main/Assets/Scripts/Player/PlayerDeathBuffSystem.cs:172 | the buff system's write of playerMovement.enabled |
| Movement.PlayerMovement2D.SetVelocity | GMTK2025-main/Assets/Scripts/Player/PlayerDeathBuffSystem.cs:162-166 | the buff system's write of the rigid body's linearVelocity, on the body this controller moves |
| Movement.PlayerMovement2D.ResetDashState | GMTK2025-main/Assets/Scripts/Player/PlayerMovement.cs:424-439 | performs MoveRules.ResetDashState |
| Invulnerability.CyclesBounds | GMTK2025-main/Assets/Scripts/Player/hitScript.cs:51-57 | the flash cycles cover the duration, and one cycle fewer would not |
| Invulnerability.CyclesUnique | GMTK2025-main/Assets/Scripts/Player/hitScript.cs:51-57 | the cycle count is the only count with both properties |
| Invulnerability.FlashCycles | GMTK2025-main/Assets/Scripts/Player/hitScript.cs:47-58 | the `elapsed += 2·flashInterval` loop terminates after exactly the least number of cycles covering the duration |
| Invulnerability.FlashWaits | GMTK2025-main/Assets/Scripts/Player/hitScript.cs:51-58 | n cycles are 2n waits of 0.1 s each |
| Invulnerability.Start | GMTK2025-main/Assets/Scripts/Player/hitScript.cs:37-66 | the flag is up exactly while waits are pending, and the waits are the coroutine's whole schedule |
| Invulnerability.Tick | GMTK2025-main/Assets/Scripts/Player/hitScript.cs:54-67 | with nothing pending nothing changes; with waits pending the frame mark is always cleared; the flag-matches-waits invariant is kept |
| Invulnerability.FlashWaitsSum | GMTK2025-main/Assets/Scripts/Player/hitScript.cs:51-58 | n cycles take n·0.2 s |
| Invulnerability.WindowLength | GMTK2025-main/Assets/Scripts/Player/hitScript.cs:37-67 | the window opens unless a sprite is present and the duration is not positive; without a sprite it lasts the duration; with one it lasts whole cycles, at least the duration and less than one cycle more |
| Invulnerability.TickAtMostDt | GMTK2025-main/Assets/Scripts/Player/hitScript.cs:54-64 | a scheduler step consumes at most dt of the waits |
| Invulnerability.TicksAtMostElapsed | GMTK2025-main/Assets/Scripts/Player/hitScript.cs:54-64 | a run of steps consumes at most the total frame time |
| Invulnerability.InvulnerableForDuration | GMTK2025-main/Assets/Scripts/Player/hitScript.cs:39-67 | a window started with a positive duration is still open after the frame that started it, whatever its length, and any later frames adding up to less than the duration |
| Invulnerability.TicksKeepInv | GMTK2025-main/Assets/Scripts/Player/hitScript.cs:39-67 | the flag matches the pending waits across any run of steps |
| Invulnerability.WindowCloses | GMTK2025-main/Assets/Scripts/Player/hitScript.cs:51-67 | with frames no shorter than a wait, the flag is down after one frame per wait, plus the starting frame when it has not ended yet |
| Invulnerability.DefaultWindow | GMTK2025-main/Assets/Scripts/Player/hitScript.cs:47-58 | the default one-second window with a sprite is 5 cycles, 10 waits |
| Combat.TakeDamageFromEnemy | GMTK2025-main/Assets/Scripts/Player/hitScript.cs:28-35 | the player instance is neither created nor lost |
| Combat.HitGate | GMTK2025-main/Assets/Scripts/Player/hitScript.cs:28-35 | invulnerable: nothing changes; otherwise the player takes the damage and a fresh window opens |
| Combat.IgnoredHitStillOpensWindow | GMTK2025-main/Assets/Scripts/Player/hitScript.cs:30-34 | a hit on a dead or respawning player leaves the player unchanged yet opens the window |
| Combat.NoPlayerNoEffect | GMTK2025-main/Assets/Scripts/Player/hitScript.cs:30 | without a player instance nothing happens |
| Combat.OneHitPerWindow | GMTK2025-main/Assets/Scripts/Player/hitScript.cs:28-67 | after a forwarded hit, every hit later in the same frame, or in later frames adding up to less than the duration, is ignored, whatever the player's state |
| Player.HitScript.constructor | GMTK2025-main/Assets/Scripts/Player/hitScript.cs:5-15 | not invulnerable, no waits, no player instance yet |
| Player.HitScript.OnTriggerEnter2D | GMTK2025-main/Assets/Scripts/Player/hitScript.cs:18-25 | an "Enemy" contact applies exactly playerDamage to any boss, even one whose health is still negative, and leaves its health non-negative; any other tag leaves the boss unchanged |
| Player.HitScript.TakeDamageFromEnemy | GMTK2025-main/Assets/Scripts/Player/hitScript.cs:28-35 | the guard and the player perform Combat.TakeDamageFromEnemy |
| Player.HitScript.StartInvulnerability | GMTK2025-main/Assets/Scripts/Player/hitScript.cs:37-58 | the guard becomes Invulnerability.Start, with the sprite loop counted by FlashCycles |
| Player.HitScript.Tick | GMTK2025-main/Assets/Scripts/Player/hitScript.cs:51-67 | performs Invulnerability.Tick |
| Player.HitScript.IsInvulnerable | GMTK2025-main/Assets/Scripts/Player/hitScript.cs:70 | returns the flag, which is up exactly while waits are pending |
| EnemyRules.Init | GMTK2025-main/Assets/Scripts/EnemyDamage.cs:6-9 | the clock starts at 0 |
| EnemyRules.DeliveryOutcome | GMTK2025-main/Assets/Scripts/EnemyDamage.cs:31-39 | a delivery sets the clock to now, forwards exactly damageAmount through the hit script's handler, and the player takes that damage |
| EnemyRules.NoDeliveryWhileInvulnerable | GMTK2025-main/Assets/Scripts/EnemyDamage.cs:33 | with the hit script missing or invulnerable, neither handler changes anything |
| EnemyRules.ClockMovesOnlyOnDelivery | GMTK2025-main/Assets/Scripts/EnemyDamage.cs:11-39 | the clock moves exactly on a delivery: on enter for a "Player" tag and a hittable target; on stay only once the interval has passed as well; a delivery is exactly the hit script's own handling of damageAmount, and otherwise the hit script is untouched |
| EnemyRules.OtherTagsIgnored | GMTK2025-main/Assets/Scripts/EnemyDamage.cs:13-21 | colliders without the "Player" tag change nothing |
| EnemyRules.ClockMovesWithoutPlayer | GMTK2025-main/Assets/Scripts/EnemyDamage.cs:33-36 | with a hit script but no player, the clock still moves while nothing else changes |
| EnemyRules.Stays | GMTK2025-main/Assets/Scripts/EnemyDamage.cs:19-29 | a run of stays keeps damageAmount and damageInterval |
| EnemyRules.StaysAreSpaced | GMTK2025-main/Assets/Scripts/EnemyDamage.cs:19-36 | during continuous contact, each delivery, logged exactly when the interval has passed and the target can be hit, comes at least damageInterval after the previous actual delivery, and the clock holds the last one |
| EnemyRules.NothingWhileAlwaysInvulnerable | GMTK2025-main/Assets/Scripts/EnemyDamage.cs:33-36 | while the hit script stays invulnerable, no contact delivers and the clock stays put |
| EnemyRules.DefaultContactTiming | GMTK2025-main/Assets/Scripts/EnemyDamage.cs:6-24 | with the clock at 0, a stay before one second delivers nothing, while entering delivers at once |
| EnemyRules.RejectedHitDoesNotDelay | GMTK2025-main/Assets/Scripts/EnemyDamage.cs:24-36 | a stay rejected by the window leaves the clock, so the next stay after the window closes delivers at once |
| Enemy.EnemyDamage.constructor | GMTK2025-main/Assets/Scripts/EnemyDamage.cs:6-9 | damage 20, interval 1 s, clock 0 |
| Enemy.EnemyDamage.DealDamageToPlayer | GMTK2025-main/Assets/Scripts/EnemyDamage.cs:31-39 | the clock, hit script and player perform EnemyRules.DealDamageToPlayer |
| Enemy.EnemyDamage.OnTriggerEnter2D | GMTK2025-main/Assets/Scripts/EnemyDamage.cs:11-17 | performs EnemyRules.OnTriggerEnter2D |
| Enemy.EnemyDamage.OnTriggerStay2D | GMTK2025-main/Assets/Scripts/EnemyDamage.cs:19-29 | performs EnemyRules.OnTriggerStay2D |
| BossRules.Init | GMTK2025-main/Assets/Scripts/BossManager.cs:11-15 | health starts at bossMaxHealth, no flash, no defeat |
| BossRules.TakeDamage | GMTK2025-main/Assets/Scripts/BossManager.cs:22-41 | bossMaxHealth is never changed |
| BossRules.Tick | GMTK2025-main/Assets/Scripts/BossManager.cs:43-62 | the flash step changes only the flash |
| BossRules.TakeDamageClamps | GMTK2025-main/Assets/Scripts/BossManager.cs:26-29 | health becomes max(health − damage, 0), never negative, and stays at most bossMaxHealth for non-negative damage |
| BossRules.DieOnEveryLethalHit | GMTK2025-main/Assets/Scripts/BossManager.cs:37-40 | Die runs exactly on the hits with health − damage ≤ 0, once per such hit, including every hit on a boss already at zero |
| BossRules.FlashRestarts | GMTK2025-main/Assets/Scripts/BossManager.cs:33-34 | every hit restarts the flash from its hold, whatever phase it had reached |
| BossRules.HoldTiming | GMTK2025-main/Assets/Scripts/BossManager.cs:43-58 | the red hold lasts through the frame of the hit, however long, and through every later frame before the later frame times reach 0.1 s; on the frame that reaches it the fade starts with that frame's time |
| BossRules.HoldLasts | GMTK2025-main/Assets/Scripts/BossManager.cs:48 | a hold from an earlier frame shrinks by exactly the frame times while they add up to less than what is left of it |
| BossRules.HealthAfterHits | GMTK2025-main/Assets/Scripts/BossManager.cs:22-41 | after a run of non-negative hits, health is max(health − total damage, 0) |
| BossRules.FadeLasts | GMTK2025-main/Assets/Scripts/BossManager.cs:51-59 | the fade runs while its frame times add up to less than 0.2 s |
| BossRules.FadeEnds | GMTK2025-main/Assets/Scripts/BossManager.cs:54-61 | once the fade has reached 0.2 s, the next step ends it |
| Boss.BossManager.constructor | GMTK2025-main/Assets/Scripts/BossManager.cs:11-15 | the fields start as BossRules.Init for any bossMaxHealth; the health is non-negative when bossMaxHealth is |
| Boss.BossManager.TakeDamage | GMTK2025-main/Assets/Scripts/BossManager.cs:22-41 | performs BossRules.TakeDamage and keeps health non-negative |
| Boss.BossManager.Die | GMTK2025-main/Assets/Scripts/BossManager.cs:64-68 | one more defeat is counted, nothing else changes |
| Boss.BossManager.Tick | GMTK2025-main/Assets/Scripts/BossManager.cs:43-62 | performs BossRules.Tick |
| Boss.BossManager.GetCurrentHealth | GMTK2025-main/Assets/Scripts/BossManager.cs:70-73 | returns the stored health unchanged, which is never negative once bossMaxHealth is non-negative or the boss has been hit |

## Left out

- Floating point: time, health and stats are exact reals, so the model has no float rounding. In particular it does not capture the rounding of `elapsed += flashInterval * 2` in the invulnerability loop, or of `0.1f` itself.
- `int` counters: the buff stacks are unbounded naturals, so 32-bit overflow is not modelled.
- `Random.Range` in `GrantRandomBuff` is the `roll` parameter, threaded through every operation that can end in a death.
- Rendering and UI: sprite colour and visibility, the boss's `Color.Lerp` fade colours, `Flip`'s `flipX`, `UpdateUI`, `Debug.Log`, and the `OnBuffReceived`, `OnPlayerDeath` and `OnPlayerRespawn` events. These have no effect on the modelled state.
- Respawn placement: moving the transform and rigid body to the respawn point and clearing angular velocity are engine effects. The model keeps the rigid body only as the controller's velocity, gravity scale and jump impulses.
- The buff system's own rigid-body reference: Die and both respawn paths zero `playerRigidbody.linearVelocity`. The model performs that write on the body of the movement controller. It is the same `Rigidbody2D` of the player object. A player with a rigid body but no movement controller has no body in the model, so the write is absent there.
- Physics timing: `OnTriggerEnter2D` and `OnTriggerStay2D` run in the fixed-timestep loop. The model places each hit before the `Update` of the frame it belongs to, so a wait it starts is charged from the next frame. Several physics steps in one frame are several hit events before that frame.
- Engine inputs: the input-action plumbing of PlayerMovement2D (`Awake` lookup, `OnEnable`/`OnDisable` subscriptions, `HandleKeyboardInput`) is left out. Its effect is a `FrameInput` handed to `Update`, and a disabled controller receives no frames. Physics is left out too: the ground probe's result is `FrameInput.grounded`.
- `HandleAttackRotation`: camera and mouse trigonometry that only rotates the hit box.
- `Vector2.normalized` of a tiny non-zero axis: Unity returns the zero vector for such an axis. The model takes the sign, since dash directions are ±1 for any non-zero axis.
- `canDashInAir` is never read by the controller, so it plays no part in the model.
- `PlayerDeathBuffSystem.Awake`: the singleton branch that destroys a second instance, and the `GetComponent`/`FindObjectOfType` lookups. The references are given to the constructor instead.
- `activeInHierarchy` is a constant of the object. The model has no deactivation, and does not stop or suspend coroutines when an object is deactivated. The `Invoke` fallback fires after its delay.
- `GetCurrentHealth`, `GetMaxHealth` and `GetSurvivalTime` of the player are one-line getters. They are not modelled as methods; the class fields themselves are the model.
- Player.HitScript.OnTriggerEnter2D: with no boss instance the source throws a NullReferenceException. The model treats that case as doing nothing.
- Player.HitScript.TakeDamageFromEnemy: requires that the player instance writes its damage buff into this same hit script (`player.hitScript == this`). The model assumes the one-player, one-hit-script wiring of the scene.
- The ground check's `groundCheck`, `groundCheckRadius` and `groundLayerMask` settings, and the gizmo drawing, are physics and editor features.
- BossManager.Start only sets the sprite colour.
- The context scripts AttackScript.cs, PlayerStats.cs and ColissionScript.cs are not part of this model. They spawn prefabs, hold serialized values or destroy objects.
