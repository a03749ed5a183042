/**
 * What the movement rules guarantee: the invariant every frame keeps, the
 * jump, dash, attack, cooldown, velocity and facing rules, and two
 * properties of whole runs of frames (the jump budget of one airtime, and a
 * dash cooldown that holds across frames).
 */
module MovementFacts {
  import opened MoveRules

  // ---- the invariant ----

  lemma ReceiveInputKeepsInv(s: State, input: FrameInput)
    requires Inv(s)
    ensures Inv(ReceiveInput(s, input))
  {
    var s1 := OnMove(s, input.axis);
    var s2 := if input.jump then OnJump(s1) else s1;
    var s3 := if input.attack then HandleAttack(s2) else s2;
    assert Inv(s3) by {
      assert Inv(s2);
      if input.attack && s2.attack.canAttack {
        assert forall i :: 0 <= i < |s3.attack.newTimers| ==> s3.attack.newTimers[i] > 0.0 by {
          assert s3.attack.newTimers == s2.attack.newTimers + [HitBoxWindow];
        }
      }
    }
  }

  /** Every frame of Update keeps the invariant: jumpCount stays in [0, 2], a
      raised can* flag has its timer run out, isDashing matches the dash
      coroutine, and an active hit box has a pending DisableHitBox. */
  lemma UpdateKeepsInv(s: State, input: FrameInput, dt: real)
    requires Inv(s)
    ensures Inv(Update(s, input, dt))
  {
    if s.enabled {
      ReceiveInputKeepsInv(s, input);
    }
  }

  /** The scheduler's step keeps the invariant too. */
  lemma TickKeepsInv(s: State, dt: real)
    requires Inv(s)
    ensures Inv(Tick(s, dt))
  {
  }

  /** The frame as the engine runs it: Update, then the coroutine and Invoke
      bookkeeping. */
  function Frame(s: State, input: FrameInput, dt: real): State
  {
    Tick(Update(s, input, dt), dt)
  }

  lemma FrameKeepsInv(s: State, input: FrameInput, dt: real)
    requires Inv(s)
    ensures Inv(Frame(s, input, dt))
  {
    UpdateKeepsInv(s, input, dt);
    TickKeepsInv(Update(s, input, dt), dt);
  }

  /** Everything that can happen to the controller: a frame with its own
      frame time, a call of one of its setters or of ResetDashState, and the
      buff system's direct writes of attackSpeed, enabled and the rigid
      body's velocity. */
  datatype Event =
    | NextFrame(input: FrameInput, dt: real)
    | MoveSpeedSet(v: real)
    | JumpForceSet(v: real)
    | DoubleJumpForceSet(v: real)
    | DashPowerSet(v: real)
    | DashCooldownSet(v: real)
    | AttackSpeedSet(v: real)
    | EnabledSet(on: bool)
    | VelocitySet(vx: real, vy: real)
    | DashReset

  function Step(s: State, e: Event): State
  {
    match e
    case NextFrame(input, dt) => Frame(s, input, dt)
    case MoveSpeedSet(v) => SetMoveSpeed(s, v)
    case JumpForceSet(v) => SetJumpForce(s, v)
    case DoubleJumpForceSet(v) => SetDoubleJumpForce(s, v)
    case DashPowerSet(v) => SetDashPower(s, v)
    case DashCooldownSet(v) => SetDashCooldown(s, v)
    case AttackSpeedSet(v) => SetAttackSpeed(s, v)
    case EnabledSet(on) => SetEnabled(s, on)
    case VelocitySet(vx, vy) => SetVelocity(s, vx, vy)
    case DashReset => ResetDashState(s)
  }

  function Run(s: State, es: seq<Event>): State
    decreases |es|
  {
    if es == [] then s else Run(Step(s, es[0]), es[1..])
  }

  lemma StepKeepsInv(s: State, e: Event)
    requires Inv(s)
    ensures Inv(Step(s, e))
  {
    if e.NextFrame? {
      FrameKeepsInv(s, e.input, e.dt);
    }
  }

  /** Every reachable state satisfies the invariant, whatever the frame
      times and whatever the other components write in between. */
  lemma {:induction false} RunKeepsInv(s: State, es: seq<Event>)
    requires Inv(s)
    ensures Inv(Run(s, es))
    decreases |es|
  {
    if es != [] {
      StepKeepsInv(s, es[0]);
      RunKeepsInv(Step(s, es[0]), es[1..]);
    }
  }

  /** A run of frames, all with the same frame time. */
  function Frames(s: State, frames: seq<FrameInput>, dt: real): State
    decreases |frames|
  {
    if frames == [] then s else Frames(Frame(s, frames[0], dt), frames[1..], dt)
  }

  // ---- jumps ----

  /** Jumps are replenished only on the frame the probe turns from not
      grounded to grounded; otherwise CheckGrounded leaves jumpCount alone. */
  lemma JumpCountResetOnlyOnLanding(s: State, probe: bool)
    ensures CheckGrounded(s, probe).jumps.isGrounded == probe
    ensures !s.jumps.isGrounded && probe ==> CheckGrounded(s, probe).jumps.jumpCount == 0
    ensures !(!s.jumps.isGrounded && probe) ==> CheckGrounded(s, probe).jumps.jumpCount == s.jumps.jumpCount
  {
  }

  /** Over a whole frame, the jump count only ever drops on a landing. */
  lemma JumpCountDropsOnlyOnLanding(s: State, input: FrameInput, dt: real)
    ensures Frame(s, input, dt).jumps.jumpCount < s.jumps.jumpCount ==> s.enabled && !s.jumps.isGrounded && input.grounded
  {
  }

  /** HandleJump's rules: a ground jump needs ground and no jump used yet and
      sets the count to 1; a double jump needs hasDoubleJump and exactly one
      jump used and sets it to 2; the request is always consumed, and without
      a jump neither the count nor the rigid body changes. */
  lemma JumpRules(s: State)
    ensures !HandleJump(s).jumps.jumpInput
    ensures s.jumps.jumpInput && s.jumps.isGrounded && s.jumps.jumpCount == 0 ==>
              HandleJump(s).jumps.jumpCount == 1 && HandleJump(s).body.vy == 0.0
              && HandleJump(s).body.impulses == s.body.impulses + [s.stats.jumpForce]
    ensures s.jumps.jumpInput && !(s.jumps.isGrounded && s.jumps.jumpCount == 0) && s.stats.hasDoubleJump && s.jumps.jumpCount == 1 ==>
              HandleJump(s).jumps.jumpCount == 2 && HandleJump(s).body.vy == 0.0
              && HandleJump(s).body.impulses == s.body.impulses + [s.stats.doubleJumpForce]
    ensures HandleJump(s).jumps.jumpCount != s.jumps.jumpCount <==>
              s.jumps.jumpInput && ((s.jumps.isGrounded && s.jumps.jumpCount == 0) || (s.stats.hasDoubleJump && s.jumps.jumpCount == 1))
    ensures HandleJump(s).jumps.jumpCount == s.jumps.jumpCount ==> HandleJump(s).body == s.body
  {
  }

  /** Walking off a ledge leaves jumpCount at 0 in the air, and neither jump
      rule accepts 0 in the air: no jump at all until the next landing. */
  lemma NoJumpAfterWalkingOff(s: State)
    requires !s.jumps.isGrounded && s.jumps.jumpCount == 0
    ensures HandleJump(s).jumps.jumpCount == 0 && HandleJump(s).body == s.body
  {
  }

  /** One airborne frame adds exactly as many impulses as it uses jumps. */
  lemma AirborneFrame(s: State, input: FrameInput, dt: real)
    requires Inv(s) && !input.grounded
    ensures |Frame(s, input, dt).body.impulses| - |s.body.impulses| == Frame(s, input, dt).jumps.jumpCount - s.jumps.jumpCount
  {
    if s.enabled {
      var s1 := CheckGrounded(ReceiveInput(s, input), input.grounded);
      assert s1.jumps.jumpCount == s.jumps.jumpCount && s1.body.impulses == s.body.impulses;
      assert !s1.jumps.isGrounded;
      var s2 := HandleJump(HandleMovement(s1));
      assert |s2.body.impulses| - |s1.body.impulses| == s2.jumps.jumpCount - s1.jumps.jumpCount;
    }
  }

  /** However many frames pass without touching the ground, the player gets
      at most MaxJumps - jumpCount jumps: one double jump after a ground jump,
      none after a double jump or after walking off a ledge. */
  lemma {:induction false} AirborneJumpsBounded(s: State, frames: seq<FrameInput>, dt: real)
    requires Inv(s)
    requires forall i :: 0 <= i < |frames| ==> !frames[i].grounded
    ensures |Frames(s, frames, dt).body.impulses| - |s.body.impulses| == Frames(s, frames, dt).jumps.jumpCount - s.jumps.jumpCount
    ensures |Frames(s, frames, dt).body.impulses| - |s.body.impulses| <= MaxJumps - s.jumps.jumpCount
    ensures s.jumps.jumpCount == 0 && !s.jumps.isGrounded ==> Frames(s, frames, dt).body.impulses == s.body.impulses
    decreases |frames|
  {
    if frames != [] {
      var s' := Frame(s, frames[0], dt);
      AirborneFrame(s, frames[0], dt);
      FrameKeepsInv(s, frames[0], dt);
      if s.jumps.jumpCount == 0 && !s.jumps.isGrounded {
        AirborneNoFirstJump(s, frames[0], dt);
      }
      AirborneJumpsBounded(s', frames[1..], dt);
      assert Frames(s, frames, dt) == Frames(s', frames[1..], dt);
    }
  }

  /** A frame in the air with no jump used yet stays at no jump. */
  lemma AirborneNoFirstJump(s: State, input: FrameInput, dt: real)
    requires Inv(s) && !input.grounded && s.jumps.jumpCount == 0 && !s.jumps.isGrounded
    ensures Frame(s, input, dt).jumps.jumpCount == 0 && !Frame(s, input, dt).jumps.isGrounded
    ensures Frame(s, input, dt).body.impulses == s.body.impulses
  {
    if s.enabled {
      var s1 := CheckGrounded(ReceiveInput(s, input), input.grounded);
      assert s1.jumps.jumpCount == 0 && !s1.jumps.isGrounded && s1.body.impulses == s.body.impulses;
      NoJumpAfterWalkingOff(HandleMovement(s1));
    }
  }

  // ---- dash ----

  /** The dash direction is a unit: the sign of the axis, or the facing
      direction when the axis is 0. */
  lemma DashDirectionIsUnit(s: State)
    ensures DashDirection(s) == 1.0 || DashDirection(s) == -1.0
    ensures s.moveX > 0.0 ==> DashDirection(s) == 1.0
    ensures s.moveX < 0.0 ==> DashDirection(s) == -1.0
    ensures s.moveX == 0.0 ==> (DashDirection(s) == 1.0 <==> s.facingRight)
  {
  }

  /** TryDash starts a dash exactly when canDash and not already dashing: it
      raises isDashing, lowers canDash, starts the full cooldown, suspends
      gravity and sets the dash velocity.  Refused, it changes nothing. */
  lemma DashGate(s: State)
    ensures s.dash.canDash && !s.dash.isDashing ==>
              var r := TryDash(s);
              r.dash.isDashing && !r.dash.canDash && r.dash.dashCooldownTimer == s.stats.dashCooldown
              && r.body.gravityScale == 0.0 && r.body.vx == DashDirection(s) * s.stats.dashPower && r.body.vy == 0.0
              && r.dash.phase == Dashing(s.stats.dashDuration, s.body.gravityScale, true)
    ensures !(s.dash.canDash && !s.dash.isDashing) ==> TryDash(s) == s
  {
  }

  /** A dash request while the cooldown timer is still running does nothing. */
  lemma NoDashDuringCooldown(s: State)
    requires Inv(s) && s.dash.dashCooldownTimer > 0.0
    ensures TryDash(s) == s
  {
  }

  /** A dash started by this frame's input outlasts the frame, however long
      the frame: HandleMovement skips while dashing, so Update ends with the
      dash velocity in the direction of this frame's axis, and the
      scheduler's step of the same frame does not charge the new wait. */
  lemma DashSurvivesItsFrame(s: State, input: FrameInput, dt: real)
    requires Inv(s) && s.enabled && input.dash && s.dash.canDash && !s.dash.isDashing
    ensures Update(s, input, dt).dash.isDashing
    ensures Update(s, input, dt).body.vx ==
              (if input.axis != 0.0 then Sign(input.axis) else if s.facingRight then 1.0 else -1.0) * s.stats.dashPower
    ensures Frame(s, input, dt).dash.isDashing && Frame(s, input, dt).body.gravityScale == 0.0
    ensures Frame(s, input, dt).dash.phase == Dashing(s.stats.dashDuration, s.body.gravityScale, false)
    ensures Frame(s, input, dt).body.vx == Update(s, input, dt).body.vx
  {
    var r1 := ReceiveInput(s, input);
    InputStartsDash(s, input);
    var r2 := CheckGrounded(r1, input.grounded);
    var r3 := HandleMovement(r2);
    assert r3 == r2;
    var r4 := HandleJump(r3);
    assert r4.dash == r1.dash && r4.body.vx == r1.body.vx && r4.body.gravityScale == 0.0;
    var u := UpdateCooldowns(HandleFlip(r4), dt);
    assert u == Update(s, input, dt);
    assert u.dash.phase == r1.dash.phase && u.dash.isDashing && u.body == r4.body;
    TickSkipsFreshDash(u, dt);
  }

  /** The dash input starts a dash marked as begun this frame. */
  lemma InputStartsDash(s: State, input: FrameInput)
    requires Inv(s) && input.dash && s.dash.canDash && !s.dash.isDashing
    ensures ReceiveInput(s, input).dash.isDashing
    ensures ReceiveInput(s, input).dash.phase == Dashing(s.stats.dashDuration, s.body.gravityScale, true)
    ensures ReceiveInput(s, input).body.gravityScale == 0.0
    ensures ReceiveInput(s, input).body.vx ==
              (if input.axis != 0.0 then Sign(input.axis) else if s.facingRight then 1.0 else -1.0) * s.stats.dashPower
  {
    var s1 := OnMove(s, input.axis);
    var s2 := if input.jump then OnJump(s1) else s1;
    var s3 := if input.attack then HandleAttack(s2) else s2;
    assert s3.dash.canDash && !s3.dash.isDashing && s3.moveX == input.axis && s3.facingRight == s.facingRight;
    assert s3.stats == s.stats && s3.body.gravityScale == s.body.gravityScale;
  }

  /** The scheduler's step only clears the mark of a dash begun this frame. */
  lemma TickSkipsFreshDash(u: State, dt: real)
    requires u.dash.phase.Dashing? && u.dash.phase.justStarted
    ensures Tick(u, dt).dash == u.dash.(phase := u.dash.phase.(justStarted := false))
    ensures Tick(u, dt).body == u.body
  {
    assert ResumeDash(u, dt).dash == u.dash.(phase := u.dash.phase.(justStarted := false));
  }

  /** The dash ends on the first scheduler step after the frame it began in
      at which its wait has run out, restoring the gravity scale saved when
      it began. */
  lemma DashEnds(s: State, dt: real)
    requires s.dash.phase.Dashing? && !s.dash.phase.justStarted && s.dash.phase.wait - dt <= 0.0
    ensures !Tick(s, dt).dash.isDashing && Tick(s, dt).dash.phase == NoDash
    ensures Tick(s, dt).body.gravityScale == s.dash.phase.savedGravity
  {
  }

  /** Before its wait has run out, a dash from an earlier frame goes on, its
      wait shortened by exactly the frame time. */
  lemma DashContinues(s: State, dt: real)
    requires s.dash.phase.Dashing? && !s.dash.phase.justStarted && s.dash.phase.wait - dt > 0.0
    ensures Tick(s, dt).dash.isDashing == s.dash.isDashing
    ensures Tick(s, dt).dash.phase == Dashing(s.dash.phase.wait - dt, s.dash.phase.savedGravity, false)
    ensures Tick(s, dt).body == s.body
  {
  }

  /** One frame on dash cooldown: no dash can start, and the timer loses dt
      if the controller is enabled. */
  lemma DashCooldownFrame(s: State, input: FrameInput, dt: real)
    requires !s.dash.canDash && s.dash.dashCooldownTimer - dt > 0.0
    ensures !Frame(s, input, dt).dash.canDash && Frame(s, input, dt).enabled == s.enabled
    ensures Frame(s, input, dt).dash.dashCooldownTimer == s.dash.dashCooldownTimer - (if s.enabled then dt else 0.0)
  {
    if s.enabled {
      var s1 := ReceiveInput(s, input);
      var s5 := HandleFlip(HandleJump(HandleMovement(CheckGrounded(s1, input.grounded))));
      assert s5.dash == s.dash && s5.enabled;
    }
  }

  /** The time that n frames of dt seconds take, summed frame by frame. */
  function Elapsed(n: nat, dt: real): real
  {
    if n == 0 then 0.0 else dt + Elapsed(n - 1, dt)
  }

  lemma {:induction false} ElapsedIsProduct(n: nat, dt: real)
    ensures Elapsed(n, dt) == n as real * dt
  {
    if n > 0 {
      ElapsedIsProduct(n - 1, dt);
      assert n as real * dt == dt + (n - 1) as real * dt;
    }
  }

  lemma {:induction false} ElapsedNonNegative(n: nat, dt: real)
    requires dt >= 0.0
    ensures Elapsed(n, dt) >= 0.0
  {
    if n > 0 {
      ElapsedNonNegative(n - 1, dt);
    }
  }

  /** While the cooldown has not run out, no number of frames lets a new dash
      start: the flag stays down and the timer only loses dt per enabled
      frame, so it is never reset to dashCooldown. */
  lemma {:induction false} CooldownHoldsOverFrames(s: State, frames: seq<FrameInput>, dt: real)
    requires !s.dash.canDash && dt >= 0.0
    requires s.dash.dashCooldownTimer - Elapsed(|frames|, dt) > 0.0
    ensures !Frames(s, frames, dt).dash.canDash
    ensures Frames(s, frames, dt).enabled == s.enabled
    ensures Frames(s, frames, dt).dash.dashCooldownTimer ==
              s.dash.dashCooldownTimer - (if s.enabled then Elapsed(|frames|, dt) else 0.0)
    decreases |frames|
  {
    if frames != [] {
      ElapsedNonNegative(|frames| - 1, dt);
      assert Elapsed(|frames|, dt) == dt + Elapsed(|frames[1..]|, dt);
      DashCooldownFrame(s, frames[0], dt);
      var s' := Frame(s, frames[0], dt);
      CooldownHoldsOverFrames(s', frames[1..], dt);
      assert Frames(s, frames, dt) == Frames(s', frames[1..], dt);
    }
  }

  /** ResetDashState clears the dash and its cooldown, restores gravity and
      stops the body; the pending DisableHitBox calls survive it, as
      StopAllCoroutines does not cancel Invoke. */
  lemma ResetDash(s: State)
    requires Inv(s)
    ensures var r := ResetDashState(s);
            !r.dash.isDashing && r.dash.canDash && r.dash.dashCooldownTimer == 0.0 && r.dash.phase == NoDash
            && r.body.gravityScale == DefaultGravity && r.body.vx == 0.0 && r.body.vy == 0.0
            && r.attack == s.attack && Inv(r)
  {
  }

  // ---- attack and cooldowns ----

  /** HandleAttack fires only when canAttack: the hit box opens for
      HitBoxWindow seconds and the cooldown starts at attackSpeed.  Refused,
      it changes nothing. */
  lemma AttackGate(s: State)
    ensures s.attack.canAttack ==>
              var r := HandleAttack(s);
              r.attack.hitBoxActive && !r.attack.canAttack && r.attack.attackCooldownTimer == s.stats.attackSpeed
              && r.attack.hitBoxTimers == s.attack.hitBoxTimers
              && r.attack.newTimers == s.attack.newTimers + [HitBoxWindow]
    ensures !s.attack.canAttack ==> HandleAttack(s) == s
  {
  }

  /** A hit box opened by this frame's input is still active when the frame
      ends, however long the frame, unless a DisableHitBox invoked by an
      earlier attack comes due in it: the new call only starts counting on
      the next frame. */
  lemma HitBoxSurvivesItsFrame(s: State, input: FrameInput, dt: real)
    requires Inv(s) && s.enabled && input.attack && s.attack.canAttack
    requires !AnyExpired(s.attack.hitBoxTimers, dt)
    ensures Frame(s, input, dt).attack.hitBoxActive
    ensures Frame(s, input, dt).attack.newTimers == []
    ensures Frame(s, input, dt).attack.hitBoxTimers ==
              Countdown(s.attack.hitBoxTimers, dt) + s.attack.newTimers + [HitBoxWindow]
  {
    var s1 := OnMove(s, input.axis);
    var s2 := if input.jump then OnJump(s1) else s1;
    var s3 := HandleAttack(s2);
    assert s3.attack == AttackState(false, s.stats.attackSpeed, true, s.attack.hitBoxTimers,
                                    s.attack.newTimers + [HitBoxWindow]);
    var u := Update(s, input, dt);
    assert u.attack.hitBoxActive && u.attack.hitBoxTimers == s.attack.hitBoxTimers;
    assert u.attack.newTimers == s.attack.newTimers + [HitBoxWindow];
  }

  /** UpdateCooldowns runs a timer only while its flag is down, and raises the
      flag as soon as the timer is at or below zero. */
  lemma CooldownRules(s: State, dt: real)
    ensures var r := UpdateCooldowns(s, dt);
            && (s.attack.canAttack ==> r.attack.canAttack && r.attack.attackCooldownTimer == s.attack.attackCooldownTimer)
            && (!s.attack.canAttack ==>
                  r.attack.attackCooldownTimer == s.attack.attackCooldownTimer - dt
                  && (r.attack.canAttack <==> r.attack.attackCooldownTimer <= 0.0))
            && (s.dash.canDash ==> r.dash.canDash && r.dash.dashCooldownTimer == s.dash.dashCooldownTimer)
            && (!s.dash.canDash ==>
                  r.dash.dashCooldownTimer == s.dash.dashCooldownTimer - dt
                  && (r.dash.canDash <==> r.dash.dashCooldownTimer <= 0.0))
  {
  }

  // ---- velocity and facing ----

  /** Not dashing, the horizontal velocity follows the axis and the vertical
      velocity is kept; dashing, the body is left alone. */
  lemma MovementVelocity(s: State)
    ensures !s.dash.isDashing ==> HandleMovement(s).body == s.body.(vx := s.moveX * s.stats.moveSpeed)
    ensures s.dash.isDashing ==> HandleMovement(s) == s
  {
  }

  /** After HandleFlip the player faces the way the axis points, and faces
      as before when the axis is 0. */
  lemma FlipFacing(s: State)
    ensures s.moveX > 0.0 ==> HandleFlip(s).facingRight
    ensures s.moveX < 0.0 ==> !HandleFlip(s).facingRight
    ensures s.moveX == 0.0 ==> HandleFlip(s) == s
    ensures HandleFlip(s) == s.(facingRight := HandleFlip(s).facingRight)
  {
  }

  // ---- the buff system's writes ----

  /** Each stat setter, and each direct write of the buff system, overwrites
      its own field and nothing else: a second write replaces the first, and
      writes to different fields commute. */
  lemma SettersTouchOneField(s: State, a: real, b: real, on: bool)
    ensures SetMoveSpeed(s, a).stats.moveSpeed == a && SetMoveSpeed(s, a).stats.(moveSpeed := s.stats.moveSpeed) == s.stats
    ensures SetJumpForce(s, a).stats.jumpForce == a && SetJumpForce(s, a).stats.(jumpForce := s.stats.jumpForce) == s.stats
    ensures SetDoubleJumpForce(s, a).stats.doubleJumpForce == a
            && SetDoubleJumpForce(s, a).stats.(doubleJumpForce := s.stats.doubleJumpForce) == s.stats
    ensures SetDashPower(s, a).stats.dashPower == a && SetDashPower(s, a).stats.(dashPower := s.stats.dashPower) == s.stats
    ensures SetDashCooldown(s, a).stats.dashCooldown == a
            && SetDashCooldown(s, a).stats.(dashCooldown := s.stats.dashCooldown) == s.stats
    ensures SetAttackSpeed(s, a).stats.attackSpeed == a
            && SetAttackSpeed(s, a).stats.(attackSpeed := s.stats.attackSpeed) == s.stats
            && SetAttackSpeed(s, a) == s.(stats := SetAttackSpeed(s, a).stats)
    ensures SetVelocity(s, a, b).body == s.body.(vx := a, vy := b)
            && SetVelocity(s, a, b) == s.(body := SetVelocity(s, a, b).body)
    ensures SetMoveSpeed(SetMoveSpeed(s, a), b) == SetMoveSpeed(s, b)
    ensures SetAttackSpeed(SetAttackSpeed(s, a), b) == SetAttackSpeed(s, b)
    ensures SetAttackSpeed(SetMoveSpeed(s, a), b) == SetMoveSpeed(SetAttackSpeed(s, b), a)
    ensures SetJumpForce(SetJumpForce(s, a), b) == SetJumpForce(s, b)
    ensures SetJumpForce(SetDoubleJumpForce(s, a), b) == SetDoubleJumpForce(SetJumpForce(s, b), a)
    ensures SetMoveSpeed(SetDashPower(s, a), b) == SetDashPower(SetMoveSpeed(s, b), a)
    ensures Inv(s) ==> Inv(SetMoveSpeed(s, a)) && Inv(SetJumpForce(s, a)) && Inv(SetDoubleJumpForce(s, a))
    ensures Inv(s) ==> Inv(SetDashPower(s, a)) && Inv(SetDashCooldown(s, a)) && Inv(SetEnabled(s, on))
    ensures Inv(s) ==> Inv(SetAttackSpeed(s, a)) && Inv(SetVelocity(s, a, b))
  {
  }

  /** A disabled controller ignores its frames. */
  lemma DisabledFrameDoesNothing(s: State, input: FrameInput, dt: real)
    requires !s.enabled
    ensures Update(s, input, dt) == s
  {
  }
}
