/**
 * PlayerMovement2D as a class over the fields the source updates in place.
 * The inspector tunables are held as one `Stats` record and the rigid body as
 * one `Body` record; every method is proved to perform the transition of the
 * same name in MoveRules.
 */
module Movement {
  import opened MoveRules

  class PlayerMovement2D {
    // moveSpeed, jumpForce, dashPower, attackSpeed, dashDuration, dashCooldown,
    // canDashInAir, hasDoubleJump and doubleJumpForce.
    var stats: Stats

    var enabled: bool
    var attackCooldownTimer: real
    var dashCooldownTimer: real
    var canDash: bool
    var canAttack: bool
    var isDashing: bool
    var jumpCount: int
    var moveX: real
    var jumpInput: bool
    var isGrounded: bool
    var facingRight: bool

    // The Rigidbody2D `rb`.
    var body: Body

    // The dash coroutine, the hit box's active flag and the pending
    // DisableHitBox invocations (those of earlier frames, and this frame's).
    var dashRoutine: DashPhase
    var hitBoxActive: bool
    var hitBoxTimers: seq<real>
    var newHitBoxTimers: seq<real>

    ghost function Model(): State
      reads this
    {
      State(stats, enabled, moveX, facingRight,
            JumpState(jumpCount, jumpInput, isGrounded),
            AttackState(canAttack, attackCooldownTimer, hitBoxActive, hitBoxTimers, newHitBoxTimers),
            DashState(canDash, dashCooldownTimer, isDashing, dashRoutine),
            body)
    }

    ghost predicate Valid()
      reads this
    {
      Inv(Model())
    }

    constructor (st: Stats)
      ensures Valid() && Model() == Init(st)
    {
      stats := st;
      enabled := true;
      attackCooldownTimer, dashCooldownTimer := 0.0, 0.0;
      canDash, canAttack, isDashing := true, true, false;
      jumpCount := 0;
      moveX, jumpInput, isGrounded, facingRight := 0.0, false, false, true;
      body := Body(0.0, 0.0, DefaultGravity, []);
      dashRoutine, hitBoxActive, hitBoxTimers, newHitBoxTimers := NoDash, false, [], [];
    }

    /** One frame: the input callbacks, then Update's calls in order. */
    method Update(input: FrameInput, dt: real)
      requires Valid()
      modifies this
      ensures Valid() && Model() == MoveRules.Update(old(Model()), input, dt)
    {
      if !enabled {
        return;
      }
      ReceiveInput(input);
      CheckGrounded(input.grounded);
      HandleMovement();
      HandleJump();
      HandleFlip();
      UpdateCooldowns(dt);
    }

    /** The input callbacks of one frame (OnMove, OnJump, OnAttack, OnDash). */
    method ReceiveInput(input: FrameInput)
      requires Valid()
      modifies this
      ensures Valid() && Model() == MoveRules.ReceiveInput(old(Model()), input)
    {
      OnMove(input.axis);
      if input.jump {
        OnJump();
      }
      if input.attack {
        HandleAttack();
      }
      if input.dash {
        TryDash();
      }
    }

    method OnMove(axis: real)
      requires Valid()
      modifies this
      ensures Valid() && Model() == MoveRules.OnMove(old(Model()), axis)
    {
      moveX := axis;
    }

    method OnJump()
      requires Valid()
      modifies this
      ensures Valid() && Model() == MoveRules.OnJump(old(Model()))
    {
      jumpInput := true;
    }

    method HandleAttack()
      requires Valid()
      modifies this
      ensures Valid() && Model() == MoveRules.HandleAttack(old(Model()))
    {
      if canAttack {
        hitBoxActive := true;
        canAttack := false;
        newHitBoxTimers := newHitBoxTimers + [HitBoxWindow];  // Invoke(DisableHitBox, 0.5)
        attackCooldownTimer := stats.attackSpeed;
      }
    }

    method TryDash()
      requires Valid()
      modifies this
      ensures Valid() && Model() == MoveRules.TryDash(old(Model()))
    {
      if canDash && !isDashing {
        PerformDash();
      }
    }

    /** The dash coroutine up to its wait; ResumeDash runs the rest. */
    method PerformDash()
      requires Valid() && !isDashing
      modifies this
      ensures Valid() && Model() == MoveRules.PerformDash(old(Model()))
    {
      isDashing := true;
      canDash := false;
      dashCooldownTimer := stats.dashCooldown;
      var direction: real;
      if moveX != 0.0 {
        direction := Sign(moveX);
      } else {
        direction := if facingRight then 1.0 else -1.0;
      }
      var originalGravity := body.gravityScale;
      body := body.(gravityScale := 0.0, vx := direction * stats.dashPower, vy := 0.0);
      dashRoutine := Dashing(stats.dashDuration, originalGravity, true);
    }

    method CheckGrounded(probe: bool)
      requires Valid()
      modifies this
      ensures Valid() && Model() == MoveRules.CheckGrounded(old(Model()), probe)
    {
      var wasGrounded := isGrounded;
      isGrounded := probe;
      if !wasGrounded && isGrounded {
        jumpCount := 0;
      }
    }

    method HandleMovement()
      requires Valid()
      modifies this
      ensures Valid() && Model() == MoveRules.HandleMovement(old(Model()))
    {
      if !isDashing {
        body := body.(vx := moveX * stats.moveSpeed);
      }
    }

    method HandleJump()
      requires Valid()
      modifies this
      ensures Valid() && Model() == MoveRules.HandleJump(old(Model()))
    {
      if jumpInput {
        Jump();
      }
      jumpInput := false;
    }

    method Jump()
      requires Valid()
      modifies this
      ensures Valid() && Model() == MoveRules.Jump(old(Model()))
    {
      if isGrounded && jumpCount == 0 {
        body := body.(vy := 0.0, impulses := body.impulses + [stats.jumpForce]);
        jumpCount := 1;
      } else if stats.hasDoubleJump && jumpCount == 1 && jumpCount < MaxJumps {
        body := body.(vy := 0.0, impulses := body.impulses + [stats.doubleJumpForce]);
        jumpCount := 2;
      }
    }

    method HandleFlip()
      requires Valid()
      modifies this
      ensures Valid() && Model() == MoveRules.HandleFlip(old(Model()))
    {
      if moveX > 0.0 && !facingRight {
        Flip();
      } else if moveX < 0.0 && facingRight {
        Flip();
      }
    }

    method Flip()
      requires Valid()
      modifies this
      ensures Valid() && Model() == MoveRules.Flip(old(Model()))
    {
      facingRight := !facingRight;
    }

    method UpdateCooldowns(dt: real)
      requires Valid()
      modifies this
      ensures Valid() && Model() == MoveRules.UpdateCooldowns(old(Model()), dt)
    {
      if !canAttack {
        attackCooldownTimer := attackCooldownTimer - dt;
        if attackCooldownTimer <= 0.0 {
          canAttack := true;
        }
      }
      if !canDash {
        dashCooldownTimer := dashCooldownTimer - dt;
        if dashCooldownTimer <= 0.0 {
          canDash := true;
        }
      }
    }

    /** The scheduler's part of a frame. */
    method Tick(dt: real)
      requires Valid()
      modifies this
      ensures Valid() && Model() == MoveRules.Tick(old(Model()), dt)
    {
      ResumeDash(dt);
      RunInvokes(dt);
    }

    /** The rest of PerformDash, once dashDuration has elapsed. */
    method ResumeDash(dt: real)
      requires Valid()
      modifies this
      ensures Valid() && Model() == MoveRules.ResumeDash(old(Model()), dt)
    {
      match dashRoutine
      case NoDash =>
      case Dashing(w, g, justStarted) =>
        if justStarted {
          dashRoutine := Dashing(w, g, false);
        } else if w - dt <= 0.0 {
          body := body.(gravityScale := g);
          isDashing := false;
          dashRoutine := NoDash;
        } else {
          dashRoutine := Dashing(w - dt, g, false);
        }
    }

    /** The pending Invoke(DisableHitBox, 0.5) calls. */
    method RunInvokes(dt: real)
      requires Valid()
      modifies this
      ensures Valid() && Model() == MoveRules.RunInvokes(old(Model()), dt)
    {
      if AnyExpired(hitBoxTimers, dt) {
        hitBoxActive := false;  // DisableHitBox
      }
      hitBoxTimers := Countdown(hitBoxTimers, dt) + newHitBoxTimers;
      newHitBoxTimers := [];
    }

    method SetMoveSpeed(newSpeed: real)
      requires Valid()
      modifies this
      ensures Valid() && Model() == MoveRules.SetMoveSpeed(old(Model()), newSpeed)
    {
      stats := stats.(moveSpeed := newSpeed);
    }

    method SetJumpForce(newJumpForce: real)
      requires Valid()
      modifies this
      ensures Valid() && Model() == MoveRules.SetJumpForce(old(Model()), newJumpForce)
    {
      stats := stats.(jumpForce := newJumpForce);
    }

    method SetDoubleJumpForce(newDoubleJumpForce: real)
      requires Valid()
      modifies this
      ensures Valid() && Model() == MoveRules.SetDoubleJumpForce(old(Model()), newDoubleJumpForce)
    {
      stats := stats.(doubleJumpForce := newDoubleJumpForce);
    }

    method SetDashPower(newDashPower: real)
      requires Valid()
      modifies this
      ensures Valid() && Model() == MoveRules.SetDashPower(old(Model()), newDashPower)
    {
      stats := stats.(dashPower := newDashPower);
    }

    method SetDashCooldown(newCooldown: real)
      requires Valid()
      modifies this
      ensures Valid() && Model() == MoveRules.SetDashCooldown(old(Model()), newCooldown)
    {
      stats := stats.(dashCooldown := newCooldown);
    }

    /** The buff system's direct write of the public attackSpeed field. */
    method SetAttackSpeed(newAttackSpeed: real)
      requires Valid()
      modifies this
      ensures Valid() && Model() == MoveRules.SetAttackSpeed(old(Model()), newAttackSpeed)
    {
      stats := stats.(attackSpeed := newAttackSpeed);
    }

    /** The buff system's `playerMovement.enabled = ...`. */
    method SetEnabled(on: bool)
      requires Valid()
      modifies this
      ensures Valid() && Model() == MoveRules.SetEnabled(old(Model()), on)
    {
      enabled := on;
    }

    /** The buff system's `playerRigidbody.linearVelocity = ...`, on the
        rigid body this controller moves. */
    method SetVelocity(vx: real, vy: real)
      requires Valid()
      modifies this
      ensures Valid() && Model() == MoveRules.SetVelocity(old(Model()), vx, vy)
    {
      body := body.(vx := vx, vy := vy);
    }

    method ResetDashState()
      requires Valid()
      modifies this
      ensures Valid() && Model() == MoveRules.ResetDashState(old(Model()))
    {
      dashRoutine := NoDash;  // StopAllCoroutines
      isDashing := false;
      canDash := true;
      dashCooldownTimer := 0.0;
      body := body.(gravityScale := DefaultGravity, vx := 0.0, vy := 0.0);
    }
  }
}
