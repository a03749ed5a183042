/**
 * The rules of PlayerMovement2D (run, ground jump and double jump, dash with a
 * cooldown, melee attack with a cooldown and a hit-box window, facing flip) as
 * transitions on a value.  `State` is the controller's whole state, grouped by
 * concern; module Movement holds the same state in the flat fields of a class
 * whose methods are proved to perform these transitions.  Unity's input
 * callbacks become a `FrameInput` handed to Update; the dash coroutine and the
 * pending `Invoke(DisableHitBox, 0.5)` calls become phase fields advanced by
 * Tick, the scheduler's step after Update.  Unity measures a wait from the
 * frame in which it was started and first checks it on the next frame, so a
 * wait started during a frame is marked fresh and the Tick of that frame
 * only clears the mark.
 */
module MoveRules {

  /** Tunables (inspector fields); the buff system overwrites some of them. */
  datatype Stats = Stats(
    moveSpeed: real, jumpForce: real, doubleJumpForce: real, dashPower: real,
    dashDuration: real, dashCooldown: real, attackSpeed: real,
    canDashInAir: bool, hasDoubleJump: bool)

  const DefaultStats: Stats := Stats(5.0, 10.0, 8.0, 15.0, 0.2, 1.0, 1.0, true, true)

  /** What one frame delivers: the horizontal axis, the jump / dash / attack
      presses, and the result of the ground-overlap probe. */
  datatype FrameInput = FrameInput(axis: real, jump: bool, dash: bool, attack: bool, grounded: bool)

  /** jumpCount, the pending jump request and the last ground probe. */
  datatype JumpState = JumpState(jumpCount: int, jumpInput: bool, isGrounded: bool)

  /** The attack flag and cooldown, the hit box's active flag, the pending
      DisableHitBox invocations (time left for each), and those invoked
      during the current frame, which start counting on the next. */
  datatype AttackState = AttackState(canAttack: bool, attackCooldownTimer: real,
                                     hitBoxActive: bool, hitBoxTimers: seq<real>, newTimers: seq<real>)

  /** The dash coroutine: idle, or waiting out dashDuration with the gravity
      scale it saved when the dash began; fresh during the frame it began. */
  datatype DashPhase = NoDash | Dashing(wait: real, savedGravity: real, justStarted: bool)

  /** The dash flag and cooldown, isDashing, and the dash coroutine. */
  datatype DashState = DashState(canDash: bool, dashCooldownTimer: real, isDashing: bool, phase: DashPhase)

  /** The part of the Rigidbody2D the controller touches: its velocity, its
      gravity scale, and the vertical impulses handed to it (AddForceY). */
  datatype Body = Body(vx: real, vy: real, gravityScale: real, impulses: seq<real>)

  datatype State = State(
    stats: Stats,
    enabled: bool,
    moveX: real,        // moveInput.x
    facingRight: bool,
    jumps: JumpState,
    attack: AttackState,
    dash: DashState,
    body: Body)

  const MaxJumps: int := 2
  const HitBoxWindow: real := 0.5
  const DefaultGravity: real := 1.0

  predicate JumpsInv(j: JumpState)
  {
    0 <= j.jumpCount <= MaxJumps
  }

  predicate TimersPositive(ts: seq<real>)
  {
    forall i :: 0 <= i < |ts| ==> ts[i] > 0.0
  }

  predicate AttackInv(a: AttackState)
  {
    && (a.canAttack ==> a.attackCooldownTimer <= 0.0)
    && (a.hitBoxActive ==> |a.hitBoxTimers| + |a.newTimers| > 0)
    && TimersPositive(a.hitBoxTimers) && TimersPositive(a.newTimers)
  }

  predicate DashInv(d: DashState)
  {
    && (d.canDash ==> d.dashCooldownTimer <= 0.0)
    && (d.isDashing <==> d.phase.Dashing?)
  }

  /** What every reachable state satisfies: jumpCount in [0, 2]; a raised
      can* flag has its timer run out; an active hit box has a pending
      DisableHitBox; isDashing matches the dash coroutine. */
  predicate Inv(s: State)
  {
    JumpsInv(s.jumps) && AttackInv(s.attack) && DashInv(s.dash)
  }

  /** Field initialisers and Awake. */
  function Init(st: Stats): (s: State)
    ensures Inv(s)
  {
    State(st, true, 0.0, true, JumpState(0, false, false), AttackState(true, 0.0, false, [], []),
          DashState(true, 0.0, false, NoDash), Body(0.0, 0.0, DefaultGravity, []))
  }

  function Sign(x: real): real
  {
    if x > 0.0 then 1.0 else if x < 0.0 then -1.0 else 0.0
  }

  // ---- pending Invoke calls ----

  predicate AnyExpired(ts: seq<real>, dt: real)
  {
    exists i :: 0 <= i < |ts| && ts[i] - dt <= 0.0
  }

  /** One step of Invoke bookkeeping: every pending call loses dt; those that
      reach zero fire and leave the list. */
  function Countdown(ts: seq<real>, dt: real): (r: seq<real>)
    ensures TimersPositive(r)
    ensures |r| <= |ts|
    ensures |r| == |ts| <==> !AnyExpired(ts, dt)
  {
    if ts == [] then []
    else
      var rest := Countdown(ts[1..], dt);
      assert AnyExpired(ts, dt) <==> ts[0] - dt <= 0.0 || AnyExpired(ts[1..], dt) by {
        if AnyExpired(ts[1..], dt) {
          var i :| 0 <= i < |ts[1..]| && ts[1..][i] - dt <= 0.0;
          assert ts[i + 1] - dt <= 0.0;
        }
        if AnyExpired(ts, dt) && ts[0] - dt > 0.0 {
          var i :| 0 <= i < |ts| && ts[i] - dt <= 0.0;
          assert ts[1..][i - 1] - dt <= 0.0;
        }
      }
      if ts[0] - dt > 0.0 then [ts[0] - dt] + rest else rest
  }

  // ---- the input callbacks ----

  /** OnMove: the axis value is stored as delivered. */
  function OnMove(s: State, axis: real): State
  {
    s.(moveX := axis)
  }

  /** OnJump: only records the request; HandleJump acts on it. */
  function OnJump(s: State): State
  {
    s.(jumps := s.jumps.(jumpInput := true))
  }

  /** HandleAttack: only when canAttack; opens the hit box for 0.5 s and
      starts the attack cooldown at attackSpeed. */
  function HandleAttack(s: State): (r: State)
    ensures r == s.(attack := r.attack)
    ensures AttackInv(s.attack) ==> AttackInv(r.attack)
  {
    if s.attack.canAttack then
      s.(attack := AttackState(false, s.stats.attackSpeed, true, s.attack.hitBoxTimers, s.attack.newTimers + [HitBoxWindow]))
    else s
  }

  /** The dash direction of PerformDash: the sign of the axis, or the facing
      direction when the axis is 0. */
  function DashDirection(s: State): real
  {
    if s.moveX != 0.0 then Sign(s.moveX) else if s.facingRight then 1.0 else -1.0
  }

  /** PerformDash up to its first wait. */
  function PerformDash(s: State): (r: State)
    ensures r == s.(dash := r.dash, body := r.body)
    ensures r.body.impulses == s.body.impulses && DashInv(r.dash)
  {
    s.(dash := DashState(false, s.stats.dashCooldown, true, Dashing(s.stats.dashDuration, s.body.gravityScale, true)),
       body := s.body.(gravityScale := 0.0, vx := DashDirection(s) * s.stats.dashPower, vy := 0.0))
  }

  /** TryDash: a dash starts only when canDash and not already dashing. */
  function TryDash(s: State): (r: State)
    ensures r == s.(dash := r.dash, body := r.body)
    ensures r.body.impulses == s.body.impulses
    ensures !s.dash.canDash ==> r == s
    ensures DashInv(s.dash) ==> DashInv(r.dash)
  {
    if s.dash.canDash && !s.dash.isDashing then PerformDash(s) else s
  }

  /** The input callbacks of one frame, in the order move, jump, attack, dash. */
  function ReceiveInput(s: State, input: FrameInput): (r: State)
    ensures r == s.(moveX := input.axis, jumps := r.jumps, attack := r.attack, dash := r.dash, body := r.body)
    ensures r.jumps == s.jumps.(jumpInput := s.jumps.jumpInput || input.jump)
    ensures r.body.impulses == s.body.impulses
    ensures !s.dash.canDash ==> r.dash == s.dash
    ensures Inv(s) ==> Inv(r)
  {
    var s1 := OnMove(s, input.axis);
    var s2 := if input.jump then OnJump(s1) else s1;
    var s3 := if input.attack then HandleAttack(s2) else s2;
    if input.dash then TryDash(s3) else s3
  }

  // ---- the pieces of Update ----

  /** CheckGrounded: jumps replenish only on the not-grounded to grounded edge. */
  function CheckGrounded(s: State, probe: bool): (r: State)
    ensures r == s.(jumps := r.jumps)
    ensures r.jumps.jumpInput == s.jumps.jumpInput
    ensures Inv(s) ==> Inv(r)
  {
    s.(jumps := s.jumps.(isGrounded := probe,
                         jumpCount := if !s.jumps.isGrounded && probe then 0 else s.jumps.jumpCount))
  }

  /** HandleMovement: horizontal velocity from the axis unless dashing. */
  function HandleMovement(s: State): (r: State)
    ensures r == s.(body := s.body.(vx := r.body.vx))
  {
    if !s.dash.isDashing then s.(body := s.body.(vx := s.moveX * s.stats.moveSpeed)) else s
  }

  /** The jump HandleJump performs for a pending request: a ground jump from
      the ground with no jump used, else a double jump after exactly one. */
  function Jump(s: State): (r: State)
    ensures r == s.(jumps := s.jumps.(jumpCount := r.jumps.jumpCount), body := r.body)
    ensures |r.body.impulses| - |s.body.impulses| == r.jumps.jumpCount - s.jumps.jumpCount
    ensures JumpsInv(s.jumps) ==> JumpsInv(r.jumps)
  {
    if s.jumps.isGrounded && s.jumps.jumpCount == 0 then
      s.(jumps := s.jumps.(jumpCount := 1), body := s.body.(vy := 0.0, impulses := s.body.impulses + [s.stats.jumpForce]))
    else if s.stats.hasDoubleJump && s.jumps.jumpCount == 1 && s.jumps.jumpCount < MaxJumps then
      s.(jumps := s.jumps.(jumpCount := 2), body := s.body.(vy := 0.0, impulses := s.body.impulses + [s.stats.doubleJumpForce]))
    else s
  }

  /** HandleJump: the request is consumed whether or not a jump happened. */
  function HandleJump(s: State): (r: State)
    ensures r == s.(jumps := s.jumps.(jumpCount := r.jumps.jumpCount, jumpInput := false), body := r.body)
    ensures |r.body.impulses| - |s.body.impulses| == r.jumps.jumpCount - s.jumps.jumpCount
    ensures Inv(s) ==> Inv(r)
  {
    var t := if s.jumps.jumpInput then Jump(s) else s;
    t.(jumps := t.jumps.(jumpInput := false))
  }

  function Flip(s: State): State
  {
    s.(facingRight := !s.facingRight)
  }

  function HandleFlip(s: State): (r: State)
    ensures r == s.(facingRight := r.facingRight)
  {
    if s.moveX > 0.0 && !s.facingRight then Flip(s)
    else if s.moveX < 0.0 && s.facingRight then Flip(s)
    else s
  }

  /** UpdateCooldowns: a timer runs only while its flag is down, and raises the
      flag once it is at or below zero. */
  function UpdateCooldowns(s: State, dt: real): (r: State)
    ensures r == s.(attack := s.attack.(canAttack := r.attack.canAttack, attackCooldownTimer := r.attack.attackCooldownTimer),
                    dash := s.dash.(canDash := r.dash.canDash, dashCooldownTimer := r.dash.dashCooldownTimer))
    ensures Inv(s) ==> Inv(r)
  {
    s.(attack := if s.attack.canAttack then s.attack
                 else s.attack.(attackCooldownTimer := s.attack.attackCooldownTimer - dt,
                                canAttack := s.attack.attackCooldownTimer - dt <= 0.0),
       dash := if s.dash.canDash then s.dash
               else s.dash.(dashCooldownTimer := s.dash.dashCooldownTimer - dt,
                            canDash := s.dash.dashCooldownTimer - dt <= 0.0))
  }

  /** Update, in the source's order.  A disabled component gets neither
      Update nor input callbacks (OnDisable unsubscribes them). */
  function Update(s: State, input: FrameInput, dt: real): State
  {
    if !s.enabled then s
    else
      var s1 := ReceiveInput(s, input);
      var s2 := CheckGrounded(s1, input.grounded);
      UpdateCooldowns(HandleFlip(HandleJump(HandleMovement(s2))), dt)
  }

  // ---- the scheduler's step ----

  /** The dash coroutine's wait: a fresh wait only loses its mark; an older
      one loses dt, and once it has run out the coroutine restores the saved
      gravity and stops dashing. */
  function ResumeDash(s: State, dt: real): (r: State)
    ensures r == s.(dash := s.dash.(isDashing := r.dash.isDashing, phase := r.dash.phase),
                    body := s.body.(gravityScale := r.body.gravityScale))
    ensures DashInv(s.dash) ==> DashInv(r.dash)
  {
    match s.dash.phase
    case NoDash => s
    case Dashing(w, g, justStarted) =>
      if justStarted then s.(dash := s.dash.(phase := Dashing(w, g, false)))
      else if w - dt <= 0.0 then s.(body := s.body.(gravityScale := g), dash := s.dash.(isDashing := false, phase := NoDash))
      else s.(dash := s.dash.(phase := Dashing(w - dt, g, false)))
  }

  /** Pending DisableHitBox calls: any older call that comes due closes the
      hit box; the calls invoked this frame join the countdown unchanged. */
  function RunInvokes(s: State, dt: real): (r: State)
    ensures r == s.(attack := s.attack.(hitBoxActive := r.attack.hitBoxActive, hitBoxTimers := r.attack.hitBoxTimers,
                                        newTimers := []))
    ensures AttackInv(s.attack) ==> AttackInv(r.attack)
  {
    var ts := Countdown(s.attack.hitBoxTimers, dt) + s.attack.newTimers;
    assert TimersPositive(s.attack.newTimers) ==> TimersPositive(ts) by {
      if TimersPositive(s.attack.newTimers) {
        forall i | 0 <= i < |ts| ensures ts[i] > 0.0 {
          if i >= |Countdown(s.attack.hitBoxTimers, dt)| {
            assert ts[i] == s.attack.newTimers[i - |Countdown(s.attack.hitBoxTimers, dt)|];
          }
        }
      }
    }
    s.(attack := s.attack.(hitBoxActive := if AnyExpired(s.attack.hitBoxTimers, dt) then false else s.attack.hitBoxActive,
                           hitBoxTimers := ts, newTimers := []))
  }

  /** The scheduler's part of a frame: the dash coroutine's wait and the
      pending DisableHitBox calls.  Both run even while the component is
      disabled. */
  function Tick(s: State, dt: real): (r: State)
    ensures r == s.(attack := s.attack.(hitBoxActive := r.attack.hitBoxActive, hitBoxTimers := r.attack.hitBoxTimers,
                                        newTimers := []),
                    dash := s.dash.(isDashing := r.dash.isDashing, phase := r.dash.phase),
                    body := s.body.(gravityScale := r.body.gravityScale))
    ensures Inv(s) ==> Inv(r)
  {
    RunInvokes(ResumeDash(s, dt), dt)
  }

  /** ResetDashState: stops the dash coroutine (not the pending Invokes). */
  function ResetDashState(s: State): State
  {
    s.(dash := DashState(true, 0.0, false, NoDash),
       body := s.body.(gravityScale := DefaultGravity, vx := 0.0, vy := 0.0))
  }

  // ---- the buff system's writes ----

  function SetMoveSpeed(s: State, v: real): State { s.(stats := s.stats.(moveSpeed := v)) }
  function SetJumpForce(s: State, v: real): State { s.(stats := s.stats.(jumpForce := v)) }
  function SetDoubleJumpForce(s: State, v: real): State { s.(stats := s.stats.(doubleJumpForce := v)) }
  function SetDashPower(s: State, v: real): State { s.(stats := s.stats.(dashPower := v)) }
  function SetDashCooldown(s: State, v: real): State { s.(stats := s.stats.(dashCooldown := v)) }
  function SetAttackSpeed(s: State, v: real): State { s.(stats := s.stats.(attackSpeed := v)) }
  function SetEnabled(s: State, on: bool): State { s.(enabled := on) }

  /** A write of the rigid body's linearVelocity from outside the controller. */
  function SetVelocity(s: State, vx: real, vy: real): State { s.(body := s.body.(vx := vx, vy := vy)) }
}
