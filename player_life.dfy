/**
 * The life cycle of PlayerDeathBuffSystem as transitions on a value: health,
 * the survival timer, death, the buff granted on a death that came after a
 * long enough life, and the delayed respawn.  The respawn coroutine and the
 * `Invoke(RespawnPlayerDirect, 2f)` fallback become the `respawn` phase,
 * advanced by Tick (the scheduler's step after Update).  A wait is measured
 * from the frame in which it began and is first checked on the next frame,
 * so a respawn scheduled during a frame is marked `justStarted` and the
 * Tick of that frame only clears the mark.  The values the
 * system writes into the hit script and the movement controller are carried
 * as `Links` beside the player's own state.  Module Player holds the same
 * state in a class whose methods are proved to perform these transitions.
 */
module PlayerLife {
  import opened Wrappers
  import opened Buffs

  const DefaultMaxHealth: real := 100.0
  const DefaultBuffThreshold: real := 30.0

  /** The WaitForSeconds(2f) of RespawnPlayer and the delay of the Invoke. */
  const RespawnDelay: real := 2.0

  /** The pending respawn: none, the coroutine waiting out its delay, or the
      Invoke fallback waiting out its delay (time left in each, and whether
      it was scheduled during the current frame). */
  datatype Respawn = Idle | Coroutine(wait: real, justStarted: bool) | Invoked(wait: real, justStarted: bool)

  datatype Player = Player(
    maxHealth: real,
    currentHealth: real,
    survivalTime: real,
    buffThreshold: real,
    amounts: Amounts,   // the five per-stack buff amounts
    stacks: Stacks,     // the five buff counters
    isDead: bool,
    isRespawning: bool,
    active: bool,       // gameObject.activeInHierarchy
    respawn: Respawn)

  /** The player's own state and what it has written into other components. */
  datatype World = World(p: Player, links: Links)

  /** The safety flags agree with the pending respawn: a player is dead
      exactly while a respawn is pending, isRespawning is set exactly while
      the coroutine waits, and a dead player has no health left. */
  predicate Inv(p: Player)
  {
    && (p.respawn.Idle? <==> !p.isDead)
    && (p.respawn.Coroutine? <==> p.isRespawning)
    && (p.isDead ==> p.currentHealth == 0.0)
  }

  predicate HealthInRange(p: Player)
  {
    0.0 <= p.currentHealth <= p.maxHealth
  }

  function Min(x: real, y: real): real
  {
    if x <= y then x else y
  }

  /** Awake: full health, no buffs, alive. */
  function Init(maxHealth: real, buffThreshold: real, amounts: Amounts, active: bool): (p: Player)
    ensures Inv(p)
    ensures maxHealth >= 0.0 ==> HealthInRange(p)
  {
    Player(maxHealth, maxHealth, 0.0, buffThreshold, amounts, NoStacks, false, false, active, Idle)
  }

  /** The survival timer runs only while the player is alive. */
  function Update(w: World, dt: real): (r: World)
    ensures r.links == w.links && r.p == w.p.(survivalTime := r.p.survivalTime)
    ensures r.p.survivalTime == (if w.p.isDead then w.p.survivalTime else w.p.survivalTime + dt)
    ensures Inv(w.p) ==> Inv(r.p)
  {
    if !w.p.isDead then w.(p := w.p.(survivalTime := w.p.survivalTime + dt)) else w
  }

  /** playerMovement.enabled = on, when the controller is present. */
  function SetMoveEnabled(l: Links, on: bool): (r: Links)
    ensures r.playerDamage == l.playerDamage && r.move.Some? == l.move.Some?
    ensures r.move.Some? ==> r.move.value == l.move.value.(enabled := on)
  {
    if l.move.Some? then l.(move := Some(l.move.value.(enabled := on))) else l
  }

  /** playerRigidbody.linearVelocity = Vector2.zero, on the rigid body the
      movement controller moves. */
  function Halt(l: Links): (r: Links)
    ensures r.playerDamage == l.playerDamage && r.move.Some? == l.move.Some?
    ensures r.move.Some? ==> r.move.value == l.move.value.(vx := 0.0, vy := 0.0)
  {
    if l.move.Some? then l.(move := Some(l.move.value.(vx := 0.0, vy := 0.0))) else l
  }

  function TakeDamage(w: World, damage: real, roll: BuffType): (r: World)
    ensures w.p.isDead || w.p.isRespawning ==> r == w
    ensures Inv(w.p) ==> Inv(r.p)
  {
    if w.p.isDead || w.p.isRespawning then w
    else
      var h := Max(w.p.currentHealth - damage, 0.0);
      var w1 := w.(p := w.p.(currentHealth := h));
      if h <= 0.0 then Die(w1, roll) else w1
  }

  function Heal(w: World, amount: real): (r: World)
    ensures r.links == w.links && r.p == w.p.(currentHealth := r.p.currentHealth)
    ensures Inv(w.p) ==> Inv(r.p)
  {
    if !w.p.isDead then w.(p := w.p.(currentHealth := Min(w.p.currentHealth + amount, w.p.maxHealth))) else w
  }

  /** Die: guarded by both flags; marks the player dead, stops the body and
      disables movement,
      grants a buff when the player survived at least buffThreshold seconds,
      and schedules the respawn (the coroutine when the object is active,
      the Invoke fallback otherwise). */
  function Die(w: World, roll: BuffType): (r: World)
    ensures w.p.isDead || w.p.isRespawning ==> r == w
    ensures r.p.maxHealth == w.p.maxHealth && r.p.currentHealth == w.p.currentHealth
    ensures r.p.survivalTime == w.p.survivalTime && r.p.buffThreshold == w.p.buffThreshold
    ensures r.p.amounts == w.p.amounts && r.p.active == w.p.active
    ensures r.p.stacks == (if !w.p.isDead && !w.p.isRespawning && w.p.survivalTime >= w.p.buffThreshold
                           then Grant(w.p.stacks, roll) else w.p.stacks)
    ensures Inv(w.p) && w.p.currentHealth == 0.0 ==> Inv(r.p)
  {
    if w.p.isDead || w.p.isRespawning then w
    else
      var w1 := MarkDead(w);
      var w2 := if w1.p.survivalTime >= w1.p.buffThreshold then GrantRandomBuff(w1, roll) else w1;
      ScheduleRespawn(w2)
  }

  /** The last step of Die: the respawn coroutine when the object is active,
      the Invoke fallback otherwise. */
  function ScheduleRespawn(w: World): (r: World)
    ensures r.links == w.links
    ensures r.p == w.p.(isRespawning := r.p.isRespawning, respawn := r.p.respawn)
  {
    if w.p.active then StartRespawnCoroutine(w) else w.(p := w.p.(respawn := Invoked(RespawnDelay, true)))
  }

  /** The first steps of Die: the flag goes up, the body stops and movement
      is disabled. */
  function MarkDead(w: World): (r: World)
    ensures r.p == w.p.(isDead := true)
    ensures r.links == SetMoveEnabled(Halt(w.links), false)
  {
    World(w.p.(isDead := true), SetMoveEnabled(Halt(w.links), false))
  }

  /** One more stack of the chosen kind, and that kind's stat recomputed. */
  function GrantRandomBuff(w: World, roll: BuffType): (r: World)
    ensures r.p == w.p.(stacks := Grant(w.p.stacks, roll))
    ensures r.links == Apply(roll, r.p.stacks, r.p.amounts, w.links)
  {
    var p := w.p.(stacks := Grant(w.p.stacks, roll));
    World(p, Apply(roll, p.stacks, p.amounts, w.links))
  }

  /** RespawnPlayer up to its wait: it ends at once when a respawn is
      already under way, and otherwise sets isRespawning and waits. */
  function StartRespawnCoroutine(w: World): (r: World)
    ensures r.links == w.links
    ensures r.p == w.p.(isRespawning := r.p.isRespawning, respawn := r.p.respawn)
  {
    if w.p.isRespawning then w else w.(p := w.p.(isRespawning := true, respawn := Coroutine(RespawnDelay, true)))
  }

  /** The reset shared by RespawnPlayer (after its wait) and
      RespawnPlayerDirect: full health, survival timer back to zero, the body
      stopped, movement enabled, every buff reapplied, both flags cleared. */
  function FinishRespawn(w: World): (r: World)
    ensures r.p == w.p.(currentHealth := w.p.maxHealth, survivalTime := 0.0, isDead := false, isRespawning := false)
    ensures r.links == ReapplyAll(w.p.stacks, w.p.amounts, SetMoveEnabled(Halt(w.links), true))
  {
    var p := w.p.(currentHealth := w.p.maxHealth, survivalTime := 0.0, isDead := false, isRespawning := false);
    World(p, ReapplyAll(p.stacks, p.amounts, SetMoveEnabled(Halt(w.links), true)))
  }

  function RespawnPlayerDirect(w: World): (r: World)
    ensures w.p.isRespawning ==> r == w
    ensures !w.p.isRespawning ==> r == FinishRespawn(w)
  {
    if w.p.isRespawning then w else FinishRespawn(w)
  }

  /** The scheduler's step: a respawn scheduled this frame only loses its
      mark; an older one loses dt, and fires once its delay has run out. */
  function Tick(w: World, dt: real): (r: World)
    ensures w.p.respawn.Idle? ==> r == w
    ensures r.p.stacks == w.p.stacks && r.p.amounts == w.p.amounts && r.p.maxHealth == w.p.maxHealth
    ensures Inv(w.p) ==> Inv(r.p)
  {
    match w.p.respawn
    case Idle => w
    case Coroutine(t, justStarted) =>
      if justStarted then w.(p := w.p.(respawn := Coroutine(t, false)))
      else if t - dt <= 0.0 then FinishRespawn(w.(p := w.p.(respawn := Idle)))
      else w.(p := w.p.(respawn := Coroutine(t - dt, false)))
    case Invoked(t, justStarted) =>
      if justStarted then w.(p := w.p.(respawn := Invoked(t, false)))
      else if t - dt <= 0.0 then RespawnPlayerDirect(w.(p := w.p.(respawn := Idle)))
      else w.(p := w.p.(respawn := Invoked(t - dt, false)))
  }

  function ForceDeath(w: World, roll: BuffType): (r: World)
    ensures w.p.isDead ==> r == w
    ensures Inv(w.p) ==> Inv(r.p)
  {
    if !w.p.isDead then Die(w.(p := w.p.(currentHealth := 0.0)), roll) else w
  }

  function ResetBuffs(w: World): (r: World)
    ensures r.p == w.p.(stacks := NoStacks)
    ensures r.links == ReapplyAll(NoStacks, w.p.amounts, w.links)
  {
    World(w.p.(stacks := NoStacks), ReapplyAll(NoStacks, w.p.amounts, w.links))
  }
}
