/**
 * What PlayerDeathBuffSystem promises, proved about the transitions of
 * PlayerLife: the damage guard, health bounds, death at most once per life,
 * the survival buff, the respawn reset and its timing, and the buff counters
 * over whole runs of events.
 */
module PlayerLifeFacts {
  import opened Wrappers
  import opened Buffs
  import opened PlayerLife
  import opened Clock

  /** A hit on a living player lowers health by the damage, never below
      zero, and kills exactly when nothing is left; a hit that does not kill
      changes nothing else. */
  lemma TakeDamageOutcome(w: World, damage: real, roll: BuffType)
    requires !w.p.isDead && !w.p.isRespawning
    ensures TakeDamage(w, damage, roll).p.currentHealth == Max(w.p.currentHealth - damage, 0.0)
    ensures TakeDamage(w, damage, roll).p.isDead <==> w.p.currentHealth - damage <= 0.0
    ensures w.p.currentHealth - damage > 0.0 ==>
              TakeDamage(w, damage, roll) == w.(p := w.p.(currentHealth := w.p.currentHealth - damage))
  {
  }

  /** Non-negative damage and healing keep health within [0, maxHealth],
      and so do the survival timer, the scheduler and the buff reset. */
  lemma HealthStaysInRange(w: World, damage: real, amount: real, roll: BuffType, dt: real)
    requires HealthInRange(w.p) && damage >= 0.0 && amount >= 0.0
    ensures HealthInRange(TakeDamage(w, damage, roll).p)
    ensures HealthInRange(Heal(w, amount).p)
    ensures HealthInRange(Update(w, dt).p)
    ensures HealthInRange(Tick(w, dt).p)
    ensures HealthInRange(ForceDeath(w, roll).p)
    ensures HealthInRange(ResetBuffs(w).p)
  {
  }

  /** The Updates of a run of frames. */
  function Updates(w: World, dts: seq<real>): World
    decreases |dts|
  {
    if |dts| == 0 then w else Updates(Update(w, dts[0]), dts[1..])
  }

  /** The survival timer of a living player adds up exactly the frame times,
      and that of a dead player stands still; nothing else changes. */
  lemma {:induction false} SurvivalTimeAddsUp(w: World, dts: seq<real>)
    ensures Updates(w, dts) == w.(p := w.p.(survivalTime := Updates(w, dts).p.survivalTime))
    ensures Updates(w, dts).p.survivalTime == (if w.p.isDead then w.p.survivalTime else w.p.survivalTime + Sum(dts))
    decreases |dts|
  {
    if |dts| > 0 {
      SurvivalTimeAddsUp(Update(w, dts[0]), dts[1..]);
    }
  }

  /** Healing does nothing to a dead player and never lifts health past
      maxHealth. */
  lemma HealRules(w: World, amount: real)
    ensures w.p.isDead ==> Heal(w, amount) == w
    ensures !w.p.isDead ==> Heal(w, amount).p.currentHealth == Min(w.p.currentHealth + amount, w.p.maxHealth)
    ensures !w.p.isDead ==> Heal(w, amount).p.currentHealth <= w.p.maxHealth
  {
  }

  /** Death happens at most once per life: once a hit has killed the player,
      every further hit, forced death or call of Die is ignored until the
      respawn. */
  lemma DeathHappensOnce(w: World, d1: real, d2: real, r1: BuffType, r2: BuffType)
    requires Inv(w.p) && !w.p.isDead
    requires TakeDamage(w, d1, r1).p.isDead
    ensures TakeDamage(TakeDamage(w, d1, r1), d2, r2) == TakeDamage(w, d1, r1)
    ensures ForceDeath(TakeDamage(w, d1, r1), r2) == TakeDamage(w, d1, r1)
    ensures Die(TakeDamage(w, d1, r1), r2) == TakeDamage(w, d1, r1)
  {
  }

  /** Dying marks the player dead, stops the body, disables movement and
      schedules the respawn: the coroutine (isRespawning set) when the object
      is active, the two-second Invoke otherwise, either one started in the
      current frame. */
  lemma DeathSchedulesRespawn(w: World, roll: BuffType)
    requires !w.p.isDead && !w.p.isRespawning
    ensures Die(w, roll).p.isDead
    ensures Die(w, roll).p.isRespawning == w.p.active
    ensures Die(w, roll).p.respawn == (if w.p.active then Coroutine(RespawnDelay, true) else Invoked(RespawnDelay, true))
    ensures w.links.move.Some? ==> Die(w, roll).links.move.Some? && !Die(w, roll).links.move.value.enabled
    ensures w.links.move.Some? ==> Die(w, roll).links.move.value.vx == 0.0 && Die(w, roll).links.move.value.vy == 0.0
  {
    var w1 := World(w.p.(isDead := true), SetMoveEnabled(Halt(w.links), false));
    if w1.p.survivalTime >= w1.p.buffThreshold {
      var w2 := GrantRandomBuff(w1, roll);
      assert w2.links.move.Some? ==> !w2.links.move.value.enabled && w2.links.move.value.vx == 0.0
                                     && w2.links.move.value.vy == 0.0;
    }
  }

  /** A death after at least buffThreshold seconds of survival adds one
      stack of the rolled kind and pushes that kind's recomputed stat; an
      earlier death leaves the counters and the pushed stats as they were. */
  lemma DeathBuff(w: World, roll: BuffType)
    requires !w.p.isDead && !w.p.isRespawning
    ensures w.p.survivalTime >= w.p.buffThreshold ==>
              && Die(w, roll).p.stacks == Grant(w.p.stacks, roll)
              && Total(Die(w, roll).p.stacks) == Total(w.p.stacks) + 1
              && Die(w, roll).links == Apply(roll, Grant(w.p.stacks, roll), w.p.amounts, SetMoveEnabled(Halt(w.links), false))
    ensures w.p.survivalTime < w.p.buffThreshold ==>
              && Die(w, roll).p.stacks == w.p.stacks
              && Die(w, roll).links == SetMoveEnabled(Halt(w.links), false)
  {
    GrantAddsOne(w.p.stacks, roll);
  }

  /** The damage buff granted on death shows up in the hit script at once. */
  lemma DamageBuffReachesHitScript(w: World)
    requires !w.p.isDead && !w.p.isRespawning && w.p.survivalTime >= w.p.buffThreshold
    requires w.links.playerDamage.Some?
    ensures Die(w, Damage).links.playerDamage ==
              Some(BaseDamage + (w.p.stacks.damage + 1) as real * w.p.amounts.damage)
  {
    DeathBuff(w, Damage);
    var g := Grant(w.p.stacks, Damage);
    assert g.damage == w.p.stacks.damage + 1;
    var l := SetMoveEnabled(Halt(w.links), false);
    assert l.playerDamage.Some?;
    assert Apply(Damage, g, w.p.amounts, l).playerDamage == Some(PlayerDamage(g, w.p.amounts));
    assert Die(w, Damage).links == Apply(Damage, g, w.p.amounts, l);
    assert PlayerDamage(g, w.p.amounts) == BaseDamage + (w.p.stacks.damage + 1) as real * w.p.amounts.damage;
  }

  /** When its delay has run out, either respawn path restores the player:
      full health, survival timer at zero, both flags clear, the stacks kept,
      the body stopped, movement enabled and every stat recomputed from the
      stacks. */
  lemma RespawnRestores(w: World, dt: real)
    requires Inv(w.p) && w.p.isDead && !w.p.respawn.justStarted && w.p.respawn.wait - dt <= 0.0
    ensures Tick(w, dt).p == w.p.(currentHealth := w.p.maxHealth, survivalTime := 0.0,
                                  isDead := false, isRespawning := false, respawn := Idle)
    ensures Tick(w, dt).links == ReapplyAll(w.p.stacks, w.p.amounts, SetMoveEnabled(Halt(w.links), true))
  {
  }

  /** The frame in which the respawn was scheduled does not count towards
      its delay, however long that frame is. */
  lemma DeathFrameDoesNotCount(w: World, dt: real)
    requires Inv(w.p) && w.p.isDead && w.p.respawn.justStarted
    ensures Tick(w, dt) == w.(p := w.p.(respawn := w.p.respawn.(justStarted := false)))
  {
  }

  /** The scheduler steps of a run of frames. */
  function Ticks(w: World, dts: seq<real>): World
    decreases |dts|
  {
    if |dts| == 0 then w else Ticks(Tick(w, dts[0]), dts[1..])
  }

  function WithWait(r: Respawn, t: real): Respawn
  {
    match r
    case Idle => Idle
    case Coroutine(_, _) => Coroutine(t, false)
    case Invoked(_, _) => Invoked(t, false)
  }

  /** While the frame times after the one that scheduled it add up to less
      than the pending delay, the player stays dead and only the delay
      shrinks, by exactly that sum. */
  lemma {:induction false} DeadThroughoutDelay(w: World, dts: seq<real>)
    requires Inv(w.p) && w.p.isDead && !w.p.respawn.justStarted && NonNegativeTimes(dts)
    requires w.p.respawn.wait - Sum(dts) > 0.0
    ensures Ticks(w, dts) == w.(p := w.p.(respawn := WithWait(w.p.respawn, w.p.respawn.wait - Sum(dts))))
    decreases |dts|
  {
    if |dts| > 0 {
      var w1 := Tick(w, dts[0]);
      TailNonNegative(dts);
      assert Sum(dts[1..]) >= 0.0 by { SumNonNegative(dts[1..]); }
      assert w1 == w.(p := w.p.(respawn := WithWait(w.p.respawn, w.p.respawn.wait - dts[0])));
      DeadThroughoutDelay(w1, dts[1..]);
    }
  }

  /** After a death, the respawn comes on the first later frame at which
      the frame times since the death frame reach the two-second delay, and
      not before: the death frame (of any length d0) and the frames dts
      leave the player dead, and the frame dt that completes the delay
      brings it back at full health. */
  lemma RespawnTiming(w: World, roll: BuffType, d0: real, dts: seq<real>, dt: real)
    requires Inv(w.p) && !w.p.isDead && !w.p.isRespawning && w.p.currentHealth == 0.0
    requires NonNegativeTimes(dts)
    requires RespawnDelay - Sum(dts) > 0.0 && RespawnDelay - Sum(dts) - dt <= 0.0
    ensures Ticks(Die(w, roll), [d0] + dts).p.isDead
    ensures !Tick(Ticks(Die(w, roll), [d0] + dts), dt).p.isDead
    ensures Tick(Ticks(Die(w, roll), [d0] + dts), dt).p.currentHealth == w.p.maxHealth
  {
    var w1 := Die(w, roll);
    DeathSchedulesRespawn(w, roll);
    DeathFrameDoesNotCount(w1, d0);
    var w2 := Tick(w1, d0);
    assert ([d0] + dts)[1..] == dts;
    assert Ticks(w1, [d0] + dts) == Ticks(w2, dts);
    DeadThroughoutDelay(w2, dts);
  }

  /** ResetBuffs drops every counter and pushes the base stat values. */
  lemma ResetRestoresBaseStats(w: World)
    ensures Total(ResetBuffs(w).p.stacks) == 0
    ensures w.links.playerDamage.Some? ==> ResetBuffs(w).links.playerDamage == Some(BaseDamage)
    ensures w.links.move.Some? ==>
              ResetBuffs(w).links.move == Some(MoveLink(w.links.move.value.enabled, BaseAttackSpeed,
                                                        BaseMoveSpeed, BaseJumpForce, BaseDoubleJumpForce,
                                                        w.links.move.value.vx, w.links.move.value.vy))
  {
    var a := w.p.amounts;
    var r := ReapplyAll(NoStacks, a, w.links);
    assert ResetBuffs(w).links == r;
    if w.links.playerDamage.Some? {
      assert r.playerDamage == Some(PlayerDamage(NoStacks, a));
      assert PlayerDamage(NoStacks, a) == BaseDamage;
    }
    if w.links.move.Some? {
      assert r.move == Some(MoveLink(w.links.move.value.enabled, AttackSpeedStat(NoStacks, a), MoveSpeed(NoStacks, a),
                                     JumpForce(NoStacks, a), DoubleJumpForce(NoStacks, a),
                                     w.links.move.value.vx, w.links.move.value.vy));
      assert AttackSpeedStat(NoStacks, a) == BaseAttackSpeed;
      assert MoveSpeed(NoStacks, a) == BaseMoveSpeed;
      assert JumpForce(NoStacks, a) == BaseJumpForce;
      assert DoubleJumpForce(NoStacks, a) == BaseDoubleJumpForce;
    }
  }

  /** The events that reach the system from outside. */
  datatype Event =
    | Frame(dt: real)                           // Update, then the scheduler
    | Hit(damage: real, roll: BuffType)         // TakeDamage
    | HealBy(amount: real)                      // Heal
    | Kill(roll: BuffType)                      // ForceDeath
    | Reset                                     // ResetBuffs

  function Step(w: World, e: Event): World
  {
    match e
    case Frame(dt) => Tick(Update(w, dt), dt)
    case Hit(damage, roll) => TakeDamage(w, damage, roll)
    case HealBy(amount) => Heal(w, amount)
    case Kill(roll) => ForceDeath(w, roll)
    case Reset => ResetBuffs(w)
  }

  function Run(w: World, es: seq<Event>): World
    decreases |es|
  {
    if |es| == 0 then w else Run(Step(w, es[0]), es[1..])
  }

  lemma StepKeepsInv(w: World, e: Event)
    requires Inv(w.p)
    ensures Inv(Step(w, e).p)
  {
  }

  lemma {:induction false} RunKeepsInv(w: World, es: seq<Event>)
    requires Inv(w.p)
    ensures Inv(Run(w, es).p)
    decreases |es|
  {
    if |es| > 0 {
      StepKeepsInv(w, es[0]);
      RunKeepsInv(Step(w, es[0]), es[1..]);
    }
  }

  /** Apart from ResetBuffs, no event lowers a counter, and one event adds
      at most one stack. */
  lemma StepStacks(w: World, e: Event)
    requires !e.Reset?
    ensures AtMost(w.p.stacks, Step(w, e).p.stacks)
    ensures Total(Step(w, e).p.stacks) <= Total(w.p.stacks) + 1
  {
    match e
    case Frame(dt) =>
    case HealBy(_) =>
    case Hit(damage, roll) => GrantAddsOne(w.p.stacks, roll);
    case Kill(roll) => GrantAddsOne(w.p.stacks, roll);
  }

  lemma AtMostTransitive(s: Stacks, t: Stacks, u: Stacks)
    requires AtMost(s, t) && AtMost(t, u)
    ensures AtMost(s, u)
  {
    forall kind ensures Get(s, kind) <= Get(u, kind) {
      assert Get(s, kind) <= Get(t, kind) <= Get(u, kind);
    }
  }

  /** Buffs stack for good: over a run without ResetBuffs the counters never
      drop, and at most one stack is gained per event. */
  lemma {:induction false} StacksNeverDecrease(w: World, es: seq<Event>)
    requires forall i :: 0 <= i < |es| ==> !es[i].Reset?
    ensures AtMost(w.p.stacks, Run(w, es).p.stacks)
    ensures Total(Run(w, es).p.stacks) <= Total(w.p.stacks) + |es|
    decreases |es|
  {
    if |es| > 0 {
      var w1 := Step(w, es[0]);
      StepStacks(w, es[0]);
      assert forall i :: 0 <= i < |es[1..]| ==> !es[1..][i].Reset? by {
        forall i | 0 <= i < |es[1..]| ensures !es[1..][i].Reset? {
          assert es[1..][i] == es[i + 1];
        }
      }
      StacksNeverDecrease(w1, es[1..]);
      AtMostTransitive(w.p.stacks, w1.p.stacks, Run(w1, es[1..]).p.stacks);
    } else {
      assert forall kind :: Get(w.p.stacks, kind) <= Get(w.p.stacks, kind);
    }
  }

  /** A whole life: a player who has survived 31 seconds, running at 3 units
      a second, takes a lethal hit, stops, gains a damage stack, stays dead
      through the rest of that frame, and two seconds later is back at full
      health with the stronger attack and movement re-enabled. */
  lemma LethalHitAfterLongLife()
    ensures var w0 := World(Init(DefaultMaxHealth, DefaultBuffThreshold, DefaultAmounts, true),
                            Links(Some(BaseDamage), Some(MoveLink(true, 1.0, 5.0, 10.0, 8.0, 3.0, 0.0))));
            var w1 := Step(Step(w0, Frame(31.0)), Hit(150.0, Damage));
            var w2 := Step(w1, Frame(0.5));
            var w3 := Step(w2, Frame(2.0));
            && w1.p.isDead && w1.p.currentHealth == 0.0 && w1.p.stacks == NoStacks.(damage := 1)
            && w1.links.playerDamage == Some(15.0)
            && w1.links.move == Some(MoveLink(false, 1.0, 5.0, 10.0, 8.0, 0.0, 0.0))
            && w2.p.isDead
            && !w3.p.isDead && w3.p.currentHealth == 100.0 && w3.p.survivalTime == 0.0
            && w3.links.playerDamage == Some(15.0)
            && w3.links.move == Some(MoveLink(true, 1.0, 5.0, 10.0, 8.0, 0.0, 0.0))
  {
    var w0 := World(Init(DefaultMaxHealth, DefaultBuffThreshold, DefaultAmounts, true),
                    Links(Some(BaseDamage), Some(MoveLink(true, 1.0, 5.0, 10.0, 8.0, 3.0, 0.0))));
    var a := Step(w0, Frame(31.0));
    assert a == w0.(p := w0.p.(survivalTime := 31.0));
    var b := Step(a, Hit(150.0, Damage));
    TakeDamageOutcome(a, 150.0, Damage);
    DeathSchedulesRespawn(a.(p := a.p.(currentHealth := 0.0)), Damage);
    DamageBuffReachesHitScript(a.(p := a.p.(currentHealth := 0.0)));
    assert b.p == a.p.(currentHealth := 0.0, isDead := true, isRespawning := true,
                       stacks := NoStacks.(damage := 1), respawn := Coroutine(RespawnDelay, true));
    assert b.links == Links(Some(15.0), Some(MoveLink(false, 1.0, 5.0, 10.0, 8.0, 0.0, 0.0)));
    var c := Step(b, Frame(0.5));
    assert Update(b, 0.5) == b;
    DeathFrameDoesNotCount(b, 0.5);
    assert c.p == b.p.(respawn := Coroutine(RespawnDelay, false));
    var d := Step(c, Frame(2.0));
    assert Update(c, 2.0) == c;
    RespawnRestores(c, 2.0);
    var s := NoStacks.(damage := 1);
    var amt := DefaultAmounts;
    assert PlayerDamage(s, amt) == 15.0 && AttackSpeedStat(s, amt) == 1.0 && MoveSpeed(s, amt) == 5.0;
    assert JumpForce(s, amt) == 10.0 && DoubleJumpForce(s, amt) == 8.0;
  }
}
