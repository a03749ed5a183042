/**
 * BossManager: health clamped at zero, a Die hook called on every hit that
 * leaves no health (there is no guard against calling it again), and the
 * FlashDamage coroutine, which every hit restarts.  The coroutine is a phase
 * advanced by Tick: a hold of FlashHold seconds, then a fade that lasts
 * until its frame times add up to FadeDuration.  The hold is measured from
 * the frame of the hit and first checked on the next frame, so a new hold is
 * marked `justStarted` and the Tick of that frame only clears the mark.  Die
 * only logs, so the model counts its calls.
 */
module BossRules {
  import opened Clock

  const DefaultMaxHealth: real := 100.0
  const FlashHold: real := 0.1
  const FadeDuration: real := 0.2

  /** FlashDamage: not running, in its first wait (time left, and whether
      the hit came in the current frame), or in the fade loop with the time
      elapsed so far. */
  datatype Flash = NoFlash | Hold(wait: real, justStarted: bool) | Fade(elapsed: real)

  datatype BossState = BossState(maxHealth: real, currentHealth: real, flash: Flash, defeats: nat)

  function Max(x: real, y: real): real
  {
    if x >= y then x else y
  }

  /** Awake. */
  function Init(maxHealth: real): (b: BossState)
    ensures b.currentHealth == maxHealth && b.defeats == 0 && b.flash == NoFlash
  {
    BossState(maxHealth, maxHealth, NoFlash, 0)
  }

  /** TakeDamage: subtract, clamp at zero, restart the flash, and call Die
      whenever nothing is left. */
  function TakeDamage(b: BossState, damage: real): (r: BossState)
    ensures r.maxHealth == b.maxHealth
  {
    var h := Max(b.currentHealth - damage, 0.0);
    BossState(b.maxHealth, h, Hold(FlashHold, true), if h <= 0.0 then b.defeats + 1 else b.defeats)
  }

  /** The scheduler's step of FlashDamage.  In the frame of the hit the hold
      only loses its mark.  When the hold ends, the fade loop starts in the
      same frame and adds that frame's time; then each frame either adds its
      time or, once FadeDuration is reached, ends it. */
  function Tick(b: BossState, dt: real): (r: BossState)
    ensures r == b.(flash := r.flash)
  {
    match b.flash
    case NoFlash => b
    case Hold(w, justStarted) =>
      if justStarted then b.(flash := Hold(w, false))
      else if w - dt <= 0.0 then b.(flash := Fade(0.0 + dt))
      else b.(flash := Hold(w - dt, false))
    case Fade(e) =>
      if e < FadeDuration then b.(flash := Fade(e + dt)) else b.(flash := NoFlash)
  }

  /** A hit lowers health by the damage and never below zero; it keeps
      health within [0, maxHealth] when the damage is not negative. */
  lemma TakeDamageClamps(b: BossState, damage: real)
    ensures TakeDamage(b, damage).currentHealth == Max(b.currentHealth - damage, 0.0)
    ensures TakeDamage(b, damage).currentHealth >= 0.0
    ensures damage >= 0.0 && 0.0 <= b.currentHealth <= b.maxHealth ==> TakeDamage(b, damage).currentHealth <= b.maxHealth
  {
  }

  /** Die is called exactly by the hits that leave no health, once per such
      hit, including every hit on a boss already at zero. */
  lemma DieOnEveryLethalHit(b: BossState, damage: real)
    ensures TakeDamage(b, damage).defeats == b.defeats + 1 <==> b.currentHealth - damage <= 0.0
    ensures TakeDamage(b, damage).defeats == b.defeats + 1 || TakeDamage(b, damage).defeats == b.defeats
    ensures b.currentHealth == 0.0 && damage >= 0.0 ==> TakeDamage(b, damage).defeats == b.defeats + 1
  {
  }

  /** Every hit restarts the flash from its hold, whatever phase the previous
      flash had reached. */
  lemma FlashRestarts(b: BossState, damage: real, dt: real)
    ensures TakeDamage(b, damage).flash == Hold(FlashHold, true)
    ensures TakeDamage(Tick(b, dt), damage).flash == TakeDamage(b, damage).flash
  {
  }

  /** The hold lasts through the frame of the hit, however long, and ends
      on the first later frame whose frame times, together with those of the
      frames between, reach FlashHold; that frame's time is the first the
      fade adds. */
  lemma HoldTiming(b: BossState, damage: real, d0: real, dts: seq<real>, dt: real)
    requires NonNegativeTimes(dts) && FlashHold - Sum(dts) > 0.0 && FlashHold - Sum(dts) - dt <= 0.0
    ensures Ticks(TakeDamage(b, damage), [d0] + dts).flash == Hold(FlashHold - Sum(dts), false)
    ensures Tick(Ticks(TakeDamage(b, damage), [d0] + dts), dt).flash == Fade(dt)
  {
    var b1 := Tick(TakeDamage(b, damage), d0);
    assert b1.flash == Hold(FlashHold, false);
    assert ([d0] + dts)[1..] == dts;
    HoldLasts(b1, dts);
  }

  /** An unmarked hold shrinks by exactly the frame times while they add up
      to less than what is left of it. */
  lemma {:induction false} HoldLasts(b: BossState, dts: seq<real>)
    requires b.flash.Hold? && !b.flash.justStarted && NonNegativeTimes(dts) && b.flash.wait - Sum(dts) > 0.0
    ensures Ticks(b, dts) == b.(flash := Hold(b.flash.wait - Sum(dts), false))
    decreases |dts|
  {
    if |dts| > 0 {
      TailNonNegative(dts);
      SumNonNegative(dts[1..]);
      HoldLasts(Tick(b, dts[0]), dts[1..]);
    }
  }

  function Hits(b: BossState, ds: seq<real>): BossState
    decreases |ds|
  {
    if |ds| == 0 then b else Hits(TakeDamage(b, ds[0]), ds[1..])
  }

  /** After a run of non-negative hits, the health is what is left of it
      after the total damage, or zero. */
  lemma {:induction false} HealthAfterHits(b: BossState, ds: seq<real>)
    requires b.currentHealth >= 0.0 && NonNegativeTimes(ds)
    ensures Hits(b, ds).currentHealth == Max(b.currentHealth - Sum(ds), 0.0)
    decreases |ds|
  {
    if |ds| > 0 {
      TailNonNegative(ds);
      SumNonNegative(ds[1..]);
      HealthAfterHits(TakeDamage(b, ds[0]), ds[1..]);
    }
  }

  function Ticks(b: BossState, dts: seq<real>): BossState
    decreases |dts|
  {
    if |dts| == 0 then b else Ticks(Tick(b, dts[0]), dts[1..])
  }

  /** The fade runs while its frame times add up to less than FadeDuration. */
  lemma {:induction false} FadeLasts(b: BossState, dts: seq<real>)
    requires b.flash.Fade? && NonNegativeTimes(dts) && b.flash.elapsed + Sum(dts) < FadeDuration
    ensures Ticks(b, dts) == b.(flash := Fade(b.flash.elapsed + Sum(dts)))
    decreases |dts|
  {
    if |dts| > 0 {
      TailNonNegative(dts);
      SumNonNegative(dts[1..]);
      FadeLasts(Tick(b, dts[0]), dts[1..]);
    }
  }

  /** Once the fade has reached FadeDuration, the next frame ends it. */
  lemma FadeEnds(b: BossState, dt: real)
    requires b.flash.Fade? && b.flash.elapsed >= FadeDuration
    ensures Tick(b, dt).flash == NoFlash
  {
  }
}

/** The BossManager component over the fields the source updates in place. */
module Boss {
  import opened BossRules

  class BossManager {
    var bossMaxHealth: real
    var bossCurrentHealth: real
    var flash: Flash           // the FlashDamage coroutine
    ghost var defeats: nat     // calls of Die so far

    ghost function Model(): BossState
      reads this
    {
      BossState(bossMaxHealth, bossCurrentHealth, flash, defeats)
    }

    ghost predicate Valid()
      reads this
    {
      bossCurrentHealth >= 0.0
    }

    /** Awake: full health.  A negative bossMaxHealth is accepted, and leaves
        the health negative until the first hit clamps it. */
    constructor (maxHealth: real)
      ensures Model() == Init(maxHealth)
      ensures maxHealth >= 0.0 ==> Valid()
    {
      bossMaxHealth := maxHealth;
      bossCurrentHealth := maxHealth;
      flash := NoFlash;
      defeats := 0;
    }

    method TakeDamage(damage: real)
      modifies this
      ensures Valid() && Model() == BossRules.TakeDamage(old(Model()), damage)
    {
      bossCurrentHealth := bossCurrentHealth - damage;
      bossCurrentHealth := Max(bossCurrentHealth, 0.0);
      flash := Hold(FlashHold, true);  // StopAllCoroutines; StartCoroutine(FlashDamage())
      if bossCurrentHealth <= 0.0 {
        Die();
      }
    }

    /** The defeat hook: logs only. */
    method Die()
      modifies this
      ensures Model() == old(Model()).(defeats := old(defeats) + 1)
    {
      defeats := defeats + 1;
    }

    method Tick(dt: real)
      modifies this
      ensures Model() == BossRules.Tick(old(Model()), dt)
    {
      match flash
      case NoFlash =>
      case Hold(w, justStarted) =>
        if justStarted {
          flash := Hold(w, false);
        } else if w - dt <= 0.0 {
          // elapsed = 0 is below FadeDuration: the first fade step runs now
          var elapsed := 0.0;
          elapsed := elapsed + dt;
          flash := Fade(elapsed);
        } else {
          flash := Hold(w - dt, false);
        }
      case Fade(e) =>
        if e < FadeDuration {
          flash := Fade(e + dt);
        } else {
          flash := NoFlash;
        }
    }

    method GetCurrentHealth() returns (h: real)
      ensures h == Model().currentHealth
      ensures Valid() ==> h >= 0.0
    {
      h := bossCurrentHealth;
    }
  }
}
