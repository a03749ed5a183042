/**
 * The invulnerability window of hitScript.  InvulnerabilityFrames sets the
 * flag and, when the player has a sprite, flashes it in cycles of two
 * FlashInterval waits until the cycles cover invulnerabilityDuration; without
 * a sprite it waits the duration once.  The duration is copied into a local
 * when the coroutine starts, so the whole list of waits is known at once:
 * the coroutine is modelled as that list (`pending`, head first, the head
 * partly elapsed), consumed by Tick, the scheduler's step.  The first wait
 * is measured from the frame in which the hit started the coroutine and is
 * first checked on the next frame, so a new window is marked `justStarted`
 * and the Tick of that frame only clears the mark.
 */
module Invulnerability {
  import opened Clock

  const FlashInterval: real := 0.1
  const DefaultDuration: real := 1.0

  /** One flash cycle: dimmed for one interval, restored for the next. */
  const CycleLength: real := 2.0 * FlashInterval

  datatype Guard = Guard(isInvulnerable: bool, pending: seq<real>, justStarted: bool)

  /** The flag is set exactly while the coroutine has waits left. */
  predicate Inv(g: Guard)
  {
    g.isInvulnerable <==> |g.pending| > 0
  }

  /** The smallest x-rounded-up integer, for x > 0. */
  function Ceil(x: real): (n: nat)
    requires x > 0.0
    ensures n as real >= x && (n as real) - 1.0 < x
  {
    if x.Floor as real == x then x.Floor else x.Floor + 1
  }

  /** Number of flash cycles the sprite loop runs for `duration`: the least
      n with n * CycleLength >= duration. */
  function Cycles(duration: real): nat
  {
    if duration <= 0.0 then 0 else Ceil(duration / CycleLength)
  }

  /** The cycles cover the duration, and one cycle fewer would not. */
  lemma CyclesBounds(duration: real)
    ensures Cycles(duration) as real * CycleLength >= duration
    ensures Cycles(duration) > 0 ==> (Cycles(duration) - 1) as real * CycleLength < duration
  {
    if duration > 0.0 {
      var x := duration / CycleLength;
      assert x * CycleLength == duration;
    }
  }

  /** Any count with both properties of CyclesBounds is Cycles. */
  lemma CyclesUnique(duration: real, n: nat)
    requires n as real * CycleLength >= duration
    requires n > 0 ==> (n - 1) as real * CycleLength < duration
    ensures n == Cycles(duration)
  {
    CyclesBounds(duration);
  }

  /** The sprite loop as the source runs it: cycles of two waits, with
      `elapsed` advanced by two intervals per cycle, while elapsed is below
      the duration.  It runs exactly Cycles(duration) times. */
  method FlashCycles(duration: real) returns (n: nat)
    ensures n == Cycles(duration)
  {
    CyclesBounds(duration);
    var elapsed := 0.0;
    n := 0;
    while elapsed < duration
      invariant elapsed == n as real * CycleLength
      invariant n > 0 ==> (n - 1) as real * CycleLength < duration
      invariant n <= Cycles(duration)
      decreases Cycles(duration) - n
    {
      elapsed := elapsed + FlashInterval * 2.0;
      n := n + 1;
    }
    CyclesUnique(duration, n);
  }

  /** The waits of `n` flash cycles. */
  function FlashWaits(n: nat): (r: seq<real>)
    ensures |r| == 2 * n
    ensures forall i :: 0 <= i < |r| ==> r[i] == FlashInterval
  {
    if n == 0 then [] else [FlashInterval, FlashInterval] + FlashWaits(n - 1)
  }

  /** Every wait InvulnerabilityFrames performs, in order. */
  function Schedule(duration: real, hasSprite: bool): seq<real>
  {
    if hasSprite then FlashWaits(Cycles(duration)) else [duration]
  }

  /** StartCoroutine(InvulnerabilityFrames()): the flag goes up, and comes
      straight down again when the sprite loop has no cycle to run. */
  function Start(duration: real, hasSprite: bool): (g: Guard)
    ensures Inv(g)
    ensures g.pending == Schedule(duration, hasSprite)
  {
    var waits := Schedule(duration, hasSprite);
    Guard(|waits| > 0, waits, |waits| > 0)
  }

  /** The scheduler's step: in the frame the window began the first wait
      only loses its mark; later, the current wait shrinks by the frame time,
      or ends and the next one begins; after the last, the flag goes down. */
  function Tick(g: Guard, dt: real): (r: Guard)
    ensures |g.pending| == 0 ==> r == g
    ensures |g.pending| > 0 ==> !r.justStarted
    ensures Inv(g) ==> Inv(r)
  {
    if |g.pending| == 0 then g
    else if g.justStarted then g.(justStarted := false)
    else if g.pending[0] - dt <= 0.0 then Guard(|g.pending| > 1, g.pending[1..], false)
    else Guard(g.isInvulnerable, [g.pending[0] - dt] + g.pending[1..], false)
  }

  lemma {:induction false} FlashWaitsSum(n: nat)
    ensures Sum(FlashWaits(n)) == n as real * CycleLength
  {
    if n > 0 {
      FlashWaitsSum(n - 1);
      var r := FlashWaits(n);
      assert r[1..][1..] == FlashWaits(n - 1);
    }
  }

  /** How long the window lasts: with a sprite, whole flash cycles covering
      the duration and less than one cycle more; without, the duration. */
  lemma WindowLength(duration: real, hasSprite: bool)
    ensures Start(duration, hasSprite).isInvulnerable <==> !hasSprite || duration > 0.0
    ensures !hasSprite ==> Sum(Start(duration, hasSprite).pending) == duration
    ensures hasSprite ==> Sum(Start(duration, hasSprite).pending) == Cycles(duration) as real * CycleLength
    ensures hasSprite && duration > 0.0 ==>
              duration <= Sum(Start(duration, hasSprite).pending) < duration + CycleLength
    ensures hasSprite && duration <= 0.0 ==> !Start(duration, hasSprite).isInvulnerable
  {
    FlashWaitsSum(Cycles(duration));
    CyclesBounds(duration);
    if hasSprite && duration > 0.0 {
      var c := Cycles(duration);
      assert c as real * CycleLength == (c - 1) as real * CycleLength + CycleLength;
    }
  }

  /** The scheduler never makes the window run faster than the clock. */
  lemma TickAtMostDt(g: Guard, dt: real)
    requires dt >= 0.0
    ensures Sum(Tick(g, dt).pending) >= Sum(g.pending) - dt
  {
    if |g.pending| > 0 && !g.justStarted {
      var rest := g.pending[1..];
      assert Sum(g.pending) == g.pending[0] + Sum(rest);
      if g.pending[0] - dt > 0.0 {
        var q := [g.pending[0] - dt] + rest;
        assert q[1..] == rest;
        assert Sum(q) == g.pending[0] - dt + Sum(rest);
        assert Tick(g, dt).pending == q;
      } else {
        assert Tick(g, dt).pending == rest;
      }
    }
  }

  function Ticks(g: Guard, dts: seq<real>): Guard
    decreases |dts|
  {
    if |dts| == 0 then g else Ticks(Tick(g, dts[0]), dts[1..])
  }

  lemma {:induction false} TicksAtMostElapsed(g: Guard, dts: seq<real>)
    requires NonNegativeTimes(dts)
    ensures Sum(Ticks(g, dts).pending) >= Sum(g.pending) - Sum(dts)
    decreases |dts|
  {
    if |dts| > 0 {
      TailNonNegative(dts);
      TickAtMostDt(g, dts[0]);
      TicksAtMostElapsed(Tick(g, dts[0]), dts[1..]);
    }
  }

  /** A window started with a positive duration holds through the rest of
      the frame that started it (of any length d0) and through every run of
      later frames shorter than the duration. */
  lemma InvulnerableForDuration(duration: real, hasSprite: bool, d0: real, dts: seq<real>)
    requires duration > 0.0 && NonNegativeTimes(dts) && Sum(dts) < duration
    ensures Ticks(Start(duration, hasSprite), [d0] + dts).isInvulnerable
  {
    WindowLength(duration, hasSprite);
    var g := Start(duration, hasSprite);
    var g1 := Tick(g, d0);
    assert g1 == g.(justStarted := false);
    assert ([d0] + dts)[1..] == dts;
    TicksAtMostElapsed(g1, dts);
    TicksKeepInv(g1, dts);
  }

  lemma {:induction false} TicksKeepInv(g: Guard, dts: seq<real>)
    requires Inv(g)
    ensures Inv(Ticks(g, dts))
    decreases |dts|
  {
    if |dts| > 0 {
      TicksKeepInv(Tick(g, dts[0]), dts[1..]);
    }
  }

  predicate AllAtMost(ts: seq<real>, dt: real)
  {
    forall i :: 0 <= i < |ts| ==> ts[i] <= dt
  }

  function Repeat(dt: real, n: nat): (r: seq<real>)
    ensures |r| == n
  {
    if n == 0 then [] else [dt] + Repeat(dt, n - 1)
  }

  /** Frames the window still needs: one per wait, plus the frame that
      started it when that frame has not ended yet. */
  function FramesLeft(g: Guard): nat
  {
    |g.pending| + (if g.justStarted then 1 else 0)
  }

  /** The window closes: with frames no shorter than any wait, each frame
      after the one that started the window ends one wait, so after
      FramesLeft frames the flag is down. */
  lemma {:induction false} WindowCloses(g: Guard, dt: real)
    requires Inv(g) && AllAtMost(g.pending, dt)
    ensures !Ticks(g, Repeat(dt, FramesLeft(g))).isInvulnerable
    decreases FramesLeft(g)
  {
    var ts := Repeat(dt, FramesLeft(g));
    if |g.pending| > 0 && g.justStarted {
      var g1 := Tick(g, dt);
      assert g1 == g.(justStarted := false);
      assert ts[0] == dt && ts[1..] == Repeat(dt, FramesLeft(g1));
      WindowCloses(g1, dt);
    } else if |g.pending| > 0 {
      var g1 := Tick(g, dt);
      assert g1.pending == g.pending[1..];
      assert AllAtMost(g1.pending, dt) by {
        forall i | 0 <= i < |g1.pending| ensures g1.pending[i] <= dt {
          assert g1.pending[i] == g.pending[i + 1];
        }
      }
      assert ts[0] == dt && ts[1..] == Repeat(dt, |g1.pending|);
      WindowCloses(g1, dt);
    }
  }

  /** For the default one-second window with a sprite: five flash cycles,
      ten waits of a tenth of a second. */
  lemma DefaultWindow()
    ensures Cycles(DefaultDuration) == 5
    ensures |Start(DefaultDuration, true).pending| == 10
  {
    CyclesUnique(DefaultDuration, 5);
  }
}
