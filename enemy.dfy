/**
 * EnemyDamage on values: contact with a "Player"-tagged collider delivers
 * damageAmount to the hit script at once; while the contact lasts, another
 * delivery happens only once damageInterval has passed since the last one.
 * A delivery needs a hit script instance outside its invulnerability
 * window, and only a delivery moves lastDamageTime.  Time.time is the `now`
 * parameter of each handler.
 */
module EnemyRules {
  import opened Wrappers
  import opened Buffs
  import opened PlayerLife
  import opened Invulnerability
  import opened Combat

  const DefaultDamageAmount: real := 20.0
  const DefaultDamageInterval: real := 1.0
  const PlayerTag: string := "Player"

  datatype Contact = Contact(damageAmount: real, damageInterval: real, lastDamageTime: real)

  /** hitScript.instance as the enemy reaches it: its window, its settings,
      and the player instance it forwards hits to. */
  datatype Target = Target(guard: Guard, window: Window, player: Option<World>)

  function Init(): (c: Contact)
    ensures c.lastDamageTime == 0.0
  {
    Contact(DefaultDamageAmount, DefaultDamageInterval, 0.0)
  }

  /** There is a hit script instance and it is not invulnerable. */
  predicate CanHit(t: Option<Target>)
  {
    t.Some? && !t.value.guard.isInvulnerable
  }

  /** The interval gate of continuous contact. */
  predicate IntervalPassed(c: Contact, now: real)
  {
    now - c.lastDamageTime >= c.damageInterval
  }

  /** DealDamageToPlayer: when the target can be hit, the hit script takes
      the damage and the clock is set to now, whether or not the hit script
      has a player instance to forward it to. */
  function DealDamageToPlayer(c: Contact, now: real, t: Option<Target>, roll: BuffType)
    : (r: (Contact, Option<Target>))
  {
    if CanHit(t) then
      var (g, p) := Combat.TakeDamageFromEnemy(t.value.guard, t.value.window, t.value.player,
                                               c.damageAmount, roll);
      (c.(lastDamageTime := now), Some(Target(g, t.value.window, p)))
    else (c, t)
  }

  function OnTriggerEnter2D(c: Contact, tag: string, now: real, t: Option<Target>, roll: BuffType)
    : (r: (Contact, Option<Target>))
  {
    if tag == PlayerTag then DealDamageToPlayer(c, now, t, roll) else (c, t)
  }

  function OnTriggerStay2D(c: Contact, tag: string, now: real, t: Option<Target>, roll: BuffType)
    : (r: (Contact, Option<Target>))
  {
    if tag == PlayerTag && IntervalPassed(c, now) then DealDamageToPlayer(c, now, t, roll) else (c, t)
  }

  /** A delivery: the damage goes to the hit script, which forwards it (and
      opens its window) exactly as its own handler does, and the clock
      records the time; the settings never change. */
  lemma DeliveryOutcome(c: Contact, now: real, t: Option<Target>, roll: BuffType)
    requires CanHit(t)
    ensures var r := DealDamageToPlayer(c, now, t, roll);
            && r.0 == c.(lastDamageTime := now)
            && r.1 == Some(Target(Combat.TakeDamageFromEnemy(t.value.guard, t.value.window, t.value.player,
                                                             c.damageAmount, roll).0,
                                  t.value.window,
                                  Combat.TakeDamageFromEnemy(t.value.guard, t.value.window, t.value.player,
                                                             c.damageAmount, roll).1))
    ensures t.value.player.Some? ==>
              DealDamageToPlayer(c, now, t, roll).1.value.player ==
              Some(PlayerLife.TakeDamage(t.value.player.value, c.damageAmount, roll))
  {
  }

  /** Nothing reaches an invulnerable or missing hit script, from either
      handler, and nothing else changes either. */
  lemma NoDeliveryWhileInvulnerable(c: Contact, tag: string, now: real, t: Option<Target>, roll: BuffType)
    requires !CanHit(t)
    ensures OnTriggerEnter2D(c, tag, now, t, roll) == (c, t)
    ensures OnTriggerStay2D(c, tag, now, t, roll) == (c, t)
  {
  }

  /** The hit script after it has handled damageAmount through its own
      handler. */
  function Delivered(c: Contact, t: Option<Target>, roll: BuffType): Option<Target>
    requires t.Some?
  {
    var r := Combat.TakeDamageFromEnemy(t.value.guard, t.value.window, t.value.player, c.damageAmount, roll);
    Some(Target(r.0, t.value.window, r.1))
  }

  /** The clock moves exactly on a delivery, under both handlers: entering
      delivers to any hittable target, staying only once the interval has
      passed. */
  lemma ClockMovesOnlyOnDelivery(c: Contact, tag: string, now: real, t: Option<Target>, roll: BuffType)
    ensures OnTriggerEnter2D(c, tag, now, t, roll).0 ==
            (if tag == PlayerTag && CanHit(t) then c.(lastDamageTime := now) else c)
    ensures OnTriggerStay2D(c, tag, now, t, roll).0 ==
            (if tag == PlayerTag && IntervalPassed(c, now) && CanHit(t) then c.(lastDamageTime := now) else c)
    ensures OnTriggerEnter2D(c, tag, now, t, roll).1 ==
            (if tag == PlayerTag && CanHit(t) then Delivered(c, t, roll) else t)
    ensures OnTriggerStay2D(c, tag, now, t, roll).1 ==
            (if tag == PlayerTag && IntervalPassed(c, now) && CanHit(t) then Delivered(c, t, roll) else t)
  {
  }

  /** Only the "Player" tag matters: other colliders change nothing. */
  lemma OtherTagsIgnored(c: Contact, tag: string, now: real, t: Option<Target>, roll: BuffType)
    requires tag != PlayerTag
    ensures OnTriggerEnter2D(c, tag, now, t, roll) == (c, t)
    ensures OnTriggerStay2D(c, tag, now, t, roll) == (c, t)
  {
  }

  /** The clock is set even when the hit script has no player instance and
      so drops the hit without opening a window: a contact without a player
      still spaces out the next delivery. */
  lemma ClockMovesWithoutPlayer(c: Contact, now: real, g: Guard, win: Window, roll: BuffType)
    requires !g.isInvulnerable
    ensures DealDamageToPlayer(c, now, Some(Target(g, win, None)), roll) ==
            (c.(lastDamageTime := now), Some(Target(g, win, None)))
  {
  }

  /** One frame of continuous contact: the time of the frame, and the hit
      script instance as the enemy sees it then. */
  datatype Stay = Stay(now: real, target: Option<Target>, roll: BuffType)

  /** A run of OnTriggerStay2D calls with the "Player" tag: the final
      contact and the times at which damage was delivered. */
  function Stays(c: Contact, ss: seq<Stay>): (r: (Contact, seq<real>))
    ensures r.0.damageAmount == c.damageAmount && r.0.damageInterval == c.damageInterval
    decreases |ss|
  {
    if |ss| == 0 then (c, [])
    else
      var c1 := OnTriggerStay2D(c, PlayerTag, ss[0].now, ss[0].target, ss[0].roll).0;
      var rest := Stays(c1, ss[1..]);
      if IntervalPassed(c, ss[0].now) && CanHit(ss[0].target) then (rest.0, [ss[0].now] + rest.1) else rest
  }

  /** Each delivery time is at least `interval` after the one before it,
      the first at least `interval` after `last`. */
  predicate Spaced(last: real, interval: real, ds: seq<real>)
    decreases |ds|
  {
    |ds| > 0 ==> ds[0] - last >= interval && Spaced(ds[0], interval, ds[1..])
  }

  /** The minimum spacing of continuous contact damage, measured from the
      last actual delivery; and the clock always holds that delivery. */
  lemma {:induction false} StaysAreSpaced(c: Contact, ss: seq<Stay>)
    ensures Spaced(c.lastDamageTime, c.damageInterval, Stays(c, ss).1)
    ensures Stays(c, ss).0.lastDamageTime ==
            (if |Stays(c, ss).1| > 0 then Stays(c, ss).1[|Stays(c, ss).1| - 1] else c.lastDamageTime)
    decreases |ss|
  {
    if |ss| > 0 {
      var s := ss[0];
      var c1 := OnTriggerStay2D(c, PlayerTag, s.now, s.target, s.roll).0;
      ClockMovesOnlyOnDelivery(c, PlayerTag, s.now, s.target, s.roll);
      StaysAreSpaced(c1, ss[1..]);
      var rest := Stays(c1, ss[1..]);
      if IntervalPassed(c, s.now) && CanHit(s.target) {
        assert c1 == c.(lastDamageTime := s.now);
        var ds := [s.now] + rest.1;
        assert ds[1..] == rest.1;
        assert Stays(c, ss) == (rest.0, ds);
      }
    }
  }

  /** All the time a hit script stays invulnerable, a contact delivers no
      damage however long it lasts. */
  lemma {:induction false} NothingWhileAlwaysInvulnerable(c: Contact, ss: seq<Stay>)
    requires forall i :: 0 <= i < |ss| ==> !CanHit(ss[i].target)
    ensures Stays(c, ss) == (c, [])
    decreases |ss|
  {
    if |ss| > 0 {
      NoDeliveryWhileInvulnerable(c, PlayerTag, ss[0].now, ss[0].target, ss[0].roll);
      NothingWhileAlwaysInvulnerable(c, ss[1..]);
    }
  }

  /** With the default settings the clock starts at zero, so a contact that
      persists from the start of the game delivers nothing before one
      second; entering delivers at once. */
  lemma DefaultContactTiming(now: real, t: Option<Target>, roll: BuffType)
    requires 0.0 <= now < 1.0 && CanHit(t)
    ensures OnTriggerStay2D(Init(), PlayerTag, now, t, roll) == (Init(), t)
    ensures OnTriggerEnter2D(Init(), PlayerTag, now, t, roll).0 == Init().(lastDamageTime := now)
  {
  }

  /** A hit rejected by the window leaves the clock behind, so the next
      frame in which the window has closed delivers at once. */
  lemma RejectedHitDoesNotDelay(g: Guard, win: Window, w: World)
    requires g.isInvulnerable
    ensures var c := Init().(lastDamageTime := 1.0);
            var a := OnTriggerStay2D(c, PlayerTag, 2.0, Some(Target(g, win, Some(w))), Damage);
            var open := Guard(false, [], false);
            var b := OnTriggerStay2D(a.0, PlayerTag, 2.1, Some(Target(open, win, Some(w))), Damage);
            && a.0 == c
            && b.0 == c.(lastDamageTime := 2.1)
            && b.1 == Some(Target(Start(win.duration, win.hasSprite), win,
                                  Some(PlayerLife.TakeDamage(w, DefaultDamageAmount, Damage))))
  {
  }
}

/** The EnemyDamage component over the field it updates in place. */
module Enemy {
  import opened Wrappers
  import opened Buffs
  import opened PlayerLife
  import opened EnemyRules
  import Player

  class EnemyDamage {
    var damageAmount: real
    var damageInterval: real
    var lastDamageTime: real
    // hitScript.instance.
    const hit: Player.HitScript?

    ghost function Contact(): EnemyRules.Contact
      reads this
    {
      EnemyRules.Contact(damageAmount, damageInterval, lastDamageTime)
    }

    /** The hit script instance with its player, as values. */
    ghost function TargetView(): Option<Target>
      reads this, hit, if hit != null then {hit.player} else {}
      reads if hit != null && hit.player != null then {hit.player.playerMovement} else {}
      reads if hit != null && hit.player != null then {hit.player.hitScript} else {}
    {
      if hit != null then Some(Target(hit.Guard(), hit.Window(), hit.PlayerView())) else None
    }

    /** The hit script and its player keep their invariants. */
    ghost predicate Ready()
      reads this, hit, if hit != null then {hit.player} else {}
      reads if hit != null && hit.player != null then {hit.player.playerMovement} else {}
    {
      hit != null ==> hit.Valid() && (hit.player != null ==> hit.player.Valid())
    }

    constructor (hit: Player.HitScript?)
      ensures Contact() == EnemyRules.Init() && this.hit == hit
    {
      damageAmount := DefaultDamageAmount;
      damageInterval := DefaultDamageInterval;
      lastDamageTime := 0.0;
      this.hit := hit;
    }

    method DealDamageToPlayer(now: real, roll: BuffType)
      requires Ready()
      modifies this, hit, if hit != null then {hit.player} else {}
      modifies if hit != null && hit.player != null then {hit.player.playerMovement} else {}
      ensures Ready() && (hit != null ==> hit.player == old(hit.player))
      ensures (Contact(), TargetView()) ==
              EnemyRules.DealDamageToPlayer(old(Contact()), now, old(TargetView()), roll)
    {
      if hit != null {
        var invulnerable := hit.IsInvulnerable();
        if !invulnerable {
          hit.TakeDamageFromEnemy(damageAmount, roll);
          lastDamageTime := now;
        }
      }
    }

    method OnTriggerEnter2D(tag: string, now: real, roll: BuffType)
      requires Ready()
      modifies this, hit, if hit != null then {hit.player} else {}
      modifies if hit != null && hit.player != null then {hit.player.playerMovement} else {}
      ensures Ready() && (hit != null ==> hit.player == old(hit.player))
      ensures (Contact(), TargetView()) ==
              EnemyRules.OnTriggerEnter2D(old(Contact()), tag, now, old(TargetView()), roll)
    {
      if tag == PlayerTag {
        DealDamageToPlayer(now, roll);
      }
    }

    method OnTriggerStay2D(tag: string, now: real, roll: BuffType)
      requires Ready()
      modifies this, hit, if hit != null then {hit.player} else {}
      modifies if hit != null && hit.player != null then {hit.player.playerMovement} else {}
      ensures Ready() && (hit != null ==> hit.player == old(hit.player))
      ensures (Contact(), TargetView()) ==
              EnemyRules.OnTriggerStay2D(old(Contact()), tag, now, old(TargetView()), roll)
    {
      if tag == PlayerTag {
        if now - lastDamageTime >= damageInterval {
          DealDamageToPlayer(now, roll);
        }
      }
    }
  }
}
