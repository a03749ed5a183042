/**
 * hitScript's reception of enemy damage on values: the hit is forwarded to
 * the player only outside an invulnerability window and only when a player
 * exists, and each forwarded hit opens a new window, whether or not the
 * player system took the damage.
 */
module Combat {
  import opened Wrappers
  import opened Clock
  import opened Buffs
  import opened PlayerLife
  import opened Invulnerability

  /** The hit script's window settings: invulnerabilityDuration, and whether
      the player has a sprite to flash. */
  datatype Window = Window(duration: real, hasSprite: bool)

  /** TakeDamageFromEnemy on the guard and the player (None when there is no
      player instance). */
  function TakeDamageFromEnemy(g: Guard, win: Window, player: Option<World>, damage: real, roll: BuffType)
    : (r: (Guard, Option<World>))
    ensures r.1.Some? == player.Some?
  {
    if !g.isInvulnerable && player.Some? then
      (Start(win.duration, win.hasSprite), Some(PlayerLife.TakeDamage(player.value, damage, roll)))
    else (g, player)
  }

  /** While the window is open, enemy hits change nothing at all; outside it
      they reach the player and open a new window. */
  lemma HitGate(g: Guard, win: Window, w: World, damage: real, roll: BuffType)
    ensures g.isInvulnerable ==> TakeDamageFromEnemy(g, win, Some(w), damage, roll) == (g, Some(w))
    ensures !g.isInvulnerable ==>
              TakeDamageFromEnemy(g, win, Some(w), damage, roll) ==
              (Start(win.duration, win.hasSprite), Some(PlayerLife.TakeDamage(w, damage, roll)))
  {
  }

  /** The window opens even when the player system ignores the damage
      because the player is dead or respawning. */
  lemma IgnoredHitStillOpensWindow(g: Guard, win: Window, w: World, damage: real, roll: BuffType)
    requires !g.isInvulnerable && (w.p.isDead || w.p.isRespawning)
    requires !win.hasSprite || win.duration > 0.0
    ensures TakeDamageFromEnemy(g, win, Some(w), damage, roll).1 == Some(w)
    ensures TakeDamageFromEnemy(g, win, Some(w), damage, roll).0.isInvulnerable
  {
    WindowLength(win.duration, win.hasSprite);
  }

  /** Without a player instance, nothing happens. */
  lemma NoPlayerNoEffect(g: Guard, win: Window, damage: real, roll: BuffType)
    ensures TakeDamageFromEnemy(g, win, None, damage, roll) == (g, None)
  {
  }

  /** One hit per window: after a forwarded hit, every enemy hit that
      arrives later in the same frame, or in a later frame before the times
      of the frames after that one add up to the duration, is ignored,
      whatever state the player has reached meanwhile. */
  lemma OneHitPerWindow(g: Guard, win: Window, w: World, later: World, d1: real, d2: real,
                        r1: BuffType, r2: BuffType, d0: real, dts: seq<real>)
    requires !g.isInvulnerable && win.duration > 0.0
    requires NonNegativeTimes(dts) && Sum(dts) < win.duration
    ensures var g0 := TakeDamageFromEnemy(g, win, Some(w), d1, r1).0;
            TakeDamageFromEnemy(g0, win, Some(later), d2, r2) == (g0, Some(later))
    ensures var g1 := Ticks(TakeDamageFromEnemy(g, win, Some(w), d1, r1).0, [d0] + dts);
            TakeDamageFromEnemy(g1, win, Some(later), d2, r2) == (g1, Some(later))
  {
    WindowLength(win.duration, win.hasSprite);
    InvulnerableForDuration(win.duration, win.hasSprite, d0, dts);
  }
}
