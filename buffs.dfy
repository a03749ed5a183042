/**
 * The five stacking buffs of PlayerDeathBuffSystem and the stat values they
 * derive.  A buff stack never stores a stat: every Apply*Buff recomputes its
 * stat from the stack count and pushes it into the movement controller or the
 * hit script, so the pushed values are pure functions of the counts.
 */
module Buffs {
  import opened Wrappers

  datatype BuffType = Damage | Cooldown | Movement | AttackSpeed | HighJump

  /** One counter per buff kind (the five *BuffStacks fields). */
  datatype Stacks = Stacks(damage: nat, cooldown: nat, movement: nat, attackSpeed: nat, highJump: nat)

  /** Per-stack increments (damageBuffAmount, cooldownReduction, movementBuffAmount,
      attackSpeedBuffAmount, highJumpBuffAmount). */
  datatype Amounts = Amounts(damage: real, cooldown: real, movement: real, attackSpeed: real, highJump: real)

  const NoStacks: Stacks := Stacks(0, 0, 0, 0, 0)
  const DefaultAmounts: Amounts := Amounts(5.0, 0.1, 1.0, 0.2, 2.0)

  /** Base values the formulas start from, and the attack-cooldown floor. */
  const BaseDamage: real := 10.0
  const BaseAttackSpeed: real := 1.0
  const MinAttackSpeed: real := 0.1
  const BaseMoveSpeed: real := 5.0
  const BaseJumpForce: real := 10.0
  const BaseDoubleJumpForce: real := 8.0

  /** GetBuffStacks. */
  function Get(s: Stacks, kind: BuffType): nat
  {
    match kind
    case Damage => s.damage
    case Cooldown => s.cooldown
    case Movement => s.movement
    case AttackSpeed => s.attackSpeed
    case HighJump => s.highJump
  }

  /** The counter increment of GrantRandomBuff for the chosen kind. */
  function Grant(s: Stacks, kind: BuffType): (r: Stacks)
    ensures Get(r, kind) == Get(s, kind) + 1
    ensures forall other :: other != kind ==> Get(r, other) == Get(s, other)
  {
    match kind
    case Damage => s.(damage := s.damage + 1)
    case Cooldown => s.(cooldown := s.cooldown + 1)
    case Movement => s.(movement := s.movement + 1)
    case AttackSpeed => s.(attackSpeed := s.attackSpeed + 1)
    case HighJump => s.(highJump := s.highJump + 1)
  }

  function Total(s: Stacks): nat
  {
    s.damage + s.cooldown + s.movement + s.attackSpeed + s.highJump
  }

  /** Every counter of `s` is at most the matching counter of `t`. */
  predicate AtMost(s: Stacks, t: Stacks)
  {
    forall kind :: Get(s, kind) <= Get(t, kind)
  }

  predicate NonNegative(a: Amounts)
  {
    a.damage >= 0.0 && a.cooldown >= 0.0 && a.movement >= 0.0 && a.attackSpeed >= 0.0 && a.highJump >= 0.0
  }

  function Max(x: real, y: real): real
  {
    if x >= y then x else y
  }

  // The derived-stat formulas of the five Apply*Buff methods.

  function PlayerDamage(s: Stacks, a: Amounts): real
  {
    BaseDamage + s.damage as real * a.damage
  }

  function CooldownAttackSpeed(s: Stacks, a: Amounts): real
  {
    Max(MinAttackSpeed, BaseAttackSpeed - s.cooldown as real * a.cooldown)
  }

  function MoveSpeed(s: Stacks, a: Amounts): real
  {
    BaseMoveSpeed + s.movement as real * a.movement
  }

  function AttackSpeedStat(s: Stacks, a: Amounts): real
  {
    Max(MinAttackSpeed, BaseAttackSpeed - s.attackSpeed as real * a.attackSpeed)
  }

  function JumpForce(s: Stacks, a: Amounts): real
  {
    BaseJumpForce + s.highJump as real * a.highJump
  }

  function DoubleJumpForce(s: Stacks, a: Amounts): real
  {
    BaseDoubleJumpForce + s.highJump as real * a.highJump
  }

  /** What the buff system writes into the movement controller: its enabled
      flag and the velocity of the rigid body it moves (Die and respawn), and
      the four buffed stats. */
  datatype MoveLink = MoveLink(enabled: bool, attackSpeed: real, moveSpeed: real, jumpForce: real, doubleJumpForce: real,
                               vx: real, vy: real)

  /** The values the buff system writes into other components; None where the
      reference (hitScript, playerMovement) is unassigned. */
  datatype Links = Links(playerDamage: Option<real>, move: Option<MoveLink>)

  /** Apply*Buff for one kind: overwrite that kind's targets, if present. */
  function Apply(kind: BuffType, s: Stacks, a: Amounts, l: Links): Links
  {
    match kind
    case Damage =>
      if l.playerDamage.Some? then l.(playerDamage := Some(PlayerDamage(s, a))) else l
    case Cooldown =>
      if l.move.Some? then l.(move := Some(l.move.value.(attackSpeed := CooldownAttackSpeed(s, a)))) else l
    case Movement =>
      if l.move.Some? then l.(move := Some(l.move.value.(moveSpeed := MoveSpeed(s, a)))) else l
    case AttackSpeed =>
      if l.move.Some? then l.(move := Some(l.move.value.(attackSpeed := AttackSpeedStat(s, a)))) else l
    case HighJump =>
      if l.move.Some? then
        l.(move := Some(l.move.value.(jumpForce := JumpForce(s, a), doubleJumpForce := DoubleJumpForce(s, a))))
      else l
  }

  /** ReapplyAllBuffs: the five applies in the source's order.  The result is
      derived afresh from the counts; the Cooldown write to attackSpeed is
      overwritten by the AttackSpeed write that follows it. */
  function ReapplyAll(s: Stacks, a: Amounts, l: Links): (r: Links)
    ensures r.playerDamage == (if l.playerDamage.Some? then Some(PlayerDamage(s, a)) else None)
    ensures r.move == (if l.move.Some? then
                         Some(MoveLink(l.move.value.enabled, AttackSpeedStat(s, a), MoveSpeed(s, a),
                                       JumpForce(s, a), DoubleJumpForce(s, a), l.move.value.vx, l.move.value.vy))
                       else None)
  {
    Apply(HighJump, s, a, Apply(AttackSpeed, s, a, Apply(Movement, s, a, Apply(Cooldown, s, a, Apply(Damage, s, a, l)))))
  }

  /** Reapplying with unchanged counts changes nothing. */
  lemma ReapplyIdempotent(s: Stacks, a: Amounts, l: Links)
    ensures ReapplyAll(s, a, ReapplyAll(s, a, l)) == ReapplyAll(s, a, l)
  {
  }

  /** The reapplied values do not depend on what the targets held before, only
      on which targets exist (and the movement controller's enabled flag and
      velocity, which no apply touches). */
  lemma ReapplyForgetsOldValues(s: Stacks, a: Amounts, l1: Links, l2: Links)
    requires l1.playerDamage.Some? == l2.playerDamage.Some?
    requires l1.move.Some? == l2.move.Some?
    requires l1.move.Some? ==> l1.move.value.enabled == l2.move.value.enabled
    requires l1.move.Some? ==> l1.move.value.vx == l2.move.value.vx && l1.move.value.vy == l2.move.value.vy
    ensures ReapplyAll(s, a, l1) == ReapplyAll(s, a, l2)
  {
  }

  /** Because AttackSpeed is applied after Cooldown, the Cooldown stacks have
      no effect on anything ReapplyAllBuffs writes. */
  lemma CooldownStacksOverwritten(s: Stacks, c: nat, a: Amounts, l: Links)
    ensures ReapplyAll(s.(cooldown := c), a, l) == ReapplyAll(s, a, l)
  {
    var t := s.(cooldown := c);
    assert PlayerDamage(t, a) == PlayerDamage(s, a) && AttackSpeedStat(t, a) == AttackSpeedStat(s, a);
    assert MoveSpeed(t, a) == MoveSpeed(s, a) && JumpForce(t, a) == JumpForce(s, a);
    assert DoubleJumpForce(t, a) == DoubleJumpForce(s, a);
  }

  /** Both attack-cooldown formulas stay at or above the 0.1 floor, and at or
      below the base 1.0 when the per-stack amounts are non-negative. */
  lemma AttackSpeedBounds(s: Stacks, a: Amounts)
    ensures MinAttackSpeed <= AttackSpeedStat(s, a) && MinAttackSpeed <= CooldownAttackSpeed(s, a)
    ensures NonNegative(a) ==> AttackSpeedStat(s, a) <= BaseAttackSpeed && CooldownAttackSpeed(s, a) <= BaseAttackSpeed
  {
    if NonNegative(a) {
      ScaleNonNegative(s.attackSpeed, a.attackSpeed);
      ScaleNonNegative(s.cooldown, a.cooldown);
    }
  }

  lemma ScaleNonNegative(n: nat, x: real)
    requires x >= 0.0
    ensures n as real * x >= 0.0
  {
  }

  lemma ScaleMonotone(m: nat, n: nat, x: real)
    requires m <= n && x >= 0.0
    ensures m as real * x <= n as real * x
  {
    assert n as real * x == m as real * x + (n - m) as real * x;
    ScaleNonNegative(n - m, x);
  }

  /** More stacks never make a stat worse when the amounts are non-negative:
      damage, speed and jump forces grow, the attack cooldown shrinks. */
  lemma StatsMonotone(s: Stacks, t: Stacks, a: Amounts)
    requires AtMost(s, t) && NonNegative(a)
    ensures PlayerDamage(s, a) <= PlayerDamage(t, a)
    ensures MoveSpeed(s, a) <= MoveSpeed(t, a)
    ensures JumpForce(s, a) <= JumpForce(t, a) && DoubleJumpForce(s, a) <= DoubleJumpForce(t, a)
    ensures AttackSpeedStat(t, a) <= AttackSpeedStat(s, a)
    ensures CooldownAttackSpeed(t, a) <= CooldownAttackSpeed(s, a)
  {
    assert Get(s, Damage) <= Get(t, Damage) && Get(s, Cooldown) <= Get(t, Cooldown);
    assert Get(s, Movement) <= Get(t, Movement) && Get(s, AttackSpeed) <= Get(t, AttackSpeed);
    assert Get(s, HighJump) <= Get(t, HighJump);
    DamageMonotone(s, t, a);
    MoveSpeedMonotone(s, t, a);
    JumpMonotone(s, t, a);
    AttackSpeedMonotone(s, t, a);
    CooldownMonotone(s, t, a);
  }

  lemma DamageMonotone(s: Stacks, t: Stacks, a: Amounts)
    requires s.damage <= t.damage && a.damage >= 0.0
    ensures PlayerDamage(s, a) <= PlayerDamage(t, a)
  {
    ScaleMonotone(s.damage, t.damage, a.damage);
  }

  lemma MoveSpeedMonotone(s: Stacks, t: Stacks, a: Amounts)
    requires s.movement <= t.movement && a.movement >= 0.0
    ensures MoveSpeed(s, a) <= MoveSpeed(t, a)
  {
    ScaleMonotone(s.movement, t.movement, a.movement);
  }

  lemma JumpMonotone(s: Stacks, t: Stacks, a: Amounts)
    requires s.highJump <= t.highJump && a.highJump >= 0.0
    ensures JumpForce(s, a) <= JumpForce(t, a) && DoubleJumpForce(s, a) <= DoubleJumpForce(t, a)
  {
    ScaleMonotone(s.highJump, t.highJump, a.highJump);
  }

  lemma AttackSpeedMonotone(s: Stacks, t: Stacks, a: Amounts)
    requires s.attackSpeed <= t.attackSpeed && a.attackSpeed >= 0.0
    ensures AttackSpeedStat(t, a) <= AttackSpeedStat(s, a)
  {
    FlooredMonotone(s.attackSpeed, t.attackSpeed, a.attackSpeed);
  }

  lemma CooldownMonotone(s: Stacks, t: Stacks, a: Amounts)
    requires s.cooldown <= t.cooldown && a.cooldown >= 0.0
    ensures CooldownAttackSpeed(t, a) <= CooldownAttackSpeed(s, a)
  {
    FlooredMonotone(s.cooldown, t.cooldown, a.cooldown);
  }

  /** The floored formula shared by the Cooldown and AttackSpeed buffs. */
  lemma FlooredMonotone(m: nat, n: nat, x: real)
    requires m <= n && x >= 0.0
    ensures Max(MinAttackSpeed, BaseAttackSpeed - n as real * x) <= Max(MinAttackSpeed, BaseAttackSpeed - m as real * x)
  {
    ScaleMonotone(m, n, x);
  }

  /** A grant adds exactly one stack in all, and never lowers a counter. */
  lemma GrantAddsOne(s: Stacks, kind: BuffType)
    ensures Total(Grant(s, kind)) == Total(s) + 1
    ensures AtMost(s, Grant(s, kind))
  {
  }
}
