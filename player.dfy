/**
 * PlayerDeathBuffSystem and hitScript as classes over the fields the source
 * updates in place.  The buff system holds references to the movement
 * controller and the hit script and writes buffed stats into them; the hit
 * script holds the player instance (PlayerDeathBuffSystem.instance) and the
 * boss instance.  Every method is proved to perform the transition of the
 * same name in PlayerLife, Invulnerability or Combat on the objects'
 * views, and to leave every other field of the objects it touches alone.
 */
module Player {
  import opened Wrappers
  import opened Buffs
  import opened PlayerLife
  import MoveRules
  import Movement
  import Invulnerability
  import Combat
  import BossRules
  import Boss

  /** The controller state with the buff system's values written in. */
  function Attach(s: MoveRules.State, l: MoveLink): MoveRules.State
  {
    s.(enabled := l.enabled,
       stats := s.stats.(attackSpeed := l.attackSpeed, moveSpeed := l.moveSpeed,
                         jumpForce := l.jumpForce, doubleJumpForce := l.doubleJumpForce),
       body := s.body.(vx := l.vx, vy := l.vy))
  }

  /** The hit script as a frame: empty when the reference is unassigned. */
  function Opt(h: HitScript?): set<HitScript>
  {
    if h == null then {} else {h}
  }

  /** The fields of a controller the buff system writes. */
  function LinkOf(s: MoveRules.State): MoveLink
  {
    MoveLink(s.enabled, s.stats.attackSpeed, s.stats.moveSpeed, s.stats.jumpForce, s.stats.doubleJumpForce,
             s.body.vx, s.body.vy)
  }

  /** Two writes by the buff system in a row are one write of the latest
      values. */
  lemma AttachTwice(m0: MoveRules.State, m1: MoveRules.State, m2: MoveRules.State)
    requires m1 == Attach(m0, LinkOf(m1)) && m2 == Attach(m1, LinkOf(m2))
    ensures m2 == Attach(m0, LinkOf(m2))
  {
  }

  class PlayerDeathBuffSystem {
    var maxHealth: real
    var currentHealth: real
    var survivalTime: real
    var buffThreshold: real
    // damageBuffAmount, cooldownReduction, movementBuffAmount,
    // attackSpeedBuffAmount and highJumpBuffAmount.
    var amounts: Amounts
    // The five *BuffStacks counters.
    var stacks: Stacks
    var isDead: bool
    var isRespawning: bool
    // gameObject.activeInHierarchy, fixed for the object's life.
    const active: bool
    // The pending RespawnPlayer coroutine or RespawnPlayerDirect invocation.
    var respawn: Respawn

    const playerMovement: Movement.PlayerMovement2D?
    const hitScript: HitScript?

    ghost function Model(): Player
      reads this
    {
      Player(maxHealth, currentHealth, survivalTime, buffThreshold, amounts, stacks,
             isDead, isRespawning, active, respawn)
    }

    ghost function Targets(): Links
      reads this, playerMovement, hitScript
    {
      Links(if hitScript != null then Some(hitScript.playerDamage) else None,
            if playerMovement != null then Some(LinkOf(playerMovement.Model())) else None)
    }

    ghost function State(): World
      reads this, playerMovement, hitScript
    {
      World(Model(), Targets())
    }

    /** The movement controller, when present, keeps its own invariant. */
    ghost predicate Ready()
      reads this, playerMovement
    {
      playerMovement != null ==> playerMovement.Valid()
    }

    ghost predicate Valid()
      reads this, playerMovement
    {
      Ready() && Inv(Model())
    }

    /** Everything of the controller except the fields this system writes is
        as it was. */
    twostate predicate MovementKept()
      reads this, playerMovement
    {
      playerMovement != null ==>
        playerMovement.Model() == Attach(old(playerMovement.Model()), LinkOf(playerMovement.Model()))
    }

    /** Awake: the singleton registers itself where hitScript looks for it,
        and starts at full health. */
    constructor (maxHealth: real, buffThreshold: real, amounts: Amounts, active: bool,
                 pm: Movement.PlayerMovement2D?, hit: HitScript?)
      requires pm != null ==> pm.Valid()
      modifies hit
      ensures Valid() && Model() == Init(maxHealth, buffThreshold, amounts, active)
      ensures playerMovement == pm && hitScript == hit
      ensures hit != null ==> hit.player == this && hit.Guard() == old(hit.Guard())
      ensures hit != null ==> hit.playerDamage == old(hit.playerDamage)
    {
      this.maxHealth := maxHealth;
      currentHealth := maxHealth;
      survivalTime := 0.0;
      this.buffThreshold := buffThreshold;
      this.amounts := amounts;
      stacks := NoStacks;
      isDead, isRespawning := false, false;
      this.active := active;
      respawn := Idle;
      playerMovement := pm;
      hitScript := hit;
      new;
      if hit != null {
        hit.player := this;
      }
    }

    /** Update: the survival timer. */
    method Update(dt: real)
      requires Valid()
      modifies this
      ensures Valid() && State() == PlayerLife.Update(old(State()), dt)
    {
      if !isDead {
        survivalTime := survivalTime + dt;
      }
    }

    method TakeDamage(damage: real, roll: BuffType)
      requires Valid()
      modifies this, playerMovement, Opt(hitScript)`playerDamage
      ensures Valid() && State() == PlayerLife.TakeDamage(old(State()), damage, roll) && MovementKept()
    {
      if isDead || isRespawning {
        return;
      }
      currentHealth := currentHealth - damage;
      currentHealth := Max(currentHealth, 0.0);
      if currentHealth <= 0.0 {
        Die(roll);
      }
    }

    method Heal(healAmount: real)
      requires Valid()
      modifies this
      ensures Valid() && State() == PlayerLife.Heal(old(State()), healAmount)
    {
      if !isDead {
        currentHealth := currentHealth + healAmount;
        currentHealth := PlayerLife.Min(currentHealth, maxHealth);
      }
    }

    method Die(roll: BuffType)
      requires Ready()
      modifies this, playerMovement, Opt(hitScript)`playerDamage
      ensures Ready() && State() == PlayerLife.Die(old(State()), roll) && MovementKept()
    {
      if isDead || isRespawning {
        return;
      }
      ghost var m0 := if playerMovement != null then playerMovement.Model() else MoveRules.Init(MoveRules.DefaultStats);
      MarkDead();
      ghost var m1 := if playerMovement != null then playerMovement.Model() else m0;
      if survivalTime >= buffThreshold {
        GrantRandomBuff(roll);
        if playerMovement != null {
          AttachTwice(m0, m1, playerMovement.Model());
        }
      }
      ScheduleRespawn();
    }

    /** The last step of Die. */
    method ScheduleRespawn()
      modifies this
      ensures State() == PlayerLife.ScheduleRespawn(old(State()))
    {
      if active {
        StartRespawnCoroutine();
      } else {
        respawn := Invoked(RespawnDelay, true);  // Invoke(RespawnPlayerDirect, 2f)
      }
    }

    /** The first steps of Die. */
    method MarkDead()
      requires Ready()
      modifies this, playerMovement
      ensures Ready() && State() == PlayerLife.MarkDead(old(State())) && MovementKept()
    {
      isDead := true;
      if playerMovement != null {
        playerMovement.SetVelocity(0.0, 0.0);
        playerMovement.SetEnabled(false);
      }
    }

    method GrantRandomBuff(roll: BuffType)
      requires Ready()
      modifies this, playerMovement, Opt(hitScript)`playerDamage
      ensures Ready() && State() == PlayerLife.GrantRandomBuff(old(State()), roll) && MovementKept()
    {
      match roll
      case Damage =>
        stacks := stacks.(damage := stacks.damage + 1);
        ApplyDamageBuff();
      case Cooldown =>
        stacks := stacks.(cooldown := stacks.cooldown + 1);
        ApplyCooldownBuff();
      case Movement =>
        stacks := stacks.(movement := stacks.movement + 1);
        ApplyMovementBuff();
      case AttackSpeed =>
        stacks := stacks.(attackSpeed := stacks.attackSpeed + 1);
        ApplyAttackSpeedBuff();
      case HighJump =>
        stacks := stacks.(highJump := stacks.highJump + 1);
        ApplyHighJumpBuff();
    }

    method ApplyDamageBuff()
      requires Ready()
      modifies Opt(hitScript)`playerDamage
      ensures Ready() && Model() == old(Model())
      ensures Targets() == Apply(Damage, stacks, amounts, old(Targets()))
    {
      if hitScript != null {
        hitScript.playerDamage := BaseDamage + stacks.damage as real * amounts.damage;
        assert hitScript.playerDamage == PlayerDamage(stacks, amounts);
        assert Targets().playerDamage == Some(PlayerDamage(stacks, amounts));
      }
    }

    method ApplyCooldownBuff()
      requires Ready()
      modifies playerMovement
      ensures Ready() && Model() == old(Model())
      ensures Targets() == Apply(Cooldown, stacks, amounts, old(Targets()))
      ensures MovementKept()
    {
      if playerMovement != null {
        var reduction := stacks.cooldown as real * amounts.cooldown;
        playerMovement.SetAttackSpeed(Max(MinAttackSpeed, BaseAttackSpeed - reduction));
        assert playerMovement.Model().stats.attackSpeed == CooldownAttackSpeed(stacks, amounts);
        assert Targets().move == Some(old(Targets()).move.value.(attackSpeed := CooldownAttackSpeed(stacks, amounts)));
      }
    }

    method ApplyMovementBuff()
      requires Ready()
      modifies playerMovement
      ensures Ready() && Model() == old(Model())
      ensures Targets() == Apply(Movement, stacks, amounts, old(Targets()))
      ensures MovementKept()
    {
      if playerMovement != null {
        playerMovement.SetMoveSpeed(BaseMoveSpeed + stacks.movement as real * amounts.movement);
        assert playerMovement.Model().stats.moveSpeed == MoveSpeed(stacks, amounts);
        assert Targets().move == Some(old(Targets()).move.value.(moveSpeed := MoveSpeed(stacks, amounts)));
      }
    }

    method ApplyAttackSpeedBuff()
      requires Ready()
      modifies playerMovement
      ensures Ready() && Model() == old(Model())
      ensures Targets() == Apply(AttackSpeed, stacks, amounts, old(Targets()))
      ensures MovementKept()
    {
      if playerMovement != null {
        var speedIncrease := stacks.attackSpeed as real * amounts.attackSpeed;
        playerMovement.SetAttackSpeed(Max(MinAttackSpeed, BaseAttackSpeed - speedIncrease));
        assert playerMovement.Model().stats.attackSpeed == AttackSpeedStat(stacks, amounts);
        assert Targets().move == Some(old(Targets()).move.value.(attackSpeed := AttackSpeedStat(stacks, amounts)));
      }
    }

    method ApplyHighJumpBuff()
      requires Ready()
      modifies playerMovement
      ensures Ready() && Model() == old(Model())
      ensures Targets() == Apply(HighJump, stacks, amounts, old(Targets()))
      ensures MovementKept()
    {
      if playerMovement != null {
        playerMovement.SetJumpForce(BaseJumpForce + stacks.highJump as real * amounts.highJump);
        playerMovement.SetDoubleJumpForce(BaseDoubleJumpForce + stacks.highJump as real * amounts.highJump);
        assert playerMovement.Model().stats.jumpForce == JumpForce(stacks, amounts);
        assert playerMovement.Model().stats.doubleJumpForce == DoubleJumpForce(stacks, amounts);
      }
    }

    /** RespawnPlayer up to its WaitForSeconds(2f). */
    method StartRespawnCoroutine()
      modifies this
      ensures State() == PlayerLife.StartRespawnCoroutine(old(State()))
    {
      if isRespawning {
        return;  // yield break
      }
      isRespawning := true;
      respawn := Coroutine(RespawnDelay, true);
    }

    /** RespawnPlayer after its wait. */
    method FinishRespawn()
      requires Ready()
      modifies this, playerMovement, Opt(hitScript)`playerDamage
      ensures Ready() && State() == PlayerLife.FinishRespawn(old(State())) && MovementKept()
    {
      currentHealth := maxHealth;
      survivalTime := 0.0;
      if playerMovement != null {
        playerMovement.SetVelocity(0.0, 0.0);
        playerMovement.SetEnabled(true);
      }
      ReapplyAllBuffs();
      isDead := false;
      isRespawning := false;
    }

    method RespawnPlayerDirect()
      requires Ready()
      modifies this, playerMovement, Opt(hitScript)`playerDamage
      ensures Ready() && State() == PlayerLife.RespawnPlayerDirect(old(State())) && MovementKept()
    {
      if isRespawning {
        return;
      }
      isRespawning := true;
      currentHealth := maxHealth;
      survivalTime := 0.0;
      if playerMovement != null {
        playerMovement.SetVelocity(0.0, 0.0);
        playerMovement.SetEnabled(true);
      }
      ReapplyAllBuffs();
      isDead := false;
      isRespawning := false;
    }

    method ReapplyAllBuffs()
      requires Ready()
      modifies playerMovement, Opt(hitScript)`playerDamage
      ensures Ready() && State() == old(State()).(links := ReapplyAll(stacks, amounts, old(Targets())))
      ensures MovementKept()
    {
      ApplyDamageBuff();
      ApplyCooldownBuff();
      ApplyMovementBuff();
      ApplyAttackSpeedBuff();
      ApplyHighJumpBuff();
    }

    /** The scheduler's step: the pending respawn, if it was not scheduled
        in this frame and its delay has run out. */
    method Tick(dt: real)
      requires Valid()
      modifies this, playerMovement, Opt(hitScript)`playerDamage
      ensures Valid() && State() == PlayerLife.Tick(old(State()), dt) && MovementKept()
    {
      match respawn
      case Idle =>
      case Coroutine(t, justStarted) =>
        if justStarted {
          respawn := Coroutine(t, false);
        } else if t - dt <= 0.0 {
          respawn := Idle;
          FinishRespawn();
        } else {
          respawn := Coroutine(t - dt, false);
        }
      case Invoked(t, justStarted) =>
        if justStarted {
          respawn := Invoked(t, false);
        } else if t - dt <= 0.0 {
          respawn := Idle;
          RespawnPlayerDirect();
        } else {
          respawn := Invoked(t - dt, false);
        }
    }

    method GetBuffStacks(buffType: BuffType) returns (n: nat)
      ensures n == Get(Model().stacks, buffType)
    {
      match buffType
      case Damage => n := stacks.damage;
      case Cooldown => n := stacks.cooldown;
      case Movement => n := stacks.movement;
      case AttackSpeed => n := stacks.attackSpeed;
      case HighJump => n := stacks.highJump;
    }

    method ForceDeath(roll: BuffType)
      requires Valid()
      modifies this, playerMovement, Opt(hitScript)`playerDamage
      ensures Valid() && State() == PlayerLife.ForceDeath(old(State()), roll) && MovementKept()
    {
      if !isDead {
        currentHealth := 0.0;
        Die(roll);
      }
    }

    method ResetBuffs()
      requires Valid()
      modifies this, playerMovement, Opt(hitScript)`playerDamage
      ensures Valid() && State() == PlayerLife.ResetBuffs(old(State())) && MovementKept()
    {
      stacks := NoStacks;
      ReapplyAllBuffs();
    }
  }

  class HitScript {
    var playerDamage: real
    var invulnerabilityDuration: real
    // Whether GetComponentInParent<SpriteRenderer>() finds a sprite.
    const hasSprite: bool
    var isInvulnerable: bool
    // The waits left in the InvulnerabilityFrames coroutine, and whether it
    // was started in the current frame.
    var pending: seq<real>
    var justStarted: bool

    const boss: Boss.BossManager?
    // PlayerDeathBuffSystem.instance, as this hit script sees it.
    var player: PlayerDeathBuffSystem?

    ghost function Guard(): Invulnerability.Guard
      reads this
    {
      Invulnerability.Guard(isInvulnerable, pending, justStarted)
    }

    ghost function Window(): Combat.Window
      reads this
    {
      Combat.Window(invulnerabilityDuration, hasSprite)
    }

    /** The player's view, None when there is no player instance. */
    ghost function PlayerView(): Option<World>
      reads this, player, if player != null then {player.playerMovement} else {}
      reads if player != null then {player.hitScript} else {}
    {
      if player != null then Some(player.State()) else None
    }

    /** The flag matches the coroutine, and the player instance writes its
        damage buff into this hit script. */
    ghost predicate Valid()
      reads this
    {
      Invulnerability.Inv(Guard()) && (player != null ==> player.hitScript == this)
    }

    /** Awake (instance = this); the player registers itself later. */
    constructor (playerDamage: real, invulnerabilityDuration: real, hasSprite: bool, boss: Boss.BossManager?)
      ensures Valid() && player == null && this.boss == boss && this.hasSprite == hasSprite
      ensures Guard() == Invulnerability.Guard(false, [], false)
      ensures this.playerDamage == playerDamage && this.invulnerabilityDuration == invulnerabilityDuration
    {
      this.playerDamage := playerDamage;
      this.invulnerabilityDuration := invulnerabilityDuration;
      this.hasSprite := hasSprite;
      isInvulnerable := false;
      pending := [];
      justStarted := false;
      this.boss := boss;
      player := null;
    }

    /** Contact with an "Enemy"-tagged collider damages the boss by
        playerDamage; a missing boss instance stops the handler before it
        does anything. */
    method OnTriggerEnter2D(tag: string)
      modifies boss
      ensures tag == "Enemy" && boss != null ==>
                boss.Valid() && boss.Model() == BossRules.TakeDamage(old(boss.Model()), playerDamage)
      ensures boss != null && tag != "Enemy" ==> unchanged(boss)
    {
      if tag == "Enemy" && boss != null {
        boss.TakeDamage(playerDamage);
      }
    }

    method TakeDamageFromEnemy(damage: real, roll: BuffType)
      requires Valid() && (player != null ==> player.Valid())
      modifies this, player, if player != null then {player.playerMovement} else {}
      ensures Valid() && player == old(player) && (player != null ==> player.Valid())
      ensures invulnerabilityDuration == old(invulnerabilityDuration)
      ensures (Guard(), PlayerView()) ==
              Combat.TakeDamageFromEnemy(old(Guard()), old(Window()), old(PlayerView()), damage, roll)
      ensures player != null ==> player.MovementKept()
    {
      if !isInvulnerable && player != null {
        player.TakeDamage(damage, roll);
        StartInvulnerability();
      }
    }

    /** StartCoroutine(InvulnerabilityFrames()) up to its first wait. */
    method StartInvulnerability()
      requires player != null ==> player.hitScript == this
      modifies this`isInvulnerable, this`pending, this`justStarted
      ensures Valid() && Guard() == Invulnerability.Start(invulnerabilityDuration, hasSprite)
    {
      isInvulnerable := true;
      if hasSprite {
        var cycles := Invulnerability.FlashCycles(invulnerabilityDuration);
        pending := Invulnerability.FlashWaits(cycles);
      } else {
        pending := [invulnerabilityDuration];
      }
      justStarted := true;
      if pending == [] {
        isInvulnerable := false;
        justStarted := false;
      }
    }

    /** The scheduler's step of InvulnerabilityFrames. */
    method Tick(dt: real)
      requires Valid()
      modifies this`isInvulnerable, this`pending, this`justStarted
      ensures Valid() && Guard() == Invulnerability.Tick(old(Guard()), dt)
    {
      if |pending| > 0 {
        if justStarted {
          justStarted := false;
        } else if pending[0] - dt <= 0.0 {
          pending := pending[1..];
          if pending == [] {
            isInvulnerable := false;
          }
        } else {
          pending := [pending[0] - dt] + pending[1..];
        }
      }
    }

    method IsInvulnerable() returns (b: bool)
      requires Valid()
      ensures b == Guard().isInvulnerable && (b <==> |Guard().pending| > 0)
    {
      b := isInvulnerable;
    }
  }
}
