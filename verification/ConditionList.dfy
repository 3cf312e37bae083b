/** The conditions of a creature: whatever an active condition has added to the creature's speed,
    skills and stats is taken away again when it ends. */
module ConditionList {
  import opened Options
  import opened Arithmetic
  import opened DamageConditions

  const SKILLS: nat := 7     // fist, club, sword, axe, distance, shield, fishing
  const STATS: nat := 5      // health, mana, soul, level, magic level
  const CONDITIONID_COMBAT: int := 0
  const CONDITION_POISON: nat := 1
  const CONDITION_FIRE: nat := 2
  const CONDITION_ENERGY: nat := 4
  const CONDITION_PHYSICAL: nat := 8
  const CONDITION_HASTE: nat := 16
  const CONDITION_PARALYZE: nat := 32
  const CONDITION_DROWN: nat := 32768
  const CONDITION_ATTRIBUTES: nat := 131072
  const CONDITION_FREEZING: nat := 262144
  const CONDITION_DAZZLED: nat := 524288
  const CONDITION_CURSED: nat := 1048576
  const CONDITION_TEST: nat := 16777216     // and the seven bits above it: electric, rock, fly, fight, dragon, venom, bug

  /** What can be modified: the variable part of the speed, of one skill, of one stat. */
  datatype Modifier = Speed | Skill(i: nat) | Stat(i: nat)

  /** Which class the condition belongs to, as far as modifiers and times go. */
  datatype Kind = SpeedKind | AttributesKind | DamageKind | PlainKind

  /** The types for which createCondition makes a ConditionDamage. */
  predicate Hurts(conditionType: nat) {
    || conditionType in {CONDITION_POISON, CONDITION_FIRE, CONDITION_ENERGY, CONDITION_PHYSICAL, CONDITION_DROWN}
    || conditionType in {CONDITION_FREEZING, CONDITION_DAZZLED, CONDITION_CURSED}
    || conditionType in {CONDITION_TEST, 2 * CONDITION_TEST, 4 * CONDITION_TEST, 8 * CONDITION_TEST, 16 * CONDITION_TEST}
    || conditionType in {32 * CONDITION_TEST, 64 * CONDITION_TEST, 128 * CONDITION_TEST}
  }

  function KindOf(conditionType: nat): Kind {
    if conditionType == CONDITION_HASTE || conditionType == CONDITION_PARALYZE then SpeedKind
    else if conditionType == CONDITION_ATTRIBUTES then AttributesKind
    else if Hurts(conditionType) then DamageKind
    else PlainKind
  }

  /** What onTickCondition makes of the type. */
  function FieldType(conditionType: nat): ConditionType {
    if conditionType == CONDITION_FIRE then Fire
    else if conditionType == CONDITION_ENERGY then Energy
    else if conditionType == CONDITION_POISON then Poison
    else if conditionType == CONDITION_DROWN then Drown
    else OtherDamage
  }

  // ----- Clocks -----------------------------------------------------------------------------------------

  /** The present time, what is drawn as damage, and whether the first hit lands. */
  datatype Moment = Moment(now: int, amount: int, landed: bool)

  /** startCondition: only a damage condition may refuse, and draws its time. */
  function BegunAs(conditionType: nat, c: Clocked, at: Moment): (bool, Clocked) {
    if KindOf(conditionType) == DamageKind then Started(c, at.amount, at.landed, at.now) else (true, SetTo(c, c.ticks, at.now))
  }

  /** Whether an active condition of any other class gives way to another of the same key. */
  predicate Accepts(conditionType: nat, c: Clocked, other: Clocked, now: int) {
    if KindOf(conditionType) == SpeedKind then !(c.ticks == -1 && other.ticks > 0)
    else (c.ticks != -1 || other.ticks < 1) && (other.ticks < 0 || c.endTime <= now + other.ticks)
  }

  /** addCondition */
  function ProlongedAs(conditionType: nat, c: Clocked, other: Clocked, at: Moment): Clocked {
    if KindOf(conditionType) == DamageKind then MergedWith(c, other, at.amount, at.now)
    else if Accepts(conditionType, c, other, at.now) then SetTo(c, other.ticks, at.now)
    else c
  }

  /** Merging never shortens a condition, except that HASTE and PARALYZE take the time of the newer one; one
      without an end is not given one. */
  lemma MergeLasts(conditionType: nat, c: Clocked, other: Clocked, at: Moment)
    requires !Hurts(conditionType) && other.ticks > 0
    ensures var p := ProlongedAs(conditionType, c, other, at);
            && p.damage == c.damage
            && (c.ticks == -1 ==> p == c)
            && (c.ticks != -1 && (conditionType == CONDITION_HASTE || conditionType == CONDITION_PARALYZE) ==>
                p.ticks == other.ticks && p.endTime == at.now + other.ticks)
            && (c.ticks != -1 && conditionType != CONDITION_HASTE && conditionType != CONDITION_PARALYZE ==>
                && p.endTime == Max(c.endTime, at.now + other.ticks)
                && p.ticks == if at.now + other.ticks < c.endTime then c.ticks else other.ticks)
  {
  }

  /** Another without an end is always taken over. */
  lemma MergeEndless(conditionType: nat, c: Clocked, other: Clocked, at: Moment)
    requires !Hurts(conditionType) && other.ticks == -1
    ensures ProlongedAs(conditionType, c, other, at) == c.(ticks := -1)
  {
  }

  /** executeCondition */
  function AgedAs(conditionType: nat, c: Clocked, tick: Tick): Clocked {
    if KindOf(conditionType) == DamageKind then Executed(c, FieldType(conditionType), tick.interval, tick.field)
    else Aged(c, tick.interval)
  }

  function Ceil(x: real): (n: int)
    ensures x <= n as real < x + 1.0
  {
    if x.Floor as real == x then x.Floor else x.Floor + 1
  }

  /** One bound of the speed formula. */
  function FormulaBound(speed: int, factor: real, offset: real): int {
    Ceil(speed as real * factor + offset)
  }

  /** The cast of a quotient to int drops the fraction. */
  function Truncate(a: int, b: int): (q: int)
    requires b > 0
    ensures if a >= 0 then b * q <= a < b * q + b else b * q - b < a <= b * q
  {
    if a >= 0 then a / b else -((-a) / b)
  }

  /** What a percentage adds at this level; zero stands for no percentage. */
  function PercentOf(percent: int, level: int): (amount: int)
    ensures percent == 0 ==> amount == 0
  {
    if percent == 0 then 0 else Truncate(level * (percent - 100), 100)
  }

  /** Every percentage turned into a fixed amount. */
  function WithPercents(values: seq<int>, percents: seq<int>, levels: seq<int>): (result: seq<int>)
    requires |values| <= |percents| && |values| <= |levels|
    ensures |result| == |values|
  {
    seq(|values|, i requires 0 <= i < |values| => values[i] + PercentOf(percents[i], levels[i]))
  }

  /** random_range; the bounds may come in either order. */
  method RandomRange(lo: int, hi: int) returns (r: int)
    ensures lo <= r <= hi || hi <= r <= lo
  {
    if lo <= hi {
      r :| lo <= r <= hi;
    } else {
      r :| hi <= r <= lo;
    }
  }

  // ----- Conditions -----------------------------------------------------------------------------------

  class Condition {
    const conditionType: nat
    const id: int
    const subId: nat
    var ticks: int
    var endTime: int
    var damage: Damage           // the fields of ConditionDamage
    var speedDelta: int
    var mina: real
    var minb: real
    var maxa: real
    var maxb: real
    var skills: seq<int>
    var stats: seq<int>
    var skillsPercent: seq<int>
    var statsPercent: seq<int>

    constructor (conditionType: nat, id: int, subId: nat, ticks: int, speedDelta: int)
      ensures Valid() && this.conditionType == conditionType && this.id == id && this.subId == subId
      ensures this.ticks == ticks && this.speedDelta == speedDelta
      ensures skills == seq(SKILLS, i => 0) && stats == seq(STATS, i => 0)
      ensures damage == Damage(false, false, 0, 0, 0, 0, 0, 2000, [])
    {
      damage := Damage(false, false, 0, 0, 0, 0, 0, 2000, []);
      this.conditionType, this.id, this.subId := conditionType, id, subId;
      this.ticks, this.speedDelta, endTime := ticks, speedDelta, 0;
      mina, minb, maxa, maxb := 0.0, 0.0, 0.0, 0.0;
      skills, skillsPercent := seq(SKILLS, i => 0), seq(SKILLS, i => 0);
      stats, statsPercent := seq(STATS, i => 0), seq(STATS, i => 0);
    }

    ghost predicate Valid()
      reads this
    {
      |skills| == SKILLS && |stats| == STATS && |skillsPercent| == SKILLS && |statsPercent| == STATS && Sane(damage)
    }

    function Clock(): Clocked
      reads `ticks, `endTime, `damage
    {
      Clocked(ticks, endTime, damage)
    }

    /** The draw at this moment is one that a damage condition may make. */
    predicate Draws(at: Moment)
      reads `damage
    {
      KindOf(conditionType) == DamageKind ==> Drawn(damage, at.amount)
    }

    /** What the condition adds to m while it is active. */
    ghost function Delta(isPlayer: bool, m: Modifier): int
      reads `speedDelta, `skills, `stats
    {
      match m
      case Speed => if KindOf(conditionType) == SpeedKind then speedDelta else 0
      case Skill(i) => if KindOf(conditionType) == AttributesKind && isPlayer && i < |skills| then skills[i] else 0
      case Stat(i) => if KindOf(conditionType) == AttributesKind && isPlayer && i < |stats| then stats[i] else 0
    }

    predicate IsPersistent()
      reads this
    {
      ticks > 0 && id != CONDITIONID_COMBAT
    }

    method SetTicks(newTicks: int, now: int)
      modifies `ticks, `endTime
      ensures ticks == newTicks && endTime == if newTicks > 0 then now + newTicks else old(endTime)
    {
      ticks := newTicks;
      if newTicks > 0 { endTime := now + newTicks; }
    }

    method SetClock(c: Clocked)
      modifies `ticks, `endTime, `damage
      ensures Clock() == c
    {
      ticks, endTime, damage := c.ticks, c.endTime, c.damage;
    }

    predicate UpdateCondition(other: Condition, now: int)
      reads this, other
    {
      && conditionType == other.conditionType
      && (ticks != -1 || other.ticks < 1)
      && (other.ticks < 0 || endTime <= now + other.ticks)
    }

    /** A delta that the formula may draw at this speed. */
    predicate InFormula(delta: int, speed: int)
      reads `mina, `minb, `maxa, `maxb
    {
      var (lo, hi) := (FormulaBound(speed, mina, minb), FormulaBound(speed, maxa, maxb));
      lo <= delta <= hi || hi <= delta <= lo
    }

    method FormulaDelta(speed: int) returns (delta: int)
      ensures InFormula(delta, speed)
    {
      hide FormulaBound;
      delta := RandomRange(FormulaBound(speed, mina, minb), FormulaBound(speed, maxa, maxb));
    }

    /** The loop of updatePercentSkills and of updatePercentStats. */
    static method ApplyPercents(values: seq<int>, percents: seq<int>, levels: seq<int>) returns (result: seq<int>)
      requires |values| == |percents| == |levels|
      ensures result == WithPercents(values, percents, levels)
    {
      hide PercentOf;
      result := values;
      for i := 0 to |values|
        invariant |result| == |values|
        invariant forall j :: 0 <= j < i ==> result[j] == values[j] + PercentOf(percents[j], levels[j])
        invariant forall j :: i <= j < |values| ==> result[j] == values[j]
      {
        if percents[i] != 0 { result := result[i := result[i] + PercentOf(percents[i], levels[i])]; }
      }
    }

    method UpdatePercents(player: Creature)
      requires Valid() && player.Sized()
      modifies `skills, `stats
      ensures Valid()
      ensures skills == WithPercents(old(skills), skillsPercent, player.skillLevels)
      ensures stats == WithPercents(old(stats), statsPercent, player.defaultStats)
    {
      hide WithPercents;
      skills := ApplyPercents(skills, skillsPercent, player.skillLevels);
      stats := ApplyPercents(stats, statsPercent, player.defaultStats);
    }

    /** updateSkills and updateStats, or their undoing: sign is 1 or -1. Zero entries are skipped. */
    method ApplyAttributes(player: Creature, sign: int)
      requires Valid() && player.Sized() && (sign == 1 || sign == -1)
      modifies player`varSkills, player`varStats
      ensures player.Sized()
      ensures forall i :: 0 <= i < SKILLS ==> player.varSkills[i] == old(player.varSkills[i]) + sign * skills[i]
      ensures forall i :: 0 <= i < STATS ==> player.varStats[i] == old(player.varStats[i]) + sign * stats[i]
    {
      for i := 0 to SKILLS
        invariant player.Sized() && player.varStats == old(player.varStats)
        invariant forall j :: 0 <= j < i ==> player.varSkills[j] == old(player.varSkills[j]) + sign * skills[j]
        invariant forall j :: i <= j < SKILLS ==> player.varSkills[j] == old(player.varSkills[j])
      {
        if skills[i] != 0 { player.SetVarSkill(i, sign * skills[i]); }
      }
      for i := 0 to STATS
        invariant player.Sized()
        invariant forall j :: 0 <= j < SKILLS ==> player.varSkills[j] == old(player.varSkills[j]) + sign * skills[j]
        invariant forall j :: 0 <= j < i ==> player.varStats[j] == old(player.varStats[j]) + sign * stats[j]
        invariant forall j :: i <= j < STATS ==> player.varStats[j] == old(player.varStats[j])
      {
        if stats[i] != 0 { player.SetVarStats(i, sign * stats[i]); }
      }
    }

    /** startCondition: the creature gains what the condition then stands for. */
    method StartCondition(creature: Creature, at: Moment) returns (ok: bool)
      requires Valid() && creature.Sized() && Draws(at)
      modifies `speedDelta, `skills, `stats, `ticks, `endTime, `damage, creature`varSpeed, creature`varSkills, creature`varStats
      ensures Valid() && creature.Sized() && (KindOf(conditionType) != DamageKind ==> ok)
      ensures (ok, Clock()) == BegunAs(conditionType, old(Clock()), at)
      ensures KindOf(conditionType) == SpeedKind && old(speedDelta) == 0 ==> InFormula(speedDelta, old(creature.GetSpeed()))
      ensures KindOf(conditionType) != SpeedKind || old(speedDelta) != 0 ==> speedDelta == old(speedDelta)
      ensures KindOf(conditionType) == AttributesKind && creature.isPlayer ==>
                skills == WithPercents(old(skills), skillsPercent, creature.skillLevels) &&
                stats == WithPercents(old(stats), statsPercent, creature.defaultStats)
      ensures KindOf(conditionType) != AttributesKind || !creature.isPlayer ==> skills == old(skills) && stats == old(stats)
      ensures forall m: Modifier :: creature.Current(m) == old(creature.Current(m)) + Delta(creature.isPlayer, m)
      ensures Separates(creature.isPlayer, old(creature.varSpeed), old(creature.varSkills), old(creature.varStats),
                        creature.varSpeed, creature.varSkills, creature.varStats)
    {
      hide Creature.Current, Started, WithPercents, InFormula, Hurts, Separates;
      ok := true;
      match KindOf(conditionType) {
        case SpeedKind => StartSpeed(creature);
        case AttributesKind => if creature.isPlayer { StartAttributes(creature); } else { NotAPlayer(); }
        case DamageKind =>
          ok := StartDamage(at);
          Gains(creature);
          return;
        case PlainKind =>
      }
      if ticks > 0 { endTime := at.now + ticks; }
      Gains(creature);
    }

    /** From the first modifiers to the second: HASTE and PARALYZE add to the speed, ATTRIBUTES to the skills and
        stats of a player, and nothing else adds to anything. */
    ghost predicate Separates(isPlayer: bool, speed0: int, skills0: seq<int>, stats0: seq<int>,
                              speed1: int, skills1: seq<int>, stats1: seq<int>)
      reads `speedDelta, `skills, `stats
    {
      var attributes := conditionType == CONDITION_ATTRIBUTES && isPlayer;
      && speed1 == speed0 + (if conditionType == CONDITION_HASTE || conditionType == CONDITION_PARALYZE then speedDelta else 0)
      && |skills0| == |skills1| == |skills| && |stats0| == |stats1| == |stats|
      && (forall i :: 0 <= i < |skills| ==> skills1[i] == skills0[i] + if attributes then skills[i] else 0)
      && (forall i :: 0 <= i < |stats| ==> stats1[i] == stats0[i] + if attributes then stats[i] else 0)
    }

    twostate lemma Gains(creature: Creature)
      requires old(creature.Sized()) && creature.Sized() && Valid()
      requires forall m: Modifier :: creature.Current(m) == old(creature.Current(m)) + Delta(creature.isPlayer, m)
      ensures Separates(creature.isPlayer, old(creature.varSpeed), old(creature.varSkills), old(creature.varStats),
                        creature.varSpeed, creature.varSkills, creature.varStats)
    {
      hide Hurts;
      assert creature.Current(Speed) == old(creature.Current(Speed)) + Delta(creature.isPlayer, Speed);
      forall i | 0 <= i < SKILLS
        ensures creature.varSkills[i] == old(creature.varSkills[i]) + Delta(creature.isPlayer, Skill(i))
      {
        assert creature.Current(Skill(i)) == creature.varSkills[i];
      }
      forall i | 0 <= i < STATS
        ensures creature.varStats[i] == old(creature.varStats[i]) + Delta(creature.isPlayer, Stat(i))
      {
        assert creature.Current(Stat(i)) == creature.varStats[i];
      }
    }

    twostate lemma Loses(creature: Creature)
      requires old(creature.Sized()) && creature.Sized() && Valid()
      requires forall m: Modifier :: creature.Current(m) == old(creature.Current(m)) - Delta(creature.isPlayer, m)
      ensures Separates(creature.isPlayer, creature.varSpeed, creature.varSkills, creature.varStats,
                        old(creature.varSpeed), old(creature.varSkills), old(creature.varStats))
    {
      hide Hurts;
      assert creature.Current(Speed) == old(creature.Current(Speed)) - Delta(creature.isPlayer, Speed);
      forall i | 0 <= i < SKILLS
        ensures creature.varSkills[i] == old(creature.varSkills[i]) - Delta(creature.isPlayer, Skill(i))
      {
        assert creature.Current(Skill(i)) == creature.varSkills[i];
      }
      forall i | 0 <= i < STATS
        ensures creature.varStats[i] == old(creature.varStats[i]) - Delta(creature.isPlayer, Stat(i))
      {
        assert creature.Current(Stat(i)) == creature.varStats[i];
      }
    }

    /** startCondition of ConditionDamage. */
    method StartDamage(at: Moment) returns (ok: bool)
      requires Sane(damage) && Drawn(damage, at.amount)
      modifies `ticks, `endTime, `damage
      ensures Sane(damage) && (ok, Clock()) == Started(old(Clock()), at.amount, at.landed, at.now)
    {
      hide Started, StartValue;
      var c := new ConditionDamage.Of(FieldType(conditionType), Clock());
      ghost var initial;
      ok, initial := c.StartCondition(at.amount, at.landed, at.now);
      SetClock(c.State());
    }

    /** addCondition of ConditionDamage. */
    method MergeDamage(other: Condition, at: Moment)
      requires Sane(damage) && Sane(other.damage) && Drawn(other.damage, at.amount)
      modifies `ticks, `endTime, `damage
      ensures Sane(damage) && Clock() == MergedWith(old(Clock()), old(other.Clock()), at.amount, at.now)
    {
      hide MergedWith;
      var c := new ConditionDamage.Of(FieldType(conditionType), Clock());
      var d := new ConditionDamage.Of(FieldType(conditionType), other.Clock());
      c.AddCondition(d, at.amount, at.landed, at.now);
      SetClock(c.State());
    }

    /** executeCondition of ConditionDamage. */
    method ExecuteDamage(tick: Tick) returns (alive: bool)
      requires Sane(damage)
      modifies `ticks, `endTime, `damage
      ensures Sane(damage) && Clock() == Executed(old(Clock()), FieldType(conditionType), tick.interval, tick.field)
      ensures alive == Alive(Clock(), tick.now)
    {
      hide Executed;
      var c := new ConditionDamage.Of(FieldType(conditionType), Clock());
      alive := c.ExecuteCondition(tick, true);
      assert c.Valid();
      SetClock(c.State());
    }

    lemma NotAPlayer()
      ensures KindOf(conditionType) == AttributesKind ==> forall m: Modifier :: Delta(false, m) == 0
    {
    }

    method StartSpeed(creature: Creature)
      requires KindOf(conditionType) == SpeedKind
      modifies `speedDelta, creature`varSpeed
      ensures old(speedDelta) == 0 ==> InFormula(speedDelta, old(creature.GetSpeed()))
      ensures old(speedDelta) != 0 ==> speedDelta == old(speedDelta)
      ensures forall m: Modifier :: creature.Current(m) == old(creature.Current(m)) + Delta(creature.isPlayer, m)
    {
      hide InFormula;
      if speedDelta == 0 { speedDelta := FormulaDelta(creature.GetSpeed()); }
      creature.ChangeSpeed(speedDelta);
    }

    method StartAttributes(player: Creature)
      requires Valid() && player.Sized() && KindOf(conditionType) == AttributesKind && player.isPlayer
      modifies `skills, `stats, player`varSkills, player`varStats
      ensures Valid() && player.Sized()
      ensures skills == WithPercents(old(skills), skillsPercent, player.skillLevels)
      ensures stats == WithPercents(old(stats), statsPercent, player.defaultStats)
      ensures forall m: Modifier :: player.Current(m) == old(player.Current(m)) + Delta(true, m)
    {
      hide WithPercents;
      UpdatePercents(player);
      ApplyAttributes(player, 1);
    }

    /** endCondition: the creature loses it again. */
    method EndCondition(creature: Creature)
      requires Valid() && creature.Sized()
      modifies creature`varSpeed, creature`varSkills, creature`varStats
      ensures creature.Sized()
      ensures forall m: Modifier :: creature.Current(m) == old(creature.Current(m)) - Delta(creature.isPlayer, m)
      ensures Separates(creature.isPlayer, creature.varSpeed, creature.varSkills, creature.varStats,
                        old(creature.varSpeed), old(creature.varSkills), old(creature.varStats))
    {
      hide Separates;
      match KindOf(conditionType) {
        case SpeedKind => creature.ChangeSpeed(-speedDelta);
        case AttributesKind => if creature.isPlayer { ApplyAttributes(creature, -1); }
        case DamageKind =>
        case PlainKind =>
      }
      Loses(creature);
    }

    /** addCondition: another condition of the same key is merged into this active one, or ignored. */
    method AddCondition(creature: Creature, other: Condition, at: Moment)
      requires Valid() && other.Valid() && creature.Sized() && other.conditionType == conditionType && other != this
      requires other.Draws(at)
      modifies this, creature`varSpeed, creature`varSkills, creature`varStats
      ensures Valid() && creature.Sized()
      ensures Merged(other, creature, at)
      ensures forall m: Modifier :: creature.Current(m) - Delta(creature.isPlayer, m) ==
                                    old(creature.Current(m)) - old(Delta(creature.isPlayer, m))
    {
      hide Creature.Current, Delta, WithPercents, MergedWith, Hurts;
      match KindOf(conditionType) {
        case SpeedKind => MergeSpeed(creature, other, at);
        case AttributesKind => AddAttributes(creature, other, at);
        case DamageKind =>
          MergeDamage(other, at);
          NothingChanged(creature.isPlayer);
        case PlainKind =>
          if UpdateCondition(other, at.now) { SetTicks(other.ticks, at.now); }
          NothingChanged(creature.isPlayer);
      }
    }

    lemma NothingChanged(isPlayer: bool)
      requires KindOf(conditionType) == PlainKind || KindOf(conditionType) == DamageKind
      ensures forall m: Modifier :: Delta(isPlayer, m) == 0
    {
    }

    /** What merging leaves in the active condition: the newer time and amounts, if it is accepted. */
    twostate predicate Merged(other: Condition, creature: Creature, at: Moment)
      requires old(Valid()) && old(other.Valid()) && old(creature.Sized())
      reads this
    {
      var kind := KindOf(conditionType);
      var accepted := Accepts(conditionType, old(Clock()), old(other.Clock()), at.now);
      && Clock() == ProlongedAs(conditionType, old(Clock()), old(other.Clock()), at)
      && (!accepted || kind == DamageKind || kind == PlainKind ==>
          speedDelta == old(speedDelta) && skills == old(skills) && stats == old(stats))
      && (accepted && kind == SpeedKind && old(other.speedDelta) != 0 ==> speedDelta == old(other.speedDelta))
      && (accepted && kind == SpeedKind && old(other.speedDelta) == 0 ==>
          var drawn := speedDelta; old(other.InFormula(drawn, creature.GetSpeed())))
      && (accepted && kind == AttributesKind && creature.isPlayer ==>
          skills == old(WithPercents(other.skills, other.skillsPercent, creature.skillLevels)) &&
          stats == old(WithPercents(other.stats, other.statsPercent, creature.defaultStats)))
      && (accepted && kind == AttributesKind && !creature.isPlayer ==>
          skills == old(other.skills) && stats == old(other.stats))
    }

    method AddAttributes(creature: Creature, other: Condition, at: Moment)
      requires Valid() && other.Valid() && creature.Sized() && other.conditionType == conditionType && other != this
      requires KindOf(conditionType) == AttributesKind
      modifies this, creature`varSpeed, creature`varSkills, creature`varStats
      ensures Valid() && creature.Sized()
      ensures Merged(other, creature, at)
      ensures forall m: Modifier :: creature.Current(m) - Delta(creature.isPlayer, m) ==
                                    old(creature.Current(m)) - old(Delta(creature.isPlayer, m))
    {
      hide Creature.Current, WithPercents, Separates;
      if UpdateCondition(other, at.now) {
        SetTicks(other.ticks, at.now);
        EndCondition(creature);
        skills, skillsPercent := other.skills, other.skillsPercent;
        stats, statsPercent := other.stats, other.statsPercent;
        if creature.isPlayer { StartAttributes(creature); } else { NotAPlayer(); }
      }
    }

    /** ConditionSpeed::addCondition changes the speed by the difference only. */
    method AddSpeed(creature: Creature, other: Condition, at: Moment)
      requires Valid() && other.Valid() && creature.Sized() && other.conditionType == conditionType && other != this
      requires KindOf(conditionType) == SpeedKind
      modifies `ticks, `endTime, `mina, `minb, `maxa, `maxb, `speedDelta, creature`varSpeed
      ensures old(ticks == -1 && other.ticks > 0) ==> ticks == old(ticks) && endTime == old(endTime) && speedDelta == old(speedDelta)
      ensures !old(ticks == -1 && other.ticks > 0) ==>
                && ticks == other.ticks && endTime == (if ticks > 0 then at.now + ticks else old(endTime))
                && (other.speedDelta != 0 ==> speedDelta == other.speedDelta)
                && (other.speedDelta == 0 ==> other.InFormula(speedDelta, old(creature.GetSpeed())))
      ensures creature.varSpeed - speedDelta == old(creature.varSpeed) - old(speedDelta)
    {
      hide InFormula;
      if ticks == -1 && other.ticks > 0 { return; }
      SetTicks(other.ticks, at.now);
      var oldSpeedDelta := speedDelta;
      mina, maxa, minb, maxb := other.mina, other.maxa, other.minb, other.maxb;
      speedDelta := other.speedDelta;
      if speedDelta == 0 {
        speedDelta := FormulaDelta(creature.GetSpeed());
        SameFormula(other, speedDelta, creature.GetSpeed());
      }
      var newSpeedChange := speedDelta - oldSpeedDelta;
      if newSpeedChange != 0 { creature.ChangeSpeed(newSpeedChange); }
    }

    method MergeSpeed(creature: Creature, other: Condition, at: Moment)
      requires Valid() && other.Valid() && creature.Sized() && other.conditionType == conditionType && other != this
      requires KindOf(conditionType) == SpeedKind
      modifies this, creature`varSpeed
      ensures Valid() && creature.Sized() && Merged(other, creature, at)
      ensures forall m: Modifier :: creature.Current(m) - Delta(creature.isPlayer, m) ==
                                    old(creature.Current(m)) - old(Delta(creature.isPlayer, m))
    {
      hide InFormula, UpdateCondition, WithPercents;
      AddSpeed(creature, other, at);
    }

    lemma SameFormula(other: Condition, delta: int, speed: int)
      requires mina == other.mina && minb == other.minb && maxa == other.maxa && maxb == other.maxb
      ensures InFormula(delta, speed) == other.InFormula(delta, speed)
    {
      hide FormulaBound;
    }

    /** executeCondition */
    method ExecuteCondition(tick: Tick) returns (alive: bool)
      requires Valid()
      modifies `ticks, `endTime, `damage
      ensures Valid() && Clock() == AgedAs(conditionType, old(Clock()), tick) && alive == Alive(Clock(), tick.now)
    {
      hide Executed, Hurts;
      if KindOf(conditionType) == DamageKind {
        alive := ExecuteDamage(tick);
        return;
      }
      if ticks == -1 { return true; }
      ticks := Max(0, ticks - tick.interval);
      alive := endTime >= tick.now;
    }
  }

  // ----- The creature ---------------------------------------------------------------------------------

  class Creature {
    const isPlayer: bool
    const oldConditionAccuracy: bool
    var baseSpeed: int
    var varSpeed: int
    var varSkills: seq<int>
    var varStats: seq<int>
    var skillLevels: seq<int>
    var defaultStats: seq<int>
    var suppressions: set<nat>
    var conditions: seq<Condition>
    ghost const baseline: Modifier -> int      // what the modifiers are without any condition

    ghost predicate Sized()
      reads this
    {
      |varSkills| == SKILLS && |varStats| == STATS && |skillLevels| == SKILLS && |defaultStats| == STATS
    }

    ghost function Current(m: Modifier): int
      reads `varSpeed, `varSkills, `varStats
    {
      match m
      case Speed => varSpeed
      case Skill(i) => if i < |varSkills| then varSkills[i] else 0
      case Stat(i) => if i < |varStats| then varStats[i] else 0
    }

    function GetSpeed(): int
      reads this
    {
      baseSpeed + varSpeed
    }

    method ChangeSpeed(delta: int)
      modifies `varSpeed
      ensures varSpeed == old(varSpeed) + delta
    {
      varSpeed := GetSpeed() - baseSpeed + delta;
    }

    method SetVarSkill(i: nat, delta: int)
      requires i < |varSkills|
      modifies `varSkills
      ensures varSkills == old(varSkills)[i := old(varSkills)[i] + delta]
    {
      varSkills := varSkills[i := varSkills[i] + delta];
    }

    method SetVarStats(i: nat, delta: int)
      requires i < |varStats|
      modifies `varStats
      ensures varStats == old(varStats)[i := old(varStats)[i] + delta]
    {
      varStats := varStats[i := varStats[i] + delta];
    }

    // ----- What all active conditions add ---------------------------------------------------------------

    /** The list is sound: conditions differ in (type, id, subId), and every modifier is its baseline
        plus what the active conditions add to it. */
    ghost predicate Balanced()
      reads this, conditions
    {
      Sized() && DistinctKeys(conditions) && (forall c :: c in conditions ==> c.Valid()) && SumsUp()
    }

    ghost predicate SumsUp()
      reads this, conditions
    {
      forall m: Modifier :: Current(m) == baseline(m) + Sum(Deltas(conditions, isPlayer, m))
    }

    constructor (isPlayer: bool, oldConditionAccuracy: bool, baseSpeed: int, skillLevels: seq<int>, defaultStats: seq<int>)
      requires |skillLevels| == SKILLS && |defaultStats| == STATS
      ensures Balanced() && conditions == [] && this.isPlayer == isPlayer
      ensures forall m: Modifier :: Current(m) == baseline(m) == 0
    {
      this.isPlayer, this.oldConditionAccuracy := isPlayer, oldConditionAccuracy;
      this.baseSpeed, varSpeed, this.skillLevels, this.defaultStats := baseSpeed, 0, skillLevels, defaultStats;
      varSkills, varStats, suppressions, conditions := seq(SKILLS, i => 0), seq(STATS, i => 0), {}, [];
      baseline := m => 0;
    }

    /** getCondition: the one active condition with this key, if there is one. */
    method GetCondition(conditionType: nat, id: int, subId: nat) returns (found: Condition?)
      ensures found == null <==> forall c :: c in conditions ==> Key(c) != (conditionType, id, subId)
      ensures found != null ==> found in conditions && Key(found) == (conditionType, id, subId)
    {
      for i := 0 to |conditions|
        invariant forall c :: c in conditions[..i] ==> Key(c) != (conditionType, id, subId)
      {
        if Key(conditions[i]) == (conditionType, id, subId) { return conditions[i]; }
      }
      return null;
    }

    /** hasCondition; -1 stands for any subId. */
    predicate HasCondition(conditionType: nat, subId: int, checkTime: bool, now: int)
      reads this, conditions
    {
      conditionType !in suppressions &&
      exists c :: c in conditions && c.conditionType == conditionType && (subId == -1 || c.subId == subId) &&
                  (!checkTime || oldConditionAccuracy || c.ticks == -1 || c.endTime == 0 || c.endTime >= now)
    }

    ghost function Rules(): Setting
      reads `suppressions
    {
      Setting(suppressions, oldConditionAccuracy)
    }

    /** Erases the condition at k and ends it. */
    method End(k: nat)
      requires Balanced() && k < |conditions|
      modifies `conditions, `varSpeed, `varSkills, `varStats
      ensures Balanced() && conditions == old(conditions[..k] + conditions[k + 1..])
    {
      hide Sum, Condition.Delta, Condition.Valid, Current, Condition.Separates;
      var condition := conditions[k];
      var rest := conditions[..k] + conditions[k + 1..];
      forall m: Modifier
        ensures Sum(Deltas(rest, isPlayer, m)) == Sum(Deltas(conditions, isPlayer, m)) - condition.Delta(isPlayer, m)
      {
        SumWithout(Deltas(conditions, isPlayer, m), k);
        assert Deltas(rest, isPlayer, m) == Deltas(conditions, isPlayer, m)[..k] + Deltas(conditions, isPlayer, m)[k + 1..];
      }
      conditions := rest;
      condition.EndCondition(this);
    }

    /** removeCondition(type) */
    method RemoveType(conditionType: nat)
      requires Balanced()
      modifies `conditions, `varSpeed, `varSkills, `varStats
      ensures forall c :: c in conditions ==> c in old(conditions)
      ensures Balanced() && conditions == Kept(old(conditions), OfType(old(conditions), conditionType))
    {
      hide Balanced, Condition.Valid, Kept;
      ghost var gone := OfType(conditions, conditionType);
      var it := 0;
      while it < |conditions|
        invariant Balanced() && 0 <= it <= |conditions|
        invariant forall c :: c in conditions ==> c in old(conditions)
        invariant conditions[..it] + Kept(conditions[it..], gone) == Kept(old(conditions), gone)
        decreases |conditions| - it
      {
        KeptStep(conditions, it, gone);
        assert conditions[it] in conditions;
        if conditions[it].conditionType != conditionType {
          it := it + 1;
        } else {
          End(it);
        }
      }
      KeptAll(conditions[it..], gone);
    }

    /** removeCondition(type, id) */
    method RemoveTypeId(conditionType: nat, id: int)
      requires Balanced()
      modifies `conditions, `varSpeed, `varSkills, `varStats
      ensures forall c :: c in conditions ==> c in old(conditions)
      ensures Balanced()
      ensures conditions == Kept(old(conditions), set c | c in old(conditions) && c.conditionType == conditionType && c.id == id)
    {
      hide Balanced, Condition.Valid, Kept;
      ghost var gone := set c | c in conditions && c.conditionType == conditionType && c.id == id;
      var it := 0;
      while it < |conditions|
        invariant Balanced() && 0 <= it <= |conditions|
        invariant forall c :: c in conditions ==> c in old(conditions)
        invariant conditions[..it] + Kept(conditions[it..], gone) == Kept(old(conditions), gone)
        decreases |conditions| - it
      {
        KeptStep(conditions, it, gone);
        assert conditions[it] in conditions;
        if conditions[it].conditionType != conditionType || conditions[it].id != id {
          it := it + 1;
        } else {
          End(it);
        }
      }
      KeptAll(conditions[it..], gone);
      assert gone == set c | c in old(conditions) && c.conditionType == conditionType && c.id == id;
    }

    /** removeCondition(condition) */
    method Remove(condition: Condition)
      requires Balanced()
      modifies `conditions, `varSpeed, `varSkills, `varStats
      ensures forall c :: c in conditions ==> c in old(conditions)
      ensures Balanced() && conditions == Kept(old(conditions), {condition})
    {
      hide SumsUp, Condition.Valid;
      KeptAll(conditions, {condition});
      KeptIn(conditions, {condition});
      for it := 0 to |conditions|
        invariant condition !in conditions[..it] && Balanced() && conditions == old(conditions)
      {
        if conditions[it] == condition {
          DistinctKeysApart(conditions, it);
          KeptRest(conditions, it);
          End(it);
          return;
        }
      }
    }

    /** removeCondition(attacker, type): goes through a copy of the list. */
    method CombatRemove(conditionType: nat)
      requires Balanced()
      modifies `conditions, `varSpeed, `varSkills, `varStats
      ensures forall c :: c in conditions ==> c in old(conditions)
      ensures Balanced() && conditions == Kept(old(conditions), OfType(old(conditions), conditionType))
    {
      hide Balanced, Condition.Valid, Kept;
      var tmpList := conditions;
      assert OfType([], conditionType) == {};
      KeptAll(conditions, {});
      for it := 0 to |tmpList|
        invariant Balanced() && conditions == Kept(tmpList, OfType(tmpList[..it], conditionType))
      {
        assert tmpList[..it + 1] == tmpList[..it] + [tmpList[it]];
        if tmpList[it].conditionType == conditionType {
          KeptTwice(tmpList, OfType(tmpList[..it], conditionType), {tmpList[it]});
          assert OfType(tmpList[..it + 1], conditionType) == OfType(tmpList[..it], conditionType) + {tmpList[it]};
          Remove(tmpList[it]);
        } else {
          assert OfType(tmpList[..it + 1], conditionType) == OfType(tmpList[..it], conditionType);
        }
      }
      assert tmpList[..|tmpList|] == tmpList;
      KeptIn(tmpList, OfType(tmpList, conditionType));
    }

    /** removeConditions(reason, onlyPersistent) */
    method RemoveConditions(onlyPersistent: bool)
      requires Balanced()
      modifies `conditions, `varSpeed, `varSkills, `varStats
      ensures forall c :: c in conditions ==> c in old(conditions)
      ensures Balanced() && conditions == Kept(old(conditions), set c | c in old(conditions) && (!onlyPersistent || c.IsPersistent()))
      ensures !onlyPersistent ==> conditions == []
    {
      hide Balanced, Condition.Valid, Condition.IsPersistent, Kept;
      ghost var gone := set c | c in conditions && (!onlyPersistent || c.IsPersistent());
      var it := 0;
      while it < |conditions|
        invariant Balanced() && 0 <= it <= |conditions| && (!onlyPersistent ==> it == 0)
        invariant forall c :: c in conditions ==> c in old(conditions)
        invariant conditions[..it] + Kept(conditions[it..], gone) == Kept(old(conditions), gone)
        decreases |conditions| - it
      {
        KeptStep(conditions, it, gone);
        assert conditions[it] in conditions;
        if onlyPersistent && !conditions[it].IsPersistent() {
          it := it + 1;
        } else {
          End(it);
        }
      }
      KeptAll(conditions[it..], gone);
      assert gone == set c | c in old(conditions) && (!onlyPersistent || c.IsPersistent());
    }

    /** executeConditions: every condition has its turn, and expired conditions end. */
    method ExecuteConditions(tick: Tick)
      requires Balanced()
      modifies `conditions, `varSpeed, `varSkills, `varStats, conditions`ticks, conditions`endTime, conditions`damage
      ensures forall c :: c in conditions ==> c in old(conditions)
      ensures Balanced() && conditions == Kept(old(conditions), set c | c in old(conditions) && Ends(old(EntryOf(c)), tick))
      ensures forall c :: c in old(conditions) ==> EntryOf(c) == Passed(old(EntryOf(c)), tick)
    {
      hide Balanced, Condition.Valid, Passed, Ends, Kept;
      ghost var gone := set c | c in conditions && Ends(EntryOf(c), tick);
      var it := 0;
      while it < |conditions|
        invariant Balanced() && 0 <= it <= |conditions|
        invariant forall c :: c in conditions ==> c in old(conditions)
        invariant forall c :: c in old(conditions) ==>
                    EntryOf(c) == if c in conditions[it..] then old(EntryOf(c)) else Passed(old(EntryOf(c)), tick)
        invariant conditions[..it] + Kept(conditions[it..], gone) == Kept(old(conditions), gone)
        decreases |conditions| - it
      {
        KeptStep(conditions, it, gone);
        FirstApart(it);
        var c := conditions[it];
        ghost var rest := conditions[it + 1..];
        assert c in conditions;
        var alive := ExecuteOne(c, tick);
        if alive {
          it := it + 1;
        } else {
          End(it);
          assert conditions[it..] == rest;
        }
      }
      KeptAll(conditions[it..], gone);
      assert gone == set c | c in old(conditions) && Ends(old(EntryOf(c)), tick);
    }

    lemma FirstApart(k: nat)
      requires Balanced() && k < |conditions|
      ensures var (c, rest) := (conditions[k], conditions[k + 1..]);
              c !in rest && forall x :: x in conditions[k..] <==> x == c || x in rest
    {
      DistinctKeysApart(conditions, k);
      assert conditions[k..] == [conditions[k]] + conditions[k + 1..];
    }

    /** One condition's turn leaves the books balanced. */
    method ExecuteOne(c: Condition, tick: Tick) returns (alive: bool)
      requires Balanced() && c in conditions
      modifies c`ticks, c`endTime, c`damage
      ensures Balanced() && alive == !Ends(old(EntryOf(c)), tick) && EntryOf(c) == Passed(old(EntryOf(c)), tick)
    {
      hide Sum, DistinctKeys, AgedAs;
      alive := c.ExecuteCondition(tick);
      forall m: Modifier ensures Deltas(conditions, isPlayer, m) == old(Deltas(conditions, isPlayer, m)) {}
      assert forall x :: x in conditions ==> old(x.Valid()) && x.Valid();
    }

    /** A condition of a key that is already active is merged into the active one. */
    method Merge(previous: Condition, condition: Condition, at: Moment)
      requires Balanced() && previous in conditions && Key(previous) == Key(condition) && condition !in conditions
      requires condition.Valid() && condition.Draws(at)
      modifies previous, `varSpeed, `varSkills, `varStats
      ensures Balanced() && previous.Merged(condition, this, at)
      ensures EntryOf(previous) == Prolonged(old(EntryOf(previous)), old(EntryOf(condition)), at)
    {
      hide Sum, Condition.Delta, Condition.Valid, Current;
      ghost var k :| 0 <= k < |conditions| && conditions[k] == previous;
      previous.AddCondition(this, condition, at);
      assert forall j :: 0 <= j < |conditions| && j != k ==> conditions[j] != previous;
      forall m: Modifier
        ensures Sum(Deltas(conditions, isPlayer, m)) - previous.Delta(isPlayer, m) ==
                old(Sum(Deltas(conditions, isPlayer, m))) - old(previous.Delta(isPlayer, m))
      {
        var was := old(Deltas(conditions, isPlayer, m));
        SumUpdate(was, k, previous.Delta(isPlayer, m));
        assert Deltas(conditions, isPlayer, m) == was[k := previous.Delta(isPlayer, m)];
      }
    }

    /** A condition of a new key starts and joins the list. */
    method Start(condition: Condition, at: Moment) returns (ok: bool)
      requires Balanced() && condition !in conditions && condition.Valid() && condition.Draws(at)
      requires forall c :: c in conditions ==> Key(c) != Key(condition)
      modifies condition, `conditions, `varSpeed, `varSkills, `varStats
      ensures Balanced() && conditions == old(conditions) + if ok then [condition] else []
      ensures (ok, EntryOf(condition)) == Begun(old(EntryOf(condition)), at)
      ensures KindOf(condition.conditionType) != DamageKind ==> ok
    {
      hide Sum, Condition.Delta, Condition.Valid, Current, Condition.Separates;
      ok := condition.StartCondition(this, at);
      forall m: Modifier
        ensures Sum(Deltas(conditions + [condition], isPlayer, m)) ==
                Sum(Deltas(conditions, isPlayer, m)) + condition.Delta(isPlayer, m)
        ensures Deltas(conditions, isPlayer, m) == old(Deltas(conditions, isPlayer, m))
      {
        assert Deltas(conditions + [condition], isPlayer, m) == Deltas(conditions, isPlayer, m) + [condition.Delta(isPlayer, m)];
        SumAppend(Deltas(conditions, isPlayer, m), [condition.Delta(isPlayer, m)]);
        SumOne(condition.Delta(isPlayer, m));
      }
      if ok {
        conditions := conditions + [condition];
      } else {
        HurtAddsNothing(condition, isPlayer);
      }
    }

    /** addCondition: merge, or start and push; then HASTE and PARALYZE push each other out. */
    method AddCondition(condition: Condition, at: Moment) returns (ok: bool)
      requires Balanced() && condition !in conditions && condition.Valid() && condition.Draws(at)
      modifies `conditions, `varSpeed, `varSkills, `varStats, conditions, condition
      ensures Balanced()
      ensures forall c :: c in conditions ==> c in old(conditions) || c == condition
      ensures Entries(conditions) == old(Joined(Entries(conditions), EntryOf(condition), at, Rules()))
      ensures ok == old(HasKey(Entries(conditions), condition) || Begun(EntryOf(condition), at).0)
      ensures ok && old(!HasKey(Entries(conditions), condition)) ==>
                Pushed(old(Entries(conditions)), Entries(conditions), condition.conditionType, at.now, Rules())
      ensures ok ==> exists c :: c in conditions && Key(c) == Key(condition)
      ensures old(exists c :: c in conditions && Key(c) == Key(condition)) ==> ok && conditions == old(conditions)
      ensures forall c :: c in old(conditions) && Key(c) == Key(condition) ==> c.Merged(condition, this, at)
      ensures !ok ==> conditions == old(conditions) && KindOf(condition.conditionType) == DamageKind
    {
      hide SumsUp, DistinctKeys, Condition.Valid, Joined, Entries, HasKey, Without, Seen, Pushed, Begun;
      var previous := GetCondition(condition.conditionType, condition.id, condition.subId);
      if previous != null {
        OnlyOneOfKey(conditions, previous);
        SomeOfKey(conditions, previous, condition);
        MergeKnown(previous, condition, at);
        return true;
      }
      NoneOfKey(conditions, condition);
      ghost var (was, new_) := (Entries(conditions), EntryOf(condition));
      ok := StartNew(condition, at);
      if ok { PushesOut(was, new_, at, Rules()); }
    }

    /** The condition of a known key, with the other conditions as they were. */
    method MergeKnown(previous: Condition, condition: Condition, at: Moment)
      requires Balanced() && previous in conditions && Key(previous) == Key(condition) && condition !in conditions
      requires condition.Valid() && condition.Draws(at)
      requires forall c :: c in conditions && Key(c) == Key(condition) ==> c == previous
      modifies previous, `varSpeed, `varSkills, `varStats
      ensures Balanced() && previous.Merged(condition, this, at)
      ensures Entries(conditions) == old(Joined(Entries(conditions), EntryOf(condition), at, Rules()))
    {
      hide Balanced, Condition.Valid, Condition.Merged, Joined, Entries;
      ghost var (list, was, new_) := (conditions, Entries(conditions), EntryOf(condition));
      EntriesAre(list);
      Merge(previous, condition, at);
      EntriesAre(list);
      MergedInto(previous, was, Entries(list), new_, at, Rules());
    }

    /** A condition of a new key, and its effect on the opposite one. */
    method StartNew(condition: Condition, at: Moment) returns (ok: bool)
      requires Balanced() && condition !in conditions && condition.Valid() && condition.Draws(at) && !HasKey(Entries(conditions), condition)
      requires forall c :: c in conditions ==> Key(c) != Key(condition)
      modifies `conditions, `varSpeed, `varSkills, `varStats, condition
      ensures Balanced() && forall c :: c in conditions ==> c in old(conditions) || c == condition
      ensures Entries(conditions) == old(Joined(Entries(conditions), EntryOf(condition), at, Rules()))
      ensures ok == old(Begun(EntryOf(condition), at)).0
      ensures (ok ==> condition in conditions) && (!ok ==> conditions == old(conditions) && KindOf(condition.conditionType) == DamageKind)
    {
      hide Balanced, Condition.Valid, Joined, Entries, HasKey, Without, Seen, Kept, HasCondition;
      ghost var (list, was, new_) := (conditions, Entries(conditions), EntryOf(condition));
      ok := Start(condition, at);
      assert Entries(list) == was;
      if !ok {
        assert conditions == list;
        JoinedRefused(was, new_, at, Rules());
        return;
      }
      EntriesMore(list, condition);
      var other := Opposite(condition.conditionType);
      SeenIn(this, conditions, other, at.now);
      JoinedStarted(was, new_, at, Rules());
      if other != 0 && HasCondition(other, 0, true, at.now) {
        ghost var (more, entries) := (conditions, Entries(conditions));
        KeepsOthers(conditions, other, condition);
        RemoveType(other);
        assert Entries(more) == entries;
        KeptEntries(more, OfType(more, other), RemoveTypeStep(other));
      }
    }

    /** One step; what the list then holds is a function of what it held. */
    method Take(step: Step)
      requires Balanced() && Ready(step, conditions)
      modifies `conditions, `varSpeed, `varSkills, `varStats, conditions, AddedBy([step])
      ensures Balanced()
      ensures forall c :: c in conditions ==> c in old(conditions) || c in AddedBy([step])
      ensures Entries(conditions) == old(Stepped(Entries(conditions), step, Rules()))
    {
      hide Balanced, Condition.Valid, Condition.Draws, Joined, Kept, Without, Entries, AllPassed;
      ghost var (list, was) := (conditions, Entries(conditions));
      ghost var gone: set<Condition>;
      match step {
        case AddStep(c, at) =>
          assert step in [step] && c in AddedBy([step]);
          var ok := AddCondition(c, at);
          return;
        case RemoveTypeStep(t) =>
          gone := OfType(list, t);
          RemoveType(t);
        case RemoveTypeIdStep(t, id) =>
          gone := set c | c in list && c.conditionType == t && c.id == id;
          RemoveTypeId(t, id);
          assert gone == set c | c in old(conditions) && c.conditionType == t && c.id == id;
        case RemoveStep(c) =>
          gone := {c};
          Remove(c);
        case CombatRemoveStep(t) =>
          gone := OfType(list, t);
          CombatRemove(t);
        case RemoveConditionsStep(only) =>
          gone := set c | c in list && (!only || c.IsPersistent());
          RemoveConditions(only);
          assert gone == set c | c in old(conditions) && (!only || c.IsPersistent());
        case ExecuteStep(tick) =>
          PassTime(tick);
          return;
      }
      assert Entries(list) == was;
      KeptEntries(list, gone, step);
    }

    method PassTime(tick: Tick)
      requires Balanced()
      modifies `conditions, `varSpeed, `varSkills, `varStats, conditions`ticks, conditions`endTime, conditions`damage
      ensures Balanced() && forall c :: c in conditions ==> c in old(conditions)
      ensures Entries(conditions) == old(Without(AllPassed(Entries(conditions), tick), ExecuteStep(tick)))
    {
      hide Balanced, Condition.Valid, Kept, Without, Entries, AllPassed, Passed;
      ghost var (list, was) := (conditions, Entries(conditions));
      ghost var gone := set c | c in conditions && Ends(EntryOf(c), tick);
      EntriesAre(list);
      ExecuteConditions(tick);
      assert gone == set c | c in old(conditions) && Ends(old(EntryOf(c)), tick);
      EntriesPassed(list, was, tick);
      KeptEntries(list, gone, ExecuteStep(tick));
    }

    /** Whatever happens to the list, and in whatever order: it holds what the steps make of it, and
        every modifier is its baseline plus what the active conditions add. */
    method Run(steps: seq<Step>)
      requires Balanced() && forall s :: s in steps ==> Ready(s, conditions)
      requires forall i, j :: 0 <= i < j < |steps| && steps[i].AddStep? && steps[j].AddStep? ==> steps[i].condition != steps[j].condition
      modifies `conditions, `varSpeed, `varSkills, `varStats, conditions, AddedBy(steps)
      ensures Balanced()
      ensures Entries(conditions) == old(Folded(Entries(conditions), steps, Rules()))
      ensures conditions == [] ==> forall m: Modifier :: Current(m) == baseline(m)
    {
      hide Balanced, Condition.Valid, Condition.Draws, Entries, Joined, Without, AllPassed, KindOf;
      for i := 0 to |steps|
        invariant Balanced()
        invariant forall c :: c in conditions ==> c in old(conditions) || c in AddedBy(steps[..i])
        invariant forall j :: i <= j < |steps| ==> Ready(steps[j], conditions)
        invariant forall j :: i <= j < |steps| && steps[j].AddStep? ==>
                    EntryOf(steps[j].condition) == old(EntryOf(steps[j].condition))
        invariant Entries(conditions) == old(Folded(Entries(conditions), steps[..i], Rules()))
      {
        AddedMore(steps, i);
        ghost var was := Entries(conditions);
        label step:
        Take(steps[i]);
        assert old@step(Stepped(was, steps[i], Rules())) == old(Stepped(was, steps[i], Rules()));
        assert steps[..i + 1][..i] == steps[..i];
      }
      assert steps[..|steps|] == steps;
      NoConditions(this);
    }
  }

  /** HASTE and PARALYZE push each other out. */
  function Opposite(conditionType: nat): nat {
    if conditionType == CONDITION_HASTE then CONDITION_PARALYZE
    else if conditionType == CONDITION_PARALYZE then CONDITION_HASTE
    else 0
  }

  function Key(c: Condition): (nat, int, nat) {
    (c.conditionType, c.id, c.subId)
  }

  ghost predicate DistinctKeys(cs: seq<Condition>) {
    forall i, j :: 0 <= i < j < |cs| ==> Key(cs[i]) != Key(cs[j])
  }

  ghost function Deltas(cs: seq<Condition>, isPlayer: bool, m: Modifier): (deltas: seq<int>)
    reads cs
    ensures |deltas| == |cs|
  {
    seq(|cs|, k requires 0 <= k < |cs| reads cs => cs[k].Delta(isPlayer, m))
  }

  function OfType(cs: seq<Condition>, conditionType: nat): set<Condition> {
    set c | c in cs && c.conditionType == conditionType
  }

  /** The list without the given conditions. */
  function Kept(cs: seq<Condition>, gone: set<Condition>): seq<Condition> {
    if cs == [] then [] else if cs[0] in gone then Kept(cs[1..], gone) else [cs[0]] + Kept(cs[1..], gone)
  }

  lemma KeptStep(cs: seq<Condition>, it: nat, gone: set<Condition>)
    requires it < |cs|
    ensures cs[it] in gone ==>
              cs[..it] + Kept(cs[it..], gone) == (cs[..it] + cs[it + 1..])[..it] + Kept((cs[..it] + cs[it + 1..])[it..], gone)
    ensures cs[it] !in gone ==> cs[..it] + Kept(cs[it..], gone) == cs[..it + 1] + Kept(cs[it + 1..], gone)
  {
    assert cs[it..][1..] == cs[it + 1..];
    assert (cs[..it] + cs[it + 1..])[it..] == cs[it + 1..];
  }

  lemma {:induction false} KeptAll(cs: seq<Condition>, gone: set<Condition>)
    ensures (forall c :: c in cs ==> c !in gone) ==> Kept(cs, gone) == cs
  {
    if cs != [] { KeptAll(cs[1..], gone); }
  }

  lemma {:induction false} KeptIn(cs: seq<Condition>, gone: set<Condition>)
    ensures forall c :: c in Kept(cs, gone) <==> c in cs && c !in gone
  {
    if cs != [] { KeptIn(cs[1..], gone); }
  }

  lemma {:induction false} KeptTwice(cs: seq<Condition>, a: set<Condition>, b: set<Condition>)
    ensures Kept(Kept(cs, a), b) == Kept(cs, a + b)
  {
    if cs != [] {
      KeptTwice(cs[1..], a, b);
      if cs[0] !in a { assert Kept(cs, a)[1..] == Kept(cs[1..], a); }
    }
  }

  lemma OnlyOneOfKey(cs: seq<Condition>, c: Condition)
    requires DistinctKeys(cs) && c in cs
    ensures forall d :: d in cs && Key(d) == Key(c) ==> d == c
  {
  }

  lemma DistinctKeysApart(cs: seq<Condition>, k: nat)
    requires DistinctKeys(cs) && k < |cs|
    ensures forall j :: 0 <= j < |cs| && j != k ==> cs[j] != cs[k]
  {
  }

  lemma {:induction false} KeptRest(cs: seq<Condition>, k: nat)
    requires k < |cs| && forall j :: 0 <= j < |cs| && j != k ==> cs[j] != cs[k]
    ensures Kept(cs, {cs[k]}) == cs[..k] + cs[k + 1..]
  {
    KeptStep(cs, k, {cs[k]});
    KeptAll(cs[k + 1..], {cs[k]});
    KeptPrefix(cs[..k], cs[k..], {cs[k]});
    assert cs == cs[..k] + cs[k..];
    assert (cs[..k] + cs[k + 1..])[k..] == cs[k + 1..] && (cs[..k] + cs[k + 1..])[..k] == cs[..k];
  }

  lemma {:induction false} KeptPrefix(a: seq<Condition>, b: seq<Condition>, gone: set<Condition>)
    requires forall c :: c in a ==> c !in gone
    ensures Kept(a + b, gone) == a + Kept(b, gone)
  {
    if a == [] {
      assert a + b == b;
    } else {
      assert (a + b)[1..] == a[1..] + b;
      KeptPrefix(a[1..], b, gone);
    }
  }

  lemma SumOne(x: int)
    ensures Sum([x]) == x
  {
  }

  lemma HurtAddsNothing(c: Condition, isPlayer: bool)
    requires KindOf(c.conditionType) == DamageKind
    ensures forall m: Modifier :: c.Delta(isPlayer, m) == 0
  {
  }

  lemma KeepsOthers(cs: seq<Condition>, conditionType: nat, c: Condition)
    requires c in cs && c.conditionType != conditionType
    ensures c in Kept(cs, OfType(cs, conditionType))
  {
    KeptIn(cs, OfType(cs, conditionType));
  }

  /** With no condition left, every modifier is back at its baseline. */
  lemma NoConditions(creature: Creature)
    requires creature.Balanced()
    ensures creature.conditions == [] ==> forall m: Modifier :: creature.Current(m) == creature.baseline(m)
  {
  }

  // ----- What a run makes of the list -------------------------------------------------------------------

  /** An active condition with its clock, and its hits if it is a damage condition. */
  datatype Entry = Entry(condition: Condition, clock: Clocked)

  /** What else decides whether a condition counts as present. */
  datatype Setting = Setting(suppressions: set<nat>, oldConditionAccuracy: bool)

  ghost function EntryOf(c: Condition): Entry
    reads c`ticks, c`endTime, c`damage
  {
    Entry(c, c.Clock())
  }

  /** The turn of a condition in executeConditions. */
  ghost function Passed(e: Entry, tick: Tick): Entry {
    Entry(e.condition, AgedAs(e.condition.conditionType, e.clock, tick))
  }

  /** It does not survive that. */
  ghost predicate Ends(e: Entry, tick: Tick) {
    !Alive(Passed(e, tick).clock, tick.now)
  }

  ghost function Entries(cs: seq<Condition>): seq<Entry>
    reads cs
  {
    if cs == [] then [] else [EntryOf(cs[0])] + Entries(cs[1..])
  }

  /** The condition goes in this step. */
  ghost predicate Leaves(e: Entry, step: Step) {
    var c := e.condition;
    match step
    case AddStep(_, _) => false
    case RemoveTypeStep(t) => c.conditionType == t
    case RemoveTypeIdStep(t, id) => c.conditionType == t && c.id == id
    case RemoveStep(d) => c == d
    case CombatRemoveStep(t) => c.conditionType == t
    case RemoveConditionsStep(onlyPersistent) => !onlyPersistent || (e.clock.ticks > 0 && c.id != CONDITIONID_COMBAT)
    case ExecuteStep(tick) => !Alive(e.clock, tick.now)
  }

  ghost function Without(list: seq<Entry>, step: Step): seq<Entry> {
    if list == [] then []
    else if Leaves(list[0], step) then Without(list[1..], step)
    else [list[0]] + Without(list[1..], step)
  }

  ghost function AllPassed(list: seq<Entry>, tick: Tick): (passed: seq<Entry>)
    ensures |passed| == |list|
  {
    seq(|list|, k requires 0 <= k < |list| => Passed(list[k], tick))
  }

  ghost function Begun(e: Entry, at: Moment): (bool, Entry) {
    var (ok, clock) := BegunAs(e.condition.conditionType, e.clock, at);
    (ok, Entry(e.condition, clock))
  }

  /** The active condition e once new_, of the same key, is added. */
  ghost function Prolonged(e: Entry, new_: Entry, at: Moment): Entry {
    Entry(e.condition, ProlongedAs(e.condition.conditionType, e.clock, new_.clock, at))
  }

  /** hasCondition of this type with subId 0. */
  ghost predicate Seen(list: seq<Entry>, conditionType: nat, now: int, rules: Setting) {
    conditionType !in rules.suppressions &&
    exists e :: e in list && Counts(e, conditionType, now, rules)
  }

  ghost predicate Counts(e: Entry, conditionType: nat, now: int, rules: Setting) {
    && e.condition.conditionType == conditionType && e.condition.subId == 0
    && (rules.oldConditionAccuracy || e.clock.ticks == -1 || e.clock.endTime == 0 || e.clock.endTime >= now)
  }

  ghost predicate HasKey(list: seq<Entry>, c: Condition) {
    exists e :: e in list && Key(e.condition) == Key(c)
  }

  /** The list after new_ is added: prolonged, refused, or one longer and then without its opposite. */
  ghost function Joined(list: seq<Entry>, new_: Entry, at: Moment, rules: Setting): seq<Entry> {
    var c := new_.condition;
    if HasKey(list, c) then
      seq(|list|, k requires 0 <= k < |list| => if Key(list[k].condition) == Key(c) then Prolonged(list[k], new_, at) else list[k])
    else if !Begun(new_, at).0 then list
    else
      var (more, other) := (list + [Begun(new_, at).1], Opposite(c.conditionType));
      if other != 0 && Seen(more, other, at.now, rules) then Without(more, RemoveTypeStep(other)) else more
  }

  ghost function Stepped(list: seq<Entry>, step: Step, rules: Setting): seq<Entry>
    reads AddedBy([step])
  {
    match step
    case AddStep(c, at) => assert step in [step]; Joined(list, EntryOf(c), at, rules)
    case ExecuteStep(tick) => Without(AllPassed(list, tick), step)
    case _ => Without(list, step)
  }

  ghost function Folded(list: seq<Entry>, steps: seq<Step>, rules: Setting): seq<Entry>
    reads AddedBy(steps)
  {
    var n := |steps| - 1;
    if n < 0 then list
    else
      assert steps[n] in steps && forall s :: s in steps[..n] ==> s in steps;
      Stepped(Folded(list, steps[..n], rules), steps[n], rules)
  }

  /** A condition that a step adds is a new one, and the draw is one that it may make. */
  ghost predicate Ready(step: Step, conditions: seq<Condition>)
    reads AddedBy([step])
  {
    step.AddStep? ==>
      assert step in [step];
      step.condition !in conditions && step.condition.Valid() && step.condition.Draws(step.at)
  }

  lemma {:induction false} EntriesAre(cs: seq<Condition>)
    ensures |Entries(cs)| == |cs| && forall k :: 0 <= k < |cs| ==> Entries(cs)[k] == EntryOf(cs[k])
  {
    if cs != [] { EntriesAre(cs[1..]); }
  }

  lemma EntriesMore(cs: seq<Condition>, c: Condition)
    ensures Entries(cs + [c]) == Entries(cs) + [EntryOf(c)]
  {
    EntriesAre(cs);
    EntriesAre(cs + [c]);
  }

  /** The entries of the conditions that are kept. */
  lemma {:induction false} KeptEntries(cs: seq<Condition>, gone: set<Condition>, step: Step)
    requires forall c :: c in cs ==> (c in gone <==> Leaves(EntryOf(c), step))
    ensures Entries(Kept(cs, gone)) == Without(Entries(cs), step)
  {
    hide Leaves;
    if cs != [] {
      KeptEntries(cs[1..], gone, step);
      assert cs[0] in cs && Entries(cs)[1..] == Entries(cs[1..]);
      if cs[0] !in gone { assert Kept(cs, gone)[1..] == Kept(cs[1..], gone); }
    }
  }

  /** Who leaves in a removal, and who in an execution. */
  lemma WhoStays(list: seq<Entry>, e: Entry, t: nat, id: int, d: Condition, tick: Tick)
    requires e in list
    ensures e in Without(list, RemoveTypeStep(t)) <==> e.condition.conditionType != t
    ensures e in Without(list, CombatRemoveStep(t)) <==> e.condition.conditionType != t
    ensures e in Without(list, RemoveTypeIdStep(t, id)) <==> e.condition.conditionType != t || e.condition.id != id
    ensures e in Without(list, RemoveStep(d)) <==> e.condition != d
    ensures e in Without(list, RemoveConditionsStep(true)) <==> e.clock.ticks <= 0 || e.condition.id == 0
    ensures e !in Without(list, RemoveConditionsStep(false))
    ensures e in Without(list, ExecuteStep(tick)) <==> e.clock.ticks == -1 || e.clock.endTime >= tick.now
  {
    hide Without;
    WithoutIn(list, RemoveTypeStep(t));
    WithoutIn(list, CombatRemoveStep(t));
    WithoutIn(list, RemoveTypeIdStep(t, id));
    WithoutIn(list, RemoveStep(d));
    WithoutIn(list, RemoveConditionsStep(true));
    WithoutIn(list, RemoveConditionsStep(false));
    WithoutIn(list, ExecuteStep(tick));
  }

  lemma EntriesPassed(cs: seq<Condition>, was: seq<Entry>, tick: Tick)
    requires |was| == |cs| && forall k :: 0 <= k < |cs| ==> EntryOf(cs[k]) == Passed(was[k], tick)
    ensures Entries(cs) == AllPassed(was, tick)
  {
    hide Passed;
    EntriesAre(cs);
  }

  lemma SomeOfKey(cs: seq<Condition>, d: Condition, c: Condition)
    requires d in cs && Key(d) == Key(c)
    ensures HasKey(Entries(cs), c)
  {
    EntriesAre(cs);
    var k :| 0 <= k < |cs| && cs[k] == d;
    assert Entries(cs)[k] in Entries(cs);
  }

  lemma NoneOfKey(cs: seq<Condition>, c: Condition)
    requires forall d :: d in cs ==> Key(d) != Key(c)
    ensures !HasKey(Entries(cs), c)
  {
    EntriesAre(cs);
  }

  lemma JoinedRefused(list: seq<Entry>, new_: Entry, at: Moment, rules: Setting)
    requires !HasKey(list, new_.condition) && !Begun(new_, at).0
    ensures Joined(list, new_, at, rules) == list
  {
  }

  lemma JoinedStarted(list: seq<Entry>, new_: Entry, at: Moment, rules: Setting)
    requires !HasKey(list, new_.condition) && Begun(new_, at).0
    ensures var (more, other) := (list + [Begun(new_, at).1], Opposite(new_.condition.conditionType));
            Joined(list, new_, at, rules) ==
            if other != 0 && Seen(more, other, at.now, rules) then Without(more, RemoveTypeStep(other)) else more
  {
  }

  lemma {:induction false} WithoutIn(list: seq<Entry>, step: Step)
    ensures forall e :: e in Without(list, step) <==> e in list && !Leaves(e, step)
  {
    if list != [] { WithoutIn(list[1..], step); }
  }

  ghost predicate NoneOf(list: seq<Entry>, conditionType: nat) {
    forall e :: e in list ==> e.condition.conditionType != conditionType
  }

  /** A condition of this type with subId 0 is in force: not suppressed and, where the clock is looked at, not
      past its end. */
  ghost predicate InForce(list: seq<Entry>, conditionType: nat, now: int, rules: Setting) {
    conditionType !in rules.suppressions &&
    exists e :: e in list && e.condition.conditionType == conditionType && e.condition.subId == 0 &&
                (rules.oldConditionAccuracy || e.clock.ticks == -1 || e.clock.endTime == 0 || now <= e.clock.endTime)
  }

  /** What a new condition of this type does to the others: HASTE leaves no PARALYZE, and the reverse, exactly
      when there was none or one with subId 0 is in force, whatever the subId of the rest; any other type takes
      nothing from the list; and only the opposite goes. */
  ghost predicate Pushed(list: seq<Entry>, after: seq<Entry>, conditionType: nat, now: int, rules: Setting) {
    && (conditionType == CONDITION_HASTE ==>
        (NoneOf(after, CONDITION_PARALYZE) <==>
         NoneOf(list, CONDITION_PARALYZE) || InForce(list, CONDITION_PARALYZE, now, rules)))
    && (conditionType == CONDITION_PARALYZE ==>
        (NoneOf(after, CONDITION_HASTE) <==> NoneOf(list, CONDITION_HASTE) || InForce(list, CONDITION_HASTE, now, rules)))
    && (conditionType != CONDITION_HASTE && conditionType != CONDITION_PARALYZE ==>
        |after| == |list| + 1 && list <= after)
    && (forall e :: e in list ==>
          || e in after
          || (conditionType == CONDITION_HASTE && e.condition.conditionType == CONDITION_PARALYZE)
          || (conditionType == CONDITION_PARALYZE && e.condition.conditionType == CONDITION_HASTE))
  }

  lemma PushesOut(list: seq<Entry>, new_: Entry, at: Moment, rules: Setting)
    requires !HasKey(list, new_.condition) && Begun(new_, at).0
    ensures Pushed(list, Joined(list, new_, at, rules), new_.condition.conditionType, at.now, rules)
  {
    hide Joined, HasKey, Without, Seen, NoneOf, InForce, Begun;
    var (t, other) := (new_.condition.conditionType, Opposite(new_.condition.conditionType));
    var (begun, after) := (Begun(new_, at).1, Joined(list, new_, at, rules));
    var more := list + [begun];
    BegunIs(new_, at);
    JoinedStarted(list, new_, at, rules);
    assert forall e :: e in more <==> e in list || e == begun;
    if other != 0 {
      OtherPushed(list, begun, other, at.now, rules);
      WithoutIn(more, RemoveTypeStep(other));
    }
  }

  lemma BegunIs(e: Entry, at: Moment)
    ensures Begun(e, at).1.condition == e.condition
  {
  }

  lemma OtherPushed(list: seq<Entry>, e: Entry, other: nat, now: int, rules: Setting)
    requires e.condition.conditionType != other
    ensures var more := list + [e];
            var after := if Seen(more, other, now, rules) then Without(more, RemoveTypeStep(other)) else more;
            NoneOf(after, other) <==> NoneOf(list, other) || InForce(list, other, now, rules)
  {
    hide Without;
    var more := list + [e];
    WithoutIn(more, RemoveTypeStep(other));
    SeenMore(list, e, other, now, rules);
    SeenMeans(list, other, now, rules);
    hide Seen, InForce;
    assert forall d :: d in more <==> d in list || d == e;
    if Seen(more, other, now, rules) {
      forall d | d in Without(more, RemoveTypeStep(other)) ensures d.condition.conditionType != other {
        assert !Leaves(d, RemoveTypeStep(other));
      }
    }
  }

  lemma SeenMeans(list: seq<Entry>, conditionType: nat, now: int, rules: Setting)
    ensures Seen(list, conditionType, now, rules) <==> InForce(list, conditionType, now, rules)
  {
    if InForce(list, conditionType, now, rules) {
      var e :| e in list && e.condition.conditionType == conditionType && e.condition.subId == 0 &&
               (rules.oldConditionAccuracy || e.clock.ticks == -1 || e.clock.endTime == 0 || now <= e.clock.endTime);
      assert Counts(e, conditionType, now, rules);
    }
  }

  lemma SeenMore(list: seq<Entry>, e: Entry, conditionType: nat, now: int, rules: Setting)
    requires e.condition.conditionType != conditionType
    ensures Seen(list + [e], conditionType, now, rules) <==> Seen(list, conditionType, now, rules)
  {
    assert forall d :: d in list + [e] <==> d in list || d == e;
    assert !Counts(e, conditionType, now, rules);
  }

  /** One active condition has been merged with the new one, the others are as they were. */
  lemma MergedInto(previous: Condition, was: seq<Entry>, list: seq<Entry>, new_: Entry, at: Moment, rules: Setting)
    requires |list| == |was| && forall k :: 0 <= k < |was| ==>
               list[k] == if was[k].condition == previous then Prolonged(was[k], new_, at) else was[k]
    requires forall k :: 0 <= k < |was| ==> (was[k].condition == previous <==> Key(was[k].condition) == Key(new_.condition))
    requires exists k :: 0 <= k < |was| && was[k].condition == previous
    ensures list == Joined(was, new_, at, rules)
  {
    hide Prolonged;
    var k :| 0 <= k < |was| && was[k].condition == previous;
    assert was[k] in was;
  }

  lemma SeenIn(creature: Creature, cs: seq<Condition>, conditionType: nat, now: int)
    requires cs == creature.conditions
    ensures creature.HasCondition(conditionType, 0, true, now) <==> Seen(Entries(cs), conditionType, now, creature.Rules())
  {
    EntriesAre(cs);
    if creature.HasCondition(conditionType, 0, true, now) {
      var c :| c in cs && c.conditionType == conditionType && c.subId == 0 &&
               (creature.oldConditionAccuracy || c.ticks == -1 || c.endTime == 0 || c.endTime >= now);
      assert EntryOf(c) in Entries(cs) && Counts(EntryOf(c), conditionType, now, creature.Rules());
    }
  }

  lemma AddedMore(steps: seq<Step>, i: nat)
    requires i < |steps|
    ensures AddedBy(steps[..i + 1]) == AddedBy(steps[..i]) + AddedBy([steps[i]]) && AddedBy(steps[..i + 1]) <= AddedBy(steps)
    ensures AddedBy([steps[i]]) == if steps[i].AddStep? then {steps[i].condition} else {}
  {
    assert steps[..i + 1] == steps[..i] + [steps[i]];
    assert steps[i] in [steps[i]];
    forall c | c in AddedBy(steps[..i + 1]) ensures c in AddedBy(steps[..i]) + AddedBy([steps[i]]) {
      var s :| s in steps[..i + 1] && s.AddStep? && s.condition == c;
      assert s in steps[..i] || s in [steps[i]];
    }
    forall c | c in AddedBy(steps[..i]) + AddedBy([steps[i]]) ensures c in AddedBy(steps[..i + 1]) {
      if c in AddedBy(steps[..i]) {
        var s :| s in steps[..i] && s.AddStep? && s.condition == c;
        assert s in steps[..i + 1];
      } else {
        assert steps[i] in steps[..i + 1];
      }
    }
  }

  // ----- Damage conditions in the list ----------------------------------------------------------------

  /** A new damage condition with nothing to deal yet joins with a draw, and lasts for all of its hits. */
  lemma StartsBurning(list: seq<Entry>, new_: Entry, at: Moment, rules: Setting)
    requires KindOf(new_.condition.conditionType) == DamageKind && !HasKey(list, new_.condition)
    requires var d := new_.clock.damage;
             && Sane(d) && Drawn(d, at.amount) && d.periodDamage == 0 && d.hits == [] && d.tickInterval > 0
             && at.amount != 0 && !(d.startDamage > d.maxDamage == 0) && (d.delayed || at.landed)
    ensures var (d, n) := (new_.clock.damage, |DrawnHits(new_.clock.damage, at.amount)|);
            var after := Joined(list, new_, at, rules);
            && n >= 1 && after == list + [Begun(new_, at).1]
            && after[|list|].clock.ticks == n * d.tickInterval
            && after[|list|].clock.endTime == at.now + n * d.tickInterval
            && |after[|list|].clock.damage.hits| == if d.delayed then n else n - 1
  {
    hide DrawnHits, StartValue, Rounds, HasKey, Hurts, Sum;
    var c := SetTo(new_.clock, new_.clock.ticks, at.now);
    InitMeans(c, at.amount, at.now);
    DrawnAre(c, at.amount, at.now);
    JoinedStarted(list, new_, at, rules);
  }

  /** How much time the steps take, as executeConditions is told. */
  ghost function Elapsed(steps: seq<Step>): int {
    if steps == [] then 0
    else Elapsed(steps[..|steps| - 1]) + if steps[|steps| - 1].ExecuteStep? then steps[|steps| - 1].tick.interval else 0
  }

  /** The execution takes place in a field of the condition's own damage, and the clock has not run ahead of
      the intervals that were executed. */
  ghost predicate InField(e: Entry, step: Step, elapsed: int) {
    && step.ExecuteStep? && step.tick.now <= e.clock.endTime + elapsed
    && match step.tick.field
       case Some(FireDamage) => e.condition.conditionType == CONDITION_FIRE
       case Some(EnergyDamage) => e.condition.conditionType == CONDITION_ENERGY
       case Some(EarthDamage) => e.condition.conditionType == CONDITION_POISON
       case Some(DrownDamage) => e.condition.conditionType == CONDITION_DROWN
       case _ => false
  }

  /** d is the condition of e, with its end that much later and as many hits to come. */
  ghost predicate Delayed(e: Entry, d: Entry, elapsed: int) {
    && d.condition == e.condition && d.clock.ticks == e.clock.ticks && d.clock.endTime == e.clock.endTime + elapsed
    && d.clock.damage.periodDamage == 0 && |d.clock.damage.hits| == |e.clock.damage.hits|
  }

  /** Whoever stays in the field goes on burning: no execution there ends the condition or uses up a hit. */
  lemma {:induction false} StaysBurning(list: seq<Entry>, e: Entry, steps: seq<Step>, rules: Setting)
    requires e in list && e.condition.conditionType in {CONDITION_FIRE, CONDITION_ENERGY, CONDITION_POISON, CONDITION_DROWN}
    requires e.clock.ticks > 0 && e.clock.damage.periodDamage == 0 && e.clock.damage.hits != []
    requires forall i :: 0 <= i < |steps| ==> InField(e, steps[i], Elapsed(steps[..i + 1]))
    ensures exists d :: d in Folded(list, steps, rules) && Delayed(e, d, Elapsed(steps))
    decreases |steps|
  {
    hide OnTickCondition, Passed, Without, AllPassed;
    if steps == [] {
      assert Folded(list, steps, rules) == list && Delayed(e, e, Elapsed(steps));
    } else {
      var (front, step) := (steps[..|steps| - 1], steps[|steps| - 1]);
      forall i | 0 <= i < |front| ensures InField(e, front[i], Elapsed(front[..i + 1])) {
        assert front[..i + 1] == steps[..i + 1];
      }
      StaysBurning(list, e, front, rules);
      var d :| d in Folded(list, front, rules) && Delayed(e, d, Elapsed(front));
      assert steps[..|steps| - 1 + 1] == steps && InField(e, step, Elapsed(steps));
      OneMoreTick(e, d, step, Elapsed(front));
      PassedStays(Folded(list, front, rules), d, step);
    }
  }

  lemma OneMoreTick(e: Entry, d: Entry, step: Step, elapsed: int)
    requires KindOf(e.condition.conditionType) == DamageKind && e.clock.ticks > 0 && e.clock.damage.hits != []
    requires Delayed(e, d, elapsed) && step.ExecuteStep? && InField(e, step, elapsed + step.tick.interval)
    ensures Delayed(e, Passed(d, step.tick), elapsed + step.tick.interval) && !Leaves(Passed(d, step.tick), step)
  {
    hide Hurts;
    HeldBack(e, step, elapsed + step.tick.interval);
  }

  lemma HeldBack(e: Entry, step: Step, elapsed: int)
    requires InField(e, step, elapsed)
    ensures !OnTickCondition(FieldType(e.condition.conditionType), step.tick.field, true)
  {
  }

  /** Anywhere else the hits fall due and the clock runs. */
  lemma NotHeldBack(e: Entry, step: Step)
    requires step.ExecuteStep? && e.clock.ticks > 0 && e.clock.damage.periodDamage == 0 && e.clock.damage.hits != []
    requires KindOf(e.condition.conditionType) == DamageKind && !InField(e, step, step.tick.now - e.clock.endTime)
    ensures var (p, info) := (Passed(e, step.tick).clock, e.clock.damage.hits[0]);
            && p.endTime == e.clock.endTime && p.ticks == Max(0, e.clock.ticks - step.tick.interval)
            && p.damage.hits == if info.timeLeft <= step.tick.interval then e.clock.damage.hits[1..]
                                else [info.(timeLeft := info.timeLeft - step.tick.interval)] + e.clock.damage.hits[1..]
  {
    hide Hurts;
  }

  lemma PassedStays(list: seq<Entry>, d: Entry, step: Step)
    requires d in list && step.ExecuteStep? && !Leaves(Passed(d, step.tick), step)
    ensures Passed(d, step.tick) in Without(AllPassed(list, step.tick), step)
  {
    hide Passed;
    var k :| 0 <= k < |list| && list[k] == d;
    assert AllPassed(list, step.tick)[k] == Passed(d, step.tick);
    WithoutIn(AllPassed(list, step.tick), step);
  }

  /** PARALYZE of another subId than 0 stays beside HASTE. */
  method HasteBesideParalyze() returns (creature: Creature)
    ensures creature.Balanced() && |creature.conditions| == 2
    ensures creature.conditions[0].conditionType == CONDITION_PARALYZE && creature.conditions[1].conditionType == CONDITION_HASTE
  {
    hide Creature.SumsUp, Creature.Balanced, Condition.Valid, Begun, Without;
    creature := new Creature(true, false, 100, seq(SKILLS, i => 10), seq(STATS, i => 10));
    var slow := new Condition(CONDITION_PARALYZE, 0, 1, 1000, -50);
    var quick := new Condition(CONDITION_HASTE, 0, 0, 1000, 50);
    var at := Moment(0, 0, true);
    TwoSpeeds(EntryOf(slow), EntryOf(quick), at, creature.Rules());
    var ok := creature.AddCondition(slow, at);
    EntriesAre(creature.conditions);
    ok := creature.AddCondition(quick, at);
    EntriesAre(creature.conditions);
  }

  lemma TwoSpeeds(slow: Entry, quick: Entry, at: Moment, rules: Setting)
    requires slow.condition.conditionType == CONDITION_PARALYZE && slow.condition.subId == 1
    requires quick.condition.conditionType == CONDITION_HASTE
    ensures Joined([], slow, at, rules) == [Begun(slow, at).1]
    ensures Joined([Begun(slow, at).1], quick, at, rules) == [Begun(slow, at).1, Begun(quick, at).1]
    ensures Begun(slow, at).1.condition == slow.condition && Begun(quick, at).1.condition == quick.condition
  {
  }

  datatype Step =
    | AddStep(condition: Condition, at: Moment)
    | RemoveTypeStep(conditionType: nat)
    | RemoveTypeIdStep(conditionType: nat, id: int)
    | RemoveStep(c: Condition)
    | CombatRemoveStep(conditionType: nat)
    | RemoveConditionsStep(onlyPersistent: bool)
    | ExecuteStep(tick: Tick)

  ghost function AddedBy(steps: seq<Step>): set<Condition> {
    set s | s in steps && s.AddStep? :: s.condition
  }
}
