/** Damage over time: a list of hits, dealt one after the other as their intervals pass. */
module DamageConditions {
  import opened Options
  import opened DamageList
  import opened Arithmetic

  datatype IntervalInfo = IntervalInfo(timeLeft: int, value: int, interval: int)

  datatype ConditionType = Fire | Energy | Poison | Drown | OtherDamage

  datatype CombatType = FireDamage | EnergyDamage | EarthDamage | DrownDamage | OtherCombat

  /** Creature::onTickCondition: a magic field under the creature decides for four of the types. */
  function OnTickCondition(condition: ConditionType, field: Option<CombatType>, remove: bool): bool {
    match (condition, field)
    case (Fire, Some(f)) => f != FireDamage
    case (Energy, Some(f)) => f != EnergyDamage
    case (Poison, Some(f)) => f != EarthDamage
    case (Drown, Some(f)) => f != DrownDamage
    case _ => remove
  }

  function Values(list: seq<IntervalInfo>): (values: seq<int>)
    ensures |values| == |list|
  {
    seq(|list|, k requires 0 <= k < |list| => list[k].value)
  }

  function Negated(list: seq<int>): seq<int> {
    seq(|list|, k requires 0 <= k < |list| => -list[k])
  }

  lemma NoValues()
    ensures Values([]) == []
  {
  }

  lemma {:induction false} SumNegated(list: seq<int>)
    ensures Sum(Negated(list)) == -Sum(list)
  {
    if list != [] {
      assert Negated(list)[1..] == Negated(list[1..]);
      SumNegated(list[1..]);
    }
  }

  /** The first hit that init settles on. */
  function StartValue(startDamage: int, maxDamage: int, amount: int): int {
    if startDamage > maxDamage then maxDamage
    else if startDamage == 0 then Max(1, (amount + 19) / 20)
    else startDamage
  }

  // ----- The condition as a value ---------------------------------------------------------------------

  /** What a damage condition keeps beside its clock. */
  datatype Damage = Damage(
    delayed: bool,
    forceUpdate: bool,
    minDamage: int,
    maxDamage: int,
    startDamage: int,
    periodDamage: int,
    periodDamageTick: int,
    tickInterval: int,
    hits: seq<IntervalInfo>)

  datatype Clocked = Clocked(ticks: int, endTime: int, damage: Damage)

  /** setParam stores absolute values. */
  predicate Sane(d: Damage) {
    d.maxDamage >= 0 && d.minDamage >= 0 && d.startDamage >= 0 && d.tickInterval >= 0
  }

  /** An amount that random_range may draw. */
  predicate Drawn(d: Damage, amount: int) {
    d.minDamage <= amount <= d.maxDamage || d.maxDamage <= amount <= d.minDamage
  }

  /** setTicks */
  function SetTo(c: Clocked, ticks: int, now: int): Clocked {
    Clocked(ticks, if ticks > 0 then now + ticks else c.endTime, c.damage)
  }

  /** The time left after an interval; -1 stands for no end. */
  function Lowered(ticks: int, interval: int): int {
    if ticks == -1 then -1 else Max(0, ticks - interval)
  }

  /** Condition::executeCondition */
  function Aged(c: Clocked, interval: int): Clocked {
    c.(ticks := Lowered(c.ticks, interval))
  }

  /** The condition survives the execution that has left it like this. */
  predicate Alive(c: Clocked, now: int) {
    c.ticks == -1 || c.endTime >= now
  }

  function Rounds(list: seq<int>, interval: int): seq<IntervalInfo> {
    seq(|list|, k requires 0 <= k < |list| => IntervalInfo(interval, -list[k], interval))
  }

  /** The hits that a draw is split into. */
  function DrawnHits(d: Damage, amount: int): seq<int> {
    var s := StartValue(d.startDamage, d.maxDamage, amount);
    if s >= 1 then Hits(Abs(amount), s, s, 0) else []
  }

  /** init: whether there is something to deal, and the condition afterwards. */
  function Initialised(c: Clocked, amount: int, now: int): (bool, Clocked) {
    var d := c.damage;
    if d.periodDamage != 0 || d.hits != [] then (true, c)
    else if amount == 0 then (false, c.(ticks := 0))
    else
      var list := DrawnHits(d, amount);
      (list != [],
       SetTo(c, Times(|list|, d.tickInterval), now).(
         damage := d.(startDamage := StartValue(d.startDamage, d.maxDamage, amount), hits := Rounds(list, d.tickInterval))))
  }

  /** getNextDamage: what is left when the front hit has been handed out. */
  function HandedOut(c: Clocked): Clocked {
    var d := c.damage;
    if d.periodDamage != 0 || d.hits == [] || c.ticks == -1 then c else c.(damage := d.(hits := d.hits[1..]))
  }

  /** startCondition */
  function Started(c: Clocked, amount: int, landed: bool, now: int): (bool, Clocked) {
    var (ok, filled) := Initialised(SetTo(c, c.ticks, now), amount, now);
    if ok && !filled.damage.delayed then (landed, HandedOut(filled)) else (ok, filled)
  }

  /** executeCondition: a matching field underfoot keeps the front hit and stops the clock. */
  function Executed(c: Clocked, conditionType: ConditionType, interval: int, field: Option<CombatType>): Clocked {
    var d := c.damage;
    if d.periodDamage != 0 then
      var passed := d.periodDamageTick + interval;
      Aged(c.(damage := d.(periodDamageTick := if passed >= d.tickInterval then 0 else passed)), interval)
    else if d.hits == [] then Aged(c, interval)
    else
      var remove := OnTickCondition(conditionType, field, c.ticks != -1);
      var info := d.hits[0];
      var hits :=
        if info.timeLeft > interval then [info.(timeLeft := info.timeLeft - interval)] + d.hits[1..]
        else if remove then d.hits[1..]
        else [info.(timeLeft := info.interval)] + d.hits[1..];
      var after := c.(damage := d.(hits := hits));
      if remove then Aged(after, interval)
      else Aged(if c.ticks > 0 then after.(endTime := c.endTime + interval) else after, 0)
  }

  /** The division of an int by two drops the fraction. */
  function Half(x: int): int {
    if x >= 0 then x / 2 else -((-x) / 2)
  }

  function TotalDamage(d: Damage): nat {
    Abs(if d.hits != [] then Sum(Values(d.hits)) else d.maxDamage + Half(d.maxDamage - d.minDamage))
  }

  /** updateCondition of a damage condition. */
  predicate TakesOver(c: Clocked, other: Clocked) {
    other.damage.forceUpdate ||
    (!(c.ticks == -1 && other.ticks > 0) && other.ticks > c.ticks &&
     TotalDamage(other.damage) >= TotalDamage(c.damage) && other.damage.periodDamage >= c.damage.periodDamage)
  }

  /** The front hit falls due when the one before it would have. */
  function Resumed(c: Clocked, timeLeft: int): Clocked {
    var hits := c.damage.hits;
    if hits == [] then c else c.(damage := c.damage.(hits := [hits[0].(timeLeft := timeLeft)] + hits[1..]))
  }

  /** addCondition: the other condition's time, amounts and hits, if it takes over. */
  function MergedWith(c: Clocked, other: Clocked, amount: int, now: int): Clocked {
    if !TakesOver(c, other) then c
    else
      var (d, e) := (c.damage, other.damage);
      var taken := e.(delayed := d.delayed, forceUpdate := d.forceUpdate, periodDamageTick := d.periodDamageTick);
      var (ok, filled) := Initialised(SetTo(c, other.ticks, now).(damage := taken), amount, now);
      if !ok then filled
      else
        var resumed := Resumed(filled, if d.hits != [] then d.hits[0].timeLeft else e.tickInterval);
        if d.delayed then resumed else HandedOut(resumed)
  }

  /** Between two limited conditions the longer one that does no less damage prevails, and one without an end is
      never given one, unless that is forced. */
  lemma TakesOverMeans(c: Clocked, other: Clocked)
    ensures other.damage.forceUpdate ==> TakesOver(c, other)
    ensures TakesOver(c, other) && !other.damage.forceUpdate ==> other.ticks > c.ticks && (c.ticks == -1 ==> other.ticks == 0)
    ensures c.ticks != -1 && c.damage.periodDamage == other.damage.periodDamage && !other.damage.forceUpdate ==>
              (TakesOver(c, other) <==> other.ticks > c.ticks && TotalDamage(other.damage) >= TotalDamage(c.damage))
  {
  }

  /** What an active condition becomes when another with hits of its own takes over: that one's time and
      hits, but the next hit is due when it was due before, and is dealt at once unless delayed. */
  lemma MergeTakes(c: Clocked, other: Clocked, amount: int, now: int)
    requires other.damage.periodDamage == 0 && other.damage.hits != [] && TakesOver(c, other)
    ensures var (t, was, new_) := (MergedWith(c, other, amount, now), c.damage.hits, other.damage.hits);
            && t.ticks == other.ticks && t.endTime == (if other.ticks > 0 then now + other.ticks else c.endTime)
            && (c.damage.delayed ==>
                && t.damage.hits[1..] == new_[1..] && t.damage.hits[0].value == new_[0].value
                && t.damage.hits[0].interval == new_[0].interval
                && t.damage.hits[0].timeLeft == if was != [] then was[0].timeLeft else other.damage.tickInterval)
            && (!c.damage.delayed && other.ticks != -1 ==> t.damage.hits == new_[1..])
            && t.damage.delayed == c.damage.delayed && t.damage.forceUpdate == c.damage.forceUpdate
            && t.damage.minDamage == other.damage.minDamage && t.damage.maxDamage == other.damage.maxDamage
            && t.damage.startDamage == other.damage.startDamage && t.damage.tickInterval == other.damage.tickInterval
  {
    hide TakesOver;
  }

  // ----- What a run has dealt ------------------------------------------------------------------------

  /** From the waiting hits `from`, the hits `dealt` were dealt and `rest` still wait: always the
      front one is dealt, and it then either leaves or is dealt again. */
  ghost predicate Deals(dealt: seq<int>, from: seq<int>, rest: seq<int>) {
    if dealt == [] then from == rest
    else from != [] && dealt[0] == from[0] && (Deals(dealt[1..], from[1..], rest) || Deals(dealt[1..], from, rest))
  }

  lemma {:induction false} DealsOneMore(dealt: seq<int>, from: seq<int>, rest: seq<int>)
    requires Deals(dealt, from, rest) && rest != []
    ensures Deals(dealt + [rest[0]], from, rest[1..])
    ensures Deals(dealt + [rest[0]], from, rest)
  {
    var more := dealt + [rest[0]];
    if dealt == [] {
      assert more[1..] == [];
    } else {
      assert more[1..] == dealt[1..] + [rest[0]];
      if Deals(dealt[1..], from[1..], rest) {
        DealsOneMore(dealt[1..], from[1..], rest);
      } else {
        DealsOneMore(dealt[1..], from, rest);
      }
    }
  }

  /** The waiting hits are a tail of the list, and no hit of the list is skipped. */
  lemma {:induction false} DealsAll(dealt: seq<int>, from: seq<int>, rest: seq<int>)
    requires Deals(dealt, from, rest)
    ensures |dealt| + |rest| >= |from| >= |rest| && from[|from| - |rest|..] == rest
    ensures forall v :: v in from ==> v in dealt || v in rest
  {
    if dealt != [] {
      assert dealt == [dealt[0]] + dealt[1..] && from == [from[0]] + from[1..];
      if Deals(dealt[1..], from[1..], rest) {
        DealsAll(dealt[1..], from[1..], rest);
        assert from[|from| - |rest|..] == from[1..][|from| - 1 - |rest|..];
      } else {
        DealsAll(dealt[1..], from, rest);
      }
    }
  }

  /** Without a repetition the dealt hits and the waiting ones are the list. */
  lemma {:induction false} DealsOnce(dealt: seq<int>, from: seq<int>, rest: seq<int>)
    requires Deals(dealt, from, rest) && |dealt| + |rest| == |from|
    ensures dealt + rest == from
  {
    if dealt != [] {
      assert dealt == [dealt[0]] + dealt[1..] && from == [from[0]] + from[1..];
      if Deals(dealt[1..], from[1..], rest) {
        DealsOnce(dealt[1..], from[1..], rest);
        assert dealt + rest == [dealt[0]] + (dealt[1..] + rest);
      } else {
        DealsAll(dealt[1..], from, rest);
      }
    }
  }

  /** How many executions, delta apart, it takes until an interval has passed. */
  function Executions(interval: int, delta: int): int
    requires delta > 0
  {
    (interval + delta - 1) / delta
  }

  /** How many executions there are, the last being the first to come too late. */
  function Runs(span: int, delta: int): int
    requires delta > 0
  {
    span / delta + 1
  }

  /** How many of m hits are still waiting after that. */
  function Waiting(m: nat, span: int, interval: int, delta: int): (n: int)
    requires delta > 0 && interval > 0
    ensures span >= 0 ==> 0 <= n <= m
  {
    ExecutionsCover(interval, delta);
    WaitingBounds(span, interval, delta);
    Max(0, m - Runs(span, delta) / Executions(interval, delta))
  }

  lemma WaitingBounds(span: int, interval: int, delta: int)
    requires delta > 0 && interval > 0
    ensures Executions(interval, delta) >= 1
    ensures span >= 0 ==> Runs(span, delta) / Executions(interval, delta) >= 0
  {
    ExecutionsCover(interval, delta);
    if span >= 0 {
      QuotientAtLeast(span, delta, 0);
      QuotientAtLeast(Runs(span, delta), Executions(interval, delta), 0);
    }
  }

  lemma ExecutionsCover(interval: int, delta: int)
    requires delta > 0 && interval > 0
    ensures var q := Executions(interval, delta); q >= 1 && (q - 1) * delta < interval <= q * delta
  {
    var q := Executions(interval, delta);
    assert q * delta <= interval + delta - 1 < q * delta + delta;
    assert (q - 1) * delta == q * delta - delta;
  }

  /** The product, taken one step at a time. */
  function Times(n: int, delta: int): int {
    n * delta
  }

  lemma NoTimes(delta: int)
    ensures Times(0, delta) == 0
  {
  }

  lemma OneMoreTime(n: int, delta: int)
    ensures Times(n + 1, delta) == Times(n, delta) + delta
  {
  }

  /** The front hit falls due at the last of these executions and not before. */
  lemma HitDue(interval: int, delta: int, r: int)
    requires delta > 0 && interval > 0 && 0 <= r < Executions(interval, delta)
    ensures Times(0, delta) == 0 && Times(r + 1, delta) == Times(r, delta) + delta
    ensures interval - Times(r + 1, delta) <= 0 <==> r + 1 == Executions(interval, delta)
  {
    var q := Executions(interval, delta);
    ExecutionsCover(interval, delta);
    if r + 1 < q { MulGap(q, r + 1, delta); }
  }

  lemma QuotientIs(x: int, b: int, q: int)
    requires b > 0 && q * b <= x < q * b + b
    ensures x / b == q
  {
    var y := x / b;
    assert y * b <= x < y * b + b;
    MulGap(y, q, b);
    MulGap(q, y, b);
  }

  lemma QuotientAtLeast(x: int, b: int, q: int)
    requires b > 0 && q * b <= x
    ensures x / b >= q
  {
    var y := x / b;
    assert x < y * b + b;
    MulGap(q, y, b);
  }

  lemma RunsAre(span: int, delta: int, k: int)
    requires delta > 0 && Times(k - 1, delta) <= span < Times(k, delta)
    ensures k == Runs(span, delta)
  {
    OneMoreTime(k - 1, delta);
    QuotientIs(span, delta, k - 1);
  }

  lemma WaitingIs(m: nat, span: int, interval: int, delta: int, p: int, r: int)
    requires delta > 0 && interval > 0 && 0 <= p <= m
    requires var (k, q) := (Runs(span, delta), Executions(interval, delta));
             if p == m then Times(p, q) <= k else k == Times(p, q) + r && 0 <= r < q
    ensures Waiting(m, span, interval, delta) == m - p
  {
    hide Runs, Executions;
    var (k, q) := (Runs(span, delta), Executions(interval, delta));
    WaitingBounds(0, interval, delta);
    if p < m { QuotientIs(k, q, p); } else { QuotientAtLeast(k, q, p); }
  }

  lemma NothingDealt(list: seq<int>)
    ensures Deals([], list, list)
  {
  }

  lemma HeadDealt(was: seq<int>, list: seq<IntervalInfo>)
    requires list != []
    ensures Values(list)[0] == list[0].value && Values(list[1..]) == Values(list)[1..]
    ensures was + [list[0].value] + Values(list[1..]) == was + Values(list)
  {
    assert Values(list) == [list[0].value] + Values(list[1..]);
  }

  lemma RoundsAre(list: seq<int>, interval: int)
    ensures Values(Rounds(list, interval)) == Negated(list)
    ensures forall d :: d in Rounds(list, interval) ==> d.timeLeft == d.interval == interval
  {
  }

  /** Never more than the maximum if one is set; otherwise the smallest of which twenty make up the amount. */
  lemma FirstHitMeans(startDamage: int, maxDamage: int, amount: int)
    ensures var first := StartValue(startDamage, maxDamage, amount);
            && (startDamage != 0 ==> first <= maxDamage && first <= startDamage && (first == maxDamage || first == startDamage))
            && (startDamage == 0 <= maxDamage ==>
                first >= 1 && amount <= 20 * first && forall k :: 1 <= k < first ==> 20 * k < amount)
  {
  }

  /** The branches of init that settle on the first hit. */
  lemma StartValueIs(startDamage: int, maxDamage: int, amount: int)
    ensures StartValue(startDamage, maxDamage, amount) ==
            if startDamage > maxDamage then maxDamage else if startDamage == 0 then Max(1, (amount + 19) / 20) else startDamage
  {
  }

  /** What init means: the hits are those of the draw, it fails only for nothing to deal, and the time is
      that of all the hits. */
  lemma InitMeans(c: Clocked, amount: int, now: int)
    requires Sane(c.damage) && Drawn(c.damage, amount) && c.damage.periodDamage == 0 && c.damage.hits == []
    ensures var (ok, t) := Initialised(c, amount, now);
            var (d, s) := (t.damage, StartValue(c.damage.startDamage, c.damage.maxDamage, amount));
            && ok == (amount != 0 && !(c.damage.startDamage > c.damage.maxDamage == 0))
            && (!ok ==> d.hits == [] && t.ticks == 0)
            && (ok ==> s >= 1 && Values(d.hits) == Negated(Hits(amount, s, s, 0)) && d.hits != [])
            && (ok ==> forall h :: h in d.hits ==> h.timeLeft == h.interval == d.tickInterval)
            && (ok ==> amount <= -Sum(Values(d.hits)) <= amount + Triangle(s))
            && (ok && amount >= s * s ==> Sum(Values(d.hits)) == -amount)
            && (ok ==> t.ticks == |d.hits| * d.tickInterval)
            && (ok && d.tickInterval > 0 ==> t.endTime == now + t.ticks)
  {
    hide Hits, Sum, Triangle, Falling;
    var s := StartValue(c.damage.startDamage, c.damage.maxDamage, amount);
    if amount != 0 && s >= 1 {
      var list := Hits(amount, s, s, 0);
      HitsPromised(amount, s);
      assert s in list;
      SumNegated(list);
      RoundsAre(list, c.damage.tickInterval);
      LongerThanNothing(|list|, c.damage.tickInterval);
    }
  }

  /** One hit for each that is drawn. */
  lemma DrawnAre(c: Clocked, amount: int, now: int)
    requires c.damage.periodDamage == 0 && c.damage.hits == [] && amount != 0
    ensures |Initialised(c, amount, now).1.damage.hits| == |DrawnHits(c.damage, amount)|
  {
  }

  /** A draw between 5 and 0 with a first hit of 1, clamped to the maximum of 0: nothing to deal. */
  lemma ClampedToNothing()
    ensures var c := Clocked(0, 0, Damage(false, false, 5, 0, 1, 0, 0, 2000, []));
            Drawn(c.damage, 3) && !Started(c, 3, true, 1000).0
  {
  }

  lemma LongerThanNothing(n: nat, interval: int)
    requires n > 0 && interval >= 0
    ensures Times(n, interval) >= 0 && (interval > 0 ==> Times(n, interval) > 0)
  {
  }

  /** One execution under the creature's feet: how much time passed, the clock, the field. */
  datatype Tick = Tick(interval: nat, now: int, field: Option<CombatType>)

  // ----- The condition ----------------------------------------------------------------------------------

  class ConditionDamage {
    const conditionType: ConditionType
    var ticks: int
    var endTime: int
    var delayed: bool
    var forceUpdate: bool
    var maxDamage: int
    var minDamage: int
    var startDamage: int
    var periodDamage: int
    var periodDamageTick: int
    var tickInterval: int
    var damageList: seq<IntervalInfo>
    ghost var dealt: seq<int>          // every value handed to doDamage, in order

    constructor (conditionType: ConditionType)
      ensures Valid() && ticks == 0 && damageList == [] && dealt == [] && periodDamage == 0
      ensures !delayed && tickInterval == 2000
    {
      this.conditionType := conditionType;
      ticks, endTime, tickInterval := 0, 0, 2000;
      delayed, forceUpdate := false, false;
      minDamage, maxDamage, startDamage, periodDamage, periodDamageTick := 0, 0, 0, 0, 0;
      damageList, dealt := [], [];
    }

    /** A condition in this state. */
    constructor Of(conditionType: ConditionType, c: Clocked)
      ensures State() == c && this.conditionType == conditionType && dealt == []
    {
      this.conditionType := conditionType;
      ticks, endTime := c.ticks, c.endTime;
      delayed, forceUpdate := c.damage.delayed, c.damage.forceUpdate;
      minDamage, maxDamage, startDamage := c.damage.minDamage, c.damage.maxDamage, c.damage.startDamage;
      periodDamage, periodDamageTick, tickInterval := c.damage.periodDamage, c.damage.periodDamageTick, c.damage.tickInterval;
      damageList, dealt := c.damage.hits, [];
    }

    function State(): Clocked
      reads this
    {
      Clocked(ticks, endTime, Damage(delayed, forceUpdate, minDamage, maxDamage, startDamage,
                                     periodDamage, periodDamageTick, tickInterval, damageList))
    }

    ghost predicate Valid()
      reads this
    {
      Sane(State().damage)
    }

    method SetTicks(newTicks: int, now: int)
      modifies `ticks, `endTime
      ensures ticks == newTicks && endTime == if newTicks > 0 then now + newTicks else old(endTime)
    {
      ticks := newTicks;
      if newTicks > 0 { endTime := now + newTicks; }
    }

    /** `rounds` more hits; a condition with an end lasts that much longer. */
    method AddDamage(rounds: int, time: int, value: int, now: int) returns (ok: bool)
      requires Valid()
      modifies `ticks, `endTime, `tickInterval, `periodDamage, `damageList
      ensures Valid()
      ensures rounds == -1 ==>
                ok && ticks == -1 && periodDamage == value && tickInterval == Abs(time) && damageList == old(damageList)
      ensures rounds != -1 ==> periodDamage == old(periodDamage) && tickInterval == old(tickInterval) && ok == (periodDamage <= 0)
      ensures rounds != -1 && !ok ==> damageList == old(damageList) && ticks == old(ticks) && endTime == old(endTime)
      ensures rounds != -1 && ok ==>
                damageList == old(damageList) + seq(if rounds < 0 then 0 else rounds, k => IntervalInfo(time, value, time))
      ensures rounds != -1 && ok && rounds >= 0 && old(ticks) >= 0 && time >= 0 ==> ticks == old(ticks) + rounds * time
      ensures rounds >= 1 && ok && old(ticks) >= 0 && time > 0 ==> endTime == now + ticks
      ensures rounds >= 1 && ok && old(ticks) >= 0 && time >= 0 ==> endTime == if ticks > 0 then now + ticks else old(endTime)
      ensures rounds != -1 && old(ticks) == -1 ==> ticks == -1
    {
      if rounds == -1 {
        tickInterval, ticks := Abs(time), -1;
        periodDamage := value;
        return true;
      }
      if periodDamage > 0 { return false; }
      var i := 0;
      while i < rounds
        invariant Valid() && 0 <= i && (rounds >= 0 ==> i <= rounds) && (rounds < 0 ==> i == 0)
        invariant damageList == old(damageList) + seq(i, k => IntervalInfo(time, value, time))
        invariant i == 0 ==> ticks == old(ticks) && endTime == old(endTime)
        invariant old(ticks) >= 0 && time >= 0 ==> ticks == old(ticks) + i * time && ticks >= 0
        invariant i >= 1 && old(ticks) >= 0 && time > 0 ==> endTime == now + ticks
        invariant i >= 1 && old(ticks) >= 0 && time >= 0 ==> endTime == if ticks > 0 then now + ticks else old(endTime)
        invariant old(ticks) == -1 ==> ticks == -1
        invariant periodDamage == old(periodDamage) && tickInterval == old(tickInterval)
      {
        damageList := damageList + [IntervalInfo(time, value, time)];
        if ticks != -1 { SetTicks(ticks + time, now); }
        i := i + 1;
      }
      ok := true;
    }

    /** Fills an empty list from a drawn amount. It fails only for nothing to deal: a draw of zero,
        or a first hit clamped to a maximum of zero. */
    method Init(amount: int, now: int) returns (ok: bool)
      requires Valid() && (minDamage <= amount <= maxDamage || maxDamage <= amount <= minDamage)
      modifies `ticks, `endTime, `tickInterval, `periodDamage, `startDamage, `damageList
      ensures Valid() && periodDamage == old(periodDamage) && tickInterval == old(tickInterval)
      ensures old(periodDamage != 0 || damageList != []) ==>
                ok && damageList == old(damageList) && ticks == old(ticks) && endTime == old(endTime)
      ensures old(periodDamage == 0 && damageList == []) ==>
                var s := StartValue(old(startDamage), maxDamage, amount);
                && ok == (amount != 0 && !(old(startDamage) > maxDamage == 0))
                && (!ok ==> damageList == [] && ticks == 0)
                && (ok ==> s >= 1 && Values(damageList) == Negated(Hits(amount, s, s, 0)) && damageList != [])
                && (ok ==> forall d :: d in damageList ==> d.timeLeft == d.interval == tickInterval)
                && (ok ==> amount <= -Sum(Values(damageList)) <= amount + Triangle(s))
                && (ok && amount >= s * s ==> Sum(Values(damageList)) == -amount)
                && (ok ==> ticks == |damageList| * tickInterval)
                && (ok && tickInterval > 0 ==> endTime == now + ticks)
      ensures (ok, State()) == Initialised(old(State()), amount, now)
    {
      hide Hits, Promised, StartValue, Rounds, Times, Values, Sum, Triangle, Negated;
      if periodDamage != 0 { return true; }
      if damageList != [] { return true; }
      InitMeans(State(), amount, now);
      StartValueIs(startDamage, maxDamage, amount);
      SetTicks(0, now);
      if amount == 0 { return false; }
      if startDamage > maxDamage {
        startDamage := maxDamage;
      } else if startDamage == 0 {
        startDamage := Max(1, (amount + 19) / 20);
      }
      var list := GenerateDamageList(amount, startDamage);
      FillList(list, now);
      ok := damageList != [];
    }

    /** The loop of init that turns each value into one hit. */
    method FillList(list: seq<int>, now: int)
      requires Valid() && periodDamage == 0 && damageList == [] && ticks == 0
      modifies `ticks, `endTime, `tickInterval, `periodDamage, `damageList
      ensures periodDamage == 0 && tickInterval == old(tickInterval) && damageList == Rounds(list, tickInterval)
      ensures ticks == Times(|list|, tickInterval) && endTime == if ticks > 0 then now + ticks else old(endTime)
      ensures |damageList| == |list|
    {
      hide Times;
      NoTimes(tickInterval);
      for i := 0 to |list|
        invariant Valid() && periodDamage == 0 && tickInterval == old(tickInterval)
        invariant damageList == Rounds(list[..i], tickInterval)
        invariant ticks == Times(i, tickInterval) >= 0 && endTime == if ticks > 0 then now + ticks else old(endTime)
      {
        var info := IntervalInfo(tickInterval, -list[i], tickInterval);
        NoTimes(tickInterval);
        OneMoreTime(0, tickInterval);
        OneMoreTime(i, tickInterval);
        AddOneRound(-list[i], now);
        assert Rounds(list[..i + 1], tickInterval) == Rounds(list[..i], tickInterval) + [info];
      }
      assert list[..|list|] == list;
    }

    method AddOneRound(value: int, now: int)
      requires Valid() && periodDamage == 0 && ticks >= 0
      modifies `ticks, `endTime, `tickInterval, `periodDamage, `damageList
      ensures Valid() && periodDamage == 0 && tickInterval == old(tickInterval) && ticks == old(ticks) + tickInterval
      ensures endTime == if ticks > 0 then now + ticks else old(endTime)
      ensures damageList == old(damageList) + [IntervalInfo(tickInterval, value, tickInterval)]
    {
      var info := IntervalInfo(tickInterval, value, tickInterval);
      OneMoreTime(0, tickInterval);
      var ok := AddDamage(1, tickInterval, value, now);
      assert seq(1, k => info) == [info];
    }

    /** getNextDamage: hands out the front hit; it stays when the condition has no end. */
    method GetNextDamage() returns (found: bool, damage: int)
      modifies `damageList
      ensures periodDamage != 0 ==> found && damage == periodDamage && damageList == old(damageList)
      ensures periodDamage == 0 ==> found == (old(damageList) != [])
      ensures periodDamage == 0 && found ==>
                damage == old(damageList)[0].value &&
                damageList == if ticks != -1 then old(damageList)[1..] else old(damageList)
      ensures !found ==> damageList == old(damageList) && damage == 0
    {
      if periodDamage != 0 { return true, periodDamage; }
      if damageList == [] { return false, 0; }
      damage := damageList[0].value;
      if ticks != -1 { damageList := damageList[1..]; }
      found := true;
    }

    /** doDamage: the blow may be blocked; what counts here is that it was dealt. */
    method DoDamage(damage: int, landed: bool) returns (ok: bool)
      modifies `dealt
      ensures dealt == old(dealt) + [damage] && ok == landed
    {
      dealt := dealt + [damage];
      ok := landed;
    }

    /** The hit that falls at the start. */
    method FirstHit(landed: bool) returns (ok: bool)
      modifies `damageList, `dealt
      ensures periodDamage == 0 && ticks != -1 ==> dealt + Values(damageList) == old(dealt) + Values(old(damageList))
      ensures periodDamage == 0 ==> dealt == old(dealt) + if old(damageList) == [] then [] else Values(old(damageList))[..1]
      ensures periodDamage != 0 ==> dealt == old(dealt) + [periodDamage]
      ensures forall d :: d in damageList ==> d in old(damageList)
      ensures periodDamage == 0 && old(damageList) != [] ==> ok == landed
      ensures State() == HandedOut(old(State())) && (old(periodDamage != 0 || damageList != []) ==> ok == landed)
    {
      ghost var list := damageList;
      var found, damage := GetNextDamage();
      ok := true;
      if found {
        ok := DoDamage(damage, landed);
        assert list != [] ==> Values(list) == [list[0].value] + Values(list[1..]);
      }
    }

    /** startCondition: unless delayed, the first hit falls at once. */
    method StartCondition(amount: int, landed: bool, now: int) returns (ok: bool, ghost initial: seq<int>)
      requires Valid() && (minDamage <= amount <= maxDamage || maxDamage <= amount <= minDamage)
      modifies `ticks, `endTime, `tickInterval, `periodDamage, `startDamage, `damageList, `dealt
      ensures Valid() && periodDamage == old(periodDamage) && tickInterval == old(tickInterval)
      ensures periodDamage == 0 && old(damageList) != [] ==> initial == Values(old(damageList))
      ensures periodDamage == 0 && old(damageList) == [] ==>
                if amount == 0 || old(startDamage) > maxDamage == 0 then !ok && initial == []
                else var s := StartValue(old(startDamage), maxDamage, amount); initial == Negated(Hits(amount, s, s, 0))
      ensures periodDamage == 0 && ticks != -1 ==> dealt + Values(damageList) == old(dealt) + initial
      ensures periodDamage == 0 && initial != [] ==> dealt == old(dealt) + if delayed then [] else initial[..1]
      ensures periodDamage == 0 ==> (old(damageList) != [] ==> ticks == old(ticks)) && (old(damageList) == [] ==> ticks >= 0)
      ensures periodDamage == 0 && old(damageList) == [] && initial != [] && tickInterval > 0 ==>
                endTime == now + ticks && ticks == |initial| * tickInterval &&
                forall d :: d in damageList ==> d.timeLeft == d.interval == tickInterval
      ensures periodDamage == 0 && initial != [] ==> ok == (delayed || landed)
      ensures (ok, State()) == Started(old(State()), amount, landed, now)
    {
      hide Hits, Triangle, Sum, Negated, StartValue, Values, Initialised, HandedOut, OnTickCondition;
      initial := [];
      if ticks > 0 { endTime := now + ticks; }
      ok := Init(amount, now);
      if !ok {
        NoValues();
        return;
      }
      initial := Values(damageList);
      if delayed { return; }
      ok := FirstHit(landed);
    }

    /** executeCondition; the result says whether the condition stays. While a field holds the hits back
        the time does not run. */
    method ExecuteCondition(tick: Tick, landed: bool) returns (alive: bool)
      modifies `ticks, `endTime, `periodDamageTick, `damageList, `dealt
      ensures periodDamage == 0 ==>
                var list := old(damageList);
                var remove := OnTickCondition(conditionType, tick.field, old(ticks) != -1);
                if list == [] then damageList == [] && dealt == old(dealt)
                else if list[0].timeLeft <= tick.interval then
                  dealt == old(dealt) + [list[0].value] &&
                  damageList == if remove then list[1..] else [list[0].(timeLeft := list[0].interval)] + list[1..]
                else dealt == old(dealt) && damageList == [list[0].(timeLeft := list[0].timeLeft - tick.interval)] + list[1..]
      ensures periodDamage != 0 ==>
                var passed := old(periodDamageTick) + tick.interval;
                damageList == old(damageList) &&
                if passed >= tickInterval then periodDamageTick == 0 && dealt == old(dealt) + [periodDamage]
                else periodDamageTick == passed && dealt == old(dealt)
      ensures var held := periodDamage == 0 && old(damageList) != [] && !OnTickCondition(conditionType, tick.field, old(ticks) != -1);
              && endTime == old(endTime) + (if held && old(ticks) > 0 then tick.interval else 0)
              && ticks == if old(ticks) == -1 then -1 else Max(0, old(ticks) - (if held then 0 else tick.interval))
      ensures alive == (ticks == -1 || endTime >= tick.now)
      ensures State() == Executed(old(State()), conditionType, tick.interval, tick.field)
    {
      var interval := tick.interval;
      if periodDamage != 0 {
        periodDamageTick := periodDamageTick + interval;
        if periodDamageTick >= tickInterval {
          periodDamageTick := 0;
          var ok := DoDamage(periodDamage, landed);
        }
      } else if damageList != [] {
        var remove := OnTickCondition(conditionType, tick.field, ticks != -1);
        var info := damageList[0].(timeLeft := damageList[0].timeLeft - interval);
        damageList := [info] + damageList[1..];
        if info.timeLeft <= 0 {
          damageList := if remove then damageList[1..] else [info.(timeLeft := info.interval)] + damageList[1..];
          var ok := DoDamage(info.value, landed);
        }
        if !remove {
          if ticks > 0 { endTime := endTime + interval; }
          interval := 0;
        }
      }
      if ticks == -1 { return true; }
      ticks := Max(0, ticks - interval);
      alive := endTime >= tick.now;
    }

    method GetTotalDamage() returns (total: nat)
      ensures total == TotalDamage(State().damage)
      ensures damageList != [] ==> total == Sum(Values(damageList)) || total == -Sum(Values(damageList))
      ensures damageList == [] && maxDamage >= minDamage >= 0 ==> 2 * total <= 3 * maxDamage - minDamage <= 2 * total + 1
    {
      hide Values;
      var result := 0;
      if damageList != [] {
        assert damageList[..0] == [];
        NoValues();
        for i := 0 to |damageList|
          invariant result == Sum(Values(damageList[..i]))
        {
          SumOneMore(damageList, i);
          result := result + damageList[i].value;
        }
        assert damageList[..|damageList|] == damageList;
      } else {
        result := maxDamage + Half(maxDamage - minDamage);
      }
      total := Abs(result);
    }

    /** updateCondition */
    method UpdateCondition(other: ConditionDamage) returns (accepted: bool)
      ensures accepted == TakesOver(State(), other.State())
    {
      hide TotalDamage;
      if other.forceUpdate { return true; }
      if ticks == -1 && other.ticks > 0 { return false; }
      if other.ticks <= ticks { return false; }
      var mine := GetTotalDamage();
      var others := other.GetTotalDamage();
      if others < mine { return false; }
      if other.periodDamage < periodDamage { return false; }
      return true;
    }

    /** addCondition: the other condition takes over time, amounts and hits; the next hit keeps its due
        time and falls at once unless delayed. */
    method AddCondition(other: ConditionDamage, amount: int, landed: bool, now: int)
      requires Valid() && other.Valid() && other != this && Drawn(other.State().damage, amount)
      modifies this
      ensures Valid() && State() == MergedWith(old(State()), old(other.State()), amount, now)
      ensures dealt == old(dealt) || |dealt| == |old(dealt)| + 1
    {
      hide TakesOver, Initialised, HandedOut, Resumed, SetTo, Values, Sum;
      var accepted := UpdateCondition(other);
      if !accepted { return; }
      var nextTimeLeft := if damageList != [] then damageList[0].timeLeft else other.tickInterval;
      CopyFrom(other, now);
      var ok := Init(amount, now);
      if !ok { return; }
      Resume(nextTimeLeft);
      if !delayed { var dealtOne := FirstHit(landed); }
    }

    method CopyFrom(other: ConditionDamage, now: int)
      requires other != this
      modifies this
      ensures State() == SetTo(old(State()), other.ticks, now).(
                           damage := other.State().damage.(delayed := delayed, forceUpdate := old(forceUpdate),
                                                           periodDamageTick := old(periodDamageTick)))
      ensures delayed == old(delayed) && dealt == old(dealt)
    {
      SetTicks(other.ticks, now);
      maxDamage, minDamage, startDamage := other.maxDamage, other.minDamage, other.startDamage;
      tickInterval, periodDamage := other.tickInterval, other.periodDamage;
      damageList := other.damageList;
    }

    method Resume(timeLeft: int)
      modifies `damageList
      ensures State() == Resumed(old(State()), timeLeft)
    {
      if damageList != [] { damageList := [damageList[0].(timeLeft := timeLeft)] + damageList[1..]; }
    }

    /** Any run of executions, with or without a field underfoot: hits are dealt from the front, none
        is skipped, and none is dealt twice unless a field (or having no end) holds it back. */
    method Execute(run: seq<Tick>) returns (alive: bool)
      requires periodDamage == 0 && ticks >= -1
      modifies `ticks, `endTime, `periodDamageTick, `damageList, `dealt
      ensures old(dealt) <= dealt
      ensures Deals(dealt[|old(dealt)|..], Values(old(damageList)), Values(damageList))
      ensures (forall t :: t in run ==> OnTickCondition(conditionType, t.field, old(ticks) != -1)) ==>
                dealt + Values(damageList) == old(dealt) + Values(old(damageList))
    {
      hide OnTickCondition, Values, Deals, Executed;
      NothingDealt(Values(damageList));
      assert dealt[|dealt|..] == [];
      alive := true;
      var k := 0;
      while alive && k < |run|
        invariant 0 <= k <= |run| && periodDamage == 0 && (ticks == -1 <==> old(ticks) == -1) && ticks >= -1
        invariant old(dealt) <= dealt
        invariant Deals(dealt[|old(dealt)|..], Values(old(damageList)), Values(damageList))
        invariant (forall t :: t in run[..k] ==> OnTickCondition(conditionType, t.field, old(ticks) != -1)) ==>
                    dealt + Values(damageList) == old(dealt) + Values(old(damageList))
      {
        ghost var (list, was) := (damageList, dealt);
        if list != [] {
          DealsOneMore(was[|old(dealt)|..], Values(old(damageList)), Values(list));
          HeadDealt(was, list);
        }
        alive := ExecuteCondition(run[k], true);
        HeadTouched(list, damageList);
        if |dealt| > |was| {
          assert dealt[|old(dealt)|..] == was[|old(dealt)|..] + [list[0].value];
        }
        assert run[..k + 1] == run[..k] + [run[k]];
        assert run[k] in run[..k + 1];
        k := k + 1;
      }
      if k < |run| {
        assert forall t :: t in run[..k] ==> t in run;
      } else {
        assert run[..k] == run;
      }
    }

    /** Executes every delta milliseconds until the condition expires. A hit can fall only when
        ceil(tickInterval / delta) executions have passed since the one before, so those that do not
        fit into the time are never dealt. */
    method ExecuteUntilEnd(delta: nat, start: int) returns (k: nat)
      requires periodDamage == 0 && ticks >= 0 && delta > 0 && tickInterval > 0 && endTime >= start
      requires forall d :: d in damageList ==> d.timeLeft == d.interval == tickInterval
      modifies `ticks, `endTime, `periodDamageTick, `damageList, `dealt
      ensures k == Runs(endTime - start, delta) && endTime == old(endTime)
      ensures |damageList| == Waiting(|old(damageList)|, endTime - start, tickInterval, delta)
      ensures dealt + Values(damageList) == old(dealt) + Values(old(damageList))
    {
      hide Values, Executions, Waiting, Runs, Times;
      k := 0;
      var alive, now := true, start;
      ghost var (p, r, m, q) := (0, 0, |damageList|, Executions(tickInterval, delta));
      ghost var all := dealt + Values(damageList);
      WaitingBounds(0, tickInterval, delta);
      NoTimes(delta);
      NoTimes(q);
      while alive
        invariant periodDamage == 0 && ticks >= 0 && endTime == old(endTime)
        invariant now == start + Times(k, delta)
        invariant alive <==> k == 0 || endTime >= now
        invariant k > 0 ==> endTime >= now - delta
        invariant 0 <= p <= m && |damageList| == m - p && dealt + Values(damageList) == all
        invariant if p == m then Times(p, q) <= k else k == Times(p, q) + r && 0 <= r < q
        invariant p < m ==> damageList[0].timeLeft == tickInterval - Times(r, delta)
        invariant forall j :: 1 <= j < |damageList| ==> damageList[j].timeLeft == tickInterval
        invariant forall d :: d in damageList ==> d.interval == tickInterval
        decreases endTime - now + delta
      {
        ghost var (list, was) := (damageList, dealt);
        OneMoreTime(k, delta);
        k, now := k + 1, now + delta;
        alive := ExecuteCondition(Tick(delta, now, None), true);
        if p < m {
          HitDue(tickInterval, delta, r);
          HeadTouched(list, damageList);
          if r + 1 == q {
            OneMoreTime(p, q);
            p, r := p + 1, 0;
            HeadDealt(was, list);
          } else {
            r := r + 1;
          }
        }
      }
      if k > 0 { OneMoreTime(k - 1, delta); }
      RunsAre(endTime - start, delta, k);
      WaitingIs(m, endTime - start, tickInterval, delta, p, r);
    }
  }

  lemma SumOneMore(list: seq<IntervalInfo>, i: nat)
    requires i < |list|
    ensures Sum(Values(list[..i + 1])) == Sum(Values(list[..i])) + list[i].value
  {
    assert Values(list[..i + 1]) == Values(list[..i]) + [list[i].value];
    SumAppend(Values(list[..i]), [list[i].value]);
    assert [list[i].value][1..] == [] && Sum([list[i].value]) == list[i].value;
  }

  lemma HeadTouched(a: seq<IntervalInfo>, b: seq<IntervalInfo>)
    ensures |a| == |b| >= 1 && a[1..] == b[1..] && a[0].value == b[0].value ==> Values(a) == Values(b)
  {
    if |a| == |b| >= 1 && a[1..] == b[1..] {
      assert a == [a[0]] + a[1..] && b == [b[0]] + b[1..];
    }
  }

  /** All of m hits are dealt exactly when the executions that they need fit into the time. */
  lemma AllDealt(m: nat, span: int, interval: int, delta: int)
    requires delta > 0 && interval > 0
    ensures Waiting(m, span, interval, delta) == 0 <==> m * Executions(interval, delta) <= Runs(span, delta)
  {
    hide Runs, Executions;
    WaitingBounds(0, interval, delta);
    var (k, q) := (Runs(span, delta), Executions(interval, delta));
    assert k < (k / q) * q + q;
    if m * q <= k {
      QuotientAtLeast(k, q, m);
    } else if m <= k / q {
      if m < k / q { MulGap(k / q, m, q); }
    }
  }

  /** The hits that wait after the start, when a condition has n of them. */
  function AfterStart(n: nat, delayed: bool): nat {
    if delayed || n == 0 then n else n - 1
  }

  /** No list of hits, however long, loses any of them exactly when the executions divide the interval. */
  lemma NeverLost(interval: int, delta: int, delayed: bool)
    requires delta > 0 && interval > 0
    ensures (forall n: nat :: Waiting(AfterStart(n, delayed), n * interval, interval, delta) == 0) <==> interval % delta == 0
  {
    hide Waiting;
    if interval % delta == 0 {
      forall n: nat ensures Waiting(AfterStart(n, delayed), n * interval, interval, delta) == 0 {
        NothingLost(n, AfterStart(n, delayed), interval, delta);
      }
    } else {
      LongListLoses(interval, delta, delayed);
      var n := interval + 2 * delta + 1;
      assert Waiting(AfterStart(n, delayed), n * interval, interval, delta) != 0;
    }
  }

  lemma NothingLost(n: nat, m: nat, interval: int, delta: int)
    requires delta > 0 && interval > 0 && m <= n && interval % delta == 0
    ensures Waiting(m, n * interval, interval, delta) == 0
  {
    var q := interval / delta;
    assert interval == q * delta;
    QuotientIs(interval + delta - 1, delta, q);
    assert n * interval == (n * q) * delta;
    QuotientIs(n * interval, delta, n * q);
    ExecutionsCover(interval, delta);
    assert m * q <= n * q by { if m < n { MulGap(n, m, q); } }
    AllDealt(m, n * interval, interval, delta);
  }

  lemma LongListLoses(interval: int, delta: int, delayed: bool)
    requires delta > 0 && interval > 0 && interval % delta != 0
    ensures var n := interval + 2 * delta + 1; Waiting(AfterStart(n, delayed), n * interval, interval, delta) != 0
  {
    hide Waiting, Runs, Executions;
    var n := interval + 2 * delta + 1;
    var (m, q, k) := (AfterStart(n, delayed), Executions(interval, delta), Runs(n * interval, delta));
    AllDealt(m, n * interval, interval, delta);
    NeedsMore(interval, delta);
    RunsEnd(n * interval, delta);
    TooLong(m, n, interval, q * delta);
    Regroup(m, q, delta);
    if m * q < k { MulGap(k, m * q, delta); }
  }

  /** Each hit needs at least one millisecond more than its interval. */
  lemma TooLong(m: nat, n: nat, interval: nat, need: nat)
    requires need >= interval + 1 && n - 1 <= m
    ensures m * need >= n * interval - interval + m
  {
    assert m * need == m * (need - 1) + m;
    assert m * (need - 1) >= m * interval;
    assert m * interval >= (n - 1) * interval;
  }

  lemma Regroup(m: int, q: int, delta: int)
    ensures (m * q) * delta == m * (q * delta)
  {
  }

  /** An interval that the executions do not divide is overshot. */
  lemma NeedsMore(interval: int, delta: int)
    requires delta > 0 && interval > 0 && interval % delta != 0
    ensures Executions(interval, delta) * delta >= interval + 1
  {
    hide Executions;
    ExecutionsCover(interval, delta);
    var q := Executions(interval, delta);
    if q * delta == interval { Divides(q, delta); }
  }

  lemma Divides(q: int, delta: int)
    requires delta > 0
    ensures (q * delta) % delta == 0
  {
    var x := q * delta;
    QuotientIs(x, delta, q);
    assert x == (x / delta) * delta + x % delta;
  }

  lemma RunsEnd(span: int, delta: int)
    requires delta > 0
    ensures Runs(span, delta) * delta <= span + delta
  {
    assert (span / delta + 1) * delta == (span / delta) * delta + delta;
  }

  /** A condition from start to expiry: what was dealt is the drawn list without its lost tail. */
  method Burn(c: ConditionDamage, amount: int, delta: nat, now: int) returns (ghost initial: seq<int>, ghost lost: nat)
    requires c.Valid() && (c.minDamage <= amount <= c.maxDamage || c.maxDamage <= amount <= c.minDamage)
    requires c.periodDamage == 0 && c.damageList == [] && c.dealt == [] && c.tickInterval > 0 && delta > 0
    requires amount != 0 && !(c.startDamage > c.maxDamage == 0)
    modifies c
    ensures c.delayed == old(c.delayed) && c.tickInterval == old(c.tickInterval)
    ensures var s := StartValue(old(c.startDamage), old(c.maxDamage), amount); s >= 1 && initial == Negated(Hits(amount, s, s, 0))
    ensures lost <= |initial| && c.dealt == initial[..|initial| - lost]
    ensures lost == Waiting(AfterStart(|initial|, c.delayed), |initial| * c.tickInterval, c.tickInterval, delta)
    ensures lost == 0 <==>
              AfterStart(|initial|, c.delayed) * Executions(c.tickInterval, delta) <= Runs(|initial| * c.tickInterval, delta)
    ensures c.tickInterval % delta == 0 ==> lost == 0
    ensures lost == 0 ==> amount <= -Sum(c.dealt)
  {
    hide Hits, Negated, Sum, Triangle, StartValue, Values, Waiting, Runs, Executions, Started, HandedOut;
    var ok;
    ok, initial := c.StartCondition(amount, true, now);
    BurnStart(amount, old(c.startDamage), old(c.maxDamage), initial);
    ghost var (n, m, interval) := (|initial|, |c.damageList|, c.tickInterval);
    ghost var span := c.endTime - now;
    assert span == n * interval >= 0;
    var k := c.ExecuteUntilEnd(delta, now);
    lost := Waiting(m, span, interval, delta);
    Prefix(c.dealt, Values(c.damageList), initial);
    AllDealt(m, span, interval, delta);
    if interval % delta == 0 { NothingLost(n, m, interval, delta); }
  }

  /** Three hits of one, 750 milliseconds apart, with executions every 500: the last is never dealt. */
  method LastHitLost() returns (c: ConditionDamage, ghost initial: seq<int>)
    ensures c.delayed && c.tickInterval == 750 && initial == [-1, -1, -1] && c.dealt == [-1, -1]
  {
    hide Hits, Negated, Sum, StartValue, Waiting, Runs, Executions;
    c := new ConditionDamage(Fire);
    c.minDamage, c.maxDamage, c.startDamage, c.tickInterval, c.delayed := 3, 3, 1, 750, true;
    ThreeHits();
    ghost var lost;
    initial, lost := Burn(c, 3, 500, 0);
    assert lost == 1;
    assert initial[..2] == [-1, -1];
  }

  lemma ThreeHits()
    ensures StartValue(1, 3, 3) == 1 && Negated(Hits(3, 1, 1, 0)) == [-1, -1, -1]
    ensures Waiting(3, 3 * 750, 750, 500) == 1
  {
    assert Share(3, 1, 1) == 3 && Repeats(1, 1) == 1 && Repeats(2, 1) == 2 && Repeats(3, 1) == 3;
    assert Copies(1, 3) == [1, 1, 1] && Hits(3, 1, 1, 0) == [1, 1, 1];
    assert Executions(750, 500) == 2 && Runs(2250, 500) == 5;
  }

  lemma Prefix(a: seq<int>, b: seq<int>, all: seq<int>)
    requires a + b == all
    ensures a == all[..|all| - |b|] && (b == [] ==> a == all)
  {
  }

  lemma BurnStart(amount: int, startDamage: int, maxDamage: int, initial: seq<int>)
    requires amount > 0 && startDamage >= 0 && maxDamage >= 0 && !(startDamage > maxDamage == 0)
    requires var s := StartValue(startDamage, maxDamage, amount); s >= 1 ==> initial == Negated(Hits(amount, s, s, 0))
    ensures StartValue(startDamage, maxDamage, amount) >= 1 && initial != [] && amount <= -Sum(initial)
  {
    hide Hits, Sum;
    var s := StartValue(startDamage, maxDamage, amount);
    HitsFall(amount, s, s, 0);
    assert s in Hits(amount, s, s, 0);
    HitsTotal(amount, s, s, 0, 0);
    SumNegated(Hits(amount, s, s, 0));
  }
}
