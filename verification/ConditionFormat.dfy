/** How conditions are saved: tagged attributes, and what reading them back yields. */
module ConditionFormat {
  import opened Options
  import opened NodeFormat
  import opened PropStreams
  import opened Arithmetic

  type Int32 = v: int | -0x8000_0000 <= v < 0x8000_0000

  const ATTR_TYPE: Byte := 1
  const ATTR_ID: Byte := 2
  const ATTR_TICKS: Byte := 3
  const ATTR_HEALTHTICKS: Byte := 4
  const ATTR_HEALTHGAIN: Byte := 5
  const ATTR_MANATICKS: Byte := 6
  const ATTR_MANAGAIN: Byte := 7
  const ATTR_DELAYED: Byte := 8
  const ATTR_OWNER: Byte := 9
  const ATTR_INTERVALDATA: Byte := 10
  const ATTR_SPEEDDELTA: Byte := 11
  const ATTR_FORMULA_MINA: Byte := 12
  const ATTR_FORMULA_MINB: Byte := 13
  const ATTR_FORMULA_MAXA: Byte := 14
  const ATTR_FORMULA_MAXB: Byte := 15
  const ATTR_LIGHTCOLOR: Byte := 16
  const ATTR_LIGHTLEVEL: Byte := 17
  const ATTR_LIGHTTICKS: Byte := 18
  const ATTR_LIGHTINTERVAL: Byte := 19
  const ATTR_SOULTICKS: Byte := 20
  const ATTR_SOULGAIN: Byte := 21
  const ATTR_SKILLS: Byte := 22
  const ATTR_STATS: Byte := 23
  const ATTR_OUTFIT: Byte := 24
  const ATTR_PERIODDAMAGE: Byte := 25
  const ATTR_BUFF: Byte := 26
  const ATTR_SUBID: Byte := 27
  const ATTR_END: Byte := 254

  datatype Interval = Interval(timeLeft: Int32, value: Int32, interval: Int32)

  type Half = h: nat | h < 65536

  datatype Look = Look(lookType: Half, lookTypeEx: Half, head: Byte, body: Byte, legs: Byte, feet: Byte, addons: Byte)

  /** What each class adds to Condition and saves; a float is kept as its four bytes. */
  datatype Extra =
    | Generic
    | Attributes(skills: seq<Int32>, stats: seq<Int32>, currentSkill: nat, currentStat: nat)
    | Regeneration(healthTicks: Word, healthGain: Word, manaTicks: Word, manaGain: Word)
    | Soul(soulGain: Word, soulTicks: Word)
    | Damage(delayed: bool, periodDamage: Int32, owner: Word, damageList: seq<Interval>)
    | Outfit(outfits: seq<Look>)
    | Speed(looks: seq<Look>, speedDelta: Int32, mina: Word, minb: Word, maxa: Word, maxb: Word)
    | Light(color: Word, level: Word, lightTicks: Word, lightInterval: Word)

  datatype Saved = Saved(conditionType: Word, id: Int32, ticks: Int32, buff: bool, subId: Word, extra: Extra)

  // ----- Writing ---------------------------------------------------------------------------------

  function I32(v: Int32): (bytes: seq<Byte>)
    ensures |bytes| == 4
  {
    Le32(Unsigned(v))
  }

  /** The ten bytes of an Outfit_t, the last one padding. */
  function LookBytes(o: Look): (bytes: seq<Byte>)
    ensures |bytes| == 10
  {
    [o.lookType % 256, o.lookType / 256, o.lookTypeEx % 256, o.lookTypeEx / 256, o.head, o.body, o.legs, o.feet, o.addons, 0]
  }

  function IntervalBytes(d: Interval): (bytes: seq<Byte>)
    ensures |bytes| == 12
  {
    I32(d.timeLeft) + I32(d.value) + I32(d.interval)
  }

  /** Condition::serialize */
  function Header(s: Saved): (bytes: seq<Byte>)
    ensures |bytes| == 25
  {
    [ATTR_TYPE] + Le32(s.conditionType) + [ATTR_ID] + I32(s.id) + [ATTR_TICKS] + I32(s.ticks) +
    [ATTR_BUFF] + I32(if s.buff then 1 else 0) + [ATTR_SUBID] + Le32(s.subId)
  }

  function Ints(tag: Byte, list: seq<Int32>): seq<Byte> {
    if list == [] then [] else [tag] + I32(list[0]) + Ints(tag, list[1..])
  }

  function Looks(list: seq<Look>): seq<Byte> {
    if list == [] then [] else [ATTR_OUTFIT] + LookBytes(list[0]) + Looks(list[1..])
  }

  function Intervals(list: seq<Interval>): seq<Byte> {
    if list == [] then [] else [ATTR_INTERVALDATA] + IntervalBytes(list[0]) + Intervals(list[1..])
  }

  /** What the serialize of each class adds. */
  function Body(e: Extra): seq<Byte> {
    match e
    case Generic => []
    case Attributes(skills, stats, _, _) => Ints(ATTR_SKILLS, skills) + Ints(ATTR_STATS, stats)
    case Regeneration(ht, hg, mt, mg) =>
      Words(ATTR_HEALTHTICKS, ht, ATTR_HEALTHGAIN, hg, ATTR_MANATICKS, mt, ATTR_MANAGAIN, mg)
    case Soul(gain, ticks) => [ATTR_SOULGAIN] + Le32(gain) + [ATTR_SOULTICKS] + Le32(ticks)
    case Damage(delayed, period, owner, list) =>
      DamageBytes(delayed, period, owner) + Intervals(list)
    case Outfit(looks) => Looks(looks)
    case Speed(looks, delta, mina, minb, maxa, maxb) => Looks(looks) + SpeedBytes(delta, mina, minb, maxa, maxb)
    case Light(color, level, ticks, interval) =>
      Words(ATTR_LIGHTCOLOR, color, ATTR_LIGHTLEVEL, level, ATTR_LIGHTTICKS, ticks, ATTR_LIGHTINTERVAL, interval)
  }

  function SpeedBytes(delta: Int32, mina: Word, minb: Word, maxa: Word, maxb: Word): seq<Byte> {
    [ATTR_SPEEDDELTA] + I32(delta) +
    Words(ATTR_FORMULA_MINA, mina, ATTR_FORMULA_MINB, minb, ATTR_FORMULA_MAXA, maxa, ATTR_FORMULA_MAXB, maxb)
  }

  function DamageBytes(delayed: bool, period: Int32, owner: Word): seq<Byte> {
    [ATTR_DELAYED] + [if delayed then 1 else 0] + [ATTR_PERIODDAMAGE] + I32(period) + [ATTR_OWNER] + Le32(owner)
  }

  /** Four words under four tags. */
  function Words(a: Byte, x: Word, b: Byte, y: Word, c: Byte, z: Word, d: Byte, w: Word): seq<Byte> {
    [a] + Le32(x) + [b] + Le32(y) + [c] + Le32(z) + [d] + Le32(w)
  }

  // ----- Reading -----------------------------------------------------------------------------------

  function Word4(bytes: seq<Byte>): Word
    requires |bytes| >= 4
  {
    FromLe32(bytes[..4])
  }

  function LookFrom(b: seq<Byte>): Look
    requires |b| >= 10
  {
    Look(b[0] + 256 * b[1] as int, b[2] + 256 * b[3] as int, b[4], b[5], b[6], b[7], b[8])
  }

  function IntervalFrom(b: seq<Byte>): Interval
    requires |b| >= 12
  {
    Interval(Signed(Word4(b)), Signed(Word4(b[4..])), Signed(Word4(b[8..])))
  }

  /** Addition of int32. */
  function Wrap(v: int): Int32 {
    Signed(v % 0x1_0000_0000)
  }

  /** One interval read back: a condition with an end is lengthened by it. */
  function Raise(ticks: Int32, d: Interval): Int32 {
    if ticks == -1 then -1 else Wrap(ticks + d.interval)
  }

  /** How many bytes follow the tag, if the class of e knows it. */
  function Width(e: Extra, tag: Byte): Option<nat> {
    if tag == ATTR_TYPE || tag == ATTR_ID || tag == ATTR_TICKS || tag == ATTR_BUFF || tag == ATTR_SUBID then Some(4)
    else
      match e
      case Generic => None
      case Attributes(_, _, _, _) => if tag == ATTR_SKILLS || tag == ATTR_STATS then Some(4) else None
      case Regeneration(_, _, _, _) => if ATTR_HEALTHTICKS <= tag <= ATTR_MANAGAIN then Some(4) else None
      case Soul(_, _) => if tag == ATTR_SOULGAIN || tag == ATTR_SOULTICKS then Some(4) else None
      case Damage(_, _, _, _) =>
        if tag == ATTR_DELAYED then Some(1)
        else if tag == ATTR_PERIODDAMAGE || tag == ATTR_OWNER then Some(4)
        else if tag == ATTR_INTERVALDATA then Some(12)
        else None
      case Outfit(_) => if tag == ATTR_OUTFIT then Some(10) else None
      case Speed(_, _, _, _, _, _) =>
        if tag == ATTR_OUTFIT then Some(10) else if ATTR_SPEEDDELTA <= tag <= ATTR_FORMULA_MAXB then Some(4) else None
      case Light(_, _, _, _) => if ATTR_LIGHTCOLOR <= tag <= ATTR_LIGHTINTERVAL then Some(4) else None
  }

  /** The state after the attribute; b is its payload. */
  function Put(s: Saved, tag: Byte, b: seq<Byte>): Saved
    requires Width(s.extra, tag) == Some(|b|)
  {
    if tag == ATTR_TYPE then s.(conditionType := Word4(b))
    else if tag == ATTR_ID then s.(id := Signed(Word4(b)))
    else if tag == ATTR_TICKS then s.(ticks := Signed(Word4(b)))
    else if tag == ATTR_BUFF then s.(buff := Word4(b) != 0)
    else if tag == ATTR_SUBID then s.(subId := Word4(b))
    else if tag == ATTR_INTERVALDATA then
      s.(extra := s.extra.(damageList := s.extra.damageList + [IntervalFrom(b)]), ticks := Raise(s.ticks, IntervalFrom(b)))
    else s.(extra := PutExtra(s.extra, tag, b))
  }

  function PutExtra(e: Extra, tag: Byte, b: seq<Byte>): Extra
    requires Width(e, tag) == Some(|b|) && tag != ATTR_INTERVALDATA
  {
    match e
    case Attributes(skills, stats, i, j) =>
      if tag == ATTR_SKILLS then e.(skills := Set(skills, i, Signed(Word4(b))), currentSkill := i + 1)
      else if tag == ATTR_STATS then e.(stats := Set(stats, j, Signed(Word4(b))), currentStat := j + 1)
      else e
    case Regeneration(_, _, _, _) =>
      if tag == ATTR_HEALTHTICKS then e.(healthTicks := Word4(b))
      else if tag == ATTR_HEALTHGAIN then e.(healthGain := Word4(b))
      else if tag == ATTR_MANATICKS then e.(manaTicks := Word4(b))
      else if tag == ATTR_MANAGAIN then e.(manaGain := Word4(b))
      else e
    case Soul(_, _) =>
      if tag == ATTR_SOULGAIN then e.(soulGain := Word4(b)) else if tag == ATTR_SOULTICKS then e.(soulTicks := Word4(b)) else e
    case Damage(_, _, _, _) =>
      if tag == ATTR_DELAYED then e.(delayed := b[0] != 0)
      else if tag == ATTR_PERIODDAMAGE then e.(periodDamage := Signed(Word4(b)))
      else if tag == ATTR_OWNER then e.(owner := Word4(b))
      else e
    case Outfit(looks) => if tag == ATTR_OUTFIT then e.(outfits := looks + [LookFrom(b)]) else e
    case Speed(looks, _, _, _, _, _) =>
      if tag == ATTR_OUTFIT then e.(looks := looks + [LookFrom(b)])
      else if tag == ATTR_SPEEDDELTA then e.(speedDelta := Signed(Word4(b)))
      else if tag == ATTR_FORMULA_MINA then e.(mina := Word4(b))
      else if tag == ATTR_FORMULA_MINB then e.(minb := Word4(b))
      else if tag == ATTR_FORMULA_MAXA then e.(maxa := Word4(b))
      else if tag == ATTR_FORMULA_MAXB then e.(maxb := Word4(b))
      else e
    case Light(_, _, _, _) =>
      if tag == ATTR_LIGHTCOLOR then e.(color := Word4(b))
      else if tag == ATTR_LIGHTLEVEL then e.(level := Word4(b))
      else if tag == ATTR_LIGHTTICKS then e.(lightTicks := Word4(b))
      else if tag == ATTR_LIGHTINTERVAL then e.(lightInterval := Word4(b))
      else e
    case Generic => e
  }

  function Set(list: seq<Int32>, i: nat, v: Int32): seq<Int32> {
    if i < |list| then list[i := v] else list
  }

  /** unserialize: attributes up to the end tag, or up to the end of the stream. */
  datatype Outcome = Restored(s: Saved, rest: seq<Byte>) | Refused(partial: Saved, rest: seq<Byte>)

  function Read(s: Saved, bytes: seq<Byte>): (outcome: Outcome)
    ensures |outcome.rest| <= |bytes|
    decreases |bytes|
  {
    if bytes == [] then Restored(s, [])
    else if bytes[0] == ATTR_END then Restored(s, bytes[1..])
    else
      match Width(s.extra, bytes[0])
      case None => Refused(s, bytes[1..])
      case Some(n) =>
        if |bytes| - 1 < n then Refused(s, bytes[1..])
        else Read(Put(s, bytes[0], bytes[1..1 + n]), bytes[1 + n..])
  }

  // ----- One attribute there and back -----------------------------------------------------------------

  lemma ReadAttr(s: Saved, tag: Byte, b: seq<Byte>, rest: seq<Byte>)
    requires tag != ATTR_END && Width(s.extra, tag) == Some(|b|)
    ensures Read(s, [tag] + b + rest) == Read(Put(s, tag, b), rest)
  {
    hide Put, Width;
    var bytes := [tag] + b + rest;
    assert bytes[0] == tag && bytes[1..1 + |b|] == b && bytes[1 + |b|..] == rest;
  }

  lemma WordBack(w: Word)
    ensures Word4(Le32(w)) == w
  {
    Le32RoundTrip(w);
    assert Le32(w)[..4] == Le32(w);
  }

  lemma IntBack(v: Int32)
    ensures Signed(Word4(I32(v))) == v
  {
    WordBack(Unsigned(v));
  }

  lemma LookBack(o: Look)
    ensures LookFrom(LookBytes(o)) == o
  {
    assert o.lookType == o.lookType % 256 + 256 * (o.lookType / 256);
    assert o.lookTypeEx == o.lookTypeEx % 256 + 256 * (o.lookTypeEx / 256);
  }

  lemma IntervalBack(d: Interval)
    ensures IntervalFrom(IntervalBytes(d)) == d
  {
    var b := IntervalBytes(d);
    assert b[..4] == I32(d.timeLeft)[..4] && b[4..][..4] == I32(d.value)[..4] && b[8..][..4] == I32(d.interval)[..4];
    IntBack(d.timeLeft);
    IntBack(d.value);
    IntBack(d.interval);
  }

  // ----- Whole conditions there and back --------------------------------------------------------------

  /** e0 is what a new object of the class of e holds. */
  ghost predicate FreshFor(e0: Extra, e: Extra) {
    match (e0, e)
    case (Generic, Generic) => true
    case (Attributes(a, b, i, j), Attributes(c, d, _, _)) => |a| == |c| && |b| == |d| && i == j == 0
    case (Regeneration(_, _, _, _), Regeneration(_, _, _, _)) => true
    case (Soul(_, _), Soul(_, _)) => true
    case (Damage(_, _, _, list), Damage(_, _, _, _)) => list == []
    case (Outfit(looks), Outfit(_)) => looks == []
    case (Speed(looks, _, _, _, _, _), Speed(_, _, _, _, _, _)) => looks == []
    case (Light(_, _, _, _), Light(_, _, _, _)) => true
    case _ => false
  }

  /** The time left after reading a list of hits. */
  function Raised(ticks: Int32, list: seq<Interval>): Int32
    decreases list
  {
    if list == [] then ticks else Raised(Raise(ticks, list[0]), list[1..])
  }

  /** s after reading the attributes of e. */
  function After(s: Saved, e: Extra): Saved {
    match e
    case Attributes(skills, stats, _, _) => s.(extra := Attributes(skills, stats, |skills|, |stats|))
    case Damage(_, _, _, list) => s.(extra := e, ticks := Raised(s.ticks, list))
    case _ => s.(extra := e)
  }

  lemma {:induction false} ReadSkills(s: Saved, list: seq<Int32>, rest: seq<Byte>)
    requires s.extra.Attributes? && s.extra.currentSkill + |list| <= |s.extra.skills|
    ensures var (e, i) := (s.extra, s.extra.currentSkill);
            Read(s, Ints(ATTR_SKILLS, list) + rest) ==
            Read(s.(extra := e.(skills := e.skills[..i] + list + e.skills[i + |list|..], currentSkill := i + |list|)), rest)
    decreases list
  {
    hide Read, Word4, Signed, Le32;
    var (e, i) := (s.extra, s.extra.currentSkill);
    if list == [] {
      assert Ints(ATTR_SKILLS, list) + rest == rest;
      assert e.skills == e.skills[..i] + list + e.skills[i + |list|..];
    } else {
      var more := Ints(ATTR_SKILLS, list[1..]) + rest;
      assert Ints(ATTR_SKILLS, list) + rest == [ATTR_SKILLS] + I32(list[0]) + more;
      ReadAttr(s, ATTR_SKILLS, I32(list[0]), more);
      IntBack(list[0]);
      var next := Put(s, ATTR_SKILLS, I32(list[0]));
      ReadSkills(next, list[1..], rest);
      var f := next.extra.skills;
      assert f[..i + 1] + list[1..] + f[i + |list|..] == e.skills[..i] + list + e.skills[i + |list|..];
    }
  }

  lemma {:induction false} ReadStats(s: Saved, list: seq<Int32>, rest: seq<Byte>)
    requires s.extra.Attributes? && s.extra.currentStat + |list| <= |s.extra.stats|
    ensures var (e, i) := (s.extra, s.extra.currentStat);
            Read(s, Ints(ATTR_STATS, list) + rest) ==
            Read(s.(extra := e.(stats := e.stats[..i] + list + e.stats[i + |list|..], currentStat := i + |list|)), rest)
    decreases list
  {
    hide Read, Word4, Signed, Le32;
    var (e, i) := (s.extra, s.extra.currentStat);
    if list == [] {
      assert Ints(ATTR_STATS, list) + rest == rest;
      assert e.stats == e.stats[..i] + list + e.stats[i + |list|..];
    } else {
      var more := Ints(ATTR_STATS, list[1..]) + rest;
      assert Ints(ATTR_STATS, list) + rest == [ATTR_STATS] + I32(list[0]) + more;
      ReadAttr(s, ATTR_STATS, I32(list[0]), more);
      IntBack(list[0]);
      var next := Put(s, ATTR_STATS, I32(list[0]));
      ReadStats(next, list[1..], rest);
      var f := next.extra.stats;
      assert f[..i + 1] + list[1..] + f[i + |list|..] == e.stats[..i] + list + e.stats[i + |list|..];
    }
  }

  function WithLooks(e: Extra, list: seq<Look>): Extra
    requires e.Outfit? || e.Speed?
  {
    if e.Outfit? then e.(outfits := e.outfits + list) else e.(looks := e.looks + list)
  }

  lemma {:induction false} ReadLooks(s: Saved, list: seq<Look>, rest: seq<Byte>)
    requires s.extra.Outfit? || s.extra.Speed?
    ensures Read(s, Looks(list) + rest) == Read(s.(extra := WithLooks(s.extra, list)), rest)
    decreases list
  {
    hide Read, LookFrom, LookBytes;
    if list == [] {
      assert Looks(list) + rest == rest;
      assert WithLooks(s.extra, []) == s.extra by {
        assert forall a: seq<Look> {:trigger a + []} :: a + [] == a;
      }
    } else {
      var more := Looks(list[1..]) + rest;
      assert Looks(list) + rest == [ATTR_OUTFIT] + LookBytes(list[0]) + more;
      ReadAttr(s, ATTR_OUTFIT, LookBytes(list[0]), more);
      LookBack(list[0]);
      var next := Put(s, ATTR_OUTFIT, LookBytes(list[0]));
      ReadLooks(next, list[1..], rest);
      assert WithLooks(next.extra, list[1..]) == WithLooks(s.extra, list) by { AppendOne(list); }
    }
  }

  lemma AppendOne<T>(list: seq<T>)
    requires list != []
    ensures forall a: seq<T> {:trigger a + [list[0]]} :: a + [list[0]] + list[1..] == a + list
  {
    assert list == [list[0]] + list[1..];
    forall a: seq<T> ensures a + [list[0]] + list[1..] == a + list {
      assert a + [list[0]] + list[1..] == a + ([list[0]] + list[1..]);
    }
  }

  lemma {:induction false} ReadIntervals(s: Saved, list: seq<Interval>, rest: seq<Byte>)
    requires s.extra.Damage?
    ensures Read(s, Intervals(list) + rest) ==
            Read(s.(extra := s.extra.(damageList := s.extra.damageList + list), ticks := Raised(s.ticks, list)), rest)
    decreases list
  {
    hide Read, IntervalFrom, IntervalBytes, Raise;
    if list == [] {
      assert Intervals(list) + rest == rest && s.extra.damageList + [] == s.extra.damageList;
    } else {
      var more := Intervals(list[1..]) + rest;
      assert Intervals(list) + rest == [ATTR_INTERVALDATA] + IntervalBytes(list[0]) + more;
      ReadAttr(s, ATTR_INTERVALDATA, IntervalBytes(list[0]), more);
      IntervalBack(list[0]);
      var next := Put(s, ATTR_INTERVALDATA, IntervalBytes(list[0]));
      ReadIntervals(next, list[1..], rest);
      assert next.extra.damageList + list[1..] == s.extra.damageList + list by { AppendOne(list); }
    }
  }

  /** Reading four bytes under a tag. */
  lemma ReadWord(s: Saved, tag: Byte, w: Word, rest: seq<Byte>)
    requires tag != ATTR_END && Width(s.extra, tag) == Some(4)
    ensures Read(s, [tag] + Le32(w) + rest) == Read(Put(s, tag, Le32(w)), rest) && Word4(Le32(w)) == w
  {
    ReadAttr(s, tag, Le32(w), rest);
    WordBack(w);
  }

  lemma ReadHeader(base: Saved, s: Saved, rest: seq<Byte>)
    ensures Read(base, Header(s) + rest) == Read(s.(extra := base.extra), rest)
  {
    hide Read, Word4, Le32;
    var r5 := [ATTR_SUBID] + Le32(s.subId) + rest;
    var r4 := [ATTR_BUFF] + I32(if s.buff then 1 else 0) + r5;
    var r3 := [ATTR_TICKS] + I32(s.ticks) + r4;
    var r2 := [ATTR_ID] + I32(s.id) + r3;
    assert Header(s) + rest == [ATTR_TYPE] + Le32(s.conditionType) + r2;
    ReadWord(base, ATTR_TYPE, s.conditionType, r2);
    var s1 := base.(conditionType := s.conditionType);
    ReadWord(s1, ATTR_ID, Unsigned(s.id), r3);
    var s2 := s1.(id := s.id);
    ReadWord(s2, ATTR_TICKS, Unsigned(s.ticks), r4);
    var s3 := s2.(ticks := s.ticks);
    ReadWord(s3, ATTR_BUFF, Unsigned(if s.buff then 1 else 0), r5);
    var s4 := s3.(buff := s.buff);
    ReadWord(s4, ATTR_SUBID, s.subId, rest);
  }

  lemma ReadRegeneration(s: Saved, e: Extra, rest: seq<Byte>)
    requires s.extra.Regeneration? && e.Regeneration?
    ensures Read(s, Body(e) + rest) == Read(s.(extra := e), rest)
  {
    hide Read, Word4, Le32;
    var r3 := [ATTR_MANAGAIN] + Le32(e.manaGain) + rest;
    var r2 := [ATTR_MANATICKS] + Le32(e.manaTicks) + r3;
    var r1 := [ATTR_HEALTHGAIN] + Le32(e.healthGain) + r2;
    assert Body(e) + rest == [ATTR_HEALTHTICKS] + Le32(e.healthTicks) + r1;
    ReadWord(s, ATTR_HEALTHTICKS, e.healthTicks, r1);
    var s1 := s.(extra := s.extra.(healthTicks := e.healthTicks));
    ReadWord(s1, ATTR_HEALTHGAIN, e.healthGain, r2);
    var s2 := s1.(extra := s1.extra.(healthGain := e.healthGain));
    ReadWord(s2, ATTR_MANATICKS, e.manaTicks, r3);
    var s3 := s2.(extra := s2.extra.(manaTicks := e.manaTicks));
    ReadWord(s3, ATTR_MANAGAIN, e.manaGain, rest);
  }

  lemma ReadSoul(s: Saved, e: Extra, rest: seq<Byte>)
    requires s.extra.Soul? && e.Soul?
    ensures Read(s, Body(e) + rest) == Read(s.(extra := e), rest)
  {
    hide Read, Word4, Le32;
    var r1 := [ATTR_SOULTICKS] + Le32(e.soulTicks) + rest;
    assert Body(e) + rest == [ATTR_SOULGAIN] + Le32(e.soulGain) + r1;
    ReadWord(s, ATTR_SOULGAIN, e.soulGain, r1);
    ReadWord(s.(extra := s.extra.(soulGain := e.soulGain)), ATTR_SOULTICKS, e.soulTicks, rest);
  }

  lemma ReadLight(s: Saved, e: Extra, rest: seq<Byte>)
    requires s.extra.Light? && e.Light?
    ensures Read(s, Body(e) + rest) == Read(s.(extra := e), rest)
  {
    hide Read, Word4, Le32;
    var r3 := [ATTR_LIGHTINTERVAL] + Le32(e.lightInterval) + rest;
    var r2 := [ATTR_LIGHTTICKS] + Le32(e.lightTicks) + r3;
    var r1 := [ATTR_LIGHTLEVEL] + Le32(e.level) + r2;
    assert Body(e) + rest == [ATTR_LIGHTCOLOR] + Le32(e.color) + r1;
    ReadWord(s, ATTR_LIGHTCOLOR, e.color, r1);
    var s1 := s.(extra := s.extra.(color := e.color));
    ReadWord(s1, ATTR_LIGHTLEVEL, e.level, r2);
    var s2 := s1.(extra := s1.extra.(level := e.level));
    ReadWord(s2, ATTR_LIGHTTICKS, e.lightTicks, r3);
    var s3 := s2.(extra := s2.extra.(lightTicks := e.lightTicks));
    ReadWord(s3, ATTR_LIGHTINTERVAL, e.lightInterval, rest);
  }

  lemma ReadDamage(s: Saved, e: Extra, rest: seq<Byte>)
    requires s.extra.Damage? && e.Damage? && s.extra.damageList == []
    ensures Read(s, Body(e) + rest) == Read(s.(extra := e, ticks := Raised(s.ticks, e.damageList)), rest)
  {
    hide Read, Word4, Le32, Intervals, Raised;
    var r3 := Intervals(e.damageList) + rest;
    var r2 := [ATTR_OWNER] + Le32(e.owner) + r3;
    var r1 := [ATTR_PERIODDAMAGE] + I32(e.periodDamage) + r2;
    var flag: seq<Byte> := [if e.delayed then 1 else 0];
    assert Body(e) + rest == [ATTR_DELAYED] + flag + r1;
    ReadAttr(s, ATTR_DELAYED, flag, r1);
    var s1 := s.(extra := s.extra.(delayed := e.delayed));
    ReadWord(s1, ATTR_PERIODDAMAGE, Unsigned(e.periodDamage), r2);
    var s2 := s1.(extra := s1.extra.(periodDamage := e.periodDamage));
    ReadWord(s2, ATTR_OWNER, e.owner, r3);
    var s3 := s2.(extra := s2.extra.(owner := e.owner));
    ReadIntervals(s3, e.damageList, rest);
    assert [] + e.damageList == e.damageList;
  }

  lemma ReadSpeed(s: Saved, e: Extra, rest: seq<Byte>)
    requires s.extra.Speed? && e.Speed? && s.extra.looks == e.looks
    ensures Read(s, SpeedBytes(e.speedDelta, e.mina, e.minb, e.maxa, e.maxb) + rest) == Read(s.(extra := e), rest)
  {
    hide Read, Word4, Le32;
    var r4 := [ATTR_FORMULA_MAXB] + Le32(e.maxb) + rest;
    var r3 := [ATTR_FORMULA_MAXA] + Le32(e.maxa) + r4;
    var r2 := [ATTR_FORMULA_MINB] + Le32(e.minb) + r3;
    var r1 := [ATTR_FORMULA_MINA] + Le32(e.mina) + r2;
    assert SpeedBytes(e.speedDelta, e.mina, e.minb, e.maxa, e.maxb) + rest == [ATTR_SPEEDDELTA] + I32(e.speedDelta) + r1;
    ReadWord(s, ATTR_SPEEDDELTA, Unsigned(e.speedDelta), r1);
    var s1 := s.(extra := s.extra.(speedDelta := e.speedDelta));
    ReadWord(s1, ATTR_FORMULA_MINA, e.mina, r2);
    var s2 := s1.(extra := s1.extra.(mina := e.mina));
    ReadWord(s2, ATTR_FORMULA_MINB, e.minb, r3);
    var s3 := s2.(extra := s2.extra.(minb := e.minb));
    ReadWord(s3, ATTR_FORMULA_MAXA, e.maxa, r4);
    var s4 := s3.(extra := s3.extra.(maxa := e.maxa));
    ReadWord(s4, ATTR_FORMULA_MAXB, e.maxb, rest);
  }

  lemma ReadAttributes(s: Saved, e: Extra, rest: seq<Byte>)
    requires s.extra.Attributes? && e.Attributes? && FreshFor(s.extra, e)
    ensures Read(s, Body(e) + rest) == Read(After(s, e), rest)
  {
    hide Read, Ints;
    assert Body(e) + rest == Ints(ATTR_SKILLS, e.skills) + (Ints(ATTR_STATS, e.stats) + rest);
    ReadSkills(s, e.skills, Ints(ATTR_STATS, e.stats) + rest);
    assert [] + e.skills + [] == e.skills && [] + e.stats + [] == e.stats;
    ReadStats(s.(extra := s.extra.(skills := e.skills, currentSkill := |e.skills|)), e.stats, rest);
  }

  lemma ReadOutfit(s: Saved, e: Extra, rest: seq<Byte>)
    requires s.extra.Outfit? && e.Outfit? && FreshFor(s.extra, e)
    ensures Read(s, Body(e) + rest) == Read(After(s, e), rest)
  {
    hide Read, Looks;
    ReadLooks(s, e.outfits, rest);
    assert [] + e.outfits == e.outfits;
  }

  lemma ReadSpeedAll(s: Saved, e: Extra, rest: seq<Byte>)
    requires s.extra.Speed? && e.Speed? && FreshFor(s.extra, e)
    ensures Read(s, Body(e) + rest) == Read(After(s, e), rest)
  {
    hide Read, Looks, SpeedBytes;
    var bytes := SpeedBytes(e.speedDelta, e.mina, e.minb, e.maxa, e.maxb);
    assert Body(e) + rest == Looks(e.looks) + (bytes + rest);
    ReadLooks(s, e.looks, bytes + rest);
    assert [] + e.looks == e.looks;
    ReadSpeed(s.(extra := WithLooks(s.extra, e.looks)), e, rest);
  }

  lemma ReadGeneric(s: Saved, e: Extra, rest: seq<Byte>)
    requires s.extra.Generic? && e.Generic?
    ensures Read(s, Body(e) + rest) == Read(After(s, e), rest)
  {
    assert Body(e) + rest == rest;
  }

  /** The attributes of a class, read into a new object of that class, restore what was saved. */
  lemma ReadBody(s: Saved, e: Extra, rest: seq<Byte>)
    requires FreshFor(s.extra, e)
    ensures Read(s, Body(e) + rest) == Read(After(s, e), rest)
  {
    hide Read, Body, Raised;
    match e
    case Generic => ReadGeneric(s, e, rest);
    case Attributes(_, _, _, _) => ReadAttributes(s, e, rest);
    case Regeneration(_, _, _, _) => ReadRegeneration(s, e, rest);
    case Soul(_, _) => ReadSoul(s, e, rest);
    case Damage(_, _, _, _) => ReadDamage(s, e, rest);
    case Outfit(_) => ReadOutfit(s, e, rest);
    case Speed(_, _, _, _, _, _) => ReadSpeedAll(s, e, rest);
    case Light(_, _, _, _) => ReadLight(s, e, rest);
  }

  /** serialize and the end tag, read by unserialize of a new object of the same class: every saved
      field is back, and reading stops right behind the end tag. */
  lemma RoundTrip(base: Saved, s: Saved, suffix: seq<Byte>)
    requires FreshFor(base.extra, s.extra)
    ensures Read(base, Header(s) + Body(s.extra) + [ATTR_END] + suffix) ==
            Restored(After(s.(extra := base.extra), s.extra), suffix)
  {
    hide Header, Body, After;
    var tail := [ATTR_END] + suffix;
    assert Header(s) + Body(s.extra) + [ATTR_END] + suffix == Header(s) + (Body(s.extra) + tail);
    ReadHeader(base, s, Body(s.extra) + tail);
    ReadBody(s.(extra := base.extra), s.extra, tail);
    assert tail[1..] == suffix;
  }

  /** Only a damage condition can come back changed: its time left grows by its waiting intervals. */
  lemma ChangedOnlyByIntervals(s: Saved, e0: Extra)
    requires FreshFor(e0, s.extra)
    requires s.extra.Attributes? ==> s.extra.currentSkill == |s.extra.skills| && s.extra.currentStat == |s.extra.stats|
    ensures After(s.(extra := e0), s.extra) == s <==> (s.extra.Damage? ==> Raised(s.ticks, s.extra.damageList) == s.ticks)
  {
  }

  function IntervalsOf(list: seq<Interval>): seq<int> {
    seq(|list|, k requires 0 <= k < |list| => list[k].interval)
  }

  lemma RaiseAdds(ticks: Int32, d: Interval)
    requires ticks >= 0 && d.interval >= 0 && ticks + d.interval < 0x8000_0000
    ensures Raise(ticks, d) == ticks + d.interval
  {
  }

  /** Short of overflow, the time left grows by the sum of the intervals. */
  lemma {:induction false} RaisedBySum(ticks: Int32, list: seq<Interval>)
    requires ticks >= 0 && (forall k :: 0 <= k < |list| ==> list[k].interval >= 0)
    requires ticks + Sum(IntervalsOf(list)) < 0x8000_0000
    ensures Raised(ticks, list) == ticks + Sum(IntervalsOf(list))
    decreases list
  {
    hide Raise;
    if list != [] {
      assert IntervalsOf(list)[1..] == IntervalsOf(list[1..]);
      SumNotNegative(IntervalsOf(list[1..]));
      RaiseAdds(ticks, list[0]);
      RaisedBySum(ticks + list[0].interval, list[1..]);
    }
  }

  lemma {:induction false} SumNotNegative(list: seq<int>)
    requires forall k :: 0 <= k < |list| ==> list[k] >= 0
    ensures Sum(list) >= 0
  {
    if list != [] { SumNotNegative(list[1..]); }
  }

  // ----- The saved conditions of a player ----------------------------------------------------------------

  const CONDITIONID_COMBAT: Int32 := 0
  const CONDITION_GAMEMASTER: Word := 0x40_0000
  const SKILLS: nat := 7
  const STATS: nat := 5

  /** createCondition: a new object of the class that belongs to the type; the time of a damage
      condition is dropped, because its intervals will add up to it. */
  function New(conditionType: Word, id: Int32, ticks: Int32, buff: bool, subId: Word): Option<Saved> {
    match ExtraOf(conditionType)
    case None => None
    case Some(extra) => Some(Saved(conditionType, id, if extra.Damage? then 0 else ticks, buff, subId, extra))
  }

  function ExtraOf(conditionType: Word): Option<Extra> {
    if conditionType in {0x1, 0x2, 0x4, 0x8, 0x8000, 0x4_0000, 0x8_0000, 0x10_0000,
                         0x100_0000, 0x200_0000, 0x400_0000, 0x800_0000,
                         0x1000_0000, 0x2000_0000, 0x4000_0000, 0x8000_0000} then Some(Damage(false, 0, 0, []))
    else if conditionType in {0x10, 0x20} then Some(Speed([], 0, 0, 0, 0, 0))
    else if conditionType == 0x40 then Some(Outfit([]))
    else if conditionType == 0x100 then Some(Light(0, 0, 0, 0))
    else if conditionType == 0x2000 then Some(Regeneration(0, 0, 0, 0))
    else if conditionType == 0x4000 then Some(Soul(0, 0))
    else if conditionType == 0x2_0000 then Some(Attributes(seq(SKILLS, i => 0), seq(STATS, i => 0), 0, 0))
    else if conditionType in {0x80, 0x200, 0x400, 0x800, 0x1000, 0x1_0000, 0x20_0000, CONDITION_GAMEMASTER, 0x80_0000} then Some(Generic)
    else None
  }

  /** createCondition(propStream): the five attributes in the order serialize writes them. */
  function Create(bytes: seq<Byte>): Option<Saved> {
    if |bytes| >= 25 && bytes[0] == ATTR_TYPE && bytes[5] == ATTR_ID && bytes[10] == ATTR_TICKS &&
       bytes[15] == ATTR_BUFF && bytes[20] == ATTR_SUBID then
      New(Word4(bytes[1..]), Signed(Word4(bytes[6..])), Signed(Word4(bytes[11..])), Word4(bytes[16..]) != 0, Word4(bytes[21..]))
    else None
  }

  /** The objects of a class hold what the class says. */
  ghost predicate OfItsClass(s: Saved) {
    ExtraOf(s.conditionType).Some? && FreshFor(ExtraOf(s.conditionType).value, s.extra)
  }

  /** What is saved when a player is. */
  predicate Kept(s: Saved) {
    (s.ticks > 0 && s.id != CONDITIONID_COMBAT) || s.conditionType == CONDITION_GAMEMASTER
  }

  function SaveOne(s: Saved): seq<Byte> {
    if Kept(s) then Header(s) + Body(s.extra) + [ATTR_END] else []
  }

  function SaveAll(list: seq<Saved>): seq<Byte> {
    if list == [] then [] else SaveOne(list[0]) + SaveAll(list[1..])
  }

  /** What is loaded when a player is: conditions that cannot be read are skipped. */
  function LoadAll(bytes: seq<Byte>): seq<Saved>
    decreases |bytes|
  {
    match Create(bytes)
    case None => []
    case Some(s) =>
      match Read(s, bytes[25..])
      case Restored(t, rest) => [t] + LoadAll(rest)
      case Refused(_, rest) => LoadAll(rest)
  }

  /** A condition as it comes back: a damage condition lasts for its waiting hits. */
  function Reloaded(s: Saved): Saved {
    match s.extra
    case Damage(_, _, _, list) => s.(ticks := Raised(0, list))
    case Attributes(skills, stats, _, _) => s.(extra := Attributes(skills, stats, |skills|, |stats|))
    case _ => s
  }

  function ReloadedAll(list: seq<Saved>): seq<Saved> {
    if list == [] then [] else (if Kept(list[0]) then [Reloaded(list[0])] else []) + ReloadedAll(list[1..])
  }

  lemma CreateHeader(s: Saved, rest: seq<Byte>)
    requires OfItsClass(s)
    ensures Create(Header(s) + rest) == New(s.conditionType, s.id, s.ticks, s.buff, s.subId)
    ensures (Header(s) + rest)[25..] == rest
  {
    hide New, Signed, Word4, Le32, Unsigned, ExtraOf;
    var bytes := Header(s) + rest;
    HeaderParts(s, rest);
    WordBack(s.conditionType);
    IntBack(s.id);
    IntBack(s.ticks);
    WordBack(Unsigned(if s.buff then 1 else 0));
    BuffBack(s.buff);
    WordBack(s.subId);
    SameWord(bytes[1..], Le32(s.conditionType));
    SameWord(bytes[6..], I32(s.id));
    SameWord(bytes[11..], I32(s.ticks));
    SameWord(bytes[16..], I32(if s.buff then 1 else 0));
    SameWord(bytes[21..], Le32(s.subId));
  }

  lemma BuffBack(buff: bool)
    ensures (Unsigned(if buff then 1 else 0) != 0) == buff
  {
  }

  lemma SameWord(a: seq<Byte>, b: seq<Byte>)
    requires |a| >= 4 && |b| == 4 && a[..4] == b
    ensures Word4(a) == Word4(b)
  {
    assert b[..4] == b;
  }

  lemma HeaderParts(s: Saved, rest: seq<Byte>)
    ensures var b := Header(s) + rest;
            && b[0] == ATTR_TYPE && b[5] == ATTR_ID && b[10] == ATTR_TICKS && b[15] == ATTR_BUFF && b[20] == ATTR_SUBID
            && b[1..][..4] == Le32(s.conditionType) && b[6..][..4] == I32(s.id) && b[11..][..4] == I32(s.ticks)
            && b[16..][..4] == I32(if s.buff then 1 else 0) && b[21..][..4] == Le32(s.subId) && b[25..] == rest
  {
    hide Le32, Unsigned;
  }

  /** Saving and loading a player's conditions: every kept condition comes back, in order, and
      nothing else does. */
  lemma {:induction false} LoadSaved(list: seq<Saved>)
    requires forall k :: 0 <= k < |list| ==> OfItsClass(list[k])
    ensures LoadAll(SaveAll(list)) == ReloadedAll(list)
    decreases list
  {
    hide Header, Body, Read, Reloaded, OfItsClass;
    if list != [] {
      LoadSaved(list[1..]);
      var s := list[0];
      if Kept(s) {
        LoadOne(s, SaveAll(list[1..]));
        assert SaveAll(list) == Header(s) + Body(s.extra) + [ATTR_END] + SaveAll(list[1..]);
      } else {
        assert SaveAll(list) == SaveAll(list[1..]);
        assert ReloadedAll(list) == ReloadedAll(list[1..]);
      }
    }
  }

  /** A player's condition is saved exactly when it has time left and does not come from combat, or is that
      of a gamemaster. */
  lemma SavedAlone(s: Saved)
    requires OfItsClass(s)
    ensures LoadAll(SaveAll([s])) == if (s.ticks > 0 && s.id != 0) || s.conditionType == 0x40_0000 then [Reloaded(s)] else []
  {
    hide Reloaded, OfItsClass, LoadAll, SaveOne;
    LoadSaved([s]);
  }

  lemma WordBytes(w: Word, a: Byte, b: Byte, c: Byte, d: Byte)
    requires w == a as int + 256 * b as int + 65536 * c as int + 16777216 * d as int
    ensures Le32(w) == [a, b, c, d]
  {
    var z: int := c as int + 256 * d as int;
    var y: int := b as int + 256 * z;
    DivMod(w, y, a as int);
    DivMod(y, z, b as int);
    DivMod(z, d as int, c as int);
    assert w / 65536 == w / 256 / 256 && w / 16777216 == w / 256 / 256 / 256;
  }

  lemma DivMod(x: int, q: int, r: int)
    requires x == 256 * q + r && 0 <= r < 256
    ensures x / 256 == q && x % 256 == r
  {
  }

  /** A fire condition for the examples below. */
  const BURNING := Saved(2, -1, 1000, true, 0x0102_0304, Damage(true, -5, 258, [Interval(500, -10, 2000)]))

  /** How it is saved, byte by byte: the common attributes, those of its class, and the end tag. */
  lemma BurningBytes()
    ensures SaveOne(BURNING) == Header(BURNING) + Body(BURNING.extra) + [254]
    ensures Header(BURNING) == [1, 2, 0, 0, 0] + [2, 255, 255, 255, 255] + [3, 232, 3, 0, 0] + [26, 1, 0, 0, 0] + [27, 4, 3, 2, 1]
    ensures Body(BURNING.extra) == [8, 1] + [25, 251, 255, 255, 255] + [9, 2, 1, 0, 0] +
                                   [10, 244, 1, 0, 0, 246, 255, 255, 255, 208, 7, 0, 0]
  {
    hide Header, Body, Le32;
    BurningHeader();
    BurningBody();
  }

  lemma BurningHeader()
    ensures Header(BURNING) == [1, 2, 0, 0, 0] + [2, 255, 255, 255, 255] + [3, 232, 3, 0, 0] + [26, 1, 0, 0, 0] + [27, 4, 3, 2, 1]
  {
    hide Le32;
    WordBytes(2, 2, 0, 0, 0);
    WordBytes(Unsigned(-1), 255, 255, 255, 255);
    WordBytes(1000, 232, 3, 0, 0);
    WordBytes(1, 1, 0, 0, 0);
    WordBytes(0x0102_0304, 4, 3, 2, 1);
  }

  lemma BurningBody()
    ensures Body(BURNING.extra) == [8, 1] + [25, 251, 255, 255, 255] + [9, 2, 1, 0, 0] +
                                   [10, 244, 1, 0, 0, 246, 255, 255, 255, 208, 7, 0, 0]
  {
    hide Le32;
    WordBytes(Unsigned(-5), 251, 255, 255, 255);
    WordBytes(258, 2, 1, 0, 0);
    WordBytes(500, 244, 1, 0, 0);
    WordBytes(Unsigned(-10), 246, 255, 255, 255);
    WordBytes(2000, 208, 7, 0, 0);
    var d := Interval(500, -10, 2000);
    assert Intervals([d]) == [ATTR_INTERVALDATA] + IntervalBytes(d);
  }

  lemma LoadOne(s: Saved, more: seq<Byte>)
    requires OfItsClass(s)
    ensures LoadAll(Header(s) + Body(s.extra) + [ATTR_END] + more) == [Reloaded(s)] + LoadAll(more)
  {
    hide Header, Body, Read, Create;
    var tail := Body(s.extra) + ([ATTR_END] + more);
    assert Header(s) + Body(s.extra) + [ATTR_END] + more == Header(s) + tail;
    CreateHeader(s, tail);
    var base := New(s.conditionType, s.id, s.ticks, s.buff, s.subId).value;
    ReadBody(base, s.extra, [ATTR_END] + more);
    ReadEnd(After(base, s.extra), more);
    assert After(base, s.extra) == Reloaded(s);
  }

  lemma ReadEnd(s: Saved, more: seq<Byte>)
    ensures Read(s, [ATTR_END] + more) == Restored(s, more)
  {
    assert ([ATTR_END] + more)[1..] == more;
  }
}
