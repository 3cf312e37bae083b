/** Condition objects written to and read from the property streams. */
module ConditionStream {
  import opened Options
  import opened NodeFormat
  import opened PropStreams
  import opened ConditionFormat

  class Condition {
    var conditionType: Word
    var id: Int32
    var ticks: Int32
    var buff: bool
    var subId: Word
    var extra: Extra           // the fields of the derived class

    constructor (s: Saved)
      ensures State() == s
    {
      conditionType, id, ticks, buff, subId, extra := s.conditionType, s.id, s.ticks, s.buff, s.subId, s.extra;
    }

    function State(): Saved
      reads this
    {
      Saved(conditionType, id, ticks, buff, subId, extra)
    }

    method Update(s: Saved)
      modifies this
      ensures State() == s
    {
      conditionType, id, ticks, buff, subId, extra := s.conditionType, s.id, s.ticks, s.buff, s.subId, s.extra;
    }

    /** ADD_UCHAR of the tag, ADD_VALUE of the payload. */
    static method AddAttr(stream: PropWriteStream, tag: Byte, payload: seq<Byte>)
      requires stream.Valid()
      modifies stream, stream.buffer
      ensures stream.Valid() && stream.Contents() == old(stream.Contents()) + [tag] + payload
      ensures stream.buffer == old(stream.buffer) || fresh(stream.buffer)
    {
      stream.AddValue([tag]);
      stream.AddValue(payload);
    }

    static method AddInts(stream: PropWriteStream, tag: Byte, list: seq<Int32>)
      requires stream.Valid()
      modifies stream, stream.buffer
      ensures stream.Valid() && stream.Contents() == old(stream.Contents()) + Ints(tag, list)
      ensures stream.buffer == old(stream.buffer) || fresh(stream.buffer)
    {
      hide Le32, Unsigned, PropWriteStream.Contents, PropWriteStream.Valid;
      for i := 0 to |list|
        invariant stream.Valid() && (stream.buffer == old(stream.buffer) || fresh(stream.buffer))
        invariant stream.Contents() + Ints(tag, list[i..]) == old(stream.Contents()) + Ints(tag, list)
      {
        AddAttr(stream, tag, I32(list[i]));
        assert list[i..][1..] == list[i + 1..];
      }
    }

    static method AddLooks(stream: PropWriteStream, list: seq<Look>)
      requires stream.Valid()
      modifies stream, stream.buffer
      ensures stream.Valid() && stream.Contents() == old(stream.Contents()) + Looks(list)
      ensures stream.buffer == old(stream.buffer) || fresh(stream.buffer)
    {
      hide LookBytes, PropWriteStream.Contents, PropWriteStream.Valid;
      for i := 0 to |list|
        invariant stream.Valid() && (stream.buffer == old(stream.buffer) || fresh(stream.buffer))
        invariant stream.Contents() + Looks(list[i..]) == old(stream.Contents()) + Looks(list)
      {
        AddAttr(stream, ATTR_OUTFIT, LookBytes(list[i]));
        assert list[i..][1..] == list[i + 1..];
      }
    }

    static method AddIntervals(stream: PropWriteStream, list: seq<Interval>)
      requires stream.Valid()
      modifies stream, stream.buffer
      ensures stream.Valid() && stream.Contents() == old(stream.Contents()) + Intervals(list)
      ensures stream.buffer == old(stream.buffer) || fresh(stream.buffer)
    {
      hide IntervalBytes, PropWriteStream.Contents, PropWriteStream.Valid;
      for i := 0 to |list|
        invariant stream.Valid() && (stream.buffer == old(stream.buffer) || fresh(stream.buffer))
        invariant stream.Contents() + Intervals(list[i..]) == old(stream.Contents()) + Intervals(list)
      {
        AddAttr(stream, ATTR_INTERVALDATA, IntervalBytes(list[i]));
        assert list[i..][1..] == list[i + 1..];
      }
    }

    static method AddWords(stream: PropWriteStream, a: Byte, x: Word, b: Byte, y: Word, c: Byte, z: Word, d: Byte, w: Word)
      requires stream.Valid()
      modifies stream, stream.buffer
      ensures stream.buffer == old(stream.buffer) || fresh(stream.buffer)
      ensures stream.Valid() && stream.Contents() == old(stream.Contents()) + Words(a, x, b, y, c, z, d, w)
    {
      hide Le32, PropWriteStream.Contents, PropWriteStream.Valid;
      AddAttr(stream, a, Le32(x));
      AddAttr(stream, b, Le32(y));
      AddAttr(stream, c, Le32(z));
      AddAttr(stream, d, Le32(w));
    }

    static method AddDamage(stream: PropWriteStream, delayed: bool, period: Int32, owner: Word)
      requires stream.Valid()
      modifies stream, stream.buffer
      ensures stream.Valid() && stream.Contents() == old(stream.Contents()) + DamageBytes(delayed, period, owner)
      ensures stream.buffer == old(stream.buffer) || fresh(stream.buffer)
    {
      hide Le32, Unsigned, PropWriteStream.Contents, PropWriteStream.Valid;
      AddAttr(stream, ATTR_DELAYED, [if delayed then 1 else 0]);
      AddAttr(stream, ATTR_PERIODDAMAGE, I32(period));
      AddAttr(stream, ATTR_OWNER, Le32(owner));
    }

    method SerializeAttributes(stream: PropWriteStream)
      requires stream.Valid() && extra.Attributes?
      modifies stream, stream.buffer
      ensures stream.Valid() && stream.Contents() == old(stream.Contents()) + Body(extra)
      ensures stream.buffer == old(stream.buffer) || fresh(stream.buffer)
    {
      hide Le32, Unsigned, Ints, Looks, Intervals, Words, DamageBytes, SpeedBytes, PropWriteStream.Contents, PropWriteStream.Valid;
      AddInts(stream, ATTR_SKILLS, extra.skills);
      AddInts(stream, ATTR_STATS, extra.stats);
    }

    method SerializeRegeneration(stream: PropWriteStream)
      requires stream.Valid() && extra.Regeneration?
      modifies stream, stream.buffer
      ensures stream.Valid() && stream.Contents() == old(stream.Contents()) + Body(extra)
      ensures stream.buffer == old(stream.buffer) || fresh(stream.buffer)
    {
      hide Le32, Unsigned, Ints, Looks, Intervals, Words, DamageBytes, SpeedBytes, PropWriteStream.Contents, PropWriteStream.Valid;
      AddWords(stream, ATTR_HEALTHTICKS, extra.healthTicks, ATTR_HEALTHGAIN, extra.healthGain,
               ATTR_MANATICKS, extra.manaTicks, ATTR_MANAGAIN, extra.manaGain);
    }

    method SerializeSoul(stream: PropWriteStream)
      requires stream.Valid() && extra.Soul?
      modifies stream, stream.buffer
      ensures stream.Valid() && stream.Contents() == old(stream.Contents()) + Body(extra)
      ensures stream.buffer == old(stream.buffer) || fresh(stream.buffer)
    {
      hide Le32, Unsigned, Ints, Looks, Intervals, Words, DamageBytes, SpeedBytes, PropWriteStream.Contents, PropWriteStream.Valid;
      AddAttr(stream, ATTR_SOULGAIN, Le32(extra.soulGain));
      AddAttr(stream, ATTR_SOULTICKS, Le32(extra.soulTicks));
    }

    method SerializeDamage(stream: PropWriteStream)
      requires stream.Valid() && extra.Damage?
      modifies stream, stream.buffer
      ensures stream.Valid() && stream.Contents() == old(stream.Contents()) + Body(extra)
      ensures stream.buffer == old(stream.buffer) || fresh(stream.buffer)
    {
      hide Le32, Unsigned, Ints, Looks, Intervals, Words, DamageBytes, SpeedBytes, PropWriteStream.Contents, PropWriteStream.Valid;
      AddDamage(stream, extra.delayed, extra.periodDamage, extra.owner);
      AddIntervals(stream, extra.damageList);
    }

    method AddSpeed(stream: PropWriteStream)
      requires stream.Valid() && extra.Speed?
      modifies stream, stream.buffer
      ensures stream.Valid()
      ensures stream.Contents() == old(stream.Contents()) +
                                   SpeedBytes(extra.speedDelta, extra.mina, extra.minb, extra.maxa, extra.maxb)
      ensures stream.buffer == old(stream.buffer) || fresh(stream.buffer)
    {
      hide Le32, Unsigned, Words, PropWriteStream.Contents, PropWriteStream.Valid;
      AddAttr(stream, ATTR_SPEEDDELTA, I32(extra.speedDelta));
      AddWords(stream, ATTR_FORMULA_MINA, extra.mina, ATTR_FORMULA_MINB, extra.minb,
               ATTR_FORMULA_MAXA, extra.maxa, ATTR_FORMULA_MAXB, extra.maxb);
    }

    method SerializeSpeed(stream: PropWriteStream)
      requires stream.Valid() && extra.Speed?
      modifies stream, stream.buffer
      ensures stream.Valid() && stream.Contents() == old(stream.Contents()) + Body(extra)
      ensures stream.buffer == old(stream.buffer) || fresh(stream.buffer)
    {
      hide Le32, Unsigned, Ints, Looks, Intervals, Words, DamageBytes, SpeedBytes, PropWriteStream.Contents, PropWriteStream.Valid;
      AddLooks(stream, extra.looks);
      AddSpeed(stream);
    }

    method SerializeLight(stream: PropWriteStream)
      requires stream.Valid() && extra.Light?
      modifies stream, stream.buffer
      ensures stream.Valid() && stream.Contents() == old(stream.Contents()) + Body(extra)
      ensures stream.buffer == old(stream.buffer) || fresh(stream.buffer)
    {
      hide Le32, Unsigned, Ints, Looks, Intervals, Words, DamageBytes, SpeedBytes, PropWriteStream.Contents, PropWriteStream.Valid;
      AddWords(stream, ATTR_LIGHTCOLOR, extra.color, ATTR_LIGHTLEVEL, extra.level,
               ATTR_LIGHTTICKS, extra.lightTicks, ATTR_LIGHTINTERVAL, extra.lightInterval);
    }

    /** What the derived class adds. */
    method SerializeBody(stream: PropWriteStream)
      requires stream.Valid()
      modifies stream, stream.buffer
      ensures stream.Valid() && stream.Contents() == old(stream.Contents()) + Body(extra)
      ensures stream.buffer == old(stream.buffer) || fresh(stream.buffer)
    {
      hide Le32, Unsigned, PropWriteStream.Contents, PropWriteStream.Valid;
      match extra {
        case Generic =>
        case Attributes(_, _, _, _) => SerializeAttributes(stream);
        case Regeneration(_, _, _, _) => SerializeRegeneration(stream);
        case Soul(_, _) => SerializeSoul(stream);
        case Damage(_, _, _, _) => SerializeDamage(stream);
        case Outfit(looks) => AddLooks(stream, looks);
        case Speed(_, _, _, _, _, _) => SerializeSpeed(stream);
        case Light(_, _, _, _) => SerializeLight(stream);
      }
    }

    method SerializeHeader(stream: PropWriteStream)
      requires stream.Valid()
      modifies stream, stream.buffer
      ensures stream.Valid() && stream.Contents() == old(stream.Contents()) + Header(State())
      ensures stream.buffer == old(stream.buffer) || fresh(stream.buffer)
    {
      hide Le32, Unsigned, Header, Words, PropWriteStream.Contents, PropWriteStream.Valid;
      HeaderParts(State());
      AddAttr(stream, ATTR_TYPE, Le32(conditionType));
      AddWords(stream, ATTR_ID, Unsigned(id), ATTR_TICKS, Unsigned(ticks),
               ATTR_BUFF, Unsigned(if buff then 1 else 0), ATTR_SUBID, subId);
    }

    static lemma HeaderParts(s: Saved)
      ensures Header(s) == [ATTR_TYPE] + Le32(s.conditionType) +
                           Words(ATTR_ID, Unsigned(s.id), ATTR_TICKS, Unsigned(s.ticks),
                                 ATTR_BUFF, Unsigned(if s.buff then 1 else 0), ATTR_SUBID, s.subId)
    {
      hide Le32, Unsigned;
    }

    method Serialize(stream: PropWriteStream)
      requires stream.Valid()
      modifies stream, stream.buffer
      ensures stream.Valid() && stream.Contents() == old(stream.Contents()) + Header(State()) + Body(extra)
      ensures stream.buffer == old(stream.buffer) || fresh(stream.buffer)
    {
      SerializeHeader(stream);
      SerializeBody(stream);
    }

    /** What reading one attribute means: a known tag with its payload behind it changes the state and
        consumes the payload; otherwise nothing changes. */
    static ghost predicate Took(s: Saved, bytes: seq<Byte>, tag: Byte, ok: bool, t: Saved, rest: seq<Byte>) {
      && (ok <==> Width(s.extra, tag).Some? && |bytes| >= Width(s.extra, tag).value)
      && (ok ==> var n := Width(s.extra, tag).value; t == Put(s, tag, bytes[..n]) && rest == bytes[n..])
      && (!ok ==> t == s && rest == bytes)
    }

    /** GET_VALUE of four bytes. */
    static method GetWord(stream: PropStream) returns (ok: bool, w: Word)
      requires stream.Valid()
      modifies stream
      ensures stream.Valid() && ok == (|old(stream.Rest())| >= 4)
      ensures if ok then w == Word4(old(stream.Rest())[..4]) && stream.Rest() == old(stream.Rest())[4..]
              else stream.Rest() == old(stream.Rest())
    {
      var bytes;
      ok, bytes := stream.GetValue(4);
      w := if ok then Word4(bytes) else 0;
    }

    /** Condition::unserializeProp */
    method UnserializeBase(tag: Byte, stream: PropStream) returns (ok: bool)
      requires stream.Valid() && tag != ATTR_END
      requires Width(extra, tag) == if tag in {ATTR_TYPE, ATTR_ID, ATTR_TICKS, ATTR_BUFF, ATTR_SUBID} then Some(4) else None
      modifies this, stream
      ensures stream.Valid() && Took(old(State()), old(stream.Rest()), tag, ok, State(), stream.Rest())
    {
      hide Word4, Signed, PutExtra, IntervalFrom, Width, PropStream.Rest, PropStream.Valid;
      if tag !in {ATTR_TYPE, ATTR_ID, ATTR_TICKS, ATTR_BUFF, ATTR_SUBID} { return false; }
      var w;
      ok, w := GetWord(stream);
      if !ok { return; }
      if tag == ATTR_TYPE {
        conditionType := w;
      } else if tag == ATTR_ID {
        id := Signed(w);
      } else if tag == ATTR_TICKS {
        ticks := Signed(w);
      } else if tag == ATTR_BUFF {
        buff := w != 0;
      } else {
        subId := w;
      }
    }

    /** ConditionAttributes: the next skill or stat. */
    method UnserializeAttributes(tag: Byte, stream: PropStream) returns (ok: bool)
      requires stream.Valid() && extra.Attributes? && tag != ATTR_END
      modifies this, stream
      ensures stream.Valid() && Took(old(State()), old(stream.Rest()), tag, ok, State(), stream.Rest())
    {
      hide Word4, Signed, LookFrom, IntervalFrom, Set, PropStream.Rest, PropStream.Valid;
      if tag == ATTR_SKILLS {
        var w;
        ok, w := GetWord(stream);
        if ok { extra := extra.(skills := Set(extra.skills, extra.currentSkill, Signed(w)), currentSkill := extra.currentSkill + 1); }
        return;
      }
      if tag == ATTR_STATS {
        var w;
        ok, w := GetWord(stream);
        if ok { extra := extra.(stats := Set(extra.stats, extra.currentStat, Signed(w)), currentStat := extra.currentStat + 1); }
        return;
      }
      ok := UnserializeBase(tag, stream);
    }

    /** ConditionRegeneration */
    method UnserializeRegeneration(tag: Byte, stream: PropStream) returns (ok: bool)
      requires stream.Valid() && extra.Regeneration? && tag != ATTR_END
      modifies this, stream
      ensures stream.Valid() && Took(old(State()), old(stream.Rest()), tag, ok, State(), stream.Rest())
    {
      hide Word4, Signed, LookFrom, IntervalFrom, Set, PropStream.Rest, PropStream.Valid;
      if tag == ATTR_HEALTHTICKS {
        var w;
        ok, w := GetWord(stream);
        if ok { extra := extra.(healthTicks := w); }
        return;
      }
      if tag == ATTR_HEALTHGAIN {
        var w;
        ok, w := GetWord(stream);
        if ok { extra := extra.(healthGain := w); }
        return;
      }
      if tag == ATTR_MANATICKS {
        var w;
        ok, w := GetWord(stream);
        if ok { extra := extra.(manaTicks := w); }
        return;
      }
      if tag == ATTR_MANAGAIN {
        var w;
        ok, w := GetWord(stream);
        if ok { extra := extra.(manaGain := w); }
        return;
      }
      ok := UnserializeBase(tag, stream);
    }

    /** ConditionSoul */
    method UnserializeSoul(tag: Byte, stream: PropStream) returns (ok: bool)
      requires stream.Valid() && extra.Soul? && tag != ATTR_END
      modifies this, stream
      ensures stream.Valid() && Took(old(State()), old(stream.Rest()), tag, ok, State(), stream.Rest())
    {
      hide Word4, Signed, LookFrom, IntervalFrom, Set, PropStream.Rest, PropStream.Valid;
      if tag == ATTR_SOULGAIN {
        var w;
        ok, w := GetWord(stream);
        if ok { extra := extra.(soulGain := w); }
        return;
      }
      if tag == ATTR_SOULTICKS {
        var w;
        ok, w := GetWord(stream);
        if ok { extra := extra.(soulTicks := w); }
        return;
      }
      ok := UnserializeBase(tag, stream);
    }

    /** ConditionDamage: an interval is appended and, unless the condition has no end, makes it last longer. */
    method UnserializeDamage(tag: Byte, stream: PropStream) returns (ok: bool)
      requires stream.Valid() && extra.Damage? && tag != ATTR_END
      modifies this, stream
      ensures stream.Valid() && Took(old(State()), old(stream.Rest()), tag, ok, State(), stream.Rest())
    {
      hide Word4, Signed, LookFrom, IntervalFrom, Set, PropStream.Rest, PropStream.Valid;
      if tag == ATTR_DELAYED {
        var b;
        ok, b := stream.GetValue(1);
        if ok { extra := extra.(delayed := b[0] != 0); }
        return;
      }
      if tag == ATTR_PERIODDAMAGE {
        var w;
        ok, w := GetWord(stream);
        if ok { extra := extra.(periodDamage := Signed(w)); }
        return;
      }
      if tag == ATTR_OWNER {
        var w;
        ok, w := GetWord(stream);
        if ok { extra := extra.(owner := w); }
        return;
      }
      if tag == ATTR_INTERVALDATA {
        var b;
        ok, b := stream.GetValue(12);
        if ok { extra, ticks := extra.(damageList := extra.damageList + [IntervalFrom(b)]), Raise(ticks, IntervalFrom(b)); }
        return;
      }
      ok := UnserializeBase(tag, stream);
    }

    /** ConditionOutfit */
    method UnserializeOutfit(tag: Byte, stream: PropStream) returns (ok: bool)
      requires stream.Valid() && extra.Outfit? && tag != ATTR_END
      modifies this, stream
      ensures stream.Valid() && Took(old(State()), old(stream.Rest()), tag, ok, State(), stream.Rest())
    {
      hide Word4, Signed, LookFrom, IntervalFrom, Set, PropStream.Rest, PropStream.Valid;
      if tag == ATTR_OUTFIT {
        var b;
        ok, b := stream.GetValue(10);
        if ok { extra := extra.(outfits := extra.outfits + [LookFrom(b)]); }
        return;
      }
      ok := UnserializeBase(tag, stream);
    }

    /** ConditionSpeed, and the looks that it inherits. */
    method UnserializeSpeed(tag: Byte, stream: PropStream) returns (ok: bool)
      requires stream.Valid() && extra.Speed? && tag != ATTR_END
      modifies this, stream
      ensures stream.Valid() && Took(old(State()), old(stream.Rest()), tag, ok, State(), stream.Rest())
    {
      hide Word4, Signed, LookFrom, IntervalFrom, Set, PropStream.Rest, PropStream.Valid;
      if tag == ATTR_SPEEDDELTA {
        var w;
        ok, w := GetWord(stream);
        if ok { extra := extra.(speedDelta := Signed(w)); }
        return;
      }
      if tag == ATTR_FORMULA_MINA {
        var w;
        ok, w := GetWord(stream);
        if ok { extra := extra.(mina := w); }
        return;
      }
      if tag == ATTR_FORMULA_MINB {
        var w;
        ok, w := GetWord(stream);
        if ok { extra := extra.(minb := w); }
        return;
      }
      if tag == ATTR_FORMULA_MAXA {
        var w;
        ok, w := GetWord(stream);
        if ok { extra := extra.(maxa := w); }
        return;
      }
      if tag == ATTR_FORMULA_MAXB {
        var w;
        ok, w := GetWord(stream);
        if ok { extra := extra.(maxb := w); }
        return;
      }
      if tag == ATTR_OUTFIT {
        var b;
        ok, b := stream.GetValue(10);
        if ok { extra := extra.(looks := extra.looks + [LookFrom(b)]); }
        return;
      }
      ok := UnserializeBase(tag, stream);
    }

    /** ConditionLight */
    method UnserializeLight(tag: Byte, stream: PropStream) returns (ok: bool)
      requires stream.Valid() && extra.Light? && tag != ATTR_END
      modifies this, stream
      ensures stream.Valid() && Took(old(State()), old(stream.Rest()), tag, ok, State(), stream.Rest())
    {
      hide Word4, Signed, LookFrom, IntervalFrom, Set, PropStream.Rest, PropStream.Valid;
      if tag == ATTR_LIGHTCOLOR {
        var w;
        ok, w := GetWord(stream);
        if ok { extra := extra.(color := w); }
        return;
      }
      if tag == ATTR_LIGHTLEVEL {
        var w;
        ok, w := GetWord(stream);
        if ok { extra := extra.(level := w); }
        return;
      }
      if tag == ATTR_LIGHTTICKS {
        var w;
        ok, w := GetWord(stream);
        if ok { extra := extra.(lightTicks := w); }
        return;
      }
      if tag == ATTR_LIGHTINTERVAL {
        var w;
        ok, w := GetWord(stream);
        if ok { extra := extra.(lightInterval := w); }
        return;
      }
      ok := UnserializeBase(tag, stream);
    }

    /** The virtual unserializeProp. */
    method UnserializeProp(tag: Byte, stream: PropStream) returns (ok: bool)
      requires stream.Valid() && tag != ATTR_END
      modifies this, stream
      ensures stream.Valid() && Took(old(State()), old(stream.Rest()), tag, ok, State(), stream.Rest())
    {
      hide Put, Took, PropStream.Rest, PropStream.Valid;
      match extra {
        case Generic => ok := UnserializeBase(tag, stream);
        case Attributes(_, _, _, _) => ok := UnserializeAttributes(tag, stream);
        case Regeneration(_, _, _, _) => ok := UnserializeRegeneration(tag, stream);
        case Soul(_, _) => ok := UnserializeSoul(tag, stream);
        case Damage(_, _, _, _) => ok := UnserializeDamage(tag, stream);
        case Outfit(_) => ok := UnserializeOutfit(tag, stream);
        case Speed(_, _, _, _, _, _) => ok := UnserializeSpeed(tag, stream);
        case Light(_, _, _, _) => ok := UnserializeLight(tag, stream);
      }
    }

    /** unserialize: attributes up to the end tag. */
    method Unserialize(stream: PropStream) returns (ok: bool)
      requires stream.Valid()
      modifies this, stream
      ensures stream.Valid()
      ensures Read(old(State()), old(stream.Rest())) ==
              if ok then Restored(State(), stream.Rest()) else Refused(State(), stream.Rest())
    {
      hide Put, Width;
      while true
        invariant stream.Valid()
        invariant Read(old(State()), old(stream.Rest())) == Read(State(), stream.Rest())
        decreases |stream.Rest()|
      {
        ghost var (s, bytes) := (State(), stream.Rest());
        var got, tag := stream.GetValue(1);
        if !got { return true; }
        if tag[0] == ATTR_END { return true; }
        var known := UnserializeProp(tag[0], stream);
        if !known { return false; }
        assert bytes[1..1 + Width(s.extra, bytes[0]).value] == bytes[1..][..Width(s.extra, bytes[0]).value];
      }
    }

    /** createCondition(propStream) */
    static method CreateCondition(stream: PropStream) returns (c: Condition?)
      requires stream.Valid()
      modifies stream
      ensures stream.Valid() && (c == null <==> Create(old(stream.Rest())).None?)
      ensures c != null ==>
                fresh(c) && c.State() == Create(old(stream.Rest())).value &&
                |old(stream.Rest())| >= 25 && stream.Rest() == old(stream.Rest())[25..]
      ensures |stream.Rest()| <= |old(stream.Rest())|
    {
      hide New, Le32, Signed;
      ghost var bytes := stream.Rest();
      var ok, w0 := GetAttr(stream, ATTR_TYPE);
      if !ok { return null; }
      var w1, w2, w3, w4;
      ok, w1 := GetAttr(stream, ATTR_ID);
      if !ok { return null; }
      ok, w2 := GetAttr(stream, ATTR_TICKS);
      if !ok { return null; }
      ok, w3 := GetAttr(stream, ATTR_BUFF);
      if !ok { return null; }
      ok, w4 := GetAttr(stream, ATTR_SUBID);
      if !ok { return null; }
      match New(w0, Signed(w1), Signed(w2), w3 != 0, w4) {
        case None => return null;
        case Some(s) => c := new Condition(s);
      }
    }

    /** GET_UCHAR of this tag and GET_ULONG. */
    static method GetAttr(stream: PropStream, tag: Byte) returns (ok: bool, w: Word)
      requires stream.Valid()
      modifies stream
      ensures stream.Valid() && |stream.Rest()| <= |old(stream.Rest())|
      ensures ok <==> |old(stream.Rest())| >= 5 && old(stream.Rest())[0] == tag
      ensures ok ==> w == Word4(old(stream.Rest())[1..]) && stream.Rest() == old(stream.Rest())[5..]
    {
      ghost var bytes := stream.Rest();
      var got, b := stream.GetValue(1);
      if !got || b[0] != tag { return false, 0; }
      var payload;
      ok, payload := stream.GetValue(4);
      if !ok { return false, 0; }
      assert payload == bytes[1..][..4] == payload[..4];
      w := Word4(payload);
    }
  }

  function States(list: seq<Condition>): seq<Saved>
    reads list
  {
    if list == [] then [] else [list[0].State()] + States(list[1..])
  }

  /** A persistent condition is written and followed by the end tag. */
  method Save(c: Condition, stream: PropWriteStream)
    requires stream.Valid()
    modifies stream, stream.buffer
    ensures stream.Valid() && stream.Contents() == old(stream.Contents()) + SaveOne(c.State())
    ensures stream.buffer == old(stream.buffer) || fresh(stream.buffer)
  {
    hide Header, Body, Kept, PropWriteStream.Contents, PropWriteStream.Valid;
    if Kept(c.State()) {
      c.Serialize(stream);
      stream.AddValue([ATTR_END]);
    }
  }

  /** Saving a player writes the persistent conditions. */
  method SaveConditions(list: seq<Condition>) returns (stream: PropWriteStream)
    ensures fresh(stream) && fresh(stream.buffer) && stream.Valid() && stream.Contents() == SaveAll(States(list))
  {
    hide SaveOne, SaveAll, States, Condition.State, PropWriteStream.Contents, PropWriteStream.Valid;
    stream := new PropWriteStream();
    ghost var states := States(list);
    StatesAre(list);
    for i := 0 to |list|
      invariant stream.Valid() && fresh(stream) && fresh(stream.buffer)
      invariant stream.Contents() + SaveAll(states[i..]) == SaveAll(states)
      invariant forall k :: 0 <= k < |list| ==> states[k] == list[k].State()
    {
      assert states[i..] == [list[i].State()] + states[i + 1..];
      SaveStep(stream.Contents(), list[i].State(), states[i + 1..]);
      Save(list[i], stream);
    }
    NothingSaved(stream.Contents());
  }

  lemma NothingSaved(before: seq<Byte>)
    ensures before + SaveAll([]) == before
  {
  }

  lemma SaveStep(before: seq<Byte>, s: Saved, more: seq<Saved>)
    ensures before + SaveAll([s] + more) == before + SaveOne(s) + SaveAll(more)
  {
    hide SaveOne;
    assert ([s] + more)[1..] == more;
  }

  /** One turn of the loading loop: a condition, a condition that could not be read, or the end. */
  method Load(stream: PropStream) returns (c: Condition?, ok: bool)
    requires stream.Valid()
    modifies stream
    ensures stream.Valid() && (c != null ==> fresh(c) && |stream.Rest()| < |old(stream.Rest())|)
    ensures LoadAll(old(stream.Rest())) ==
            if c == null then [] else (if ok then [c.State()] else []) + LoadAll(stream.Rest())
  {
    hide Create, Read, PropStream.Rest, PropStream.Valid;
    c := Condition.CreateCondition(stream);
    ok := false;
    if c != null { ok := c.Unserialize(stream); }
  }

  /** Loading a player reads conditions until none can be created any more. */
  method LoadConditions(stream: PropStream) returns (list: seq<Condition>)
    requires stream.Valid()
    modifies stream
    ensures fresh(list) && States(list) == LoadAll(old(stream.Rest()))
  {
    hide LoadAll, States, Condition.State, PropStream.Valid, PropStream.Rest;
    list := [];
    NoStates();
    while true
      invariant stream.Valid() && fresh(list)
      invariant States(list) + LoadAll(stream.Rest()) == LoadAll(old(stream.Rest()))
      decreases |stream.Rest()|
    {
      var c, ok := Load(stream);
      if c == null { return; }
      if ok {
        StatesAppend(list, c);
        list := list + [c];
      }
    }
  }

  lemma NoStates()
    ensures States([]) == []
  {
  }

  lemma {:induction false} StatesAppend(list: seq<Condition>, c: Condition)
    ensures States(list + [c]) == States(list) + [c.State()]
  {
    if list == [] {
      assert list + [c] == [c];
    } else {
      assert (list + [c])[1..] == list[1..] + [c];
      StatesAppend(list[1..], c);
    }
  }

  /** A player's conditions, saved and loaded again. */
  method SaveAndLoad(list: seq<Condition>) returns (loaded: seq<Condition>)
    requires forall c :: c in list ==> OfItsClass(c.State())
    ensures fresh(loaded) && States(loaded) == ReloadedAll(States(list))
  {
    hide SaveAll, LoadAll, ReloadedAll, OfItsClass, States;
    var out := SaveConditions(list);
    StatesAre(list);
    LoadSaved(States(list));
    var stream := new PropStream(out.buffer[..out.size]);
    loaded := LoadConditions(stream);
  }

  lemma {:induction false} StatesAre(list: seq<Condition>)
    ensures |States(list)| == |list| && forall k :: 0 <= k < |list| ==> States(list)[k] == list[k].State()
  {
    if list != [] { StatesAre(list[1..]); }
  }
}
