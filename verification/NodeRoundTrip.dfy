/** Writing a node forest with startNode / setProps / endNode and reading it back. The writer
    escapes type bytes, the parser reads them raw, so the round trip has an exact condition. */
module NodeRoundTrip {
  import opened Options
  import opened NodeFormat

  /** What a program hands to the writer, in the same first-child/next-sibling shape. */
  datatype Forest = Empty | Tree(typ: Byte, props: seq<Byte>, child: Forest, next: Forest)

  /** startNode(typ); setProps(props); the children; endNode(); then the siblings. */
  function Write(t: Forest): seq<Byte> {
    match t
    case Empty => []
    case Tree(typ, props, child, next) =>
      [NODE_START] + Escape([typ]) + Escape(props) + Write(child) + [NODE_END] + Write(next)
  }

  /** The file openFile(write) and the writer leave behind: a zero version word, then the nodes. */
  function FileOf(t: Forest): seq<Byte> {
    [0, 0, 0, 0] + Write(t)
  }

  /** The types and properties a reader gets out of the linked nodes. */
  ghost function Decode(s: seq<Byte>, n: Net): Forest
    requires n.Node? ==> Tiles(s, n)
  {
    if n.NoNode? then Empty
    else Tree(n.typ, Unescape(s[n.start + 2..PropsEnd(n)]), Decode(s, n.child), Decode(s, n.next))
  }

  /** Opening a file and decoding it; None when openFile returns false. */
  ghost function ReadBack(s: seq<Byte>): Option<Forest> {
    match OpenFile(s)
    case None => None
    case Some(net) => OpenedTiles(s); Some(Decode(s, net))
  }

  lemma OpenedTiles(s: seq<Byte>)
    ensures OpenFile(s).Some? ==> OpenFile(s).value.Node? && Tiles(s, OpenFile(s).value)
  {
    if |s| >= 5 && s[4] == NODE_START { ParseSound(s, 5); }
  }

  // ----- The condition ----------------------------------------------------------------------

  /** Behind any number of 0xFD bytes there is a byte that needs no escape. */
  predicate FirstPlain(props: seq<Byte>) {
    props != [] && (if props[0] == ESCAPE_CHAR then FirstPlain(props[1..]) else !Special(props[0]))
  }

  /** The parser resynchronises with the writer behind this type byte. */
  predicate Survives(typ: Byte, props: seq<Byte>) {
    !Special(typ) || (typ == ESCAPE_CHAR && FirstPlain(props))
  }

  predicate Clean(t: Forest) {
    t.Tree? ==> Survives(t.typ, t.props) && Clean(t.child) && Clean(t.next)
  }

  // ----- The written bytes as the parser sees them --------------------------------------------

  /** The byte the parser takes for the type. */
  function ReadType(typ: Byte): Byte {
    if Special(typ) then ESCAPE_CHAR else typ
  }

  /** The bytes the parser takes for the start of the properties. */
  function Raw(typ: Byte, props: seq<Byte>): seq<Byte> {
    (if Special(typ) then [typ] else []) + Escape(props)
  }

  /** Where the parser would put the nodes of a forest written at offset from. */
  function Layout(t: Forest, from: nat): Net {
    match t
    case Empty => NoNode
    case Tree(typ, props, child, next) =>
      Node(from, |Raw(typ, props)|, ReadType(typ), Layout(child, BodyAt(t, from)), Layout(next, EndAt(t, from) + 1))
  }

  predicate Marker(c: Byte) {
    c == NODE_START || c == NODE_END
  }

  ghost predicate At(s: seq<Byte>, from: nat, w: seq<Byte>) {
    from + |w| <= |s| && forall i :: 0 <= i < |w| ==> s[from + i] == w[i]
  }

  lemma AtIndex(s: seq<Byte>, from: nat, w: seq<Byte>, i: nat)
    requires At(s, from, w) && i < |w|
    ensures from + |w| <= |s| && s[from + i] == w[i]
  {
  }

  lemma AtSlice(s: seq<Byte>, from: nat, w: seq<Byte>)
    requires At(s, from, w)
    ensures s[from..from + |w|] == w
  {
  }

  lemma AtSplit(s: seq<Byte>, from: nat, a: seq<Byte>, b: seq<Byte>)
    ensures At(s, from, a + b) <==> At(s, from, a) && At(s, from + |a|, b)
  {
    if At(s, from, a + b) {
      assert forall i :: 0 <= i < |a| ==> (a + b)[i] == a[i];
      forall i | 0 <= i < |b| ensures s[from + |a| + i] == b[i] {
        assert (a + b)[|a| + i] == b[i];
        assert s[from + (|a| + i)] == b[i];
      }
    }
    if At(s, from, a) && At(s, from + |a|, b) {
      forall i | 0 <= i < |a| + |b| ensures s[from + i] == (a + b)[i] {
        if i >= |a| {
          assert s[from + |a| + (i - |a|)] == b[i - |a|];
        }
      }
    }
  }

  lemma Regroup(h: seq<Byte>, m: seq<Byte>, p: seq<Byte>, c: seq<Byte>, e: seq<Byte>, n: seq<Byte>)
    ensures h + m + p + c + e + n == h + ((m + p) + (c + (e + n)))
  {
  }

  lemma WriteShape(t: Forest)
    requires t.Tree?
    ensures Write(t) == [NODE_START, ReadType(t.typ)] +
                        (Raw(t.typ, t.props) + (Write(t.child) + ([NODE_END] + Write(t.next))))
  {
    var mark := if Special(t.typ) then [t.typ] else [];
    var head := [NODE_START, ReadType(t.typ)];
    assert Escape([t.typ]) == [ReadType(t.typ)] + mark by {
      assert [t.typ][1..] == [];
    }
    assert [NODE_START] + Escape([t.typ]) == head + mark;
    Regroup(head, mark, Escape(t.props), Write(t.child), [NODE_END], Write(t.next));
  }

  /** Where a node written at from keeps its children and its NODE_END. */
  function BodyAt(t: Forest, from: nat): nat
    requires t.Tree?
  {
    from + 2 + |Raw(t.typ, t.props)|
  }

  function EndAt(t: Forest, from: nat): nat
    requires t.Tree?
  {
    BodyAt(t, from) + |Write(t.child)|
  }

  /** A written node at from: marker, type byte, raw properties, children, NODE_END, siblings. */
  lemma WrittenAt(s: seq<Byte>, from: nat, t: Forest)
    requires t.Tree? && At(s, from, Write(t))
    ensures from + |Write(t)| == EndAt(t, from) + 1 + |Write(t.next)|
    ensures EndAt(t, from) < |s|
    ensures (t.child.Empty? ==> Write(t.child) == []) && (t.next.Empty? ==> Write(t.next) == [])
    ensures s[from] == NODE_START && s[from + 1] == ReadType(t.typ) && s[EndAt(t, from)] == NODE_END
    ensures At(s, from + 2, Raw(t.typ, t.props))
    ensures At(s, BodyAt(t, from), Write(t.child)) && At(s, EndAt(t, from) + 1, Write(t.next))
  {
    hide At, Raw, ReadType, Write;
    WriteShape(t);
    var head := [NODE_START, ReadType(t.typ)];
    assert Write(t) == head + (Raw(t.typ, t.props) + (Write(t.child) + ([NODE_END] + Write(t.next))));
    PiecesAt(s, from, head, Raw(t.typ, t.props), Write(t.child), [NODE_END], Write(t.next));
    NothingWritten();
  }

  lemma NothingWritten()
    ensures Write(Empty) == []
  {
  }

  lemma PiecesAt(s: seq<Byte>, from: nat, head: seq<Byte>, raw: seq<Byte>, c: seq<Byte>, e: seq<Byte>, n: seq<Byte>)
    requires |head| == 2 && |e| == 1 && At(s, from, head + (raw + (c + (e + n))))
    ensures var body := from + 2 + |raw|;
            var end := body + |c|;
            && from + |head + (raw + (c + (e + n)))| == end + 1 + |n|
            && s[from] == head[0] && s[from + 1] == head[1] && At(s, from + 2, raw) && At(s, body, c)
            && end < |s| && s[end] == e[0] && At(s, end + 1, n)
  {
    hide At;
    var body := from + 2 + |raw|;
    AtSplit(s, from, head, raw + (c + (e + n)));
    AtSplit(s, from + 2, raw, c + (e + n));
    AtSplit(s, body, c, e + n);
    AtSplit(s, body + |c|, e, n);
    AtIndex(s, from, head, 0);
    AtIndex(s, from, head, 1);
    AtIndex(s, body + |c|, e, 0);
  }

  /** The byte behind a node's raw properties is the NODE_START of a child or the NODE_END. */
  lemma MarkerBehindProps(s: seq<Byte>, from: nat, t: Forest)
    requires t.Tree? && At(s, from, Write(t))
    ensures BodyAt(t, from) < |s| && Marker(s[BodyAt(t, from)])
  {
    WrittenAt(s, from, t);
    if t.child.Tree? {
      WrittenAt(s, BodyAt(t, from), t.child);
    } else {
      assert BodyAt(t, from) == EndAt(t, from);
    }
  }

  // ----- A clean forest is read back --------------------------------------------------------

  lemma EscapeHead(props: seq<Byte>)
    requires props != []
    ensures Escape(props) == (if Special(props[0]) then [ESCAPE_CHAR, props[0]] else [props[0]]) + Escape(props[1..])
  {
  }

  lemma UnescapePair(raw: seq<Byte>, c: Byte, tail: seq<Byte>)
    requires raw == [ESCAPE_CHAR, c] + tail
    ensures Unescape(raw) == [c] + Unescape(tail) && (WellEscaped(raw) <==> WellEscaped(tail))
  {
    assert raw[2..] == tail;
  }

  /** What follows the first two bytes of 0xFD and escaped properties. */
  function Shifted(props: seq<Byte>): seq<Byte>
    requires props != []
  {
    if Special(props[0]) then [ESCAPE_CHAR] + Escape(props[1..]) else Escape(props[1..])
  }

  /** A 0xFD in front of escaped bytes is harmless once a plain byte follows the 0xFD's. */
  lemma {:induction false} ShiftedEscape(props: seq<Byte>)
    requires FirstPlain(props)
    ensures WellEscaped([ESCAPE_CHAR] + Escape(props)) && Unescape([ESCAPE_CHAR] + Escape(props)) == props
  {
    var rest := props[1..];
    EscapeHead(props);
    if props[0] == ESCAPE_CHAR {
      ShiftedEscape(rest);
    } else {
      EscapeRoundTrip(rest);
    }
    assert [ESCAPE_CHAR] + Escape(props) == [ESCAPE_CHAR, props[0]] + Shifted(props);
    UnescapePair([ESCAPE_CHAR] + Escape(props), props[0], Shifted(props));
  }

  lemma RawSurvives(typ: Byte, props: seq<Byte>)
    requires Survives(typ, props)
    ensures ReadType(typ) == typ && WellEscaped(Raw(typ, props)) && Unescape(Raw(typ, props)) == props
  {
    if Special(typ) {
      ShiftedEscape(props);
    } else {
      EscapeRoundTrip(props);
      assert Raw(typ, props) == Escape(props);
    }
  }

  /** The first node of a clean forest, seen as a node of the file. */
  lemma CleanHead(s: seq<Byte>, t: Forest, from: nat)
    requires t.Tree? && Survives(t.typ, t.props) && At(s, from, Write(t))
    ensures from + 2 <= BodyAt(t, from) <= |s| && ReadType(t.typ) == t.typ
    ensures EscapedRun(s, from + 2, BodyAt(t, from))
    ensures Unescape(s[from + 2..BodyAt(t, from)]) == t.props
  {
    hide At, Raw, Escape, Unescape, WellEscaped, EscapedRun;
    WrittenAt(s, from, t);
    RawSurvives(t.typ, t.props);
    AtSlice(s, from + 2, Raw(t.typ, t.props));
    EscapedRunSlice(s, from + 2, BodyAt(t, from));
  }

  /** The layout of a written forest tiles the file and decodes to it. */
  ghost predicate LaidOut(s: seq<Byte>, t: Forest, from: nat) {
    t.Tree? ==>
      var n := Layout(t, from);
      n.Node? && Tiles(s, n) && ChainEnd(n) == from + |Write(t)| && Decode(s, n) == t
  }

  lemma {:induction false} CleanTiles(s: seq<Byte>, t: Forest, from: nat)
    requires t.Tree? && Clean(t) && At(s, from, Write(t))
    ensures var n := Layout(t, from); n.Node? && Tiles(s, n) && ChainEnd(n) == from + |Write(t)| && Decode(s, n) == t
    decreases t
  {
    hide At, Raw, Escape, Unescape, EscapedRun, Write, Layout, Tiles, Decode;
    WrittenAt(s, from, t);
    CleanHead(s, t, from);
    if t.child.Tree? { CleanTiles(s, t.child, BodyAt(t, from)); }
    if t.next.Tree? { CleanTiles(s, t.next, EndAt(t, from) + 1); }
    NodeLaidOut(s, t, from);
  }

  /** A node is laid out when its first bytes are right and its children and siblings are laid out. */
  lemma NodeLaidOut(s: seq<Byte>, t: Forest, from: nat)
    requires t.Tree? && At(s, from, Write(t)) && ReadType(t.typ) == t.typ && BodyAt(t, from) <= |s|
    requires EscapedRun(s, from + 2, BodyAt(t, from)) && Unescape(s[from + 2..BodyAt(t, from)]) == t.props
    requires LaidOut(s, t.child, BodyAt(t, from)) && LaidOut(s, t.next, EndAt(t, from) + 1)
    ensures LaidOut(s, t, from)
  {
    hide At, Raw, Escape, Unescape, EscapedRun, Write, Layout;
    WrittenAt(s, from, t);
    LayoutShape(t, from);
    var n := Layout(t, from);
    assert EndOf(n) == EndAt(t, from);
    assert Adjacent(s, n);
    assert Tiles(s, n);
    assert Decode(s, n.child) == t.child && Decode(s, n.next) == t.next;
    assert ChainEnd(n) == from + |Write(t)|;
  }

  lemma LayoutShape(t: Forest, from: nat)
    requires t.Tree?
    ensures var n := Layout(t, from);
            n.Node? && n.start == from && n.typ == ReadType(t.typ) && PropsEnd(n) == BodyAt(t, from) &&
            n.child == Layout(t.child, BodyAt(t, from)) && n.next == Layout(t.next, EndAt(t, from) + 1) &&
            (n.child.Node? <==> t.child.Tree?) && (n.next.Node? <==> t.next.Tree?) &&
            (n.child.Node? ==> n.child.start == BodyAt(t, from)) && (n.next.Node? ==> n.next.start == EndAt(t, from) + 1)
  {
  }

  // ----- Whatever is read back was clean ----------------------------------------------------

  /** Two escaped runs from one position that both stop at a bare node marker are the same. */
  lemma {:induction false} RunsAgree(s: seq<Byte>, a: nat, e: nat, f: nat)
    requires EscapedRun(s, a, e) && e < |s| && Marker(s[e])
    requires EscapedRun(s, a, f) && f < |s| && Marker(s[f])
    ensures e == f
    decreases e - a
  {
    if a < e && a < f {
      RunsAgree(s, if s[a] == ESCAPE_CHAR then a + 2 else a + 1, e, f);
    }
  }

  lemma ShiftedAt(s: seq<Byte>, a: nat, props: seq<Byte>)
    requires props != [] && At(s, a, [ESCAPE_CHAR] + Escape(props)) && s[a + 1] == props[0]
    ensures Special(props[0]) ==> props[0] == ESCAPE_CHAR
    ensures |Escape(props)| == 1 + |Shifted(props)| && At(s, a + 2, Shifted(props))
  {
    hide At, Escape;
    EscapeHead(props);
    AtIndex(s, a, [ESCAPE_CHAR] + Escape(props), 1);
    assert s[a + 1] == Escape(props)[0];
    var front := [ESCAPE_CHAR, props[0]];
    assert [ESCAPE_CHAR] + Escape(props) == front + Shifted(props);
    AtSplit(s, a, front, Shifted(props));
  }

  lemma PairRun(s: seq<Byte>, a: nat, e: nat)
    requires EscapedRun(s, a, e) && e < |s| && a < |s| && s[a] == ESCAPE_CHAR && Marker(s[e])
    ensures a + 2 <= e && EscapedRun(s, a + 2, e) && Unescape(s[a..e]) == [s[a + 1]] + Unescape(s[a + 2..e])
  {
    UnescapePair(s[a..e], s[a + 1], s[a + 2..e]);
  }

  lemma FirstPlainStep(props: seq<Byte>)
    requires props != []
    ensures FirstPlain(props) <==> if props[0] == ESCAPE_CHAR then FirstPlain(props[1..]) else !Special(props[0])
  {
  }

  /** Reading one byte out of step: if that still yields the written properties, a plain byte
      put the parser back in step. */
  lemma {:induction false} ShiftedForced(s: seq<Byte>, a: nat, props: seq<Byte>, e: nat)
    requires At(s, a, [ESCAPE_CHAR] + Escape(props))
    requires var y := a + 1 + |Escape(props)|; y < |s| && Marker(s[y])
    requires EscapedRun(s, a, e) && e < |s| && Marker(s[e]) && Unescape(s[a..e]) == props
    ensures FirstPlain(props) && e == a + 1 + |Escape(props)|
    decreases |props|
  {
    hide At, Escape, Unescape, EscapedRun, FirstPlain;
    AtIndex(s, a, [ESCAPE_CHAR] + Escape(props), 0);
    PairRun(s, a, e);
    var rest := props[1..];
    FirstPlainStep(props);
    ShiftedAt(s, a, props);
    if Special(props[0]) {
      ShiftedForced(s, a + 2, rest, e);
    } else {
      InStep(s, a + 2, rest, e);
    }
  }

  /** Reading in step: the run that stops at a marker is the whole escaped run. */
  lemma InStep(s: seq<Byte>, a: nat, props: seq<Byte>, e: nat)
    requires At(s, a, Escape(props))
    requires var y := a + |Escape(props)|; y < |s| && Marker(s[y])
    requires EscapedRun(s, a, e) && e < |s| && Marker(s[e])
    ensures e == a + |Escape(props)|
  {
    hide At, Escape, EscapedRun, Unescape, WellEscaped;
    EscapeRoundTrip(props);
    AtSlice(s, a, Escape(props));
    EscapedRunSlice(s, a, a + |Escape(props)|);
    RunsAgree(s, a, e, a + |Escape(props)|);
  }

  lemma PropsForced(s: seq<Byte>, a: nat, typ: Byte, props: seq<Byte>, e: nat)
    requires At(s, a, Raw(typ, props)) && ReadType(typ) == typ
    requires var y := a + |Raw(typ, props)|; y < |s| && Marker(s[y])
    requires EscapedRun(s, a, e) && e < |s| && Marker(s[e]) && Unescape(s[a..e]) == props
    ensures Survives(typ, props) && e == a + |Raw(typ, props)|
  {
    hide At, Escape, EscapedRun, Unescape;
    if Special(typ) {
      ShiftedForced(s, a, props, e);
    } else {
      assert Raw(typ, props) == Escape(props);
      InStep(s, a, props, e);
    }
  }

  lemma {:induction false} ReadBackForcesClean(s: seq<Byte>, t: Forest, from: nat, n: Net)
    requires t.Tree? && At(s, from, Write(t))
    requires n.Node? && n.start == from && Tiles(s, n) && Decode(s, n) == t
    ensures Clean(t) && ChainEnd(n) == from + |Write(t)|
    decreases t
  {
    hide At, Raw, Escape, Unescape, EscapedRun, Write, Survives;
    WrittenAt(s, from, t);
    MarkerBehindProps(s, from, t);
    MarkerEndsProps(s, n);
    PropsForced(s, from + 2, t.typ, t.props, PropsEnd(n));
    if t.child.Tree? { ReadBackForcesClean(s, t.child, BodyAt(t, from), n.child); }
    if t.next.Tree? { ReadBackForcesClean(s, t.next, EndAt(t, from) + 1, n.next); }
  }

  // ----- The theorem ------------------------------------------------------------------------

  lemma FileHolds(t: Forest)
    ensures At(FileOf(t), 4, Write(t)) && FileOf(t)[..4] == [0, 0, 0, 0] && |FileOf(t)| == 4 + |Write(t)|
  {
  }

  /** A written forest is read back unchanged exactly when it is clean. */
  lemma RoundTrip(t: Forest)
    requires t.Tree?
    ensures ReadBack(FileOf(t)) == Some(t) <==> Clean(t)
  {
    hide At, Layout, Tiles, Decode, ParseNode, Write, Clean, FileOf;
    var s := FileOf(t);
    FileHolds(t);
    WrittenAt(s, 4, t);
    if Clean(t) {
      CleanTiles(s, t, 4);
      LayoutShape(t, 4);
      ParseComplete(s, Layout(t, 4));
    }
    if ReadBack(s) == Some(t) {
      ParseSound(s, 5);
      ReadBackForcesClean(s, t, 4, OpenFile(s).value);
    }
  }

  /** A clean forest is laid out without gaps: the parser stops exactly at the end of the file. */
  lemma RoundTripConsumesFile(t: Forest)
    requires t.Tree? && Clean(t)
    ensures ParseNode(FileOf(t), 5) == Some((Layout(t, 4), |FileOf(t)|))
  {
    hide At, Layout, Tiles, Decode, ParseNode, Write, Clean, FileOf;
    var s := FileOf(t);
    FileHolds(t);
    WrittenAt(s, 4, t);
    CleanTiles(s, t, 4);
    LayoutShape(t, 4);
    ParseComplete(s, Layout(t, 4));
  }

  /** Types below 0xFD always survive; a lone node of type 0xFE never does. */
  lemma TypeFELost()
    ensures ReadBack(FileOf(Tree(0xFE, [], Empty, Empty))) != Some(Tree(0xFE, [], Empty, Empty))
  {
    RoundTrip(Tree(0xFE, [], Empty, Empty));
  }

  // ----- Truncated files ---------------------------------------------------------------------

  lemma MarkerEndsProps(s: seq<Byte>, n: Net)
    requires n.Node? && Tiles(s, n)
    ensures PropsEnd(n) < |s| && Marker(s[PropsEnd(n)])
  {
    ExtentsNest(s, n);
  }

  /** Two tilings from the same offset, one of a file and one of a truncation of it, agree on
      everything but how far the sibling chain goes. */
  lemma {:induction false} FirstNodeUnique(s: seq<Byte>, k: nat, m: Net, n: Net)
    requires k <= |s| && m.Node? && n.Node? && m.start == n.start
    requires Tiles(s[..k], m) && Tiles(s, n)
    ensures m.propsSize == n.propsSize && EndOf(m) == EndOf(n)
    decreases m, 1
  {
    ExtentsNest(s[..k], m);
    ExtentsNest(s, n);
    RunPrefix(s, k, m.start + 2, PropsEnd(m));
    MarkerEndsProps(s[..k], m);
    MarkerEndsProps(s, n);
    RunsAgree(s, m.start + 2, PropsEnd(m), PropsEnd(n));
    if m.child.Node? {
      ExtentsNest(s[..k], m.child);
      assert n.child.Node?;
      ChainUnique(s, k, m.child, n.child);
    }
  }

  lemma {:induction false} ChainUnique(s: seq<Byte>, k: nat, m: Net, n: Net)
    requires k <= |s| && m.Node? && n.Node? && m.start == n.start
    requires Tiles(s[..k], m) && Tiles(s, n)
    requires ChainEnd(m) < k && s[ChainEnd(m)] == NODE_END && ChainEnd(n) < |s| && s[ChainEnd(n)] == NODE_END
    ensures ChainEnd(m) == ChainEnd(n)
    decreases m, 2
  {
    FirstNodeUnique(s, k, m, n);
    if m.next.Node? {
      ExtentsNest(s[..k], m.next);
      assert n.next.Node?;
      ChainUnique(s, k, m.next, n.next);
    }
  }

  lemma {:induction false} RunPrefix(s: seq<Byte>, k: nat, a: nat, b: nat)
    requires k <= |s| && EscapedRun(s[..k], a, b)
    ensures EscapedRun(s, a, b)
    decreases b - a
  {
    if a < b {
      RunPrefix(s, k, if s[a] == ESCAPE_CHAR then a + 2 else a + 1, b);
    }
  }

  /** k lies just behind the NODE_END of one of the root nodes. */
  predicate BehindRoot(n: Net, k: nat) {
    n.Node? && (EndOf(n) + 1 == k || BehindRoot(n.next, k))
  }

  /** The chain up to the root that ends at k. */
  function CutBehind(n: Net, k: nat): Net
    requires BehindRoot(n, k)
  {
    if EndOf(n) + 1 == k then n.(next := NoNode) else n.(next := CutBehind(n.next, k))
  }

  /** A tiling that ends before k tiles the first k bytes. */
  lemma {:induction false} TilesPrefix(s: seq<Byte>, k: nat, n: Net)
    requires n.Node? && Tiles(s, n) && ChainEnd(n) <= k <= |s|
    ensures Tiles(s[..k], n)
    decreases n
  {
    hide EscapedRun;
    ExtentsNest(s, n);
    if n.child.Node? {
      ExtentsNest(s, n.child);
      TilesPrefix(s, k, n.child);
    }
    if n.next.Node? {
      ExtentsNest(s, n.next);
      TilesPrefix(s, k, n.next);
    }
    RunOfPrefix(s, k, n.start + 2, PropsEnd(n));
  }

  lemma {:induction false} RunOfPrefix(s: seq<Byte>, k: nat, a: nat, b: nat)
    requires b <= k <= |s| && EscapedRun(s, a, b)
    ensures EscapedRun(s[..k], a, b)
    decreases b - a
  {
    if a < b {
      RunOfPrefix(s, k, if s[a] == ESCAPE_CHAR then a + 2 else a + 1, b);
    }
  }

  lemma {:induction false} CutTiles(s: seq<Byte>, k: nat, n: Net)
    requires n.Node? && Tiles(s, n) && BehindRoot(n, k) && k <= |s|
    ensures CutBehind(n, k).Node? && CutBehind(n, k).start == n.start
    ensures Tiles(s, CutBehind(n, k)) && ChainEnd(CutBehind(n, k)) == k
    decreases n
  {
    hide EscapedRun;
    if EndOf(n) + 1 != k { CutTiles(s, k, n.next); }
  }

  /** A chain that tiles a truncation ends behind a root of the whole chain, or is the whole chain. */
  lemma {:induction false} CutIsBehindRoot(s: seq<Byte>, k: nat, m: Net, n: Net)
    requires k <= |s| && m.Node? && n.Node? && m.start == n.start
    requires Tiles(s[..k], m) && Stops(s[..k], ChainEnd(m)) && Tiles(s, n) && Stops(s, ChainEnd(n))
    ensures BehindRoot(n, k) || k > ChainEnd(n)
    decreases m
  {
    hide EscapedRun;
    FirstNodeUnique(s, k, m, n);
    ExtentsNest(s[..k], m);
    ExtentsNest(s, n);
    if m.next.Node? {
      ExtentsNest(s[..k], m.next);
      assert n.next.Node?;
      CutIsBehindRoot(s, k, m.next, n.next);
    }
  }

  /** A file that is accepted is still accepted when it is cut at k if and only if the cut lies just
      behind one of its root nodes, or behind all that the parser read of it: a file that ends inside an
      open node is rejected. */
  lemma TruncationAccepted(s: seq<Byte>, k: nat)
    requires OpenFile(s).Some? && k <= |s|
    ensures OpenFile(s).value.Node?
    ensures OpenFile(s[..k]).Some? <==> BehindRoot(OpenFile(s).value, k) || k > ChainEnd(OpenFile(s).value)
  {
    hide Tiles, EscapedRun, NodeFormat.ParseNode;
    OpenedTiles(s);
    var n := OpenFile(s).value;
    ParseSound(s, 5);
    ExtentsNest(s, n);
    if OpenFile(s[..k]).Some? {
      OpenedTiles(s[..k]);
      ParseSound(s[..k], 5);
      CutIsBehindRoot(s, k, OpenFile(s[..k]).value, n);
    }
    if BehindRoot(n, k) {
      CutTiles(s, k, n);
      ExtentsNest(s, CutBehind(n, k));
      TilesPrefix(s, k, CutBehind(n, k));
      ParseComplete(s[..k], CutBehind(n, k));
    } else if k > ChainEnd(n) {
      TilesPrefix(s, k, n);
      ParseComplete(s[..k], n);
    }
  }

  /** A file of two roots still opens when it is cut behind the first. */
  lemma SecondRootLost()
    ensures var s: seq<Byte> := [0, 0, 0, 0, 0xFE, 1, 0xFF, 0xFE, 2, 0xFF];
            OpenFile(s).Some? && OpenFile(s).value.next.Node? &&
            OpenFile(s[..7]).Some? && OpenFile(s[..7]).value.next.NoNode?
  {
  }
}
