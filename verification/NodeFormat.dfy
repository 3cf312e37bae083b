/** The byte format of the binary node files: how properties are escaped, what the
    first-child/next-sibling parser accepts, and an independent description of an accepted file. */
module NodeFormat {
  import opened Options

  type Byte = b: nat | b < 256

  const NODE_START: Byte := 0xFE
  const NODE_END: Byte := 0xFF
  const ESCAPE_CHAR: Byte := 0xFD

  predicate Special(c: Byte) {
    c == NODE_START || c == NODE_END || c == ESCAPE_CHAR
  }

  // ----- Escaping ---------------------------------------------------------------------------

  /** What writeData(..., unescape = true) emits for a run of bytes. */
  function Escape(data: seq<Byte>): seq<Byte> {
    if data == [] then []
    else (if Special(data[0]) then [ESCAPE_CHAR, data[0]] else [data[0]]) + Escape(data[1..])
  }

  /** What getProps leaves in its buffer; a dangling escape at the very end yields nothing. */
  function Unescape(raw: seq<Byte>): seq<Byte> {
    if raw == [] then []
    else if raw[0] != ESCAPE_CHAR then [raw[0]] + Unescape(raw[1..])
    else if |raw| == 1 then []
    else [raw[1]] + Unescape(raw[2..])
  }

  /** raw is a run of plain bytes and escape pairs: no bare node marker, no dangling escape. */
  ghost predicate WellEscaped(raw: seq<Byte>) {
    raw != [] ==>
      if raw[0] == ESCAPE_CHAR then |raw| >= 2 && WellEscaped(raw[2..])
      else !Special(raw[0]) && WellEscaped(raw[1..])
  }

  /** The bytes at positions a..b of s form a well-escaped run. */
  ghost predicate EscapedRun(s: seq<Byte>, a: nat, b: nat)
    decreases b - a
  {
    a <= b <= |s| &&
    (a < b ==>
      if s[a] == ESCAPE_CHAR then a + 2 <= b && EscapedRun(s, a + 2, b)
      else !Special(s[a]) && EscapedRun(s, a + 1, b))
  }

  lemma {:induction false} EscapedRunSlice(s: seq<Byte>, a: nat, b: nat)
    requires a <= b <= |s|
    ensures EscapedRun(s, a, b) <==> WellEscaped(s[a..b])
    decreases b - a
  {
    if a < b {
      if s[a] == ESCAPE_CHAR {
        if a + 2 <= b {
          assert s[a..b][2..] == s[a + 2..b];
          EscapedRunSlice(s, a + 2, b);
        }
      } else {
        assert s[a..b][1..] == s[a + 1..b];
        EscapedRunSlice(s, a + 1, b);
      }
    }
  }

  /** Escaping is undone by unescaping, and an escaped run hides every node marker. */
  lemma {:induction false} EscapeRoundTrip(data: seq<Byte>)
    ensures WellEscaped(Escape(data)) && Unescape(Escape(data)) == data
    ensures |Escape(data)| >= |data|
  {
    if data != [] {
      EscapeRoundTrip(data[1..]);
      var tail := Escape(data[1..]);
      if Special(data[0]) {
        assert Escape(data)[2..] == tail;
      } else {
        assert Escape(data)[1..] == tail;
      }
    }
  }

  // ----- The parser -------------------------------------------------------------------------

  /** The NODE structures the parser links: a first child and a next sibling. */
  datatype Net = NoNode | Node(start: nat, propsSize: nat, typ: Byte, child: Net, next: Net)

  type Parsed = Option<(Net, nat)>

  /** parseNode entered with the read position at p, just behind a NODE_START byte: the linked
      nodes and the position where the call leaves the reader, or None for `return false`. */
  function ParseNode(s: seq<Byte>, p: nat): (r: Parsed)
    requires 1 <= p <= |s|
    ensures r.Some? ==> p < r.value.1 <= |s| && (r.value.1 < |s| ==> s[r.value.1] == NODE_END)
    decreases |s| - p, 3
  {
    if p == |s| then None else ParseBody(s, p - 1, s[p], p + 1)
  }

  /** The inner loop: the type is known and no child has been read yet. */
  function ParseBody(s: seq<Byte>, start: nat, typ: Byte, q: nat): (r: Parsed)
    requires start + 2 <= q <= |s|
    ensures r.Some? ==> q < r.value.1 <= |s| && (r.value.1 < |s| ==> s[r.value.1] == NODE_END)
    decreases |s| - q, 2
  {
    if q == |s| then None
    else if s[q] == NODE_START then
      match ParseNode(s, q + 1)
      case None => None
      case Some((child, e)) =>
        if e == |s| then None else ParseAfterEnd(s, start, typ, q - start - 2, child, e)
    else if s[q] == NODE_END then ParseAfterEnd(s, start, typ, q - start - 2, NoNode, q)
    else if s[q] == ESCAPE_CHAR then
      if q + 1 == |s| then None else ParseBody(s, start, typ, q + 2)
    else ParseBody(s, start, typ, q + 1)
  }

  /** The NODE_END of the current node is at e: stop, step back one byte, or open a sibling. */
  function ParseAfterEnd(s: seq<Byte>, start: nat, typ: Byte, propsSize: nat, child: Net, e: nat): (r: Parsed)
    requires e < |s|
    ensures r.Some? ==> e < r.value.1 <= |s| && (r.value.1 < |s| ==> s[r.value.1] == NODE_END)
    decreases |s| - e, 1
  {
    if e + 1 == |s| || s[e + 1] == NODE_END then
      Some((Node(start, propsSize, typ, child, NoNode), e + 1))
    else if s[e + 1] == NODE_START then
      match ParseNode(s, e + 2)
      case None => None
      case Some((next, r)) => Some((Node(start, propsSize, typ, child, next), r))
    else None
  }

  /** openFile in read mode: a zero version word, a NODE_START at offset 4, then parseNode. */
  function OpenFile(s: seq<Byte>): Option<Net> {
    if |s| < 5 || s[..4] != [0, 0, 0, 0] || s[4] != NODE_START then None
    else match ParseNode(s, 5)
      case None => None
      case Some((net, _)) => Some(net)
  }

  // ----- What acceptance means --------------------------------------------------------------

  /** Where the properties of a node stop: its first child, or its own NODE_END. */
  function PropsEnd(n: Net): nat
    requires n.Node?
  {
    n.start + 2 + n.propsSize
  }

  /** The offset of the NODE_END byte of a node. */
  function EndOf(n: Net): nat
    requires n.Node?
    decreases n, 0
  {
    if n.child.NoNode? then PropsEnd(n) else ChainEnd(n.child)
  }

  /** The offset just behind the last sibling of a chain. */
  function ChainEnd(n: Net): nat
    requires n.Node?
    decreases n, 1
  {
    if n.next.NoNode? then EndOf(n) + 1 else ChainEnd(n.next)
  }

  /** The nodes of a chain tile s: marker, type, escaped properties, the children right behind
      the properties, NODE_END, and the next sibling right behind that. */
  ghost predicate Tiles(s: seq<Byte>, n: Net)
    requires n.Node?
  {
    && PropsEnd(n) <= |s|
    && s[n.start] == NODE_START
    && s[n.start + 1] == n.typ
    && EscapedRun(s, n.start + 2, PropsEnd(n))
    && Adjacent(s, n)
    && (n.child.Node? ==> Tiles(s, n.child))
    && (n.next.Node? ==> Tiles(s, n.next))
  }

  /** A node tiles s from the end of its properties on. */
  ghost predicate Settled(s: seq<Byte>, n: Net)
    requires n.Node?
  {
    Adjacent(s, n) && (n.child.Node? ==> Tiles(s, n.child)) && (n.next.Node? ==> Tiles(s, n.next))
  }

  predicate Adjacent(s: seq<Byte>, n: Net)
    requires n.Node?
  {
    && (n.child.Node? ==> n.child.start == PropsEnd(n))
    && EndOf(n) < |s|
    && s[EndOf(n)] == NODE_END
    && (n.next.Node? ==> n.next.start == EndOf(n) + 1)
  }

  /** A chain ends where the parser may stop: at the end of the file or before a NODE_END. */
  ghost predicate Stops(s: seq<Byte>, r: nat) {
    r <= |s| && (r < |s| ==> s[r] == NODE_END)
  }

  /** Extents nest: children lie strictly between a node's properties and its NODE_END. */
  lemma {:induction false} ExtentsNest(s: seq<Byte>, n: Net)
    requires n.Node? && Tiles(s, n)
    ensures n.start + 2 <= PropsEnd(n) <= EndOf(n) < ChainEnd(n) <= |s|
    decreases n
  {
    if n.child.Node? { ExtentsNest(s, n.child); }
    if n.next.Node? { ExtentsNest(s, n.next); }
  }

  // ----- The parser accepts exactly the tilings ----------------------------------------------

  /** Everything parseNode accepts tiles the input. */
  lemma {:induction false} ParseSound(s: seq<Byte>, p: nat)
    requires 1 <= p <= |s| && s[p - 1] == NODE_START
    ensures var r := ParseNode(s, p);
            r.Some? ==> r.value.0.Node? && r.value.0.start == p - 1 && Tiles(s, r.value.0) && r.value.1 == ChainEnd(r.value.0)
    decreases |s| - p, 3
  {
    if p < |s| {
      BodySound(s, p - 1, s[p], p + 1);
    }
  }

  /** What ParseBody entered at q and ParseAfterEnd promise about the chain they return. */
  ghost predicate Extends(s: seq<Byte>, start: nat, typ: Byte, q: nat, r: Parsed) {
    r.Some? ==>
      var n := r.value.0;
      n.Node? && n.start == start && n.typ == typ && EscapedRun(s, q, PropsEnd(n)) && Settled(s, n) &&
      r.value.1 == ChainEnd(n)
  }

  lemma {:induction false} BodySound(s: seq<Byte>, start: nat, typ: Byte, q: nat)
    requires start + 2 <= q <= |s|
    ensures Extends(s, start, typ, q, ParseBody(s, start, typ, q))
    decreases |s| - q, 2
  {
    if q == |s| {
    } else if s[q] == NODE_START {
      ParseSound(s, q + 1);
      match ParseNode(s, q + 1) {
        case None =>
        case Some((child, e)) =>
          if e < |s| { AfterEndSound(s, start, typ, q, child, e); }
      }
    } else if s[q] == NODE_END {
      AfterEndSound(s, start, typ, q, NoNode, q);
    } else if s[q] == ESCAPE_CHAR {
      if q + 1 < |s| { BodySound(s, start, typ, q + 2); }
    } else {
      BodySound(s, start, typ, q + 1);
    }
  }

  lemma {:induction false} AfterEndSound(s: seq<Byte>, start: nat, typ: Byte, q: nat, child: Net, e: nat)
    requires start + 2 <= q <= e < |s| && s[e] == NODE_END
    requires child.Node? ==> child.start == q && Tiles(s, child) && e == ChainEnd(child)
    requires child.NoNode? ==> e == q
    ensures Extends(s, start, typ, q, ParseAfterEnd(s, start, typ, q - start - 2, child, e))
    decreases |s| - e, 1
  {
    if e + 1 < |s| && s[e + 1] == NODE_START {
      ParseSound(s, e + 2);
    }
  }

  /** Every tiling that ends where the parser may stop is accepted, and is what parseNode builds. */
  lemma {:induction false} ParseComplete(s: seq<Byte>, n: Net)
    requires n.Node? && Tiles(s, n) && Stops(s, ChainEnd(n))
    ensures ParseNode(s, n.start + 1) == Some((n, ChainEnd(n)))
    decreases n, 2
  {
    ExtentsNest(s, n);
    BodyComplete(s, n, n.start + 2);
  }

  lemma {:induction false} BodyComplete(s: seq<Byte>, n: Net, q: nat)
    requires n.Node? && Tiles(s, n) && Stops(s, ChainEnd(n))
    requires n.start + 2 <= q <= PropsEnd(n) && EscapedRun(s, q, PropsEnd(n))
    ensures ParseBody(s, n.start, n.typ, q) == Some((n, ChainEnd(n)))
    decreases n, 1, PropsEnd(n) - q
  {
    ExtentsNest(s, n);
    if q < PropsEnd(n) {
      BodyComplete(s, n, if s[q] == ESCAPE_CHAR then q + 2 else q + 1);
    } else {
      if n.child.Node? {
        ExtentsNest(s, n.child);
        ParseComplete(s, n.child);
      }
      if n.next.Node? {
        ExtentsNest(s, n.next);
        ParseComplete(s, n.next);
      }
    }
  }

  /** parseNode accepts a byte string exactly when some node chain tiles it up to a stopping
      point, and then it builds that chain; so the tiling is unique. */
  lemma ParseExact(s: seq<Byte>, p: nat, n: Net, r: nat)
    requires 1 <= p <= |s| && s[p - 1] == NODE_START
    ensures ParseNode(s, p) == Some((n, r))
       <==> n.Node? && n.start == p - 1 && Tiles(s, n) && r == ChainEnd(n) && Stops(s, r)
  {
    ParseSound(s, p);
    if n.Node? && n.start == p - 1 && Tiles(s, n) && Stops(s, ChainEnd(n)) {
      ParseComplete(s, n);
    }
  }
}
