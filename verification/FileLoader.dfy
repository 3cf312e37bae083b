/** FileLoader: the same reader over the file itself or over three cached blocks, the recursive
    parser that links NodeStruct objects, the in-place unescaper, and the escaping writer. */
module FileLoader {
  import opened Arithmetic
  import opened Options
  import opened NodeFormat
  import opened NodeRoundTrip

  const CACHE_BLOCKS: nat := 3
  const NO_VALID_CACHE: nat := 0xFFFFFFFF

  // ----- Bit masks --------------------------------------------------------------------------

  /** The C operator & on naturals. */
  function BitAnd(a: nat, b: nat): nat {
    if a == 0 || b == 0 then 0 else 2 * BitAnd(a / 2, b / 2) + if a % 2 == 1 && b % 2 == 1 then 1 else 0
  }

  lemma {:induction false} BitAndBelow(a: nat, b: nat)
    ensures BitAnd(a, b) <= a && BitAnd(a, b) <= b
  {
    if a != 0 && b != 0 {
      BitAndBelow(a / 2, b / 2);
    }
  }

  /** pos & ~mask: the bits of pos that mask does not have. */
  function ClearBits(pos: nat, mask: nat): (r: nat)
    ensures r <= pos <= r + mask
  {
    BitAndBelow(pos, mask);
    pos - BitAnd(pos, mask)
  }

  /** The offset of the block that getCacheBlock picks for pos. */
  function BlockBase(pos: nat, size: nat): (base: nat)
    requires size > 0
    ensures base <= pos < base + size
  {
    ClearBits(pos, size - 1)
  }


  /** The block size openFile picks for a file of this length. */
  function CacheSize(length: nat): nat {
    ClearBits(Min(32768, Max(length / 20, 8192)), 0x1FFF)
  }

  /** Whatever the size of the file, the block picked for a position covers that position, even
      for the size 24576, which is not a power of two. */
  lemma BlockCoversPos(length: nat, pos: nat)
    ensures 0 < CacheSize(length) <= 32768
    ensures BlockBase(pos, CacheSize(length)) <= pos < BlockBase(pos, CacheSize(length)) + CacheSize(length)
  {
    hide BitAnd, BlockBase;
  }

  /** The bytes fread(..., size, ...) delivers from offset base. */
  function Block(file: seq<Byte>, base: nat, size: nat): seq<Byte> {
    if base >= |file| then [] else file[base..Min(base + size, |file|)]
  }

  /** A block that covers pos holds the file from pos on, as far as the block goes. */
  lemma InBlock(file: seq<Byte>, base: nat, size: nat, pos: nat)
    requires base <= pos < base + size && pos <= |file|
    ensures pos - base <= |Block(file, base, size)| && base + |Block(file, base, size)| <= |file|
    ensures Block(file, base, size)[pos - base..] == file[pos..base + |Block(file, base, size)|]
    ensures pos < |file| ==> pos - base < |Block(file, base, size)| && Block(file, base, size)[pos - base] == file[pos]
  {
  }

  lemma BlockByte(file: seq<Byte>, base: nat, size: nat, k: nat)
    requires k < |Block(file, base, size)|
    ensures base + k < |file| && Block(file, base, size)[k] == file[base + k]
  {
  }

  /** The next piece of a block extends the slice read so far. */
  lemma SliceAppend(file: seq<Byte>, start: nat, pos: nat, data: seq<Byte>, offset: nat, reading: nat)
    requires start <= pos && offset + reading <= |data| && offset <= pos && pos - offset + |data| <= |file|
    requires data[offset..] == file[pos..pos - offset + |data|]
    ensures file[start..pos] + data[offset..offset + reading] == file[start..pos + reading]
  {
    assert data[offset..][..reading] == data[offset..offset + reading];
  }

  method MemCpy(dst: array<Byte>, at: nat, src: seq<Byte>)
    requires at + |src| <= dst.Length
    modifies dst
    ensures dst[..at + |src|] == old(dst[..at]) + src
  {
    forall k | 0 <= k < |src| {
      dst[at + k] := src[k];
    }
  }

  // ----- Nodes ------------------------------------------------------------------------------

  class NodeStruct {
    var start: nat
    var propsSize: nat
    var typ: Byte
    var next: NodeStruct?
    var child: NodeStruct?

    constructor ()
      ensures start == propsSize == 0 && typ == 0 && next == null && child == null
    {
      start, propsSize, typ := 0, 0, 0;
      next, child := null, null;
    }
  }

  /** The objects behind a chain of nodes. */
  datatype Shape = NoShape | Link(obj: NodeStruct, child: Shape, next: Shape)

  ghost function Objs(sh: Shape): set<NodeStruct> {
    match sh
    case NoShape => {}
    case Link(o, c, x) => {o} + Objs(c) + Objs(x)
  }

  /** The objects linked behind n spell out the chain net. */
  ghost predicate Denotes(n: NodeStruct?, sh: Shape, net: Net)
    reads Objs(sh)
    decreases sh
  {
    match sh
    case NoShape => n == null && net.NoNode?
    case Link(o, c, x) =>
      && n == o && net.Node?
      && o.start == net.start && o.propsSize == net.propsSize && o.typ == net.typ
      && Denotes(o.child, c, net.child) && Denotes(o.next, x, net.next)
  }

  /** The result for a node whose sibling chain parses to r. */
  ghost function Prepend(start: nat, size: nat, typ: Byte, child: Net, r: Parsed): Parsed {
    match r
    case None => None
    case Some((next, e)) => Some((Node(start, size, typ, child, next), e))
  }

  /** A node of the chain being parsed that already has its next sibling. */
  datatype Done = Done(obj: NodeStruct, start: nat, size: nat, typ: Byte, child: Net, shape: Shape)

  ghost function DoneObjs(done: seq<Done>): set<NodeStruct> {
    if done == [] then {} else {done[0].obj} + Objs(done[0].shape) + DoneObjs(done[1..])
  }

  /** The object a chain of finished nodes followed by last starts with. */
  ghost function First(done: seq<Done>, last: NodeStruct): NodeStruct {
    if done == [] then last else done[0].obj
  }

  /** The finished nodes are linked to one another and then to last. */
  ghost predicate Chained(done: seq<Done>, last: NodeStruct)
    reads DoneObjs(done)
  {
    done != [] ==>
      var d := done[0];
      && d.obj.start == d.start && d.obj.propsSize == d.size && d.obj.typ == d.typ
      && Denotes(d.obj.child, d.shape, d.child)
      && d.obj.next == First(done[1..], last)
      && Chained(done[1..], last)
  }

  /** The parse result once the finished nodes are put in front of the rest. */
  ghost function Attach(done: seq<Done>, r: Parsed): Parsed {
    if done == [] then r
    else var d := done[0]; Prepend(d.start, d.size, d.typ, d.child, Attach(done[1..], r))
  }

  ghost function FoldNet(done: seq<Done>, last: Net): Net {
    if done == [] then last
    else var d := done[0]; Node(d.start, d.size, d.typ, d.child, FoldNet(done[1..], last))
  }

  ghost function FoldShape(done: seq<Done>, last: Shape): Shape {
    if done == [] then last else Link(done[0].obj, done[0].shape, FoldShape(done[1..], last))
  }

  lemma {:induction false} AttachSnoc(done: seq<Done>, d: Done, r: Parsed)
    ensures Attach(done + [d], r) == Attach(done, Prepend(d.start, d.size, d.typ, d.child, r))
    ensures Attach(done, None) == None
  {
    if done != [] {
      assert (done + [d])[1..] == done[1..] + [d];
      AttachSnoc(done[1..], d, r);
    }
  }

  lemma {:induction false} ChainedSnoc(done: seq<Done>, d: Done, next: NodeStruct)
    requires Chained(done, d.obj) && Denotes(d.obj.child, d.shape, d.child) && d.obj.next == next
    requires d.obj.start == d.start && d.obj.propsSize == d.size && d.obj.typ == d.typ
    ensures Chained(done + [d], next) && First(done + [d], next) == First(done, d.obj)
    ensures DoneObjs(done + [d]) == DoneObjs(done) + {d.obj} + Objs(d.shape)
  {
    if done == [] {
      assert ([d])[1..] == [];
    } else {
      assert (done + [d])[1..] == done[1..] + [d];
      ChainedSnoc(done[1..], d, next);
    }
  }

  /** The finished nodes and the last one together spell out the whole chain. */
  lemma {:induction false} Finish(done: seq<Done>, d: Done, e: nat)
    requires Chained(done, d.obj) && Denotes(d.obj.child, d.shape, d.child) && d.obj.next == null
    requires d.obj.start == d.start && d.obj.propsSize == d.size && d.obj.typ == d.typ
    ensures var last := Link(d.obj, d.shape, NoShape);
            var net := Node(d.start, d.size, d.typ, d.child, NoNode);
            && Denotes(First(done, d.obj), FoldShape(done, last), FoldNet(done, net))
            && Objs(FoldShape(done, last)) == DoneObjs(done) + {d.obj} + Objs(d.shape)
            && Attach(done, Some((net, e))) == Some((FoldNet(done, net), e))
  {
    if done != [] {
      Finish(done[1..], d, e);
    }
  }

  lemma NothingDone(last: NodeStruct)
    ensures Chained([], last) && First([], last) == last && DoneObjs([]) == {}
  {
  }

  /** A node without children links nothing. */
  lemma NoChildren() returns (child: Net, shape: Shape)
    ensures child == NoNode && shape == NoShape && Objs(shape) == {} && Denotes(null, shape, child)
  {
    child, shape := NoNode, NoShape;
  }

  function Emit(data: seq<Byte>, unescape: bool): seq<Byte> {
    if unescape then Escape(data) else data
  }

  lemma EmitStep(out: seq<Byte>, data: seq<Byte>, i: nat, unescape: bool)
    requires i <= |data|
    ensures i == |data| ==> out + Emit(data[i..], unescape) == out
    ensures i < |data| ==>
              var marked := if unescape && Special(data[i]) then out + [ESCAPE_CHAR] else out;
              out + Emit(data[i..], unescape) == (marked + [data[i]]) + Emit(data[i + 1..], unescape)
  {
    if i < |data| {
      assert data[i..][1..] == data[i + 1..];
    }
  }

  lemma Pieces(f: seq<Byte>, a: seq<Byte>, b: seq<Byte>, c: seq<Byte>, d: seq<Byte>, e: seq<Byte>, g: seq<Byte>)
    ensures f + a + b + c + d + e + g == f + (a + b + c + d + e + g)
  {
  }

  /** One step of the unescaper at index i, with the bytes already put out. */
  lemma Rest(raw: seq<Byte>, i: nat, out: seq<Byte>)
    requires i <= |raw| && WellEscaped(raw[i..])
    ensures raw[0..] == raw && [] + Unescape(raw) == Unescape(raw)
    ensures i == |raw| ==> out + Unescape(raw[i..]) == out
    ensures i < |raw| && raw[i] != ESCAPE_CHAR ==>
              WellEscaped(raw[i + 1..]) && out + Unescape(raw[i..]) == (out + [raw[i]]) + Unescape(raw[i + 1..])
    ensures i < |raw| && raw[i] == ESCAPE_CHAR ==>
              i + 1 < |raw| && WellEscaped(raw[i + 2..]) &&
              out + Unescape(raw[i..]) == (out + [raw[i + 1]]) + Unescape(raw[i + 2..])
  {
    if i < |raw| {
      assert raw[i..][1..] == raw[i + 1..];
      if i + 1 < |raw| { assert raw[i..][2..] == raw[i + 2..]; }
    }
  }

  /** What a reader knows about a linked node. */
  lemma LinkParts(n: NodeStruct?, shape: Shape, net: Net)
    requires Denotes(n, shape, net)
    ensures n == null ==> net == NoNode
    ensures n != null ==>
              && shape.Link? && net.Node? && n.start == net.start && n.propsSize == net.propsSize && n.typ == net.typ
              && Denotes(n.child, shape.child, net.child) && Denotes(n.next, shape.next, net.next)
              && Objs(shape.child) <= Objs(shape) && Objs(shape.next) <= Objs(shape) && n in Objs(shape)
  {
  }

  lemma NothingDecoded(file: seq<Byte>)
    ensures Decode(file, NoNode) == Empty
  {
  }

  /** What a reader knows about a node that tiles the file. */
  lemma TileParts(file: seq<Byte>, net: Net)
    requires net.Node? && Tiles(file, net)
    ensures PropsEnd(net) <= |file| && WellEscaped(file[net.start + 2..PropsEnd(net)])
    ensures net.child.Node? ==> Tiles(file, net.child)
    ensures net.next.Node? ==> Tiles(file, net.next)
    ensures Decode(file, net) ==
            Tree(net.typ, Unescape(file[net.start + 2..PropsEnd(net)]), Decode(file, net.child), Decode(file, net.next))
  {
    hide EscapedRun, WellEscaped, Unescape;
    EscapedRunSlice(file, net.start + 2, PropsEnd(net));
  }

  /** The size of the buffer once getProps has made room for properties of this size: it grows once. */
  function Grown(size: nat, propsSize: nat): nat {
    if propsSize >= size then size + 1024 else size
  }

  /** The size of the buffer after a walk that fetches the properties of all nodes of a chain. */
  function SizeAfter(net: Net, size: nat): nat {
    if net.NoNode? then size else SizeAfter(net.next, SizeAfter(net.child, Grown(size, net.propsSize)))
  }

  /** In the order of that walk, each node's properties fit into what the buffer then holds. */
  ghost predicate PropsFit(net: Net, size: nat) {
    net.Node? ==>
      var grown := Grown(size, net.propsSize);
      net.propsSize <= grown && PropsFit(net.child, grown) && PropsFit(net.next, SizeAfter(net.child, grown))
  }

  lemma FitParts(net: Net, size: nat)
    requires net.Node?
    ensures var grown := Grown(size, net.propsSize);
            && (PropsFit(net, size) <==>
                net.propsSize <= grown && PropsFit(net.child, grown) && PropsFit(net.next, SizeAfter(net.child, grown)))
            && SizeAfter(net, size) == SizeAfter(net.next, SizeAfter(net.child, grown))
  {
  }

  lemma NothingFits(size: nat)
    ensures PropsFit(NoNode, size) && SizeAfter(NoNode, size) == size
  {
  }

  /** parseNode reads the type and goes on with the properties. */
  lemma Opening(s: seq<Byte>, p: nat)
    requires 1 <= p <= |s|
    ensures NodeFormat.ParseNode(s, p) == if p == |s| then None else ParseBody(s, p - 1, s[p], p + 1)
  {
  }

  /** What follows a marker behind the properties: a child chain and then a NODE_END, or a NODE_END. */
  lemma BodyAtMarker(s: seq<Byte>, start: nat, typ: Byte, q: nat)
    requires start + 2 <= q < |s| && (s[q] == NODE_START || s[q] == NODE_END)
    ensures s[q] == NODE_END ==> ParseBody(s, start, typ, q) == ParseAfterEnd(s, start, typ, q - start - 2, NoNode, q)
    ensures s[q] == NODE_START ==>
              ParseBody(s, start, typ, q) ==
              match NodeFormat.ParseNode(s, q + 1) {
                case None => None
                case Some((child, e)) => if e == |s| then None else ParseAfterEnd(s, start, typ, q - start - 2, child, e)
              }
  {
  }

  // ----- The loader -------------------------------------------------------------------------

  datatype CacheBlock = CacheBlock(loaded: bool, base: nat, data: seq<Byte>)

  class FileLoader {
    var file: seq<Byte>        // the bytes of m_file
    var filePos: nat           // its stdio position
    var useCache: bool
    var cacheSize: nat
    var cacheIndex: nat
    var cacheOffset: nat
    const blocks: array<CacheBlock>
    var buffer: array<Byte>
    var root: NodeStruct?

    /** Every loaded slot holds exactly the file bytes from its base. */
    ghost predicate Valid()
      reads this, blocks
    {
      && blocks.Length == CACHE_BLOCKS
      && buffer.Length >= 1024 && blocks as object != buffer
      && (useCache ==>
            cacheSize > 0 &&
            forall i :: 0 <= i < CACHE_BLOCKS && blocks[i].loaded ==>
              blocks[i].data == Block(file, blocks[i].base, cacheSize))
    }

    /** A position has been chosen, and it lies within the file or at its end. */
    ghost predicate Ready()
      requires Valid()
      reads this, blocks
      ensures Ready() ==> Pos() <= |file|
    {
      && (useCache ==> cacheIndex < CACHE_BLOCKS && blocks[cacheIndex].loaded)
      && Pos() <= |file|
    }

    /** The next byte to be read, whichever way it is read. */
    ghost function Pos(): nat
      requires Valid()
      reads this, blocks
    {
      if !useCache then filePos
      else if cacheIndex < CACHE_BLOCKS then blocks[cacheIndex].base + cacheOffset
      else 0
    }

    constructor ()
      ensures Valid() && fresh(blocks) && fresh(buffer) && file == [] && !useCache && root == null && buffer.Length == 1024
      ensures forall i :: 0 <= i < CACHE_BLOCKS ==> !blocks[i].loaded
    {
      file, filePos := [], 0;
      useCache, cacheSize, cacheIndex, cacheOffset := false, 0, NO_VALID_CACHE, NO_VALID_CACHE;
      blocks := new CacheBlock[CACHE_BLOCKS](i => CacheBlock(false, 0, []));
      buffer := new Byte[1024](i => 0);
      root := null;
    }

    // ----- The block cache ------------------------------------------------------------------

    /** Reads the block of pos into a free slot, else into one far away, else into slot 0. */
    method LoadCacheBlock(pos: nat) returns (slot: int)
      requires Valid() && useCache
      modifies `filePos, blocks
      ensures Valid()
      ensures var base := BlockBase(pos, cacheSize);
              slot == -1 <==> pos > |file| && pos != base
      ensures slot != -1 ==>
                0 <= slot < CACHE_BLOCKS &&
                var base := BlockBase(pos, cacheSize);
                blocks[..] == old(blocks[..])[slot := CacheBlock(true, base, Block(file, base, cacheSize))]
    {
      hide BlockBase;
      var basePos := BlockBase(pos, cacheSize);
      var loading := -1;
      var i := 0;
      while i < CACHE_BLOCKS
        invariant loading == -1 && i <= CACHE_BLOCKS
      {
        if !blocks[i].loaded { loading := i; break; }
        i := i + 1;
      }
      if loading == -1 {
        i := 0;
        while i < CACHE_BLOCKS
          invariant loading == -1 && i <= CACHE_BLOCKS
        {
          var distance := if blocks[i].base < basePos then basePos - blocks[i].base else blocks[i].base - basePos;
          if distance > 2 * cacheSize { loading := i; break; }
          i := i + 1;
        }
        if loading == -1 { loading := 0; }
      }
      var data := Block(file, basePos, cacheSize);
      filePos := basePos + |data|;
      blocks[loading] := CacheBlock(blocks[loading].loaded, basePos, data);
      if |data| < pos - basePos { return -1; }
      blocks[loading] := CacheBlock(true, basePos, data);
      return loading;
    }

    method GetCacheBlock(pos: nat) returns (slot: int)
      requires Valid() && useCache
      modifies `filePos, blocks
      ensures Valid()
      ensures pos <= |file| ==> slot != -1
      ensures slot != -1 ==>
                0 <= slot < CACHE_BLOCKS && blocks[slot].loaded && blocks[slot].base == BlockBase(pos, cacheSize)
    {
      hide BlockBase, Block;
      var i := 0;
      while i < CACHE_BLOCKS
        invariant i <= CACHE_BLOCKS
      {
        if blocks[i].loaded && blocks[i].base == BlockBase(pos, cacheSize) { return i; }
        i := i + 1;
      }
      slot := LoadCacheBlock(pos);
    }

    /** Makes the block of pos the current one: getCacheBlock, then the index and the offset. */
    method UseBlockOf(pos: nat) returns (ok: bool)
      requires Valid() && useCache && pos <= |file|
      modifies `filePos, `cacheIndex, `cacheOffset, blocks
      ensures Valid() && Ready() && ok && Pos() == pos
      ensures cacheOffset <= |blocks[cacheIndex].data| && pos - cacheOffset + |blocks[cacheIndex].data| <= |file|
      ensures pos < |file| ==> cacheOffset < |blocks[cacheIndex].data|
      ensures var data := blocks[cacheIndex].data; data[cacheOffset..] == file[pos..pos - cacheOffset + |data|]
    {
      hide BlockBase;
      var slot := GetCacheBlock(pos);
      if slot == -1 { return false; }
      cacheIndex := slot;
      cacheOffset := pos - blocks[slot].base;
      InBlock(file, blocks[slot].base, cacheSize, pos);
      ok := true;
    }

    /** The next byte of the file, or false at its end, in either mode. */
    method ReadByte() returns (ok: bool, value: Byte)
      requires Valid() && Ready()
      modifies `filePos, `cacheIndex, `cacheOffset, blocks
      ensures Valid() && Ready()
      ensures ok <==> old(Pos()) < |file|
      ensures ok ==> value == file[old(Pos())] && Pos() == old(Pos()) + 1
      ensures !ok ==> Pos() == old(Pos())
    {
      if useCache {
        ghost var here := Pos();
        if cacheOffset >= |blocks[cacheIndex].data| {
          var found := UseBlockOf(cacheOffset + blocks[cacheIndex].base);
          if !found || cacheOffset >= |blocks[cacheIndex].data| { return false, 0; }
        }
        BlockByte(file, blocks[cacheIndex].base, cacheSize, cacheOffset);
        value := blocks[cacheIndex].data[cacheOffset];
        cacheOffset := cacheOffset + 1;
        ok := true;
      } else if filePos < |file| {
        value := file[filePos];
        filePos := filePos + 1;
        ok := true;
      } else {
        ok, value := false, 0;
      }
    }

    method SafeSeek(pos: nat) returns (ok: bool)
      requires Valid() && pos <= |file|
      modifies `filePos, `cacheIndex, `cacheOffset, blocks
      ensures Valid() && Ready() && ok && Pos() == pos
    {
      if useCache {
        ok := UseBlockOf(pos);
      } else {
        filePos := pos;
        ok := true;
      }
    }

    /** The position of the byte read last. */
    method SafeTell() returns (pos: int)
      requires Valid() && Ready()
      ensures pos == Pos() - 1
    {
      pos := if useCache then blocks[cacheIndex].base + cacheOffset - 1 else filePos - 1;
    }

    /** memcpy into the buffer; the read position stays. */
    method CopyOut(at: nat, src: seq<Byte>)
      requires Valid() && Ready() && at + |src| <= buffer.Length
      modifies buffer
      ensures Valid() && Ready() && Pos() == old(Pos())
      ensures buffer[..at + |src|] == old(buffer[..at]) + src
    {
      MemCpy(buffer, at, src);
    }

    /** Copies the rest of the slice, as far as the block of pos goes. */
    method CopyBlock(start: nat, pos: nat, remain: nat) returns (reading: nat)
      requires Valid() && useCache && start <= pos && pos + remain <= |file| && pos + remain - start <= buffer.Length
      requires buffer[..pos - start] == file[start..pos]
      modifies `filePos, `cacheIndex, `cacheOffset, blocks, buffer
      ensures Valid() && Ready() && Pos() == pos + reading
      ensures reading <= remain && (remain > 0 ==> reading > 0)
      ensures buffer[..pos + reading - start] == file[start..pos + reading]
    {
      hide Block, BlockBase;
      var found := UseBlockOf(pos);
      var data := blocks[cacheIndex].data;
      reading := Min(remain, |data| - cacheOffset);
      SliceAppend(file, start, pos, data, cacheOffset, reading);
      var piece := data[cacheOffset..cacheOffset + reading];
      assert buffer[..pos - start] + piece == file[start..pos + reading];
      cacheOffset := cacheOffset + reading;
      CopyOut(pos - start, piece);
    }

    /** Copies a slice into the buffer block by block. */
    method ReadCached(size: nat, start: nat) returns (ok: bool)
      requires Valid() && useCache && start + size <= |file| && size <= buffer.Length
      modifies `filePos, `cacheIndex, `cacheOffset, blocks, buffer
      ensures Valid() && Ready() && ok && Pos() == start + size
      ensures buffer[..size] == file[start..start + size]
    {
      hide Valid, Ready, Pos;
      var pos: nat, remain: nat := start, size;
      while true
        invariant Valid() && pos >= start && pos + remain == start + size
        invariant buffer[..pos - start] == file[start..pos]
        decreases remain
      {
        var reading := CopyBlock(start, pos, remain);
        remain := remain - reading;
        pos := pos + reading;
        if remain == 0 { break; }
      }
      ok := true;
    }

    /** Copies a whole slice of the file into the buffer, in either mode. */
    method ReadBytes(size: nat, start: nat) returns (ok: bool)
      requires Valid() && start + size <= |file| && size <= buffer.Length
      modifies `filePos, `cacheIndex, `cacheOffset, blocks, buffer
      ensures Valid() && Ready() && ok && Pos() == start + size
      ensures buffer[..size] == file[start..start + size]
    {
      if useCache {
        ok := ReadCached(size, start);
      } else {
        MemCpy(buffer, 0, file[start..start + size]);
        filePos := start + size;
        ok := true;
      }
    }

    // ----- The parser -----------------------------------------------------------------------

    /** The byte behind a node's NODE_END: it ends the chain, is stepped back over, or opens the
        sibling that is linked and returned; any other byte is a format error. */
    method CloseNode(current: NodeStruct) returns (ok: bool, sibling: NodeStruct?)
      requires Valid() && Ready() && Pos() >= 1 && file[Pos() - 1] == NODE_END && current.next == null
      modifies `filePos, `cacheIndex, `cacheOffset, blocks, current`next
      ensures Valid() && Ready() && current.next == sibling && Pos() >= old(Pos())
      ensures var e := old(Pos()) - 1;
              ok <==> e + 1 == |file| || file[e + 1] == NODE_START || file[e + 1] == NODE_END
      ensures ok && sibling == null ==> Pos() == old(Pos()) && Stops(file, Pos())
      ensures ok && sibling != null ==>
                old(Pos()) < |file| && file[old(Pos())] == NODE_START && Pos() == old(Pos()) + 1 &&
                fresh(sibling) && sibling.start == Pos() - 1 && sibling.next == null && sibling.child == null
    {
      sibling := null;
      var more, byte := ReadByte();
      if !more { return true, null; }
      if byte == NODE_START {
        var pos := SafeTell();
        sibling := new NodeStruct();
        sibling.start := pos;
        current.next := sibling;
        ok := true;
      } else if byte == NODE_END {
        var pos := SafeTell();
        ok := SafeSeek(pos);
      } else {
        ok := false;
      }
    }

    /** The bytes behind a node's NODE_START, up to the marker behind its properties. */
    method ScanProps(current: NodeStruct) returns (ok: bool, byte: Byte, ghost typ: Byte)
      requires Valid() && Ready() && Pos() >= 1 && current.start == Pos() - 1
      modifies `filePos, `cacheIndex, `cacheOffset, blocks, current`typ
      ensures Valid() && Ready()
      ensures !ok ==> NodeFormat.ParseNode(file, old(Pos())).None?
      ensures ok ==>
                Pos() >= old(Pos()) + 2 && byte == file[Pos() - 1] && (byte == NODE_START || byte == NODE_END) &&
                current.typ == typ &&
                NodeFormat.ParseNode(file, old(Pos())) == ParseBody(file, current.start, typ, Pos() - 1)
    {
      hide Valid, Ready, Pos, NodeFormat.ParseNode, ParseAfterEnd;
      ghost var p := Pos();
      Opening(file, p);
      typ := 0;
      ok, byte := ReadByte();
      if !ok { return; }
      current.typ, typ := byte, byte;
      while true
        invariant Valid() && Ready() && p < Pos() && current.typ == typ
        invariant NodeFormat.ParseNode(file, p) == ParseBody(file, current.start, typ, Pos())
        decreases |file| - Pos()
      {
        ok, byte := ReadByte();
        if !ok { return; }
        if byte == NODE_START || byte == NODE_END { return; }
        if byte == ESCAPE_CHAR {
          ok, byte := ReadByte();
          if !ok { return; }
        }
      }
    }

    /** Links and parses the child chain whose NODE_START was just read, up to and including the
        NODE_END behind it: a chain only ever stops there or at the end of the file. */
    method ParseChildren(current: NodeStruct) returns (ok: bool, ghost child: Net, ghost shape: Shape)
      requires Valid() && Ready() && Pos() >= 1
      modifies `filePos, `cacheIndex, `cacheOffset, blocks, current`child
      ensures Valid() && Ready()
      ensures var r := NodeFormat.ParseNode(file, old(Pos()));
              ok <==> r.Some? && r.value.1 < |file|
      ensures ok ==> Pos() > old(Pos()) + 1 && NodeFormat.ParseNode(file, old(Pos())) == Some((child, Pos() - 1))
      ensures ok ==> Denotes(current.child, shape, child) && forall o :: o in Objs(shape) ==> allocated(o) && fresh(o)
      decreases |file| - Pos(), 3
    {
      hide Valid, Ready, Pos, Denotes, Objs, NodeFormat.ParseNode;
      var pos := SafeTell();
      var childNode := new NodeStruct();
      childNode.start := pos;
      current.child := childNode;
      ok, child, shape := ParseNode(childNode);
      if !ok { return; }
      assert current.child == childNode && Denotes(childNode, shape, child);
      assert forall o :: o in Objs(shape) ==> allocated(o) && o as object != this && o as object != blocks;
      var byte;
      ok, byte := ReadByte();
      if !ok { return; }
      assert current.child == childNode;
      assert Denotes(childNode, shape, child);
    }

    /** The inner loop: a node from its type byte to its NODE_END, with its children. */
    method ParseBodyOf(current: NodeStruct) returns (ok: bool, ghost child: Net, ghost shape: Shape)
      requires Valid() && Ready() && Pos() >= 1 && current.start == Pos() - 1
      requires current.next == null && current.child == null
      modifies `filePos, `cacheIndex, `cacheOffset, blocks, current
      ensures Valid() && Ready() && current.start == old(current.start) && current.next == null
      ensures !ok ==> NodeFormat.ParseNode(file, old(Pos())).None?
      ensures ok ==>
                Pos() > old(Pos()) && Pos() >= 1 && file[Pos() - 1] == NODE_END && Denotes(current.child, shape, child) &&
                (forall o :: o in Objs(shape) ==> allocated(o) && fresh(o)) &&
                NodeFormat.ParseNode(file, old(Pos())) ==
                ParseAfterEnd(file, current.start, current.typ, current.propsSize, child, Pos() - 1)
      decreases |file| - Pos(), 0
    {
      hide Valid, Ready, Pos, Denotes, Objs, NodeFormat.ParseNode, ParseAfterEnd;
      ghost var p := Pos();
      child, shape := NoChildren();
      var byte: Byte;
      ghost var typ: Byte;
      ok, byte, typ := ScanProps(current);
      if !ok { return; }
      ghost var q := Pos();
      BodyAtMarker(file, current.start, typ, q - 1);
      var pos := SafeTell();
      current.propsSize := pos - current.start - 2;
      if byte == NODE_START {
        ok, child, shape := ParseChildren(current);
      }
    }

    /** One pass of the outer loop: a node from its type byte to the byte behind its NODE_END. */
    method ParseOne(current: NodeStruct)
      returns (ok: bool, sibling: NodeStruct?, ghost child: Net, ghost shape: Shape)
      requires Valid() && Ready() && Pos() >= 1 && current.start == Pos() - 1
      requires current.next == null && current.child == null
      modifies `filePos, `cacheIndex, `cacheOffset, blocks, current
      ensures Valid() && Ready() && current.start == old(current.start) && current.next == sibling
      ensures !ok ==> NodeFormat.ParseNode(file, old(Pos())).None?
      ensures ok ==>
                Pos() > old(Pos()) && Denotes(current.child, shape, child) &&
                forall o :: o in Objs(shape) ==> allocated(o) && fresh(o)
      ensures ok && sibling == null ==>
                NodeFormat.ParseNode(file, old(Pos())) ==
                Some((Node(current.start, current.propsSize, current.typ, child, NoNode), Pos()))
      ensures ok && sibling != null ==>
                fresh(sibling) && sibling !in Objs(shape) && sibling.start == Pos() - 1 &&
                sibling.next == null && sibling.child == null &&
                NodeFormat.ParseNode(file, old(Pos())) ==
                Prepend(current.start, current.propsSize, current.typ, child, NodeFormat.ParseNode(file, Pos()))
      decreases |file| - Pos(), 1
    {
      hide Valid, Ready, Pos, Denotes, Objs, NodeFormat.ParseNode;
      sibling := null;
      ok, child, shape := ParseBodyOf(current);
      if !ok { return; }
      assert current !in Objs(shape);
      ok, sibling := CloseNode(current);
      assert Denotes(current.child, shape, child);
    }

    method ParseNode(node: NodeStruct) returns (ok: bool, ghost net: Net, ghost shape: Shape)
      requires Valid() && Ready() && Pos() >= 1 && node.start == Pos() - 1
      requires node.next == null && node.child == null
      modifies `filePos, `cacheIndex, `cacheOffset, blocks, node
      ensures Valid() && Ready()
      ensures ok <==> NodeFormat.ParseNode(file, old(Pos())).Some?
      ensures ok ==>
                NodeFormat.ParseNode(file, old(Pos())) == Some((net, Pos())) &&
                (forall o :: o in Objs(shape) ==> allocated(o) && (o == node || fresh(o))) && Denotes(node, shape, net)
      decreases |file| - Pos(), 2
    {
      hide Valid, Ready, Pos, Denotes, Chained, NodeFormat.ParseNode;
      net, shape := NoNode, NoShape;
      ghost var p := Pos();
      ghost var done: seq<Done> := [];
      var currentNode: NodeStruct := node;
      NothingDone(node);
      while true
        invariant Valid() && Ready() && p <= Pos() && Pos() >= 1 && currentNode.start == Pos() - 1
        invariant currentNode.next == null && currentNode.child == null
        invariant allocated(currentNode) && (currentNode == node || fresh(currentNode))
        invariant First(done, currentNode) == node
        invariant Chained(done, currentNode)
        invariant forall o :: o in DoneObjs(done) ==> allocated(o) && o != currentNode && (o == node || fresh(o))
        invariant NodeFormat.ParseNode(file, p) == Attach(done, NodeFormat.ParseNode(file, Pos()))
        decreases |file| - Pos()
      {
        ghost var q := Pos();
        var nextNode: NodeStruct?;
        ghost var child: Net;
        ghost var sh: Shape;
        assert currentNode !in DoneObjs(done);
        ok, nextNode, child, sh := ParseOne(currentNode);
        ghost var last := Done(currentNode, currentNode.start, currentNode.propsSize, currentNode.typ, child, sh);
        AttachSnoc(done, last, if ok && nextNode != null then NodeFormat.ParseNode(file, Pos()) else None);
        if !ok { return; }
        assert Chained(done, currentNode);
        if nextNode == null {
          net := FoldNet(done, Node(last.start, last.size, last.typ, child, NoNode));
          shape := FoldShape(done, Link(currentNode, sh, NoShape));
          Finish(done, last, Pos());
          return;
        }
        ChainedSnoc(done, last, nextNode);
        done := done + [last];
        currentNode := nextNode;
      }
    }

    /** openFile(..., write = false): the version word, the block size, the first NODE_START, and
        parseNode on the root. */
    method OpenRead(content: seq<Byte>, caching: bool) returns (ok: bool, ghost net: Net, ghost shape: Shape)
      requires Valid() && !useCache && forall i :: 0 <= i < CACHE_BLOCKS ==> !blocks[i].loaded
      modifies this, blocks
      ensures Valid() && file == content && buffer == old(buffer)
      ensures ok <==> OpenFile(content).Some?
      ensures ok ==> OpenFile(content) == Some(net) && Denotes(root, shape, net)
      ensures ok ==> forall o :: o in Objs(shape) ==> allocated(o) && fresh(o)
    {
      hide NodeFormat.ParseNode, Denotes, Objs, Pos, Ready, CacheSize, BlockBase;
      net, shape := NoNode, NoShape;
      file, filePos := content, 0;
      if |file| < 4 { return false, net, shape; }
      if file[..4] != [0, 0, 0, 0] { return false, net, shape; }
      filePos := 4;
      if caching {
        useCache := true;
        BlockCoversPos(|file|, 0);
        cacheSize := CacheSize(|file|);
      }
      ok := SafeSeek(4);
      if !ok { return; }
      ok, net, shape := OpenRoot();
    }

    method OpenRoot() returns (ok: bool, ghost net: Net, ghost shape: Shape)
      requires Valid() && Ready() && |file| >= 4 && file[..4] == [0, 0, 0, 0]
      modifies `filePos, `cacheIndex, `cacheOffset, `root, blocks
      ensures Valid()
      ensures ok <==> OpenFile(file).Some?
      ensures ok ==>
                OpenFile(file) == Some(net) && Denotes(root, shape, net) &&
                forall o :: o in Objs(shape) ==> allocated(o) && fresh(o)
    {
      hide Ready, Pos, NodeFormat.ParseNode, Denotes, Objs;
      net, shape := NoNode, NoShape;
      var node := new NodeStruct();
      node.start := 4;
      root := node;
      ok := SafeSeek(4);
      var byte;
      ok, byte := ReadByte();
      if !ok || byte != NODE_START { return false, net, shape; }
      ok, net, shape := ParseNode(node);
    }

    // ----- Properties -----------------------------------------------------------------------

    /** Removes the escape bytes by moving the others down; the write index never passes the
        read index. */
    method UnescapeBuffer(size: nat) returns (length: nat)
      requires size <= buffer.Length && WellEscaped(buffer[..size])
      modifies buffer
      ensures length <= size && buffer[..length] == Unescape(old(buffer[..size]))
    {
      hide WellEscaped, Unescape;
      var i, j, escaped := 0, 0, false;
      ghost var raw := buffer[..size];
      ghost var out: seq<Byte> := [];
      Rest(raw, 0, out);
      while i < size
        invariant 0 <= j <= i <= size && (!escaped ==> i == j)
        invariant forall k :: i <= k < size ==> buffer[k] == raw[k]
        invariant |out| == j && forall k :: 0 <= k < j ==> buffer[k] == out[k]
        invariant WellEscaped(raw[i..]) && out + Unescape(raw[i..]) == Unescape(raw)
      {
        Rest(raw, i, out);
        if buffer[i] == ESCAPE_CHAR {
          i := i + 1;
          buffer[j] := buffer[i];
          escaped := true;
        } else if escaped {
          buffer[j] := buffer[i];
        }
        out := out + [raw[i]];
        i, j := i + 1, j + 1;
      }
      Rest(raw, i, out);
      assert buffer[..j] == out;
      length := j;
    }

    /** getProps: at most one growth step of the buffer, then read and unescape. */
    method GetProps(node: NodeStruct?) returns (ok: bool, size: nat)
      requires Valid()
      requires node != null ==>
                 node.propsSize <= buffer.Length + 1024 && node.start + 2 + node.propsSize <= |file| &&
                 WellEscaped(file[node.start + 2..node.start + 2 + node.propsSize])
      modifies `filePos, `cacheIndex, `cacheOffset, `buffer, blocks, buffer
      ensures Valid() && (buffer == old(buffer) || fresh(buffer))
      ensures buffer.Length == if node == null then old(buffer.Length) else Grown(old(buffer.Length), node.propsSize)
      ensures ok <==> node != null
      ensures ok ==>
                size <= buffer.Length &&
                buffer[..size] == Unescape(file[node.start + 2..node.start + 2 + node.propsSize])
    {
      hide WellEscaped, Unescape;
      ok, size := false, 0;
      if node == null { return; }
      if node.propsSize >= buffer.Length {
        buffer := new Byte[buffer.Length + 1024](i => 0);
      }
      ok := ReadBytes(node.propsSize, node.start + 2);
      if ok {
        size := UnescapeBuffer(node.propsSize);
      }
    }

    /** Walks the linked nodes with getChildNode and getNextNode and fetches all properties. */
    method ReadForest(n: NodeStruct?, ghost shape: Shape, ghost net: Net) returns (t: Forest)
      requires Valid() && Denotes(n, shape, net) && forall o :: o in Objs(shape) ==> allocated(o)
      requires (net.Node? ==> Tiles(file, net)) && PropsFit(net, buffer.Length)
      modifies `filePos, `cacheIndex, `cacheOffset, `buffer, blocks, buffer
      ensures Valid() && buffer.Length == SizeAfter(net, old(buffer.Length)) && (buffer == old(buffer) || fresh(buffer))
      ensures t == Decode(file, net)
      decreases shape
    {
      hide Valid, EscapedRun, WellEscaped, Unescape, Denotes, Objs, Tiles, PropsFit, SizeAfter, Decode;
      LinkParts(n, shape, net);
      if n == null {
        NothingDecoded(file);
        NothingFits(buffer.Length);
        return Empty;
      }
      TileParts(file, net);
      FitParts(net, buffer.Length);
      var ok, size := GetProps(n);
      var props := buffer[..size];
      var child := ReadForest(n.child, shape.child, net.child);
      var next := ReadForest(n.next, shape.next, net.next);
      t := Tree(n.typ, props, child, next);
    }

    // ----- The writer -----------------------------------------------------------------------

    /** One fwrite per byte, with an escape byte in front of every special one. */
    method WriteData(data: seq<Byte>, unescape: bool)
      requires Valid() && !useCache
      modifies `file
      ensures Valid() && file == old(file) + Emit(data, unescape)
    {
      hide Emit;
      var i := 0;
      assert data[0..] == data;
      while i < |data|
        invariant i <= |data| && Valid()
        invariant file + Emit(data[i..], unescape) == old(file) + Emit(data, unescape)
      {
        EmitStep(file, data, i, unescape);
        if unescape && (data[i] == NODE_START || data[i] == NODE_END || data[i] == ESCAPE_CHAR) {
          file := file + [ESCAPE_CHAR];
        }
        file := file + [data[i]];
        i := i + 1;
      }
      EmitStep(file, data, i, unescape);
    }

    method StartNode(typ: Byte)
      requires Valid() && !useCache
      modifies `file
      ensures Valid() && file == old(file) + [NODE_START] + Escape([typ])
    {
      WriteData([NODE_START], false);
      WriteData([typ], true);
    }

    method SetProps(data: seq<Byte>)
      requires Valid() && !useCache && |data| < 0x10000
      modifies `file
      ensures Valid() && file == old(file) + Escape(data)
    {
      WriteData(data, true);
    }

    method EndNode()
      requires Valid() && !useCache
      modifies `file
      ensures Valid() && file == old(file) + [NODE_END]
    {
      WriteData([NODE_END], false);
    }

    method WriteForest(t: Forest)
      requires Valid() && !useCache && Writable(t)
      modifies `file
      ensures Valid() && file == old(file) + Write(t)
      decreases t
    {
      hide Escape, Valid;
      match t
      case Empty =>
      case Tree(typ, props, child, next) =>
        StartNode(typ);
        SetProps(props);
        WriteForest(child);
        EndNode();
        WriteForest(next);
        Pieces(old(file), [NODE_START], Escape([typ]), Escape(props), Write(child), [NODE_END], Write(next));
    }
  }

  /** setProps takes a 16-bit size. */
  ghost predicate Writable(t: Forest) {
    t.Tree? ==> |t.props| < 0x10000 && Writable(t.child) && Writable(t.next)
  }

  /** The size of the buffer after reading a written forest. */
  function RoomAfter(t: Forest, size: nat): nat {
    if t.Empty? then size else RoomAfter(t.next, RoomAfter(t.child, Grown(size, |Raw(t.typ, t.props)|)))
  }

  /** The buffer of getProps holds the escaped form of each node's properties when its turn comes. */
  ghost predicate Readable(t: Forest, size: nat) {
    t.Tree? ==>
      var grown := Grown(size, |Raw(t.typ, t.props)|);
      |Raw(t.typ, t.props)| <= grown && Readable(t.child, grown) && Readable(t.next, RoomAfter(t.child, grown))
  }

  lemma {:induction false} LayoutFits(t: Forest, from: nat, size: nat)
    ensures PropsFit(Layout(t, from), size) <==> Readable(t, size)
    ensures SizeAfter(Layout(t, from), size) == RoomAfter(t, size)
    decreases t
  {
    if t.Tree? {
      var grown := Grown(size, |Raw(t.typ, t.props)|);
      LayoutFits(t.child, BodyAt(t, from), grown);
      LayoutFits(t.next, EndAt(t, from) + 1, RoomAfter(t.child, grown));
    }
  }

  method Save(t: Forest) returns (content: seq<Byte>)
    requires Writable(t)
    ensures content == FileOf(t)
  {
    var writer := new FileLoader();
    writer.WriteData([0, 0, 0, 0], false);
    writer.WriteForest(t);
    content := writer.file;
  }

  method Load(content: seq<Byte>, caching: bool) returns (ok: bool, back: Forest)
    requires OpenFile(content).Some? ==> PropsFit(OpenFile(content).value, 1024)
    ensures ok <==> ReadBack(content).Some?
    ensures ok ==> ReadBack(content) == Some(back)
  {
    hide Tiles, Decode, PropsFit, OpenFile, Denotes, Objs, FileLoader.Valid;
    OpenedTiles(content);
    var reader := new FileLoader();
    ghost var net: Net;
    ghost var shape: Shape;
    ok, net, shape := reader.OpenRead(content, caching);
    back := Empty;
    if ok { back := reader.ReadForest(reader.root, shape, net); }
  }

  /** The whole way: write a forest to a file with one loader, read it back with another, over
      the cache or not, and get the same forest. */
  method SaveAndLoad(t: Forest, caching: bool) returns (ok: bool, back: Forest)
    requires t.Tree? && Clean(t) && Writable(t) && Readable(t, 1024)
    ensures ok && back == t
  {
    hide Clean, Readable, Writable, PropsFit, OpenFile, FileOf, ReadBack, Layout;
    RoundTrip(t);
    OpensAsLaidOut(t);
    LayoutFits(t, 4, 1024);
    var content := Save(t);
    ok, back := Load(content, caching);
  }

  lemma OpensAsLaidOut(t: Forest)
    requires t.Tree? && Clean(t)
    ensures OpenFile(FileOf(t)) == Some(Layout(t, 4))
  {
    hide Clean, NodeFormat.ParseNode, Layout;
    RoundTrip(t);
    RoundTripConsumesFile(t);
  }

  // ----- The cached reader refines the direct one ---------------------------------------------

  datatype ReadOp = NextByte | SeekTo(pos: nat) | Slice(start: nat, size: nat)
  datatype Answer = EndOfFile | Got(bytes: seq<Byte>)

  predicate Within(op: ReadOp, length: nat) {
    match op
    case NextByte => true
    case SeekTo(pos) => pos <= length
    case Slice(start, size) => start + size <= length
  }

  /** The same requests answered from the plain bytes of the file. */
  function DirectReads(file: seq<Byte>, pos: nat, ops: seq<ReadOp>): seq<Answer>
    requires pos <= |file| && forall op :: op in ops ==> Within(op, |file|)
    decreases |ops|
  {
    if ops == [] then []
    else
      assert Within(ops[0], |file|) by { assert ops[0] in ops; }
      var (answer, next) := DirectRead(file, pos, ops[0]);
      [answer] + DirectReads(file, next, ops[1..])
  }

  /** The answer to one request and the position behind it. */
  function DirectRead(file: seq<Byte>, pos: nat, op: ReadOp): (r: (Answer, nat))
    requires pos <= |file| && Within(op, |file|)
    ensures r.1 <= |file|
  {
    match op
    case NextByte => if pos == |file| then (EndOfFile, pos) else (Got([file[pos]]), pos + 1)
    case SeekTo(p) => (Got([]), p)
    case Slice(start, size) => (Got(file[start..start + size]), start + size)
  }

  lemma ReadsStep(file: seq<Byte>, pos: nat, ops: seq<ReadOp>, i: nat, answers: seq<Answer>)
    requires pos <= |file| && i <= |ops| && forall op :: op in ops ==> Within(op, |file|)
    ensures ops[0..] == ops && [] + DirectReads(file, pos, ops) == DirectReads(file, pos, ops)
    ensures i == |ops| ==> answers + DirectReads(file, pos, ops[i..]) == answers
    ensures i < |ops| ==>
              Within(ops[i], |file|) &&
              var (answer, next) := DirectRead(file, pos, ops[i]);
              answers + DirectReads(file, pos, ops[i..]) == (answers + [answer]) + DirectReads(file, next, ops[i + 1..])
  {
    if i < |ops| {
      assert ops[i..][0] == ops[i] && ops[i..][1..] == ops[i + 1..];
    }
  }

  /** One request, in either mode. */
  method PerformRead(loader: FileLoader, op: ReadOp) returns (answer: Answer)
    requires loader.Valid() && loader.Ready() && Within(op, |loader.file|) && (op.Slice? ==> op.size <= loader.buffer.Length)
    modifies loader`filePos, loader`cacheIndex, loader`cacheOffset, loader.blocks, loader.buffer
    ensures loader.Valid() && loader.Ready() && (answer, loader.Pos()) == DirectRead(loader.file, old(loader.Pos()), op)
  {
    hide FileLoader.Valid, FileLoader.Ready, FileLoader.Pos;
    answer := EndOfFile;
    match op {
      case NextByte =>
        var ok, byte := loader.ReadByte();
        if ok { answer := Got([byte]); }
      case SeekTo(p) =>
        var ok := loader.SafeSeek(p);
        if ok { answer := Got([]); }
      case Slice(from, size) =>
        var ok := loader.ReadBytes(size, from);
        if ok { answer := Got(loader.buffer[..size]); }
    }
  }

  /** Any run of reads, in either mode, with whatever evictions from the three slots. */
  method PerformReads(loader: FileLoader, ops: seq<ReadOp>) returns (answers: seq<Answer>)
    requires loader.Valid() && loader.Ready() && forall op :: op in ops ==> Within(op, |loader.file|)
    requires forall op :: op in ops && op.Slice? ==> op.size <= loader.buffer.Length
    modifies loader`filePos, loader`cacheIndex, loader`cacheOffset, loader.blocks, loader.buffer
    ensures loader.Valid() && loader.Ready()
    ensures answers == DirectReads(loader.file, old(loader.Pos()), ops)
  {
    hide FileLoader.Valid, FileLoader.Ready, FileLoader.Pos, DirectReads, DirectRead;
    answers := [];
    var i := 0;
    ghost var start := loader.Pos();
    ReadsStep(loader.file, start, ops, 0, answers);
    while i < |ops|
      invariant i <= |ops| && loader.Valid() && loader.Ready()
      invariant answers + DirectReads(loader.file, loader.Pos(), ops[i..]) == DirectReads(loader.file, start, ops)
    {
      ReadsStep(loader.file, loader.Pos(), ops, i, answers);
      var answer := PerformRead(loader, ops[i]);
      answers := answers + [answer];
      i := i + 1;
    }
    ReadsStep(loader.file, loader.Pos(), ops, i, answers);
  }
}
