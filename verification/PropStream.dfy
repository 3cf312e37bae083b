/** The two property streams: reading moves a pointer through a byte string, writing grows a buffer. */
module PropStreams {
  import opened NodeFormat

  /** A 32-bit word. */
  type Word = w: nat | w < 0x1_0000_0000

  /** Little-endian, as memcpy leaves it. */
  function Le32(w: Word): (bytes: seq<Byte>)
    ensures |bytes| == 4
  {
    [w % 256, w / 256 % 256, w / 65536 % 256, w / 16777216]
  }

  function FromLe32(bytes: seq<Byte>): Word
    requires |bytes| == 4
  {
    var (b0: int, b1: int, b2: int, b3: int) := (bytes[0], bytes[1], bytes[2], bytes[3]);
    b0 + 256 * b1 + 65536 * b2 + 16777216 * b3
  }

  lemma Le32RoundTrip(w: Word)
    ensures FromLe32(Le32(w)) == w
    ensures var b := Le32(w); w == b[0] as int + 256 * b[1] as int + 65536 * b[2] as int + 16777216 * b[3] as int
  {
    var (a, b, c) := (w / 256, w / 65536, w / 16777216);
    assert w == 256 * a + w % 256;
    assert a / 256 == b && a == 256 * b + a % 256;
    assert b / 256 == c && b == 256 * c + b % 256;
  }

  /** The word of an int32 and back. */
  function Unsigned(v: int): Word
    requires -0x8000_0000 <= v < 0x8000_0000
  {
    if v < 0 then v + 0x1_0000_0000 else v
  }

  function Signed(w: Word): (v: int)
    ensures -0x8000_0000 <= v < 0x8000_0000 && Unsigned(v) == w
  {
    if w < 0x8000_0000 then w else w - 0x1_0000_0000
  }

  class PropStream {
    const data: seq<Byte>
    var p: nat

    ghost predicate Valid()
      reads this
    {
      p <= |data|
    }

    /** What is still to be read. */
    ghost function Rest(): seq<Byte>
      requires Valid()
      reads this
    {
      data[p..]
    }

    constructor (data: seq<Byte>)
      ensures Valid() && Rest() == data
    {
      this.data, p := data, 0;
    }

    /** GET_VALUE of n bytes: a stream that is too short is left as it is. */
    method GetValue(n: nat) returns (ok: bool, bytes: seq<Byte>)
      requires Valid()
      modifies this
      ensures Valid() && ok == (|old(Rest())| >= n)
      ensures ok ==> bytes == old(Rest())[..n] && Rest() == old(Rest())[n..]
      ensures !ok ==> Rest() == old(Rest())
    {
      if |data| - p < n { return false, []; }
      bytes := data[p..p + n];
      p := p + n;
      ok := true;
    }
  }

  class PropWriteStream {
    var buffer: array<Byte>
    var bufferSize: nat
    var size: nat

    ghost predicate Valid()
      reads this, buffer
    {
      bufferSize == buffer.Length && size <= bufferSize
    }

    /** getStream */
    ghost function Contents(): seq<Byte>
      requires Valid()
      reads this, buffer
    {
      buffer[..size]
    }

    constructor ()
      ensures Valid() && Contents() == [] && fresh(buffer)
    {
      buffer := new Byte[32](_ => 0);
      bufferSize, size := 32, 0;
    }

    /** realloc after the size has been raised. */
    method Grow(n: nat)
      requires Valid()
      modifies `buffer, `bufferSize
      ensures Valid() && fresh(buffer) && bufferSize == old(bufferSize) + (n + 0x1F) / 32 * 32
      ensures Contents() == old(Contents())
    {
      bufferSize := bufferSize + (n + 0x1F) / 32 * 32;
      var grown := new Byte[bufferSize](_ => 0);
      for i := 0 to size
        invariant grown[..i] == buffer[..i]
        modifies grown
      {
        grown[i] := buffer[i];
      }
      buffer := grown;
    }

    /** memcpy behind the contents. */
    method Copy(add: seq<Byte>)
      requires Valid() && |add| <= bufferSize - size
      modifies `size, buffer
      ensures Valid() && Contents() == old(Contents()) + add
    {
      for i := 0 to |add|
        invariant buffer[..size + i] == old(buffer[..size]) + add[..i]
        modifies buffer
      {
        buffer[size + i] := add[i];
      }
      size := size + |add|;
    }

    /** ADD_VALUE: the buffer grows by the size of the value, rounded up to a multiple of 32, when
        the value does not fit; it always fits then. */
    method AddValue(add: seq<Byte>)
      requires Valid()
      modifies this, buffer
      ensures Valid() && Contents() == old(Contents()) + add && (buffer == old(buffer) || fresh(buffer))
    {
      if bufferSize - size < |add| { Grow(|add|); }
      Copy(add);
    }
  }
}
