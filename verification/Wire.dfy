/** Bytes, big-endian integers and the cursor over a byte slice that every parser of the proxy uses.

    A read never fails in the original: the error of `Read` is dropped and the destination buffer was
    zeroed when it was made, so a read past the end yields zeros. `Fill` and `Next` say exactly that,
    which makes every parser of this project total. */
module Wire {
  type byte = b: int | 0 <= b < 0x100
  type u16 = v: int | 0 <= v < 0x1_0000
  type i16 = v: int | -0x8000 <= v < 0x8000
  type u32 = v: int | 0 <= v < 0x1_0000_0000

  /** The name of a server in the configuration. */
  type Server = seq<byte>

  /** The name of a node, an item, a file or a player. */
  type Name = seq<byte>

  datatype Option<+T> = None | Some(value: T)

  // ----- big-endian integers -----

  function PutU16(v: u16): (b: seq<byte>)
    ensures |b| == 2 && GetU16(b) == v
  {
    [v / 0x100, v % 0x100]
  }

  function GetU16(b: seq<byte>): u16
    requires |b| == 2
  {
    (b[0] as int) * 0x100 + b[1]
  }

  /** The i-th word of a sequence of 16-bit words. */
  function WordAt(b: seq<byte>, i: nat): u16
    requires 2 * i + 1 < |b|
  {
    (b[2 * i] as int) * 0x100 + b[2 * i + 1]
  }

  function PutU32(v: u32): (b: seq<byte>)
    ensures |b| == 4
  {
    PutU16(v / 0x1_0000) + PutU16(v % 0x1_0000)
  }

  function GetU32(b: seq<byte>): u32
    requires |b| == 4
  {
    (GetU16(b[..2]) as int) * 0x1_0000 + GetU16(b[2..])
  }

  /** The two's complement reading of a 16-bit word, and its inverse. */
  function ToI16(v: u16): i16 {
    if v < 0x8000 then v else v - 0x1_0000
  }

  function FromI16(x: i16): u16 {
    if x < 0 then x + 0x1_0000 else x
  }

  /** Every integer stands with its most significant byte first. */
  lemma BigEndian(v: u16, w: u32, a: byte, b: byte, c: byte, d: byte)
    ensures PutU16(v) == [v / 0x100, v % 0x100] && GetU16([a, b]) == WordAt([a, b], 0) == (a as int) * 0x100 + b
    ensures PutU32(w) == [w / 0x100_0000, w / 0x1_0000 % 0x100, w / 0x100 % 0x100, w % 0x100]
    ensures GetU32([a, b, c, d]) == (a as int) * 0x100_0000 + (b as int) * 0x1_0000 + (c as int) * 0x100 + d
  {
    HighBytes(w);
    LowBytes(w);
    FourBytes(a, b, c, d);
  }

  lemma HighBytes(w: u32)
    ensures w / 0x1_0000 / 0x100 == w / 0x100_0000
  {
  }

  lemma LowBytes(w: u32)
    ensures w % 0x1_0000 / 0x100 == w / 0x100 % 0x100 && w % 0x1_0000 % 0x100 == w % 0x100
  {
    var hi, lo := w / 0x1_0000, w % 0x1_0000;
    assert w == hi * 0x1_0000 + lo;
    assert w / 0x100 == hi * 0x100 + lo / 0x100;
  }

  lemma FourBytes(a: byte, b: byte, c: byte, d: byte)
    ensures GetU32([a, b, c, d]) == (a as int) * 0x100_0000 + (b as int) * 0x1_0000 + (c as int) * 0x100 + d
  {
    var q := [a, b, c, d];
    assert q[..2] == [a, b] && q[2..] == [c, d];
  }

  /** A signed number and its word differ by a multiple of 2^16. */
  lemma TwosComplement(v: u16, x: i16)
    ensures (v - ToI16(v)) % 0x1_0000 == 0 && (FromI16(x) - x) % 0x1_0000 == 0
  {
  }

  // ----- length-prefixed strings: the length is cast to the prefix's width -----

  function PutBytes16(v: seq<byte>): seq<byte> {
    PutU16(|v| % 0x1_0000) + v
  }

  function PutBytes32(v: seq<byte>): seq<byte> {
    PutU32(|v| % 0x1_0000_0000) + v
  }

  lemma PutBytes16Length(v: seq<byte>)
    ensures |PutBytes16(v)| == 2 + |v|
  {
  }

  lemma PutBytes32Length(v: seq<byte>)
    ensures |PutBytes32(v)| == 4 + |v|
  {
  }

  // ----- the cursor -----

  function Repeat<T>(n: nat, x: T): (r: seq<T>)
    ensures |r| == n && forall k :: 0 <= k < n ==> r[k] == x
  {
    seq(n, _ => x)
  }

  function Zeros(n: nat): seq<byte> {
    Repeat(n, 0)
  }

  /** The content of a zeroed buffer of n bytes after one Read at pos. */
  function Fill(data: seq<byte>, pos: nat, n: nat): (b: seq<byte>)
    ensures |b| == n
  {
    if pos + n <= |data| then data[pos..pos + n]
    else if pos < |data| then data[pos..] + Zeros(pos + n - |data|)
    else Zeros(n)
  }

  /** Where that Read leaves the cursor. */
  function Next(data: seq<byte>, pos: nat, n: nat): (p: nat)
    ensures pos <= p <= pos + n
  {
    if pos + n <= |data| then pos + n
    else if pos < |data| then |data|
    else pos
  }

  /** A read gives the bytes that are there, and zeros for the others; the cursor stops at the end. */
  lemma ReadsBytes(data: seq<byte>, pos: nat, n: nat)
    ensures forall k :: 0 <= k < n ==> Fill(data, pos, n)[k] == if pos + k < |data| then data[pos + k] else 0
    ensures pos <= |data| ==> Next(data, pos, n) == if pos + n <= |data| then pos + n else |data|
    ensures pos > |data| ==> Next(data, pos, n) == pos
  {
  }

  function U16At(data: seq<byte>, pos: nat): u16 {
    GetU16(Fill(data, pos, 2))
  }

  function U32At(data: seq<byte>, pos: nat): u32 {
    GetU32(Fill(data, pos, 4))
  }

  function Bytes16At(data: seq<byte>, pos: nat): (v: seq<byte>)
    ensures |v| < 0x1_0000
  {
    Fill(data, Next(data, pos, 2), U16At(data, pos))
  }

  function Bytes16End(data: seq<byte>, pos: nat): (p: nat)
    ensures pos <= p
  {
    Next(data, Next(data, pos, 2), U16At(data, pos))
  }

  function Bytes32At(data: seq<byte>, pos: nat): (v: seq<byte>)
    ensures |v| < 0x1_0000_0000
  {
    Fill(data, Next(data, pos, 4), U32At(data, pos))
  }

  function Bytes32End(data: seq<byte>, pos: nat): (p: nat)
    ensures pos <= p
  {
    Next(data, Next(data, pos, 4), U32At(data, pos))
  }

  /** A reader over a byte slice. */
  class Reader {
    const data: seq<byte>
    var pos: nat

    constructor (data: seq<byte>)
      ensures this.data == data && pos == 0
    {
      this.data := data;
      pos := 0;
    }

    method Read(n: nat) returns (b: seq<byte>)
      modifies this
      ensures b == Fill(data, old(pos), n) && pos == Next(data, old(pos), n)
    {
      if pos >= |data| {
        b := Zeros(n);
      } else {
        var k := if pos + n <= |data| then n else |data| - pos;
        b := data[pos..pos + k] + Zeros(n - k);
        pos := pos + k;
      }
    }

    /** Moves the cursor; it may leave the slice. */
    method Seek(to: nat)
      modifies this
      ensures pos == to
    {
      pos := to;
    }

    /** The number of unread bytes. */
    function Len(): nat
      reads this
    {
      if pos >= |data| then 0 else |data| - pos
    }

    method ReadUint8() returns (v: byte)
      modifies this
      ensures v == Fill(data, old(pos), 1)[0] && pos == Next(data, old(pos), 1)
    {
      var b := Read(1);
      v := b[0];
    }

    method ReadUint16() returns (v: u16)
      modifies this
      ensures v == U16At(data, old(pos)) && pos == Next(data, old(pos), 2)
    {
      var b := Read(2);
      v := GetU16(b);
    }

    method ReadUint32() returns (v: u32)
      modifies this
      ensures v == U32At(data, old(pos)) && pos == Next(data, old(pos), 4)
    {
      var b := Read(4);
      v := GetU32(b);
    }

    method ReadBytes16() returns (v: seq<byte>)
      modifies this
      ensures v == Bytes16At(data, old(pos)) && pos == Bytes16End(data, old(pos))
    {
      var l := ReadUint16();
      v := Read(l);
    }

    method ReadBytes32() returns (v: seq<byte>)
      modifies this
      ensures v == Bytes32At(data, old(pos)) && pos == Bytes32End(data, old(pos))
    {
      var l := ReadUint32();
      v := Read(l);
    }
  }

  // ----- reading back what was written -----

  /** The chunk stands in data at pos. */
  predicate At(data: seq<byte>, pos: nat, chunk: seq<byte>) {
    pos + |chunk| <= |data| && data[pos..pos + |chunk|] == chunk
  }

  lemma AtWhole(data: seq<byte>)
    ensures At(data, 0, data)
  {
  }

  lemma AtSplit(data: seq<byte>, pos: nat, a: seq<byte>, b: seq<byte>)
    requires At(data, pos, a + b)
    ensures At(data, pos, a) && At(data, pos + |a|, b)
  {
    var c := data[pos..pos + |a + b|];
    assert a == c[..|a|] == data[pos..pos + |a|];
    assert b == c[|a|..] == data[pos + |a|..pos + |a| + |b|];
  }

  lemma ReadBackU16(data: seq<byte>, pos: nat, v: u16)
    requires At(data, pos, PutU16(v))
    ensures U16At(data, pos) == v && Next(data, pos, 2) == pos + 2
  {
    assert Fill(data, pos, 2) == PutU16(v);
  }

  lemma ReadBackU32(data: seq<byte>, pos: nat, v: u32)
    requires At(data, pos, PutU32(v))
    ensures U32At(data, pos) == v && Next(data, pos, 4) == pos + 4
  {
    var b := Fill(data, pos, 4);
    assert b == PutU32(v);
    assert b[..2] == PutU16(v / 0x1_0000) && b[2..] == PutU16(v % 0x1_0000);
  }

  /** The command word of a packet, read as a number. */
  lemma CommandWord(pkt: seq<byte>, cmd: byte)
    requires cmd > 0
    ensures At(pkt, 0, [0, cmd]) <==> U16At(pkt, 0) == cmd
    ensures At(pkt, 0, [0, cmd]) ==> Fill(pkt, 0, 2) == [0, cmd]
  {
    ReadsBytes(pkt, 0, 2);
    var f := Fill(pkt, 0, 2);
    if U16At(pkt, 0) == cmd {
      assert f[0] == 0 && f[1] == cmd;
      assert pkt[0..2] == [0, cmd];
    }
    if At(pkt, 0, [0, cmd]) {
      assert f == pkt[0..2];
    }
  }

  /** A string written with a 16-bit prefix reads back whole when its length fits the prefix. */
  lemma ReadBackBytes16(data: seq<byte>, pos: nat, v: seq<byte>)
    requires |v| < 0x1_0000 && At(data, pos, PutBytes16(v))
    ensures Bytes16At(data, pos) == v && Bytes16End(data, pos) == pos + 2 + |v|
  {
    hide PutU16, U16At;
    AtSplit(data, pos, PutU16(|v|), v);
    ReadBackU16(data, pos, |v|);
  }

  lemma ReadBackBytes32(data: seq<byte>, pos: nat, v: seq<byte>)
    requires |v| < 0x1_0000_0000 && At(data, pos, PutBytes32(v))
    ensures Bytes32At(data, pos) == v && Bytes32End(data, pos) == pos + 4 + |v|
  {
    hide PutU32, U32At;
    AtSplit(data, pos, PutU32(|v|), v);
    ReadBackU32(data, pos, |v|);
  }
}

/** zlib as an opaque pair: what matters is that inflating a stream that starts with deflated data gives
    the data back and stops right after it. */
module Zlib {
  import opened Wire

  datatype Inflated = Inflated(data: seq<byte>, used: nat)
  datatype Codec = Codec(deflate: seq<byte> -> seq<byte>, inflate: seq<byte> -> Option<Inflated>)

  ghost predicate Lawful(z: Codec) {
    && (forall x: seq<byte>, rest: seq<byte> ::
          z.inflate(z.deflate(x) + rest) == Some(Inflated(x, |z.deflate(x)|)))
    && (forall s: seq<byte> :: z.inflate(s).Some? ==> z.inflate(s).value.used <= |s|)
  }

  /** Every manager of a merge can be decompressed. */
  ghost predicate AllInflate<S(!new)>(z: Codec, mgrs: map<S, seq<byte>>) {
    forall s :: s in mgrs ==> z.inflate(mgrs[s]).Some?
  }

  lemma InflatePrefix(z: Codec, x: seq<byte>, rest: seq<byte>)
    requires Lawful(z)
    ensures z.inflate(z.deflate(x) + rest) == Some(Inflated(x, |z.deflate(x)|))
  {
  }

  lemma InflateDeflate(z: Codec, x: seq<byte>)
    requires Lawful(z)
    ensures z.inflate(z.deflate(x)) == Some(Inflated(x, |z.deflate(x)|))
  {
    assert z.deflate(x) + [] == z.deflate(x);
  }
}
