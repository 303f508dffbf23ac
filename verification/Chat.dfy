/** Chat text (chat.go): clients speak UTF-16, the proxy UTF-8. `wider` allocates two bytes per byte of the
    UTF-8 text and fills them with the UTF-16 units of its runes, `narrow` goes the other way.

    The conversions of Go's string type and of its utf16 package are modelled in full, including what they
    do to invalid input: a byte that does not start a valid sequence (RFC 3629, section 4) becomes U+FFFD. */
module Chat {
  import opened Wire

  type Rune = r: int | 0 <= r < 0xD800 || 0xE000 <= r < 0x11_0000

  const RUNE_ERROR: Rune := 0xFFFD

  // ----- UTF-8 (RFC 3629, section 3) -----

  function EncodeRune(r: Rune): (b: seq<byte>)
    ensures 1 <= |b| <= 4
  {
    if r < 0x80 then [r]
    else if r < 0x800 then [0xC0 + r / 0x40, 0x80 + r % 0x40]
    else if r < 0x1_0000 then [0xE0 + r / 0x1000, 0x80 + r / 0x40 % 0x40, 0x80 + r % 0x40]
    else [0xF0 + r / 0x4_0000, 0x80 + r / 0x1000 % 0x40, 0x80 + r / 0x40 % 0x40, 0x80 + r % 0x40]
  }

  /** What a byte holds beside its mark. */
  function Payload(b: byte, mark: byte): int {
    b as int - mark as int
  }

  /** Six bits in every byte but the first, which tells the length. */
  lemma Utf8Bits(r: Rune)
    ensures var n := |EncodeRune(r)|; (n == 1 <==> r < 0x80) && (n <= 2 <==> r < 0x800) && (n <= 3 <==> r < 0x1_0000)
    ensures forall k :: 1 <= k < |EncodeRune(r)| ==> 0x80 <= EncodeRune(r)[k] < 0xC0
    ensures var b := EncodeRune(r); |b| == 1 ==> r == b[0]
    ensures var b := EncodeRune(r);
      |b| == 2 ==> 0xC0 <= b[0] < 0xE0 && r == Payload(b[0], 0xC0) * 0x40 + Payload(b[1], 0x80)
    ensures var b := EncodeRune(r);
      |b| == 3 ==>
        && 0xE0 <= b[0] < 0xF0
        && r == Payload(b[0], 0xE0) * 0x1000 + Payload(b[1], 0x80) * 0x40 + Payload(b[2], 0x80)
    ensures var b := EncodeRune(r);
      |b| == 4 ==>
        && 0xF0 <= b[0] < 0xF8
        && r == Payload(b[0], 0xF0) * 0x4_0000 + Payload(b[1], 0x80) * 0x1000 + Payload(b[2], 0x80) * 0x40
                + Payload(b[3], 0x80)
  {
    if 0x800 <= r < 0x1_0000 {
      SplitThree(r);
    } else if r >= 0x1_0000 {
      SplitFour(r);
    }
  }

  predicate Cont(b: byte) {
    0x80 <= b < 0xC0
  }

  /** The length of the valid sequence at the start of b, 0 if there is none. */
  function ValidLength(b: seq<byte>): (n: nat)
    requires b != []
    ensures n <= |b|
  {
    if b[0] < 0x80 then 1
    else if b[0] < 0xC2 then 0
    else if b[0] < 0xE0 then
      if |b| >= 2 && Cont(b[1]) then 2 else 0
    else if b[0] < 0xF0 then
      if |b| >= 3 && Cont(b[1]) && Cont(b[2])
         && (b[0] == 0xE0 ==> b[1] >= 0xA0) && (b[0] == 0xED ==> b[1] < 0xA0) then 3 else 0
    else if b[0] < 0xF5 then
      if |b| >= 4 && Cont(b[1]) && Cont(b[2]) && Cont(b[3])
         && (b[0] == 0xF0 ==> b[1] >= 0x90) && (b[0] == 0xF4 ==> b[1] < 0x90) then 4 else 0
    else 0
  }

  function FirstRune(b: seq<byte>): Rune
    requires b != []
  {
    var n := ValidLength(b);
    if n == 0 then RUNE_ERROR
    else if n == 1 then b[0]
    else if n == 2 then ((b[0] as int) - 0xC0) * 0x40 + b[1] - 0x80
    else if n == 3 then ((b[0] as int) - 0xE0) * 0x1000 + ((b[1] as int) - 0x80) * 0x40 + b[2] - 0x80
    else ((b[0] as int) - 0xF0) * 0x4_0000 + ((b[1] as int) - 0x80) * 0x1000
         + ((b[2] as int) - 0x80) * 0x40 + b[3] - 0x80
  }

  /** An invalid sequence is left behind one byte at a time. */
  function Width(b: seq<byte>): (w: nat)
    requires b != []
    ensures 1 <= w <= |b|
  {
    if ValidLength(b) == 0 then 1 else ValidLength(b)
  }

  /** `[]rune(string(b))` */
  function Runes(b: seq<byte>): seq<Rune> {
    if b == [] then [] else [FirstRune(b)] + Runes(b[Width(b)..])
  }

  /** `[]byte(string(rs))` */
  function Utf8(rs: seq<Rune>): seq<byte> {
    if rs == [] then [] else EncodeRune(rs[0]) + Utf8(rs[1..])
  }

  /** A string that is the encoding of something. */
  ghost predicate ValidUtf8(b: seq<byte>) {
    exists rs: seq<Rune> :: b == Utf8(rs)
  }

  lemma SplitThree(r: nat)
    requires r < 0x1_0000
    ensures r == r / 0x1000 * 0x1000 + r / 0x40 % 0x40 * 0x40 + r % 0x40 && r / 0x1000 < 16
  {
  }

  lemma SplitFour(r: nat)
    requires r < 0x11_0000
    ensures r == r / 0x4_0000 * 0x4_0000 + r / 0x1000 % 0x40 * 0x1000 + r / 0x40 % 0x40 * 0x40 + r % 0x40
    ensures r / 0x4_0000 < 5
  {
    assert r / 0x40 / 0x40 == r / 0x1000;
    assert r / 0x1000 / 0x40 == r / 0x4_0000;
  }

  lemma ShortRuneRoundTrip(r: Rune, rest: seq<byte>)
    requires r < 0x800
    ensures var b := EncodeRune(r) + rest; ValidLength(b) == |EncodeRune(r)| && FirstRune(b) == r
  {
  }

  lemma ThreeByteRoundTrip(r: Rune, rest: seq<byte>)
    requires 0x800 <= r < 0x1_0000
    ensures var b := EncodeRune(r) + rest; ValidLength(b) == |EncodeRune(r)| && FirstRune(b) == r
  {
    SplitThree(r);
    var b := EncodeRune(r) + rest;
    var x, y, z := r / 0x1000, r / 0x40 % 0x40, r % 0x40;
    assert b[0] == 0xE0 + x && b[1] == 0x80 + y && b[2] == 0x80 + z;
  }

  lemma FourByteRoundTrip(r: Rune, rest: seq<byte>)
    requires 0x1_0000 <= r
    ensures var b := EncodeRune(r) + rest; ValidLength(b) == |EncodeRune(r)| && FirstRune(b) == r
  {
    SplitFour(r);
    var b := EncodeRune(r) + rest;
    var w, x, y, z := r / 0x4_0000, r / 0x1000 % 0x40, r / 0x40 % 0x40, r % 0x40;
    assert b[0] == 0xF0 + w && b[1] == 0x80 + x && b[2] == 0x80 + y && b[3] == 0x80 + z;
  }

  lemma RuneRoundTrip(r: Rune, rest: seq<byte>)
    ensures var b := EncodeRune(r) + rest;
      ValidLength(b) == |EncodeRune(r)| && FirstRune(b) == r && Width(b) == |EncodeRune(r)|
  {
    hide EncodeRune, ValidLength, FirstRune;
    if r < 0x800 {
      ShortRuneRoundTrip(r, rest);
    } else if r < 0x1_0000 {
      ThreeByteRoundTrip(r, rest);
    } else {
      FourByteRoundTrip(r, rest);
    }
  }

  lemma TwoDigits(x: nat, y: nat)
    requires y < 0x40
    ensures (x * 0x40 + y) / 0x40 == x && (x * 0x40 + y) % 0x40 == y
  {
  }

  lemma ThreeDigits(x: nat, y: nat, z: nat)
    requires y < 0x40 && z < 0x40
    ensures var r := x * 0x1000 + y * 0x40 + z; r / 0x1000 == x && r / 0x40 % 0x40 == y && r % 0x40 == z
  {
    TwoDigits(x * 0x40 + y, z);
    TwoDigits(x, y);
  }

  lemma FourDigits(w: nat, x: nat, y: nat, z: nat)
    requires x < 0x40 && y < 0x40 && z < 0x40
    ensures var r := w * 0x4_0000 + x * 0x1000 + y * 0x40 + z;
      r / 0x4_0000 == w && r / 0x1000 % 0x40 == x && r / 0x40 % 0x40 == y && r % 0x40 == z
  {
    ThreeDigits(w * 0x40 + x, y, z);
    TwoDigits(w, x);
    SplitLast(w * 0x4_0000 + x * 0x1000 + y * 0x40 + z);
  }

  lemma SplitLast(r: nat)
    ensures r / 0x4_0000 == r / 0x1000 / 0x40
  {
  }

  lemma ValidIsEncoded(b: seq<byte>)
    requires b != [] && ValidLength(b) > 0
    ensures EncodeRune(FirstRune(b)) == b[..ValidLength(b)]
  {
    var n := ValidLength(b);
    if n == 2 {
      TwoDigits(b[0] as int - 0xC0, b[1] as int - 0x80);
    } else if n == 3 {
      ThreeDigits(b[0] as int - 0xE0, b[1] as int - 0x80, b[2] as int - 0x80);
    } else if n == 4 {
      FourDigits(b[0] as int - 0xF0, b[1] as int - 0x80, b[2] as int - 0x80, b[3] as int - 0x80);
    }
  }

  /** The decoder takes the rune whose encoding stands in front, and U+FFFD for one byte if there is none. */
  lemma DecodesPrefix(b: seq<byte>)
    requires b != []
    ensures forall r: Rune :: EncodeRune(r) <= b ==> FirstRune(b) == r && Width(b) == |EncodeRune(r)|
    ensures (forall r: Rune :: !(EncodeRune(r) <= b)) ==> FirstRune(b) == 0xFFFD && Width(b) == 1
  {
    hide EncodeRune, ValidLength;
    forall r: Rune | EncodeRune(r) <= b ensures FirstRune(b) == r && Width(b) == |EncodeRune(r)| {
      RuneRoundTrip(r, b[|EncodeRune(r)|..]);
      assert b == EncodeRune(r) + b[|EncodeRune(r)|..];
    }
    if ValidLength(b) > 0 {
      ValidIsEncoded(b);
      assert EncodeRune(FirstRune(b)) <= b;
    }
  }

  lemma {:induction false} RunesOfUtf8(rs: seq<Rune>)
    ensures Runes(Utf8(rs)) == rs
  {
    hide EncodeRune, FirstRune, Width;
    if rs != [] {
      RunesOfUtf8(rs[1..]);
      RuneRoundTrip(rs[0], Utf8(rs[1..]));
      assert Utf8(rs)[|EncodeRune(rs[0])|..] == Utf8(rs[1..]);
    }
  }

  lemma ValidIffFixed(b: seq<byte>)
    ensures ValidUtf8(b) <==> Utf8(Runes(b)) == b
  {
    if ValidUtf8(b) {
      var rs: seq<Rune> :| b == Utf8(rs);
      RunesOfUtf8(rs);
    }
  }

  // ----- UTF-16 (RFC 2781, section 2) -----

  function UnitsOf(r: Rune): (us: seq<u16>)
    ensures 1 <= |us| <= 2
  {
    if r < 0x1_0000 then [r] else [0xD800 + (r - 0x1_0000) / 0x400, 0xDC00 + (r - 0x1_0000) % 0x400]
  }

  /** A rune beyond the first 65536 is a pair: the high ten bits first, from 0xD800 on, then the low ten, from
      0xDC00 on. */
  lemma PairBits(r: Rune)
    ensures r < 0x1_0000 ==> UnitsOf(r) == [r]
    ensures r >= 0x1_0000 ==>
      var us := UnitsOf(r);
      && |us| == 2 && 0xD800 <= us[0] < 0xDC00 <= us[1] < 0xE000
      && r == 0x1_0000 + (us[0] as int - 0xD800) * 0x400 + (us[1] as int - 0xDC00)
  {
  }

  /** `utf16.Encode(rs)` */
  function Units(rs: seq<Rune>): seq<u16> {
    if rs == [] then [] else UnitsOf(rs[0]) + Units(rs[1..])
  }

  predicate High(u: u16) {
    0xD800 <= u < 0xDC00
  }

  predicate Low(u: u16) {
    0xDC00 <= u < 0xE000
  }

  predicate Pair(us: seq<u16>) {
    |us| >= 2 && High(us[0]) && Low(us[1])
  }

  function FirstUnit(us: seq<u16>): Rune
    requires us != []
  {
    if Pair(us) then ((us[0] as int) - 0xD800) * 0x400 + us[1] - 0xDC00 + 0x1_0000
    else if High(us[0]) || Low(us[0]) then RUNE_ERROR
    else us[0]
  }

  /** `utf16.Decode(us)` */
  function DecodeUnits(us: seq<u16>): seq<Rune>
    decreases |us|
  {
    if us == [] then [] else [FirstUnit(us)] + DecodeUnits(RestUnits(us))
  }

  lemma UnitRoundTrip(r: Rune, rest: seq<u16>)
    ensures FirstUnit(UnitsOf(r) + rest) == r
    ensures RestUnits(UnitsOf(r) + rest) == rest
  {
  }

  /** A half of a pair that stands alone is U+FFFD. */
  lemma LoneHalf(us: seq<u16>)
    requires us != [] && 0xD800 <= us[0] < 0xE000
    requires !(us[0] < 0xDC00 && |us| >= 2 && 0xDC00 <= us[1] < 0xE000)
    ensures FirstUnit(us) == 0xFFFD && RestUnits(us) == us[1..]
  {
  }

  function RestUnits(us: seq<u16>): seq<u16>
    requires us != []
  {
    us[if Pair(us) then 2 else 1..]
  }

  lemma {:induction false} DecodeUnitsOf(rs: seq<Rune>, rest: seq<u16>)
    ensures DecodeUnits(Units(rs) + rest) == rs + DecodeUnits(rest)
  {
    hide FirstUnit, UnitsOf, RestUnits;
    if rs == [] {
      assert Units(rs) + rest == rest;
    } else {
      var tail := Units(rs[1..]) + rest;
      assert Units(rs) + rest == UnitsOf(rs[0]) + tail;
      UnitRoundTrip(rs[0], tail);
      DecodeUnitsOf(rs[1..], rest);
      assert rs + DecodeUnits(rest) == [rs[0]] + (rs[1..] + DecodeUnits(rest));
    }
  }

  // ----- narrow and wider -----

  function GetUnits(b: seq<byte>): (us: seq<u16>)
    ensures |us| == |b| / 2
  {
    seq(|b| / 2, i requires 0 <= i < |b| / 2 => WordAt(b, i))
  }

  function Narrow(b: seq<byte>): seq<byte> {
    if |b| % 2 != 0 then [] else Utf8(DecodeUnits(GetUnits(b)))
  }

  method NarrowBytes(b: seq<byte>) returns (r: seq<byte>)
    ensures r == Narrow(b)
    ensures |b| % 2 != 0 ==> r == []
  {
    if |b| % 2 != 0 {
      return [];
    }
    var e := new u16[|b| / 2](_ => 0);
    var i := 0;
    while i < |b|
      invariant 0 <= i <= |b| && i % 2 == 0
      invariant forall k :: 0 <= k < i / 2 ==> e[k] == WordAt(b, k)
    {
      e[i / 2] := GetU16(b[i..i + 2]);
      i := i + 2;
    }
    assert e[..] == GetUnits(b);
    r := Utf8(DecodeUnits(e[..]));
  }

  /** A text never has more UTF-16 units than UTF-8 bytes, valid or not. */
  lemma {:induction false} UnitsFit(b: seq<byte>)
    ensures |Units(Runes(b))| <= |b|
    decreases |b|
  {
    hide FirstRune, Width, UnitsOf;
    if b != [] {
      RuneUnitsFit(b);
      UnitsFit(b[Width(b)..]);
      assert Runes(b)[1..] == Runes(b[Width(b)..]);
    }
  }

  lemma RuneUnitsFit(b: seq<byte>)
    requires b != []
    ensures |UnitsOf(FirstRune(b))| <= Width(b)
  {
  }

  /** The NULs that the allocation of wider leaves behind the text. */
  function Spare(b: seq<byte>): nat {
    UnitsFit(b);
    |b| - |Units(Runes(b))|
  }

  function ZeroUnits(n: nat): seq<u16> {
    Repeat(n, 0)
  }

  /** w holds the UTF-16 units of b, padded with zeros to two bytes per byte of b. */
  ghost predicate IsWide(b: seq<byte>, w: seq<byte>) {
    |w| == 2 * |b| && GetUnits(w) == Units(Runes(b)) + ZeroUnits(Spare(b))
  }

  /** wider: no write leaves the buffer. */
  method WiderBytes(b: seq<byte>) returns (r: array<byte>)
    ensures IsWide(b, r[..])
  {
    hide Units, Runes;
    r := new byte[2 * |b|](_ => 0);
    var e := Units(Runes(b));
    UnitsFit(b);
    for i := 0 to |e|
      invariant forall k :: 0 <= k < i ==> r[2 * k] == e[k] / 0x100 && r[2 * k + 1] == e[k] % 0x100
      invariant forall k :: 2 * i <= k < r.Length ==> r[k] == 0
    {
      r[2 * i], r[2 * i + 1] := e[i] / 0x100, e[i] % 0x100;
    }
    var us := e + ZeroUnits(Spare(b));
    forall k | 0 <= k < |us| ensures GetUnits(r[..])[k] == us[k] {
      assert GetUnits(r[..])[k] == WordAt(r[..], k);
    }
  }

  function ZeroRunes(n: nat): seq<Rune> {
    Repeat(n, 0)
  }

  lemma {:induction false} ZerosDecode(n: nat)
    ensures DecodeUnits(ZeroUnits(n)) == ZeroRunes(n)
    ensures Utf8(ZeroRunes(n)) == Zeros(n)
  {
    if n > 0 {
      ZerosDecode(n - 1);
      ZeroFirst(n);
      hide FirstUnit, RestUnits, EncodeRune, ZeroUnits, ZeroRunes, Repeat;
      assert DecodeUnits(ZeroUnits(n)) == [0] + ZeroRunes(n - 1);
      assert Utf8(ZeroRunes(n)) == [0] + Zeros(n - 1);
    }
  }

  lemma ZeroFirst(n: nat)
    requires n > 0
    ensures ZeroUnits(n) != [] && FirstUnit(ZeroUnits(n)) == 0 && RestUnits(ZeroUnits(n)) == ZeroUnits(n - 1)
    ensures ZeroRunes(n) == [0] + ZeroRunes(n - 1) && ZeroRunes(n) != []
    ensures EncodeRune(ZeroRunes(n)[0]) == [0] && ZeroRunes(n)[1..] == ZeroRunes(n - 1)
    ensures Zeros(n) == [0] + Zeros(n - 1)
  {
    assert ZeroUnits(n)[1..] == ZeroUnits(n - 1);
  }

  lemma {:induction false} Utf8Concat(a: seq<Rune>, b: seq<Rune>)
    ensures Utf8(a + b) == Utf8(a) + Utf8(b)
  {
    hide EncodeRune;
    if a == [] {
      assert a + b == b;
    } else {
      Utf8Concat(a[1..], b);
      assert (a + b)[1..] == a[1..] + b;
    }
  }

  /** Narrowing what was widened gives the text back, invalid bytes replaced, followed by one NUL for every
      byte that the text has more than units. */
  lemma NarrowWider(b: seq<byte>, w: seq<byte>)
    requires IsWide(b, w)
    ensures Narrow(w) == Utf8(Runes(b)) + Zeros(Spare(b))
  {
    hide Utf8, Runes, Units, DecodeUnits, GetUnits;
    DecodeUnitsOf(Runes(b), ZeroUnits(Spare(b)));
    ZerosDecode(Spare(b));
    Utf8Concat(Runes(b), ZeroRunes(Spare(b)));
  }

  /** The padded text comes back exactly when it was valid UTF-8. */
  lemma NarrowWiderIffValid(b: seq<byte>, w: seq<byte>)
    requires IsWide(b, w)
    ensures Narrow(w) == b + Zeros(Spare(b)) <==> ValidUtf8(b)
  {
    hide Utf8, Runes, IsWide, Spare, Narrow;
    NarrowWider(b, w);
    ValidIffFixed(b);
    if Utf8(Runes(b)) + Zeros(Spare(b)) == b + Zeros(Spare(b)) {
      SamePrefix(Utf8(Runes(b)), b, Zeros(Spare(b)));
    }
  }

  lemma SamePrefix(a: seq<byte>, b: seq<byte>, z: seq<byte>)
    requires a + z == b + z
    ensures a == b
  {
    assert |a| == |b|;
    assert a == (a + z)[..|a|] && b == (b + z)[..|b|];
  }

  ghost predicate Ascii(b: seq<byte>) {
    forall k :: 0 <= k < |b| ==> b[k] < 0x80
  }

  lemma {:induction false} BytesOverUnits(rs: seq<Rune>)
    ensures |Units(rs)| <= |Utf8(rs)|
    ensures |Units(rs)| == |Utf8(rs)| <==> forall k :: 0 <= k < |rs| ==> rs[k] < 0x80
  {
    if rs != [] {
      BytesOverUnits(rs[1..]);
      assert forall k :: 1 <= k < |rs| ==> rs[k] == rs[1..][k - 1];
    }
  }

  ghost predicate AsciiOnly(rs: seq<Rune>) {
    forall k :: 0 <= k < |rs| ==> rs[k] < 0x80
  }

  lemma AsciiRest(b: seq<byte>, r: Rune, rs: seq<Rune>)
    requires b != []
    ensures Ascii(b) <==> b[0] < 0x80 && Ascii(b[1..])
    ensures AsciiOnly([r] + rs) <==> r < 0x80 && AsciiOnly(rs)
  {
    var rest, all := b[1..], [r] + rs;
    assert forall k :: 0 <= k < |rest| ==> rest[k] == b[k + 1];
    assert forall k :: 1 <= k < |b| ==> b[k] == rest[k - 1];
    assert all[0] == r && forall k :: 0 <= k < |rs| ==> rs[k] == all[k + 1];
    assert forall k :: 1 <= k < |all| ==> all[k] == rs[k - 1];
  }

  lemma {:induction false} AsciiRunes(b: seq<byte>)
    ensures Ascii(b) <==> AsciiOnly(Runes(b))
    ensures Ascii(b) ==> Utf8(Runes(b)) == b
    decreases |b|
  {
    if b != [] {
      var rest := b[Width(b)..];
      AsciiRunes(rest);
      FirstRuneAscii(b);
      hide FirstRune, Width, Ascii, AsciiOnly;
      AsciiRest(b, FirstRune(b), Runes(rest));
      assert Runes(b) == [FirstRune(b)] + Runes(rest);
      if b[0] < 0x80 {
        assert b == [b[0]] + rest;
        assert Runes(b)[1..] == Runes(rest);
      }
    }
  }

  lemma FirstRuneAscii(b: seq<byte>)
    requires b != []
    ensures FirstRune(b) < 0x80 <==> b[0] < 0x80
    ensures b[0] < 0x80 ==> FirstRune(b) == b[0] && Width(b) == 1
  {
  }

  /** Without any padding it comes back exactly when it is ASCII: every longer text, valid or not, changes. */
  lemma NarrowWiderExactIffAscii(b: seq<byte>, w: seq<byte>)
    requires IsWide(b, w)
    ensures Narrow(w) == b <==> Ascii(b)
  {
    hide Utf8, Runes, IsWide, Narrow, Units, Ascii;
    NarrowWider(b, w);
    BytesOverUnits(Runes(b));
    AsciiRunes(b);
    UnitsFit(b);
    if Ascii(b) {
      assert Zeros(Spare(b)) == [];
    }
  }
}
