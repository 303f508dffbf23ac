/** The stored form of a password verifier and its salt (auth.go): two base64 strings around a `#`. */
module Auth {
  import opened Wire
  import opened Strings

  // ----- base64 (RFC 4648, section 4) -----

  type Sextet = i: int | 0 <= i < 64

  function Letter(i: Sextet): char {
    if i < 26 then 'A' + i as char
    else if i < 52 then 'a' + (i - 26) as char
    else if i < 62 then '0' + (i - 52) as char
    else if i == 62 then '+' else '/'
  }

  function Value(c: char): Option<Sextet> {
    if 'A' <= c <= 'Z' then Some(c as int - 'A' as int)
    else if 'a' <= c <= 'z' then Some(c as int - 'a' as int + 26)
    else if '0' <= c <= '9' then Some(c as int - '0' as int + 52)
    else if c == '+' then Some(62)
    else if c == '/' then Some(63)
    else None
  }

  lemma LetterValue(i: Sextet)
    ensures Value(Letter(i)) == Some(i)
    ensures Letter(i) != '=' && Letter(i) != '#' && Letter(i) != '\n' && Letter(i) != '\r'
  {
  }

  /** The alphabet by its character codes: A-Z, a-z, 0-9, plus, slash; no other character has a value. */
  lemma Alphabet(i: Sextet, c: char)
    ensures Value(c).Some? ==> Letter(Value(c).value) == c
    ensures Letter(i) as int ==
      if i < 26 then 65 + i else if i < 52 then 97 + (i - 26) else if i < 62 then 48 + (i - 52)
      else if i == 62 then 43 else 47
  {
  }

  /** The four letters of up to three bytes; missing bytes are padding. */
  function EncodeGroup(g: seq<byte>): (q: string)
    requires 1 <= |g| <= 3
    ensures |q| == 4
  {
    var a := g[0];
    var b := if |g| > 1 then g[1] else 0;
    var c := if |g| > 2 then g[2] else 0;
    [Letter(a / 4), Letter(a % 4 * 16 + b / 16),
     if |g| > 1 then Letter(b % 16 * 4 + c / 64) else '=',
     if |g| > 2 then Letter(c % 64) else '=']
  }

  /** `base64.StdEncoding.EncodeToString` */
  function Encode(b: seq<byte>): string {
    if b == [] then ""
    else if |b| <= 3 then EncodeGroup(b)
    else EncodeGroup(b[..3]) + Encode(b[3..])
  }

  /** One quantum; only the last one may be padded, and bits beyond its bytes are ignored. */
  function DecodeGroup(q: string, last: bool): Option<seq<byte>>
    requires |q| == 4
  {
    var v0, v1, v2, v3 := Value(q[0]), Value(q[1]), Value(q[2]), Value(q[3]);
    if v0.None? || v1.None? then None
    else
      var a: byte := v0.value * 4 + v1.value / 16;
      if v2.None? then
        if last && q[2] == '=' && q[3] == '=' then Some([a]) else None
      else
        var b: byte := v1.value % 16 * 16 + v2.value / 4;
        if v3.None? then
          if last && q[3] == '=' then Some([a, b]) else None
        else Some([a, b, v2.value % 4 * 64 + v3.value])
  }

  function DecodeGroups(s: string): Option<seq<byte>> {
    if s == "" then Some([])
    else if |s| < 4 then None
    else
      var g := DecodeGroup(s[..4], |s| == 4);
      var r := DecodeGroups(s[4..]);
      if g.None? || r.None? then None else Some(g.value + r.value)
  }

  /** Line breaks are skipped wherever they stand. */
  function NoBreaks(s: string): string {
    if s == "" then ""
    else (if s[0] == '\n' || s[0] == '\r' then "" else [s[0]]) + NoBreaks(s[1..])
  }

  /** `base64.StdEncoding.DecodeString` */
  function Decode(s: string): Option<seq<byte>> {
    DecodeGroups(NoBreaks(s))
  }

  lemma SextetSplit(a: byte, b: byte, c: byte)
    ensures a / 4 * 4 + (a % 4 * 16 + b / 16) / 16 == a
    ensures (a % 4 * 16 + b / 16) % 16 * 16 + (b % 16 * 4 + c / 64) / 4 == b
    ensures (b % 16 * 4 + c / 64) % 4 * 64 + c % 64 == c
  {
  }

  lemma GroupRoundTrip(g: seq<byte>, last: bool)
    requires 1 <= |g| <= 3 && (|g| < 3 ==> last)
    ensures DecodeGroup(EncodeGroup(g), last) == Some(g)
  {
    hide Letter, Value;
    var a, b, c: byte := g[0], if |g| > 1 then g[1] else 0, if |g| > 2 then g[2] else 0;
    SextetSplit(a, b, c);
    LetterValue(a / 4);
    LetterValue(a % 4 * 16 + b / 16);
    LetterValue(b % 16 * 4 + c / 64);
    LetterValue(c % 64);
    PadValue();
    assert g == if |g| == 1 then [a] else if |g| == 2 then [a, b] else [a, b, c];
  }

  lemma PadValue()
    ensures Value('=') == None
  {
  }

  /** The characters of an encoded string. */
  ghost predicate Clean(s: string) {
    forall k :: 0 <= k < |s| ==> s[k] != '#' && s[k] != '\n' && s[k] != '\r'
  }

  lemma GroupClean(g: seq<byte>)
    requires 1 <= |g| <= 3
    ensures Clean(EncodeGroup(g))
  {
    hide Letter;
    var a, b, c: byte := g[0], if |g| > 1 then g[1] else 0, if |g| > 2 then g[2] else 0;
    LetterValue(a / 4);
    LetterValue(a % 4 * 16 + b / 16);
    LetterValue(b % 16 * 4 + c / 64);
    LetterValue(c % 64);
  }

  lemma {:induction false} EncodedClean(b: seq<byte>)
    ensures Clean(Encode(b)) && (Encode(b) == "" <==> b == [])
  {
    hide EncodeGroup;
    if b != [] {
      if |b| <= 3 {
        GroupClean(b);
      } else {
        GroupClean(b[..3]);
        EncodedClean(b[3..]);
      }
    }
  }

  lemma {:induction false} CleanNoBreaks(s: string)
    requires Clean(s)
    ensures NoBreaks(s) == s
  {
    if s != "" {
      CleanNoBreaks(s[1..]);
      assert s == [s[0]] + s[1..];
    }
  }

  lemma {:induction false} GroupsRoundTrip(b: seq<byte>)
    ensures DecodeGroups(Encode(b)) == Some(b)
  {
    hide EncodeGroup, DecodeGroup;
    if b != [] {
      var s := Encode(b);
      if |b| <= 3 {
        GroupRoundTrip(b, true);
        assert s[..4] == s && s[4..] == "";
        assert b + [] == b && DecodeGroups("") == Some([]);
      } else {
        GroupsRoundTrip(b[3..]);
        EncodedClean(b[3..]);
        GroupRoundTrip(b[..3], |s| == 4);
        assert s[..4] == EncodeGroup(b[..3]) && s[4..] == Encode(b[3..]);
        assert b == b[..3] + b[3..];
      }
    }
  }

  lemma Base64RoundTrip(b: seq<byte>)
    ensures Decode(Encode(b)) == Some(b)
  {
    EncodedClean(b);
    CleanNoBreaks(Encode(b));
    GroupsRoundTrip(b);
  }

  // ----- verifier and salt -----

  function EncodeVerifierAndSalt(s: seq<byte>, v: seq<byte>): string {
    Encode(s) + "#" + Encode(v)
  }

  /** Without a `#` the second piece does not exist and the original panics. */
  function DecodeVerifierAndSalt(src: string): Option<(seq<byte>, seq<byte>)>
    requires |Split(src, '#')| >= 2
  {
    var s := Decode(Split(src, '#')[0]);
    var v := Decode(Split(src, '#')[1]);
    if s.None? || v.None? then None else Some((s.value, v.value))
  }

  /** What is stored is read back, for all byte strings: `#` is outside the alphabet. */
  lemma VerifierRoundTrip(s: seq<byte>, v: seq<byte>)
    ensures var src := EncodeVerifierAndSalt(s, v);
      && Split(src, '#') == [Encode(s), Encode(v)]
      && DecodeVerifierAndSalt(src) == Some((s, v))
  {
    hide Encode, Decode, Split;
    EncodedClean(s);
    EncodedClean(v);
    SplitConcat(Encode(s), Encode(v), '#');
    SplitWhole(Encode(s), '#');
    SplitWhole(Encode(v), '#');
    Base64RoundTrip(s);
    Base64RoundTrip(v);
  }
}
