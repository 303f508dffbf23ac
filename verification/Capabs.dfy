/** The tool capabilities of a hand (itemdef.go): how the merge reads them, and what it gets out of the bytes
    a server writes. Floating point numbers are kept as their 32 bits. */
module Capabs {
  import opened Wire

  datatype Level = Level(level: i16, time: u32)
  datatype Group = Group(name: Name, uses: i16, maxLevel: i16, times: seq<Level>)
  datatype Damage = Damage(name: Name, rating: i16)

  /** The lists of a capability block, in their order. */
  datatype Block = Block(punchInterval: u32, maxDropLevel: i16, groups: seq<Group>, damage: seq<Damage>, uses: u16)

  // ----- the reader -----

  function LevelAt(d: seq<byte>, pos: nat): Level {
    Level(ToI16(U16At(d, pos)), U32At(d, Next(d, pos, 2)))
  }

  function LevelsEnd(d: seq<byte>, pos: nat, n: nat): nat {
    if n == 0 then pos else Next(d, Next(d, LevelsEnd(d, pos, n - 1), 2), 4)
  }

  function ParseLevels(d: seq<byte>, pos: nat, n: nat): (ls: seq<Level>)
    ensures |ls| == n
  {
    if n == 0 then [] else ParseLevels(d, pos, n - 1) + [LevelAt(d, LevelsEnd(d, pos, n - 1))]
  }

  /** Where the number of levels of a group stands. */
  function TimesPos(d: seq<byte>, pos: nat): nat {
    Next(d, Next(d, Bytes16End(d, pos), 2), 2)
  }

  function GroupAt(d: seq<byte>, pos: nat): Group {
    var p := Bytes16End(d, pos);
    Group(Bytes16At(d, pos), ToI16(U16At(d, p)), ToI16(U16At(d, Next(d, p, 2))),
          ParseLevels(d, Next(d, TimesPos(d, pos), 4), U32At(d, TimesPos(d, pos))))
  }

  function GroupEnd(d: seq<byte>, pos: nat): nat {
    LevelsEnd(d, Next(d, TimesPos(d, pos), 4), U32At(d, TimesPos(d, pos)))
  }

  function GroupsEnd(d: seq<byte>, pos: nat, n: nat): nat {
    if n == 0 then pos else GroupEnd(d, GroupsEnd(d, pos, n - 1))
  }

  function ParseGroups(d: seq<byte>, pos: nat, n: nat): (gs: seq<Group>)
    ensures |gs| == n
  {
    if n == 0 then [] else ParseGroups(d, pos, n - 1) + [GroupAt(d, GroupsEnd(d, pos, n - 1))]
  }

  function DamageAt(d: seq<byte>, pos: nat): Damage {
    Damage(Bytes16At(d, pos), ToI16(U16At(d, Bytes16End(d, pos))))
  }

  function DamageEnd(d: seq<byte>, pos: nat): (p: nat)
    ensures pos <= p
  {
    Next(d, Bytes16End(d, pos), 2)
  }

  function DamagesEnd(d: seq<byte>, pos: nat, n: nat): (p: nat)
    ensures pos <= p
  {
    if n == 0 then pos else DamageEnd(d, DamagesEnd(d, pos, n - 1))
  }

  function ParseDamages(d: seq<byte>, pos: nat, n: nat): (ds: seq<Damage>)
    ensures |ds| == n
  {
    if n == 0 then [] else ParseDamages(d, pos, n - 1) + [DamageAt(d, DamagesEnd(d, pos, n - 1))]
  }

  /** The number of groups follows the version byte, the punch interval and the drop level. */
  function GroupsPos(d: seq<byte>): nat {
    Next(d, Next(d, 1, 4), 2)
  }

  /** Where the number of damage groups stands. */
  function DamagePos(d: seq<byte>): nat {
    GroupsEnd(d, Next(d, GroupsPos(d), 4), U32At(d, GroupsPos(d)))
  }

  /** Four bytes behind that number are skipped before the damage groups are read. */
  function ParseBlock(d: seq<byte>): Block {
    var n, start := U32At(d, DamagePos(d)), Next(d, DamagePos(d), 4) + 4;
    Block(U32At(d, 1), ToI16(U16At(d, Next(d, 1, 4))),
          ParseGroups(d, Next(d, GroupsPos(d), 4), U32At(d, GroupsPos(d))),
          ParseDamages(d, start, n), U16At(d, DamagesEnd(d, start, n)))
  }

  // ----- what is kept of it: later entries replace earlier ones of the same key -----

  datatype GroupCap = GroupCap(uses: i16, maxLevel: i16, times: map<i16, u32>)
  datatype ToolCapabs = ToolCapabs(punchInterval: u32, maxDropLevel: i16, groups: map<Name, GroupCap>,
                                   damage: map<Name, i16>, uses: u16)

  function TimesOf(ls: seq<Level>): map<i16, u32> {
    if ls == [] then map[] else TimesOf(ls[..|ls| - 1])[ls[|ls| - 1].level := ls[|ls| - 1].time]
  }

  function GroupsOf(gs: seq<Group>): map<Name, GroupCap> {
    if gs == [] then map[]
    else
      var g := gs[|gs| - 1];
      GroupsOf(gs[..|gs| - 1])[g.name := GroupCap(g.uses, g.maxLevel, TimesOf(g.times))]
  }

  function DamageOf(ds: seq<Damage>): map<Name, i16> {
    if ds == [] then map[] else DamageOf(ds[..|ds| - 1])[ds[|ds| - 1].name := ds[|ds| - 1].rating]
  }

  function Kept(b: Block): ToolCapabs {
    ToolCapabs(b.punchInterval, b.maxDropLevel, GroupsOf(b.groups), DamageOf(b.damage), b.uses)
  }

  function CapabsOf(d: seq<byte>): ToolCapabs {
    Kept(ParseBlock(d))
  }

  method ReadTimes(cr: Reader, times: u32) returns (m: map<i16, u32>)
    modifies cr
    ensures m == TimesOf(ParseLevels(cr.data, old(cr.pos), times))
    ensures cr.pos == LevelsEnd(cr.data, old(cr.pos), times)
  {
    hide U16At, U32At, Next;
    ghost var d, start := cr.data, cr.pos;
    m := map[];
    var k: nat := 0;
    while k < times
      invariant k <= times && cr.pos == LevelsEnd(d, start, k) && m == TimesOf(ParseLevels(d, start, k))
    {
      var level := cr.ReadUint16();
      var time := cr.ReadUint32();
      m := m[ToI16(level) := time];
      k := k + 1;
    }
  }

  method ReadGroups(cr: Reader, count: u32) returns (m: map<Name, GroupCap>)
    modifies cr
    ensures m == GroupsOf(ParseGroups(cr.data, old(cr.pos), count))
    ensures cr.pos == GroupsEnd(cr.data, old(cr.pos), count)
  {
    hide U16At, U32At, Next, Bytes16At, Bytes16End, ParseLevels, LevelsEnd, TimesOf;
    ghost var d, start := cr.data, cr.pos;
    m := map[];
    var j: nat := 0;
    while j < count
      invariant j <= count && cr.pos == GroupsEnd(d, start, j) && m == GroupsOf(ParseGroups(d, start, j))
    {
      var capName := cr.ReadBytes16();
      var uses := cr.ReadUint16();
      var maxlevel := cr.ReadUint16();
      var times := cr.ReadUint32();
      var ts := ReadTimes(cr, times);
      m := m[capName := GroupCap(ToI16(uses), ToI16(maxlevel), ts)];
      j := j + 1;
    }
  }

  method ReadDamage(cr: Reader, count: u32) returns (m: map<Name, i16>)
    modifies cr
    ensures m == DamageOf(ParseDamages(cr.data, old(cr.pos), count))
    ensures cr.pos == DamagesEnd(cr.data, old(cr.pos), count)
  {
    hide U16At, Next, Bytes16At, Bytes16End;
    ghost var d, start := cr.data, cr.pos;
    m := map[];
    var j: nat := 0;
    while j < count
      invariant j <= count && cr.pos == DamagesEnd(d, start, j) && m == DamageOf(ParseDamages(d, start, j))
    {
      var dmgName := cr.ReadBytes16();
      var rating := cr.ReadUint16();
      m := m[dmgName := ToI16(rating)];
      j := j + 1;
    }
  }

  /** The capabilities of a hand, for any bytes. */
  method ReadCapabs(capab: seq<byte>) returns (c: ToolCapabs)
    ensures c == CapabsOf(capab)
  {
    hide U16At, U32At, Next, ParseGroups, GroupsEnd, ParseDamages, DamagesEnd, GroupsOf, DamageOf;
    var cr := new Reader(capab);
    cr.Seek(1);
    var fpi := cr.ReadUint32();
    var mdl := cr.ReadUint16();
    var grpCapsLen := cr.ReadUint32();
    var groups := ReadGroups(cr, grpCapsLen);
    var dmgGrpCapsLen := cr.ReadUint32();
    cr.Seek(cr.pos + 4);
    var damage := ReadDamage(cr, dmgGrpCapsLen);
    var uses := cr.ReadUint16();
    c := ToolCapabs(fpi, ToI16(mdl), groups, damage, uses);
  }

  // ----- what a server writes -----

  function PutI16(x: i16): seq<byte> {
    PutU16(FromI16(x))
  }

  function EncodeLevel(l: Level): seq<byte> {
    PutI16(l.level) + PutU32(l.time)
  }

  function EncodeLevels(ls: seq<Level>): seq<byte> {
    if ls == [] then [] else EncodeLevels(ls[..|ls| - 1]) + EncodeLevel(ls[|ls| - 1])
  }

  function EncodeGroup(g: Group): seq<byte> {
    PutBytes16(g.name) + (PutI16(g.uses) + (PutI16(g.maxLevel) +
      (PutU32(|g.times| % 0x1_0000_0000) + EncodeLevels(g.times))))
  }

  function EncodeGroups(gs: seq<Group>): seq<byte> {
    if gs == [] then [] else EncodeGroups(gs[..|gs| - 1]) + EncodeGroup(gs[|gs| - 1])
  }

  function EncodeDamage(x: Damage): seq<byte> {
    PutBytes16(x.name) + PutI16(x.rating)
  }

  function EncodeDamages(ds: seq<Damage>): seq<byte> {
    if ds == [] then [] else EncodeDamages(ds[..|ds| - 1]) + EncodeDamage(ds[|ds| - 1])
  }

  /** The block as the standard capabilities of rmToolCapabs are laid out: nothing stands between the number
      of damage groups and the groups. */
  function EncodeBlock(b: Block): seq<byte> {
    [5] + (PutU32(b.punchInterval) + (PutI16(b.maxDropLevel) + (PutU32(|b.groups| % 0x1_0000_0000) +
      (EncodeGroups(b.groups) + (PutU32(|b.damage| % 0x1_0000_0000) + (EncodeDamages(b.damage) + PutU16(b.uses)))))))
  }

  ghost predicate GroupFits(g: Group) {
    |g.name| < 0x1_0000 && |g.times| < 0x1_0000_0000
  }

  ghost predicate Fits(b: Block) {
    && |b.groups| < 0x1_0000_0000 && |b.damage| < 0x1_0000_0000
    && (forall k :: 0 <= k < |b.groups| ==> GroupFits(b.groups[k]))
    && (forall k :: 0 <= k < |b.damage| ==> |b.damage[k].name| < 0x1_0000)
  }

  lemma ZerosConcat(m: nat, n: nat)
    ensures Zeros(m) + Zeros(n) == Zeros(m + n)
  {
  }

  lemma ZeroNumbers()
    ensures PutU32(0) == Zeros(4) && PutI16(0) == Zeros(2) && PutU16(0) == Zeros(2)
    ensures EncodeGroups([]) == Zeros(0) && EncodeDamages([]) == Zeros(0)
  {
  }

  /** A block without groups and with zeros in it. */
  lemma EmptyBlock()
    ensures EncodeBlock(Block(0, 0, [], [], 0)) == [5] + Zeros(16)
  {
    ZeroNumbers();
    hide PutU32, PutU16, PutI16, EncodeGroups, EncodeDamages, Zeros;
    ZerosConcat(0, 2);
    ZerosConcat(4, 2);
    ZerosConcat(0, 6);
    ZerosConcat(4, 6);
    ZerosConcat(2, 10);
    ZerosConcat(4, 12);
  }

  lemma ReadBackI16(d: seq<byte>, pos: nat, x: i16)
    requires At(d, pos, PutI16(x))
    ensures ToI16(U16At(d, pos)) == x && Next(d, pos, 2) == pos + 2
  {
    ReadBackU16(d, pos, FromI16(x));
  }

  lemma NextAfterU32(d: seq<byte>, pos: nat, v: u32)
    requires At(d, pos, PutU32(v))
    ensures U32At(d, pos) == v && Next(d, pos, 4) == pos + 4
  {
    ReadBackU32(d, pos, v);
  }

  lemma {:induction false} LevelsReadBack(d: seq<byte>, pos: nat, ls: seq<Level>)
    requires At(d, pos, EncodeLevels(ls))
    ensures ParseLevels(d, pos, |ls|) == ls && LevelsEnd(d, pos, |ls|) == pos + |EncodeLevels(ls)|
  {
    hide U16At, U32At, Next, PutI16, PutU32, ToI16;
    if ls != [] {
      var front, l := ls[..|ls| - 1], ls[|ls| - 1];
      var p := pos + |EncodeLevels(front)|;
      AtSplit(d, pos, EncodeLevels(front), EncodeLevel(l));
      LevelsReadBack(d, pos, front);
      AtSplit(d, p, PutI16(l.level), PutU32(l.time));
      I16Size(l.level);
      ReadBackI16(d, p, l.level);
      NextAfterU32(d, p + 2, l.time);
    }
  }

  lemma I16Size(x: i16)
    ensures |PutI16(x)| == 2
  {
  }

  lemma GroupReadBack(d: seq<byte>, pos: nat, g: Group)
    requires GroupFits(g) && At(d, pos, EncodeGroup(g))
    ensures GroupAt(d, pos) == g && GroupEnd(d, pos) == pos + |EncodeGroup(g)|
  {
    hide U16At, U32At, Next, PutI16, PutU32, PutU16, ToI16, Bytes16At, Bytes16End, ParseLevels, LevelsEnd, EncodeLevels;
    var n, p := |g.times|, pos + 2 + |g.name|;
    var rest := PutU32(n) + EncodeLevels(g.times);
    I16Size(g.uses);
    I16Size(g.maxLevel);
    AtSplit(d, pos, PutBytes16(g.name), PutI16(g.uses) + (PutI16(g.maxLevel) + rest));
    ReadBackBytes16(d, pos, g.name);
    AtSplit(d, p, PutI16(g.uses), PutI16(g.maxLevel) + rest);
    ReadBackI16(d, p, g.uses);
    AtSplit(d, p + 2, PutI16(g.maxLevel), rest);
    ReadBackI16(d, p + 2, g.maxLevel);
    AtSplit(d, p + 4, PutU32(n), EncodeLevels(g.times));
    NextAfterU32(d, p + 4, n);
    LevelsReadBack(d, p + 8, g.times);
  }

  lemma {:induction false} GroupsReadBack(d: seq<byte>, pos: nat, gs: seq<Group>)
    requires (forall k :: 0 <= k < |gs| ==> GroupFits(gs[k])) && At(d, pos, EncodeGroups(gs))
    ensures ParseGroups(d, pos, |gs|) == gs && GroupsEnd(d, pos, |gs|) == pos + |EncodeGroups(gs)|
  {
    hide GroupAt, GroupEnd, EncodeGroup, GroupFits;
    if gs != [] {
      var front, g := gs[..|gs| - 1], gs[|gs| - 1];
      AtSplit(d, pos, EncodeGroups(front), EncodeGroup(g));
      GroupsReadBack(d, pos, front);
      GroupReadBack(d, pos + |EncodeGroups(front)|, g);
    }
  }

  /** Where the parts of a block stand; q is the place of the number of damage groups. */
  lemma BlockParts(b: Block, q: nat)
    requires Fits(b) && q == 11 + |EncodeGroups(b.groups)|
    ensures var d := EncodeBlock(b);
      && At(d, 1, PutU32(b.punchInterval)) && At(d, 5, PutI16(b.maxDropLevel)) && At(d, 7, PutU32(|b.groups|))
      && At(d, 11, EncodeGroups(b.groups)) && At(d, q, PutU32(|b.damage|))
      && At(d, q + 4, EncodeDamages(b.damage) + PutU16(b.uses))
      && q + 4 + |EncodeDamages(b.damage)| + 2 == |d|
  {
    hide PutI16, PutU32, PutU16, EncodeGroups, EncodeDamages, GroupFits, At;
    var d := EncodeBlock(b);
    var tail := EncodeDamages(b.damage) + PutU16(b.uses);
    var r4 := PutU32(|b.damage|) + tail;
    var r3 := EncodeGroups(b.groups) + r4;
    var r2 := PutU32(|b.groups|) + r3;
    var r1 := PutI16(b.maxDropLevel) + r2;
    I16Size(b.maxDropLevel);
    AtWhole(d);
    AtSplit(d, 0, [5], PutU32(b.punchInterval) + r1);
    AtSplit(d, 1, PutU32(b.punchInterval), r1);
    AtSplit(d, 5, PutI16(b.maxDropLevel), r2);
    AtSplit(d, 7, PutU32(|b.groups|), r3);
    AtSplit(d, 11, EncodeGroups(b.groups), r4);
    AtSplit(d, q, PutU32(|b.damage|), tail);
  }

  /** What does not depend on the damage groups is read as it was written. */
  lemma HeadReadBack(b: Block) returns (p: nat)
    requires Fits(b)
    ensures var d := EncodeBlock(b);
      && ParseBlock(d).punchInterval == b.punchInterval && ParseBlock(d).maxDropLevel == b.maxDropLevel
      && ParseBlock(d).groups == b.groups
      && ParseBlock(d).damage == ParseDamages(d, p + 4, |b.damage|)
      && ParseBlock(d).uses == U16At(d, DamagesEnd(d, p + 4, |b.damage|))
      && p + |EncodeDamages(b.damage)| + 2 == |d| && At(d, p, EncodeDamages(b.damage) + PutU16(b.uses))
  {
    hide U16At, U32At, Next, PutI16, PutU32, PutU16, ToI16, ParseGroups, GroupsEnd, EncodeGroups, EncodeDamages,
         GroupFits, ParseDamages, DamagesEnd, EncodeBlock, At;
    var d, q := EncodeBlock(b), 11 + |EncodeGroups(b.groups)|;
    p := q + 4;
    BlockParts(b, q);
    NextAfterU32(d, 1, b.punchInterval);
    ReadBackI16(d, 5, b.maxDropLevel);
    NextAfterU32(d, 7, |b.groups|);
    GroupsReadBack(d, 11, b.groups);
    NextAfterU32(d, q, |b.damage|);
  }

  // ----- the skipped bytes -----

  /** A slice as the reader sees it: zeros behind its end. */
  function ByteAt(d: seq<byte>, i: nat): byte {
    if i < |d| then d[i] else 0
  }

  lemma WordBytes(d: seq<byte>, pos: nat)
    ensures U16At(d, pos) == (ByteAt(d, pos) as int) * 0x100 + ByteAt(d, pos + 1)
  {
    var f := Fill(d, pos, 2);
    assert f[0] == ByteAt(d, pos) && f[1] == ByteAt(d, pos + 1);
  }

  /** A damage group at any place, byte by byte. */
  lemma DamageBytes(d: seq<byte>, pos: nat)
    ensures var x, l := DamageAt(d, pos), U16At(d, pos);
      && |x.name| == l
      && (forall j: nat :: j < l ==> x.name[j] == ByteAt(d, pos + 2 + j))
      && x.rating == ToI16((ByteAt(d, pos + 2 + l) as int) * 0x100 + ByteAt(d, pos + 3 + l))
    ensures pos + 4 + U16At(d, pos) <= |d| ==> DamageEnd(d, pos) == pos + 4 + U16At(d, pos)
    ensures pos + 4 + U16At(d, pos) > |d| ==> DamageEnd(d, pos) >= |d|
  {
    hide U16At, ToI16;
    WordBytes(d, Bytes16End(d, pos));
  }

  lemma DamagesMore(d: seq<byte>, pos: nat, n: nat)
    ensures ParseDamages(d, pos, n + 1) == ParseDamages(d, pos, n) + [DamageAt(d, DamagesEnd(d, pos, n))]
    ensures DamagesEnd(d, pos, n + 1) == DamageEnd(d, DamagesEnd(d, pos, n))
    ensures ParseDamages(d, pos, 0) == [] && DamagesEnd(d, pos, 0) == pos
  {
    hide DamageAt, DamageEnd;
  }

  /** Writing what was read gives the bytes back. */
  lemma {:induction false} DamagesWriteBack(d: seq<byte>, pos: nat, n: nat)
    ensures var e := EncodeDamages(ParseDamages(d, pos, n));
      && (forall j: nat :: j < |e| ==> e[j] == ByteAt(d, pos + j))
      && (DamagesEnd(d, pos, n) == pos + |e| || (DamagesEnd(d, pos, n) >= |d| && pos + |e| >= |d|))
  {
    hide DamageAt, DamageEnd, EncodeDamage, ByteAt, ParseDamages, EncodeDamages, DamagesEnd;
    if n == 0 {
      DamagesMore(d, pos, 0);
      EncodeMore([], Damage([], 0));
    } else {
      DamagesWriteBack(d, pos, n - 1);
      DamagesMore(d, pos, n - 1);
      var c, front := DamagesEnd(d, pos, n - 1), ParseDamages(d, pos, n - 1);
      var f, g := EncodeDamages(front), EncodeDamage(DamageAt(d, c));
      DamageWritesBack(d, c, pos + |f|);
      EncodeMore(front, DamageAt(d, c));
      forall j: nat | j < |f + g| ensures (f + g)[j] == ByteAt(d, pos + j) {
        if j >= |f| {
          assert g[j - |f|] == ByteAt(d, pos + |f| + (j - |f|));
        }
      }
    }
  }

  /** At the cursor c, or at q if both are past the end. */
  lemma DamageWritesBack(d: seq<byte>, c: nat, q: nat)
    requires c == q || (c >= |d| && q >= |d|)
    ensures var e := EncodeDamage(DamageAt(d, c));
      && (forall j: nat :: j < |e| ==> e[j] == ByteAt(d, q + j))
      && (DamageEnd(d, c) == q + |e| || (DamageEnd(d, c) >= |d| && q + |e| >= |d|))
  {
    hide DamageAt, DamageEnd, U16At;
    var x := DamageAt(d, c);
    DamageBytes(d, c);
    WordBytes(d, c);
    DamageLayout(x);
    SignedBytes(x.rating, ByteAt(d, c + 2 + |x.name|), ByteAt(d, c + 3 + |x.name|));
  }

  lemma DamageLayout(x: Damage)
    requires |x.name| < 0x1_0000
    ensures var e, l := EncodeDamage(x), |x.name|;
      && |e| == l + 4 && e[0] == l / 0x100 && e[1] == l % 0x100
      && (forall j: nat :: 2 <= j < l + 2 ==> e[j] == x.name[j - 2])
      && e[l + 2] == FromI16(x.rating) / 0x100 && e[l + 3] == FromI16(x.rating) % 0x100
  {
    hide FromI16;
  }

  lemma SignedBytes(r: i16, hi: byte, lo: byte)
    requires r == ToI16((hi as int) * 0x100 + lo)
    ensures FromI16(r) / 0x100 == hi && FromI16(r) % 0x100 == lo
  {
  }

  // ----- which of the damage groups are kept -----

  ghost predicate NamesDiffer(ds: seq<Damage>) {
    forall j, k :: 0 <= j < k < |ds| ==> ds[j].name != ds[k].name
  }

  lemma NamesDifferMore(front: seq<Damage>, x: Damage)
    ensures NamesDiffer(front + [x]) <==> NamesDiffer(front) && forall k :: 0 <= k < |front| ==> front[k].name != x.name
  {
    var ds := front + [x];
    assert ds[|front|] == x && forall k :: 0 <= k < |front| ==> front[k] == ds[k];
    if NamesDiffer(ds) {
      forall k | 0 <= k < |front| ensures front[k].name != x.name {
        assert ds[k].name != ds[|front|].name;
      }
    }
  }

  lemma {:induction false} KeptNames(ds: seq<Damage>, n: Name)
    ensures n in DamageOf(ds) <==> exists k :: 0 <= k < |ds| && ds[k].name == n
  {
    if ds != [] {
      var front := ds[..|ds| - 1];
      KeptNames(front, n);
      assert forall k :: 0 <= k < |front| ==> front[k] == ds[k];
    }
  }

  lemma MapSize(m: map<Name, i16>, n: Name, r: i16)
    ensures |m[n := r]| == if n in m then |m| else |m| + 1
  {
    if n in m {
      assert m[n := r].Keys == m.Keys;
    } else {
      assert m[n := r].Keys == m.Keys + {n};
    }
  }

  lemma {:induction false} KeptCount(ds: seq<Damage>)
    ensures |DamageOf(ds)| <= |ds|
    ensures |DamageOf(ds)| == |ds| <==> NamesDiffer(ds)
  {
    hide NamesDiffer;
    if ds == [] {
      NothingDiffers();
    } else {
      var front, x := ds[..|ds| - 1], ds[|ds| - 1];
      assert ds == front + [x];
      KeptCount(front);
      KeptNames(front, x.name);
      NamesDifferMore(front, x);
      MapSize(DamageOf(front), x.name, x.rating);
    }
  }

  lemma NothingDiffers()
    ensures NamesDiffer([])
  {
  }

  /** With different names the entries are those of the map, each once. */
  lemma {:induction false} EntriesOfMap(ds: seq<Damage>, x: Damage)
    requires NamesDiffer(ds)
    ensures multiset(ds)[x] == if x.name in DamageOf(ds) && DamageOf(ds)[x.name] == x.rating then 1 else 0
  {
    hide NamesDiffer;
    if ds != [] {
      var front, last := ds[..|ds| - 1], ds[|ds| - 1];
      assert ds == front + [last];
      NamesDifferMore(front, last);
      EntriesOfMap(front, x);
      KeptNames(front, last.name);
      assert multiset(ds)[x] == multiset(front)[x] + if x == last then 1 else 0;
    }
  }

  /** Lists of equally many entries that give one map are permutations, if the names of one differ. */
  lemma SameMapPermutes(a: seq<Damage>, b: seq<Damage>)
    requires |a| == |b| && NamesDiffer(b)
    ensures DamageOf(a) == DamageOf(b) <==> multiset(a) == multiset(b)
  {
    hide DamageOf, NamesDiffer;
    KeptCount(a);
    KeptCount(b);
    if multiset(a) == multiset(b) {
      PermutedNamesDiffer(a, b);
      forall n, r ensures Maps(DamageOf(a), n, r) <==> Maps(DamageOf(b), n, r) {
        EntriesOfMap(a, Damage(n, r));
        EntriesOfMap(b, Damage(n, r));
      }
      SameMap(DamageOf(a), DamageOf(b));
    } else if DamageOf(a) == DamageOf(b) {
      SameCounts(a, b);
    }
  }

  lemma SameCounts(a: seq<Damage>, b: seq<Damage>)
    requires NamesDiffer(a) && NamesDiffer(b) && DamageOf(a) == DamageOf(b)
    ensures multiset(a) == multiset(b)
  {
    hide DamageOf, NamesDiffer;
    forall x: Damage ensures multiset(a)[x] == multiset(b)[x] {
      EntriesOfMap(a, x);
      EntriesOfMap(b, x);
    }
  }

  predicate Maps(m: map<Name, i16>, n: Name, r: i16) {
    n in m && m[n] == r
  }

  lemma SameMap(a: map<Name, i16>, b: map<Name, i16>)
    requires forall n, r :: Maps(a, n, r) <==> Maps(b, n, r)
    ensures a == b
  {
    forall n ensures n in a <==> n in b {
      if n in a {
        assert Maps(b, n, a[n]);
      }
      if n in b {
        assert Maps(a, n, b[n]);
      }
    }
    forall n | n in a ensures a[n] == b[n] {
      assert Maps(b, n, a[n]);
    }
  }

  lemma PermutedNamesDiffer(a: seq<Damage>, b: seq<Damage>)
    requires multiset(a) == multiset(b) && NamesDiffer(b)
    ensures NamesDiffer(a)
  {
    forall j, k | 0 <= j < k < |a| ensures a[j].name != a[k].name {
      var x, y := a[j], a[k];
      assert x in multiset(b) && y in multiset(b);
      var i, l :| 0 <= i < |b| && b[i] == x && 0 <= l < |b| && b[l] == y;
      if x == y {
        assert a == a[..k] + [y] + a[k + 1..];
        assert a[..k][j] == x;
        assert multiset(a)[x] >= 2;
        EntriesOfMap(b, x);
      }
    }
  }

  lemma EncodeMore(ds: seq<Damage>, x: Damage)
    ensures EncodeDamages(ds + [x]) == EncodeDamages(ds) + EncodeDamage(x)
    ensures EncodeDamages([]) == []
  {
    hide EncodeDamage;
    assert (ds + [x])[..|ds|] == ds;
  }

  lemma {:induction false} EncodeConcat(a: seq<Damage>, b: seq<Damage>)
    ensures EncodeDamages(a + b) == EncodeDamages(a) + EncodeDamages(b)
  {
    hide EncodeDamage, EncodeDamages;
    if b == [] {
      assert a + b == a;
      EncodeMore([], Damage([], 0));
    } else {
      var front, x := b[..|b| - 1], b[|b| - 1];
      EncodeConcat(a, front);
      EncodeMore(a + front, x);
      EncodeMore(front, x);
      assert a + b == (a + front) + [x] && b == front + [x];
    }
  }

  lemma EncodeMiddle(l: seq<Damage>, x: Damage, r: seq<Damage>)
    ensures |EncodeDamages(l + ([x] + r))| == |EncodeDamages(l + r)| + |EncodeDamage(x)|
    ensures multiset(EncodeDamages(l + ([x] + r))) == multiset(EncodeDamages(l + r)) + multiset(EncodeDamage(x))
  {
    hide EncodeDamage, EncodeDamages;
    EncodeConcat(l, [x] + r);
    EncodeConcat([x], r);
    EncodeConcat(l, r);
    EncodeOne(x);
  }

  lemma TakenOut(front: seq<Damage>, x: Damage, l: seq<Damage>, r: seq<Damage>)
    requires multiset(front + [x]) == multiset(l + ([x] + r))
    ensures multiset(front) == multiset(l + r)
  {
    var a, b := multiset(front), multiset(l + r);
    assert multiset(front + [x]) == a + multiset([x]);
    assert multiset(l + ([x] + r)) == b + multiset([x]);
    forall v ensures a[v] == b[v] {
      assert (a + multiset([x]))[v] == a[v] + multiset([x])[v];
    }
  }

  /** A permutation of the groups permutes the bytes. */
  lemma {:induction false} EncodePermutes(a: seq<Damage>, b: seq<Damage>)
    requires multiset(a) == multiset(b)
    ensures |EncodeDamages(a)| == |EncodeDamages(b)|
    ensures multiset(EncodeDamages(a)) == multiset(EncodeDamages(b))
    decreases |a|
  {
    hide EncodeDamage, EncodeDamages;
    if a == [] {
      assert |b| == |multiset(b)| == 0;
    } else {
      var front, x := a[..|a| - 1], a[|a| - 1];
      assert a == front + [x];
      assert x in multiset(b);
      var k :| 0 <= k < |b| && b[k] == x;
      var l, r := b[..k], b[k + 1..];
      assert b == l + ([x] + r);
      TakenOut(front, x, l, r);
      EncodePermutes(front, l + r);
      EncodeMiddle(l, x, r);
      EncodeMore(front, x);
    }
  }

  lemma EncodeOne(x: Damage)
    ensures EncodeDamages([x]) == EncodeDamage(x)
  {
    hide EncodeDamage, EncodeDamages;
    assert [] + [x] == [x];
    EncodeMore([], x);
  }

  lemma {:induction false} DamagesReadBack(d: seq<byte>, pos: nat, ds: seq<Damage>)
    requires (forall k :: 0 <= k < |ds| ==> |ds[k].name| < 0x1_0000) && At(d, pos, EncodeDamages(ds))
    ensures ParseDamages(d, pos, |ds|) == ds && DamagesEnd(d, pos, |ds|) == pos + |EncodeDamages(ds)|
  {
    hide DamageAt, DamageEnd, EncodeDamage;
    if ds != [] {
      var front, x := ds[..|ds| - 1], ds[|ds| - 1];
      AtSplit(d, pos, EncodeDamages(front), EncodeDamage(x));
      DamagesReadBack(d, pos, front);
      DamageReadBack(d, pos + |EncodeDamages(front)|, x);
    }
  }

  lemma DamageReadBack(d: seq<byte>, pos: nat, x: Damage)
    requires |x.name| < 0x1_0000 && At(d, pos, EncodeDamage(x))
    ensures DamageAt(d, pos) == x && DamageEnd(d, pos) == pos + |EncodeDamage(x)|
  {
    hide Bytes16At, Bytes16End, U16At, PutI16, ToI16;
    I16Size(x.rating);
    AtSplit(d, pos, PutBytes16(x.name), PutI16(x.rating));
    ReadBackBytes16(d, pos, x.name);
    ReadBackI16(d, pos + 2 + |x.name|, x.rating);
  }

  lemma LastGroup(d: seq<byte>, q: nat)
    requires At(d, q, [0, 0]) && q + 2 == |d|
    ensures DamageAt(d, q) == Damage([], 0) && DamageEnd(d, q) >= |d|
  {
    assert ToI16(0) == 0;
    hide DamageAt, DamageEnd, U16At, ToI16;
    assert d[q] == d[q..q + 2][0] && d[q + 1] == d[q..q + 2][1];
    WordBytes(d, q);
    DamageBytes(d, q);
  }

  /** What is read when the first group is the empty one: the others in place, and it last. */
  lemma EmptyFirst(d: seq<byte>, p: nat, rest: seq<Damage>)
    requires forall k :: 0 <= k < |rest| ==> |rest[k].name| < 0x1_0000
    requires At(d, p + 4, EncodeDamages(rest) + [0, 0]) && p + 4 + |EncodeDamages(rest)| + 2 == |d|
    ensures ParseDamages(d, p + 4, |rest| + 1) == rest + [Damage([], 0)]
    ensures U16At(d, DamagesEnd(d, p + 4, |rest| + 1)) == 0
  {
    hide DamageAt, DamageEnd, U16At, EncodeDamages, ParseDamages, DamagesEnd, At;
    var q := p + 4 + |EncodeDamages(rest)|;
    AtSplit(d, p + 4, EncodeDamages(rest), [0, 0]);
    DamagesReadBack(d, p + 4, rest);
    DamagesMore(d, p + 4, |rest|);
    LastGroup(d, q);
    PastTheEnd(d, DamageEnd(d, q));
  }

  /** The bytes of the groups, and those that the reader makes its groups of. */
  lemma ShiftedBytes(d: seq<byte>, p: nat, x: seq<byte>, uses: seq<byte>, e: seq<byte>)
    requires At(d, p, x + uses) && p + |x| + 2 == |d| && |uses| == 2 && |x| >= 4
    requires |e| == |x| && forall j: nat :: j < |e| ==> e[j] == ByteAt(d, p + 4 + j)
    ensures e == x[4..] + (uses + [0, 0])
  {
    AtSplit(d, p, x, uses);
    assert d[p..p + |x|] == x && d[p + |x|..p + |x| + 2] == uses;
    forall j: nat | j < |e| ensures e[j] == (x[4..] + (uses + [0, 0]))[j] {
      if j < |x| - 4 {
        assert d[p..p + |x|][4 + j] == d[p + 4 + j];
      } else if j < |x| - 2 {
        assert d[p + |x|..p + |x| + 2][j - (|x| - 4)] == d[p + 4 + j];
      }
    }
  }

  /** If the bytes are the same up to their order, the four in front are zeros. */
  lemma FourZeros(x: seq<byte>)
    requires |x| >= 4 && multiset(x) == multiset(x[4..] + [0, 0, 0, 0])
    ensures x[0] == 0 && x[1] == 0 && x[2] == 0 && x[3] == 0
  {
    var zeros: seq<byte> := [0, 0, 0, 0];
    assert x == x[..4] + x[4..];
    assert multiset(x) == multiset(x[..4]) + multiset(x[4..]);
    assert multiset(x[4..] + zeros) == multiset(x[4..]) + multiset(zeros);
    forall v ensures multiset(x[..4])[v] == multiset(zeros)[v] {
      assert multiset(x)[v] == multiset(x[..4])[v] + multiset(x[4..])[v];
    }
    forall i | 0 <= i < 4 ensures x[i] == 0 {
      assert x[..4][i] in multiset(zeros);
    }
  }

  lemma ZerosMeanEmpty(ds: seq<Damage>)
    requires ds != [] && |ds[0].name| < 0x1_0000
    requires var x := EncodeDamages(ds); |x| >= 4 && x[0] == 0 && x[1] == 0 && x[2] == 0 && x[3] == 0
    ensures ds[0] == Damage([], 0)
  {
    hide EncodeDamages, EncodeDamage;
    assert ds == [ds[0]] + ds[1..];
    EncodeConcat([ds[0]], ds[1..]);
    EncodeOne(ds[0]);
    DamageLayout(ds[0]);
  }

  lemma PastTheEnd(d: seq<byte>, pos: nat)
    requires pos >= |d|
    ensures U16At(d, pos) == 0
  {
    WordBytes(d, pos);
  }

  /** If the groups read four bytes on are the written ones in some order, the first is the empty one. */
  lemma ReadInSomeOrder(d: seq<byte>, p: nat, ds: seq<Damage>, uses: u16)
    requires forall k :: 0 <= k < |ds| ==> |ds[k].name| < 0x1_0000
    requires At(d, p, EncodeDamages(ds) + PutU16(uses)) && p + |EncodeDamages(ds)| + 2 == |d|
    requires multiset(ParseDamages(d, p + 4, |ds|)) == multiset(ds)
    requires U16At(d, DamagesEnd(d, p + 4, |ds|)) == uses
    ensures uses == 0 && (ds == [] || ds[0] == Damage([], 0))
  {
    hide ParseDamages, DamagesEnd, EncodeDamages, U16At, At, ByteAt;
    var read := ParseDamages(d, p + 4, |ds|);
    var x, e := EncodeDamages(ds), EncodeDamages(read);
    DamagesWriteBack(d, p + 4, |ds|);
    EncodePermutes(read, ds);
    PastTheEnd(d, DamagesEnd(d, p + 4, |ds|));
    if ds != [] {
      AtLeastFour(ds);
      ShiftedBytes(d, p, x, PutU16(0), e);
      assert PutU16(0) + [0, 0] == [0, 0, 0, 0];
      FourZeros(x);
      ZerosMeanEmpty(ds);
    }
  }

  lemma AtLeastFour(ds: seq<Damage>)
    requires ds != []
    ensures |EncodeDamages(ds)| >= 4
  {
    I16Size(ds[|ds| - 1].rating);
  }

  /** The four skipped bytes belong to the damage groups. Of a block that a server writes, in which no two
      damage groups have one name, the capabilities are kept as they were meant if and only if its number
      of uses is 0 and its first damage group, if it has any, is the empty one: then the others are read in
      their places, and the empty one in the place of the number of uses. */
  lemma CapabsReadIff(b: Block)
    requires Fits(b) && NamesDiffer(b.damage)
    ensures CapabsOf(EncodeBlock(b)) == Kept(b) <==>
      b.uses == 0 && (b.damage == [] || b.damage[0] == Damage([], 0))
  {
    hide ParseBlock, EncodeBlock, ParseDamages, EncodeDamages, U16At, DamagesEnd, GroupFits, NamesDiffer, DamageOf,
         GroupsOf, At;
    var d, ds := EncodeBlock(b), b.damage;
    var p := HeadReadBack(b);
    SameMapPermutes(ParseBlock(d).damage, ds);
    if CapabsOf(d) == Kept(b) {
      ReadInSomeOrder(d, p, ds, b.uses);
    }
    if b.uses == 0 {
      if ds == [] {
        NoDamage(d, p);
      } else if ds[0] == Damage([], 0) {
        Rotated(d, p, ds);
      }
    }
  }

  lemma NoDamage(d: seq<byte>, p: nat)
    requires p + |EncodeDamages([])| + 2 == |d|
    ensures ParseDamages(d, p + 4, 0) == [] && U16At(d, DamagesEnd(d, p + 4, 0)) == 0
  {
    PastTheEnd(d, p + 4);
  }

  lemma Rotated(d: seq<byte>, p: nat, ds: seq<Damage>)
    requires forall k :: 0 <= k < |ds| ==> |ds[k].name| < 0x1_0000
    requires At(d, p, EncodeDamages(ds) + PutU16(0)) && p + |EncodeDamages(ds)| + 2 == |d|
    requires ds != [] && ds[0] == Damage([], 0)
    ensures multiset(ParseDamages(d, p + 4, |ds|)) == multiset(ds) && U16At(d, DamagesEnd(d, p + 4, |ds|)) == 0
  {
    hide ParseDamages, DamagesEnd, EncodeDamages, U16At, At;
    var x, rest := ds[0], ds[1..];
    assert ds == [x] + rest;
    EncodeConcat([x], rest);
    EncodeOne(x);
    EmptyEntry();
    assert EncodeDamages(ds) + PutU16(0) == [0, 0, 0, 0] + (EncodeDamages(rest) + [0, 0]);
    AtSplit(d, p, [0, 0, 0, 0], EncodeDamages(rest) + [0, 0]);
    EmptyFirst(d, p, rest);
    assert multiset(rest + [x]) == multiset([x] + rest);
  }

  lemma EmptyEntry()
    ensures EncodeDamage(Damage([], 0)) == [0, 0, 0, 0]
  {
  }
}
