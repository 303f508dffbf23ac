/** The item definition multiplexer (itemdef.go): items are shared by name, each server's hand is kept
    under a name of its own, and one hand with standard capabilities is added under the empty name. */
module ItemDefs {
  import opened Collections
  import opened Wire
  import opened Zlib
  import K = Capabs

  // ----- one definition -----

  /** head: version and type; fixed: the bytes between the images and the tool capabilities. */
  datatype Parts = Parts(head: seq<byte>, name: Name, desc: seq<byte>, invImg: seq<byte>, wieldImg: seq<byte>,
                         fixed: seq<byte>, capabs: seq<byte>, tail: seq<byte>)

  predicate ValidParts(p: Parts) {
    && |p.head| == 2 && |p.fixed| == 16
    && |p.name| < 0x1_0000 && |p.desc| < 0x1_0000 && |p.invImg| < 0x1_0000 && |p.wieldImg| < 0x1_0000
    && |p.capabs| < 0x1_0000
  }

  function Strings(p: Parts): seq<byte> {
    PutBytes16(p.name) + (PutBytes16(p.desc) + (PutBytes16(p.invImg) + PutBytes16(p.wieldImg)))
  }

  function EncodeItem(p: Parts): seq<byte> {
    p.head + (Strings(p) + (p.fixed + (PutBytes16(p.capabs) + p.tail)))
  }

  function From(d: seq<byte>, pos: nat): seq<byte> {
    if pos <= |d| then d[pos..] else []
  }

  /** Where the capability length stands. */
  function CapabPos(d: seq<byte>): nat {
    Bytes16End(d, Bytes16End(d, Bytes16End(d, Bytes16End(d, 2)))) + 16
  }

  function ItemName(d: seq<byte>): Name {
    Bytes16At(d, 2)
  }

  function ParseItem(d: seq<byte>): (p: Parts)
    ensures ValidParts(p)
  {
    var p1 := Bytes16End(d, 2);
    var p2 := Bytes16End(d, p1);
    var p3 := Bytes16End(d, p2);
    var p4 := Bytes16End(d, p3);
    Parts(Fill(d, 0, 2), ItemName(d), Bytes16At(d, p1), Bytes16At(d, p2), Bytes16At(d, p3),
          Fill(d, p4, 16), Bytes16At(d, p4 + 16), From(d, Bytes16End(d, p4 + 16)))
  }

  /** A definition that is long enough for the lengths it claims. */
  predicate WellFormedItem(d: seq<byte>) {
    EncodeItem(ParseItem(d)) == d
  }

  lemma ReadStrings(d: seq<byte>, p: Parts)
    requires ValidParts(p) && At(d, 2, Strings(p))
    ensures var p1 := Bytes16End(d, 2);
      var p2 := Bytes16End(d, p1);
      var p3 := Bytes16End(d, p2);
      && Bytes16At(d, 2) == p.name && Bytes16At(d, p1) == p.desc && Bytes16At(d, p2) == p.invImg
      && Bytes16At(d, p3) == p.wieldImg && Bytes16End(d, p3) == 2 + |Strings(p)|
  {
    hide Bytes16At, Bytes16End;
    var q1, q2, q3 := 4 + |p.name|, 6 + |p.name| + |p.desc|, 8 + |p.name| + |p.desc| + |p.invImg|;
    AtSplit(d, 2, PutBytes16(p.name), PutBytes16(p.desc) + (PutBytes16(p.invImg) + PutBytes16(p.wieldImg)));
    AtSplit(d, q1, PutBytes16(p.desc), PutBytes16(p.invImg) + PutBytes16(p.wieldImg));
    AtSplit(d, q2, PutBytes16(p.invImg), PutBytes16(p.wieldImg));
    ReadBackBytes16(d, 2, p.name);
    ReadBackBytes16(d, q1, p.desc);
    ReadBackBytes16(d, q2, p.invImg);
    ReadBackBytes16(d, q3, p.wieldImg);
  }

  /** Where the parts of a definition stand. */
  lemma ItemParts(p: Parts, q: nat)
    requires ValidParts(p) && q == 2 + |Strings(p)|
    ensures var d := EncodeItem(p);
      && Fill(d, 0, 2) == p.head && At(d, 2, Strings(p)) && Fill(d, q, 16) == p.fixed
      && At(d, q + 16, PutBytes16(p.capabs)) && From(d, q + 18 + |p.capabs|) == p.tail
  {
    hide Strings;
    var d := EncodeItem(p);
    var r3 := PutBytes16(p.capabs) + p.tail;
    var r2 := p.fixed + r3;
    PutBytes16Length(p.capabs);
    hide PutBytes16;
    assert At(d, 0, p.head + (Strings(p) + r2));
    AtSplit(d, 0, p.head, Strings(p) + r2);
    AtSplit(d, 2, Strings(p), r2);
    AtSplit(d, q, p.fixed, r3);
    AtSplit(d, q + 16, PutBytes16(p.capabs), p.tail);
  }

  /** The reader in terms of its cursor. */
  lemma ParseItemAt(d: seq<byte>, q: nat)
    requires Bytes16End(d, Bytes16End(d, Bytes16End(d, Bytes16End(d, 2)))) == q
    ensures var p := ParseItem(d);
      && p.head == Fill(d, 0, 2) && p.fixed == Fill(d, q, 16) && p.capabs == Bytes16At(d, q + 16)
      && p.tail == From(d, Bytes16End(d, q + 16)) && CapabPos(d) == q + 16
  {
    hide Bytes16At, Bytes16End, Fill, From;
  }

  lemma ItemRoundTrip(p: Parts)
    requires ValidParts(p)
    ensures ParseItem(EncodeItem(p)) == p && WellFormedItem(EncodeItem(p))
    ensures CapabPos(EncodeItem(p)) == 2 + |Strings(p)| + 16
  {
    hide Bytes16At, Bytes16End, Strings, EncodeItem, ParseItem, At, Fill, From, PutBytes16, CapabPos;
    var d, q := EncodeItem(p), 2 + |Strings(p)|;
    ItemParts(p, q);
    ReadStrings(d, p);
    ParseItemAt(d, q);
    PartsOf(d);
    ReadBackBytes16(d, q + 16, p.capabs);
  }

  // ----- rmToolCapabs -----

  const STD_CAPS: seq<byte> := [5, 0, 0, 0, 0, 0, 0, 0, 0, 0, 0, 0, 0, 0, 0, 0, 0]

  /** The same definition with the standard capability block. */
  function StdCaps(d: seq<byte>): seq<byte> {
    EncodeItem(ParseItem(d).(capabs := STD_CAPS))
  }

  lemma SpliceShape(d: seq<byte>)
    requires WellFormedItem(d)
    ensures var p := ParseItem(d);
      var si := 20 + |Strings(p)|;
      && |Strings(p)| == 8 + |p.name| + |p.desc| + |p.invImg| + |p.wieldImg|
      && si + |p.capabs| <= |d|
      && StdCaps(d) == d[..si - 2] + PutU16(17) + STD_CAPS + d[si + |p.capabs|..]
  {
    hide ParseItem, PutU16, STD_CAPS;
    var p := ParseItem(d);
    assert d == EncodeItem(p);
    hide Strings, EncodeItem;
    ItemShape(p);
    StringsLength(p);
    StdShape(p);
    var pre, mid := Prefix(p), PutU16(|p.capabs|) + p.capabs;
    assert d == pre + (mid + p.tail);
    assert d[..|pre|] == pre;
    assert d[|pre| + |mid|..] == p.tail;
  }

  /** Everything before the capability length. */
  function Prefix(p: Parts): seq<byte> {
    p.head + (Strings(p) + p.fixed)
  }

  lemma ItemShape(p: Parts)
    requires ValidParts(p)
    ensures EncodeItem(p) == Prefix(p) + ((PutU16(|p.capabs|) + p.capabs) + p.tail)
    ensures |Prefix(p)| == 18 + |Strings(p)|
  {
    assert PutBytes16(p.capabs) == PutU16(|p.capabs|) + p.capabs;
    hide PutU16, PutBytes16, Strings;
    Regroup(p.head, Strings(p), p.fixed, PutBytes16(p.capabs) + p.tail);
  }

  lemma Regroup(a: seq<byte>, b: seq<byte>, c: seq<byte>, d: seq<byte>)
    ensures a + (b + (c + d)) == (a + (b + c)) + d
  {
  }

  lemma StringsLength(p: Parts)
    ensures |Strings(p)| == 8 + |p.name| + |p.desc| + |p.invImg| + |p.wieldImg|
  {
    hide PutU16;
  }

  lemma StdShape(p: Parts)
    ensures EncodeItem(p.(capabs := STD_CAPS)) == Prefix(p) + PutU16(17) + STD_CAPS + p.tail
  {
    hide PutU16, PutBytes16;
    var q := p.(capabs := STD_CAPS);
    assert Strings(q) == Strings(p);
    StdCapsPrefixed();
    assert Prefix(p) + PutU16(17) + STD_CAPS + p.tail == Prefix(p) + ((PutU16(17) + STD_CAPS) + p.tail);
  }

  lemma StdCapsPrefixed()
    ensures PutBytes16(STD_CAPS) == PutU16(17) + STD_CAPS
  {
  }

  /** The reads of rmToolCapabs: where the capabilities start, and their length. */
  method FindCapabs(d: seq<byte>) returns (si: nat, capab: seq<byte>)
    ensures si == 28 + |ParseItem(d).name| + |ParseItem(d).desc| + |ParseItem(d).invImg| + |ParseItem(d).wieldImg|
    ensures capab == ParseItem(d).capabs
  {
    hide ParseItem, Bytes16At, Bytes16End;
    var rd := new Reader(d);
    rd.Seek(2);
    var itemName := rd.ReadBytes16();
    var desc := rd.ReadBytes16();
    var invImg := rd.ReadBytes16();
    var wieldImg := rd.ReadBytes16();
    rd.Seek(rd.pos + 16);
    capab := rd.ReadBytes16();
    PartsOf(d);
    si := 28 + |itemName| + |desc| + |invImg| + |wieldImg|;
  }

  /** In place on the length field; the splice reuses the buffer when it is large enough, which no caller
      can observe. */
  method RmToolCapabs(def: array<byte>) returns (r: seq<byte>)
    requires WellFormedItem(def[..])
    modifies def
    ensures r == StdCaps(old(def[..]))
  {
    hide ParseItem, WellFormedItem, StdCaps, Strings, STD_CAPS;
    ghost var d := def[..];
    var si, capab := FindCapabs(def[..]);
    SpliceShape(d);
    def[si - 2], def[si - 1] := 0, 17;
    assert PutU16(17) == [0, 17];
    assert def[..si] == d[..si - 2] + [0, 17];
    assert def[si + |capab|..] == d[si + |capab|..];
    r := def[..si] + STD_CAPS + def[si + |capab|..];
  }

  lemma PartsOf(d: seq<byte>)
    ensures var p := ParseItem(d);
      && p.name == Bytes16At(d, 2)
      && p.desc == Bytes16At(d, Bytes16End(d, 2))
      && p.invImg == Bytes16At(d, Bytes16End(d, Bytes16End(d, 2)))
      && p.wieldImg == Bytes16At(d, Bytes16End(d, Bytes16End(d, Bytes16End(d, 2))))
      && p.capabs == Bytes16At(d, Bytes16End(d, Bytes16End(d, Bytes16End(d, Bytes16End(d, 2)))) + 16)
  {
  }

  /** On every whole definition only the capability block changes, the length field matches, and doing it
      twice changes nothing. */
  lemma StdCapsParses(p: Parts)
    requires ValidParts(p)
    ensures var d := EncodeItem(p);
      && ParseItem(StdCaps(d)) == p.(capabs := STD_CAPS)
      && WellFormedItem(StdCaps(d))
      && StdCaps(StdCaps(d)) == StdCaps(d)
  {
    hide ParseItem, EncodeItem;
    ItemRoundTrip(p);
    ItemRoundTrip(p.(capabs := STD_CAPS));
  }

  // ----- the hand of a server -----

  /** "multiserver:hand_" */
  const HAND_PREFIX: seq<byte> := [109, 117, 108, 116, 105, 115, 101, 114, 118, 101, 114, 58, 104, 97, 110, 100, 95]

  function HandName(srv: Server): Name {
    HAND_PREFIX + srv
  }

  /** The empty-named item with tool capabilities. */
  predicate IsHand(d: seq<byte>) {
    U16At(d, CapabPos(d)) > 0 && ItemName(d) == []
  }

  lemma HandIsLong(d: seq<byte>)
    requires IsHand(d)
    ensures |d| > 18
  {
  }

  /** def[:2], the new name, def[4:]. */
  function Renamed(srv: Server, d: seq<byte>): seq<byte>
    requires |d| >= 4
  {
    d[..2] + PutBytes16(HandName(srv)) + d[4..]
  }

  /** Renaming a hand changes its name and nothing else. */
  lemma RenamedParses(srv: Server, p: Parts)
    requires ValidParts(p) && p.name == [] && p.capabs != [] && |HandName(srv)| < 0x1_0000
    ensures var d := EncodeItem(p);
      && IsHand(d) && |d| >= 4
      && ParseItem(Renamed(srv, d)) == p.(name := HandName(srv))
      && WellFormedItem(Renamed(srv, d))
  {
    hide HandName, PutU16, ParseItem, U16At, ItemName;
    var d, q := EncodeItem(p), p.(name := HandName(srv));
    ItemRoundTrip(p);
    PartsOf(d);
    CapabLength(p);
    EmptyName(p);
    assert d[..2] == p.head && d[4..] == AfterName(p);
    NamedShape(q);
    assert Renamed(srv, d) == EncodeItem(q);
    ItemRoundTrip(q);
  }

  lemma CapabLength(p: Parts)
    requires ValidParts(p)
    ensures U16At(EncodeItem(p), CapabPos(EncodeItem(p))) == |p.capabs|
    ensures ItemName(EncodeItem(p)) == p.name
  {
    hide U16At, Bytes16End;
    ItemRoundTrip(p);
    PartsOf(EncodeItem(p));
    assert ParseItem(EncodeItem(p)).capabs == p.capabs;
  }

  /** A whole definition is a hand if and only if its name is empty and its capabilities are not. */
  lemma IsHandIff(p: Parts)
    requires ValidParts(p)
    ensures IsHand(EncodeItem(p)) <==> p.name == [] && p.capabs != []
  {
    hide U16At, EncodeItem, ItemName, CapabPos;
    CapabLength(p);
  }

  function AfterName(p: Parts): seq<byte> {
    PutBytes16(p.desc) + (PutBytes16(p.invImg) + PutBytes16(p.wieldImg))
    + (p.fixed + (PutBytes16(p.capabs) + p.tail))
  }

  lemma NamedShape(p: Parts)
    ensures EncodeItem(p) == p.head + PutBytes16(p.name) + AfterName(p)
  {
    hide PutBytes16;
  }

  lemma EmptyName(p: Parts)
    requires ValidParts(p) && p.name == []
    ensures EncodeItem(p) == p.head + PutBytes16([]) + AfterName(p)
    ensures |p.head + PutBytes16([])| == 4
  {
    NamedShape(p);
  }

  // ----- merging -----

  datatype ItemDef = ItemDef(name: Name, data: seq<byte>)
  datatype Alias = Alias(name: Name, convert: Name)
  type Aliases = map<Name, Name>

  /** A definition with the server it came from. */
  datatype Cand = Cand(srv: Server, def: seq<byte>)

  /** What the merge would list for it. */
  function Item(c: Cand): ItemDef {
    if IsHand(c.def) then
      HandIsLong(c.def);
      ItemDef(HandName(c.srv), Renamed(c.srv, c.def))
    else ItemDef(ItemName(c.def), c.def)
  }

  predicate Listed(items: seq<ItemDef>, n: Name) {
    exists k :: 0 <= k < |items| && items[k].name == n
  }

  /** Hands are always listed, other items when their name is new. */
  function Push(items: seq<ItemDef>, c: Cand): seq<ItemDef> {
    if !IsHand(c.def) && Listed(items, ItemName(c.def)) then items else items + [Item(c)]
  }

  function PushAll(cs: seq<Cand>): seq<ItemDef> {
    if cs == [] then [] else Push(PushAll(cs[..|cs| - 1]), cs[|cs| - 1])
  }

  /** The first hand met. */
  function FirstHand(cs: seq<Cand>): seq<byte> {
    if cs == [] then []
    else
      var h := FirstHand(cs[..|cs| - 1]);
      if h == [] && IsHand(cs[|cs| - 1].def) then cs[|cs| - 1].def else h
  }

  /** The parsed capabilities of each server's hand; a later hand replaces an earlier one. */
  function HandCapabs(cs: seq<Cand>): map<Server, K.ToolCapabs> {
    if cs == [] then map[]
    else
      var m, c := HandCapabs(cs[..|cs| - 1]), cs[|cs| - 1];
      if IsHand(c.def) then m[c.srv := K.CapabsOf(ParseItem(c.def).capabs)] else m
  }

  /** The merged list. */
  function Merged(cs: seq<Cand>): seq<ItemDef> {
    PushAll(cs) + if FirstHand(cs) == [] then [] else [ItemDef([], StdCaps(FirstHand(cs)))]
  }

  /** An alias keeps its first non-empty target. */
  function AddAlias(m: Aliases, a: Alias): Aliases {
    if (if a.name in m then m[a.name] else []) == [] then m[a.name := a.convert] else m
  }

  function AliasMap(al: seq<Alias>): Aliases {
    if al == [] then map[] else AddAlias(AliasMap(al[..|al| - 1]), al[|al| - 1])
  }

  // ----- what the merged list is -----

  /** The candidate at k is listed: a hand always, another item when it is the first of its name. */
  ghost predicate Kept(cs: seq<Cand>, k: nat)
    requires k < |cs|
  {
    IsHand(cs[k].def) || forall j :: 0 <= j < k ==> Item(cs[j]).name != Item(cs[k]).name
  }

  lemma {:induction false} ListedIff(cs: seq<Cand>, n: Name)
    ensures Listed(PushAll(cs), n) <==> exists k :: 0 <= k < |cs| && Item(cs[k]).name == n
  {
    hide Item, IsHand;
    if cs != [] {
      var front, c := cs[..|cs| - 1], cs[|cs| - 1];
      ListedIff(front, n);
      ItemOf(c);
      ListedIff(front, ItemName(c.def));
      PushListed(PushAll(front), c, n);
      if k: int :| 0 <= k < |front| && Item(front[k]).name == n {
        assert cs[k] == front[k];
      }
      if k: int :| 0 <= k < |cs| && Item(cs[k]).name == n {
        assert k < |front| ==> front[k] == cs[k];
      }
    }
  }

  lemma ItemOf(c: Cand)
    ensures !IsHand(c.def) ==> Item(c) == ItemDef(ItemName(c.def), c.def)
  {
  }

  lemma PushListed(items: seq<ItemDef>, c: Cand, n: Name)
    ensures Listed(Push(items, c), n) <==> Listed(items, n) || Item(c).name == n
  {
    hide Item, IsHand;
    ItemOf(c);
    var r := Push(items, c);
    if Listed(items, n) {
      var k :| 0 <= k < |items| && items[k].name == n;
      assert r[k].name == n;
    }
    if Item(c).name == n {
      if |r| > |items| {
        assert r[|items|].name == n;
      }
    }
  }

  lemma KeptFront(front: seq<Cand>, c: Cand, k: nat)
    requires k < |front|
    ensures (front + [c])[k] == front[k] && (Kept(front, k) <==> Kept(front + [c], k))
  {
    hide Item, IsHand;
    assert forall j :: 0 <= j < k ==> front[j] == (front + [c])[j];
  }

  lemma KeptLast(front: seq<Cand>, c: Cand)
    ensures Push(PushAll(front), c) == PushAll(front) + if Kept(front + [c], |front|) then [Item(c)] else []
  {
    hide Item, IsHand, Listed, PushAll;
    var cs := front + [c];
    ListedIff(front, ItemName(c.def));
    ItemOf(c);
    assert forall j :: 0 <= j < |front| ==> cs[j] == front[j];
  }

  ghost predicate KeptItem(cs: seq<Cand>, it: ItemDef) {
    exists k :: 0 <= k < |cs| && Item(cs[k]) == it && Kept(cs, k)
  }

  lemma KeptItemMore(front: seq<Cand>, c: Cand, it: ItemDef)
    ensures KeptItem(front + [c], it) <==> KeptItem(front, it) || (Kept(front + [c], |front|) && Item(c) == it)
  {
    hide Item, IsHand, Kept;
    var cs := front + [c];
    if KeptItem(front, it) {
      var k :| 0 <= k < |front| && Item(front[k]) == it && Kept(front, k);
      KeptFront(front, c, k);
      assert Item(cs[k]) == it;
    }
    if KeptItem(cs, it) {
      var k :| 0 <= k < |cs| && Item(cs[k]) == it && Kept(cs, k);
      if k < |front| {
        KeptFront(front, c, k);
      }
    }
    assert cs[|front|] == c;
  }

  /** The list holds exactly the kept candidates: of every name that is not a hand, the bytes of the
      server processed first, and of every server's hand its renamed definition. */
  lemma {:induction false} MergedContents(cs: seq<Cand>, it: ItemDef)
    ensures it in PushAll(cs) <==> KeptItem(cs, it)
  {
    hide Item, IsHand, Kept, Push, KeptItem;
    if cs != [] {
      var front, c := cs[..|cs| - 1], cs[|cs| - 1];
      assert cs == front + [c];
      MergedContents(front, it);
      KeptLast(front, c);
      KeptItemMore(front, c, it);
    } else {
      assert PushAll([]) == [];
      NothingKept(it);
    }
  }

  lemma NothingKept(it: ItemDef)
    ensures !KeptItem([], it)
  {
  }

  function Names(items: seq<ItemDef>): (ns: seq<Name>)
    ensures |ns| == |items|
  {
    seq(|items|, k requires 0 <= k < |items| => items[k].name)
  }

  /** A hand whose name was met before. */
  ghost predicate Clash(cs: seq<Cand>, k: nat)
    requires k < |cs|
  {
    IsHand(cs[k].def) && exists j :: 0 <= j < k && Item(cs[j]).name == Item(cs[k]).name
  }

  ghost predicate NoClash(cs: seq<Cand>) {
    forall k :: 0 <= k < |cs| ==> !Clash(cs, k)
  }

  lemma NoClashMore(front: seq<Cand>, c: Cand)
    ensures NoClash(front + [c]) <==> NoClash(front) && !Clash(front + [c], |front|)
  {
    hide Item, IsHand;
    var cs := front + [c];
    forall k | 0 <= k < |front| ensures Clash(front, k) <==> Clash(cs, k) {
      assert forall j :: 0 <= j <= k ==> front[j] == cs[j];
    }
  }

  lemma DistinctNamesMore(items: seq<ItemDef>, it: ItemDef)
    ensures Distinct(Names(items + [it])) <==> Distinct(Names(items)) && !Listed(items, it.name)
  {
    var a, b := Names(items), Names(items + [it]);
    assert b == a + [it.name];
    if Distinct(b) {
      forall k | 0 <= k < |items| ensures items[k].name != it.name {
        assert b[k] != b[|items|];
      }
      forall i, j | 0 <= i < j < |a| ensures a[i] != a[j] {
        assert b[i] != b[j];
      }
    }
    if Distinct(a) && !Listed(items, it.name) {
      forall i, j | 0 <= i < j < |b| ensures b[i] != b[j] {
        if j == |items| {
          assert items[i].name != it.name;
        }
      }
    }
  }

  lemma {:induction false} DistinctIffNoClash(cs: seq<Cand>)
    ensures Distinct(Names(PushAll(cs))) <==> NoClash(cs)
  {
    hide Item, IsHand, Listed, NoClash, Distinct, Names;
    if cs == [] {
      EmptyDistinct();
    } else {
      var front, c := cs[..|cs| - 1], cs[|cs| - 1];
      assert cs == front + [c];
      DistinctIffNoClash(front);
      NoClashMore(front, c);
      ListedIff(front, Item(c).name);
      ItemOf(c);
      assert forall j :: 0 <= j < |front| ==> cs[j] == front[j];
      DistinctNamesMore(PushAll(front), Item(c));
    }
  }

  lemma EmptyDistinct()
    ensures Distinct(Names([])) && NoClash([])
  {
  }

  /** The names of the merged list are pairwise distinct exactly when no hand comes after an item that
      already has its name (a second hand of the server, or an item that took the reserved name) and no
      empty-named item without capabilities stands beside the common hand. */
  lemma NamesDistinctIff(cs: seq<Cand>)
    ensures Distinct(Names(Merged(cs))) <==>
      NoClash(cs) && (FirstHand(cs) != [] ==> forall k :: 0 <= k < |cs| ==> Item(cs[k]).name != [])
  {
    hide Item, IsHand, Listed, NoClash, Distinct, Names, StdCaps;
    DistinctIffNoClash(cs);
    ListedIff(cs, []);
    if FirstHand(cs) != [] {
      DistinctNamesMore(PushAll(cs), ItemDef([], StdCaps(FirstHand(cs))));
    } else {
      assert Merged(cs) == PushAll(cs);
    }
  }

  ghost predicate NoHand(cs: seq<Cand>) {
    forall k :: 0 <= k < |cs| ==> !IsHand(cs[k].def)
  }

  /** The hand h comes from the first candidate that is one. */
  ghost predicate FirstHandAt(cs: seq<Cand>, k: nat, h: seq<byte>) {
    k < |cs| && IsHand(cs[k].def) && cs[k].def == h && NoHand(cs[..k])
  }

  lemma {:induction false} FirstHandIsFirst(cs: seq<Cand>)
    ensures FirstHand(cs) == [] <==> NoHand(cs)
    ensures FirstHand(cs) != [] ==> exists k: nat :: FirstHandAt(cs, k, FirstHand(cs))
  {
    hide IsHand;
    if cs != [] {
      var front, c := cs[..|cs| - 1], cs[|cs| - 1];
      FirstHandIsFirst(front);
      assert forall j :: 0 <= j < |front| ==> front[j] == cs[j];
      if FirstHand(front) != [] {
        var k: nat :| FirstHandAt(front, k, FirstHand(front));
        assert front[..k] == cs[..k];
        assert FirstHandAt(cs, k, FirstHand(cs));
      } else if IsHand(c.def) {
        HandIsLong(c.def);
        assert FirstHandAt(cs, |front|, FirstHand(cs));
      }
    }
  }

  // ----- aliases -----

  ghost predicate HasAlias(al: seq<Alias>, n: Name) {
    exists k :: 0 <= k < |al| && al[k].name == n
  }

  /** The first non-empty target given for a name. */
  function FirstTarget(al: seq<Alias>, n: Name): Name {
    if al == [] then []
    else
      var t := FirstTarget(al[..|al| - 1], n);
      if t == [] && al[|al| - 1].name == n then al[|al| - 1].convert else t
  }

  lemma {:induction false} AliasMapContents(al: seq<Alias>, n: Name)
    ensures n in AliasMap(al) <==> HasAlias(al, n)
    ensures n in AliasMap(al) ==> AliasMap(al)[n] == FirstTarget(al, n)
    ensures n !in AliasMap(al) ==> FirstTarget(al, n) == []
  {
    if al != [] {
      var front, a := al[..|al| - 1], al[|al| - 1];
      AliasMapContents(front, n);
      assert forall k :: 0 <= k < |front| ==> front[k] == al[k];
    }
  }

  // ----- the manager format -----

  function ItemsEnd(m: seq<byte>, pos: nat, n: nat): nat {
    if n == 0 then pos else Bytes16End(m, ItemsEnd(m, pos, n - 1))
  }

  function ParseItems(m: seq<byte>, pos: nat, n: nat): (r: seq<seq<byte>>)
    ensures |r| == n
  {
    if n == 0 then [] else ParseItems(m, pos, n - 1) + [Bytes16At(m, ItemsEnd(m, pos, n - 1))]
  }

  function AliasEnd(m: seq<byte>, pos: nat): nat {
    Bytes16End(m, Bytes16End(m, pos))
  }

  function AliasAt(m: seq<byte>, pos: nat): Alias {
    Alias(Bytes16At(m, pos), Bytes16At(m, Bytes16End(m, pos)))
  }

  function AliasesEnd(m: seq<byte>, pos: nat, n: nat): nat {
    if n == 0 then pos else AliasEnd(m, AliasesEnd(m, pos, n - 1))
  }

  function ParseAliases(m: seq<byte>, pos: nat, n: nat): (r: seq<Alias>)
    ensures |r| == n
  {
    if n == 0 then [] else ParseAliases(m, pos, n - 1) + [AliasAt(m, AliasesEnd(m, pos, n - 1))]
  }

  datatype Manager = Manager(items: seq<seq<byte>>, aliases: seq<Alias>)

  function ParseManager(m: seq<byte>): Manager {
    var start := Next(m, 1, 2);
    var count := U16At(m, 1);
    var mid := ItemsEnd(m, start, count);
    Manager(ParseItems(m, start, count), ParseAliases(m, Next(m, mid, 2), U16At(m, mid)))
  }

  function EncodeItems(items: seq<ItemDef>): seq<byte> {
    if items == [] then [] else EncodeItems(items[..|items| - 1]) + PutBytes16(items[|items| - 1].data)
  }

  function EncodeAlias(a: Alias): seq<byte> {
    PutBytes16(a.name) + PutBytes16(a.convert)
  }

  function EncodeAliases(al: seq<Alias>): seq<byte> {
    if al == [] then [] else EncodeAliases(al[..|al| - 1]) + EncodeAlias(al[|al| - 1])
  }

  function EncodeManager(items: seq<ItemDef>, al: seq<Alias>): seq<byte> {
    [0] + (PutU16(|items| % 0x1_0000) + (EncodeItems(items) + (PutU16(|al| % 0x1_0000) + EncodeAliases(al))))
  }

  function Datas(items: seq<ItemDef>): (r: seq<seq<byte>>)
    ensures |r| == |items|
  {
    seq(|items|, k requires 0 <= k < |items| => items[k].data)
  }

  lemma {:induction false} ParseEncodedItems(m: seq<byte>, pos: nat, items: seq<ItemDef>)
    requires (forall k :: 0 <= k < |items| ==> |items[k].data| < 0x1_0000) && At(m, pos, EncodeItems(items))
    ensures ParseItems(m, pos, |items|) == Datas(items)
    ensures ItemsEnd(m, pos, |items|) == pos + |EncodeItems(items)|
  {
    hide Bytes16At, Bytes16End, PutBytes16;
    if items != [] {
      var front, last := items[..|items| - 1], items[|items| - 1];
      AtSplit(m, pos, EncodeItems(front), PutBytes16(last.data));
      ParseEncodedItems(m, pos, front);
      ReadBackBytes16(m, pos + |EncodeItems(front)|, last.data);
      PutBytes16Length(last.data);
      assert Datas(items) == Datas(front) + [last.data];
    }
  }

  ghost predicate AliasesFit(al: seq<Alias>) {
    forall k :: 0 <= k < |al| ==> |al[k].name| < 0x1_0000 && |al[k].convert| < 0x1_0000
  }

  lemma {:induction false} ParseEncodedAliases(m: seq<byte>, pos: nat, al: seq<Alias>)
    requires AliasesFit(al) && At(m, pos, EncodeAliases(al))
    ensures ParseAliases(m, pos, |al|) == al
    ensures AliasesEnd(m, pos, |al|) == pos + |EncodeAliases(al)|
  {
    hide Bytes16At, Bytes16End, PutBytes16;
    if al != [] {
      var front, last := al[..|al| - 1], al[|al| - 1];
      AtSplit(m, pos, EncodeAliases(front), EncodeAlias(last));
      ParseEncodedAliases(m, pos, front);
      var p := pos + |EncodeAliases(front)|;
      AtSplit(m, p, PutBytes16(last.name), PutBytes16(last.convert));
      ReadBackBytes16(m, p, last.name);
      PutBytes16Length(last.name);
      PutBytes16Length(last.convert);
      ReadBackBytes16(m, p + 2 + |last.name|, last.convert);
    }
  }

  ghost predicate ManagerFits(items: seq<ItemDef>, al: seq<Alias>) {
    && |items| < 0x1_0000 && |al| < 0x1_0000 && AliasesFit(al)
    && forall k :: 0 <= k < |items| ==> |items[k].data| < 0x1_0000
  }

  /** What the merge's own reader gets out of an emitted manager is what was put in. */
  lemma ManagerRoundTrip(items: seq<ItemDef>, al: seq<Alias>)
    requires ManagerFits(items, al)
    ensures ParseManager(EncodeManager(items, al)) == Manager(Datas(items), al)
  {
    hide ParseItems, ParseAliases, ItemsEnd, EncodeItems, EncodeAliases, AliasesFit, PutU16, U16At, Next;
    var m := EncodeManager(items, al);
    var tail := PutU16(|al|) + EncodeAliases(al);
    assert At(m, 0, m);
    AtSplit(m, 0, [0], PutU16(|items|) + (EncodeItems(items) + tail));
    AtSplit(m, 1, PutU16(|items|), EncodeItems(items) + tail);
    AtSplit(m, 3, EncodeItems(items), tail);
    var mid := 3 + |EncodeItems(items)|;
    AtSplit(m, mid, PutU16(|al|), EncodeAliases(al));
    ReadBackU16(m, 1, |items|);
    ParseEncodedItems(m, 3, items);
    ReadBackU16(m, mid, |al|);
    ParseEncodedAliases(m, mid + 2, al);
  }

  // ----- the merge -----

  function CandsOf(srv: Server, defs: seq<seq<byte>>): (cs: seq<Cand>)
    ensures |cs| == |defs|
  {
    seq(|defs|, k requires 0 <= k < |defs| => Cand(srv, defs[k]))
  }

  /** What a compressed manager holds. */
  ghost function ManagerOf(z: Codec, m: seq<byte>): Manager {
    if z.inflate(m).Some? then ParseManager(z.inflate(m).value.data) else Manager([], [])
  }

  /** The definitions in the order in which the merge meets them. */
  ghost function AllCands(z: Codec, mgrs: map<Server, seq<byte>>, order: seq<Server>): seq<Cand>
    requires forall k :: 0 <= k < |order| ==> order[k] in mgrs
  {
    if order == [] then []
    else
      var last := order[|order| - 1];
      AllCands(z, mgrs, order[..|order| - 1]) + CandsOf(last, ManagerOf(z, mgrs[last]).items)
  }

  ghost function AllAliases(z: Codec, mgrs: map<Server, seq<byte>>, order: seq<Server>): seq<Alias>
    requires forall k :: 0 <= k < |order| ==> order[k] in mgrs
  {
    if order == [] then []
    else AllAliases(z, mgrs, order[..|order| - 1]) + ManagerOf(z, mgrs[order[|order| - 1]]).aliases
  }

  ghost predicate IsFirstHand(defs: seq<seq<byte>>, k: nat) {
    k < |defs| && IsHand(defs[k]) && forall j :: 0 <= j < k ==> !IsHand(defs[j])
  }

  ghost predicate GoodHands(defs: seq<seq<byte>>) {
    forall k: nat :: IsFirstHand(defs, k) ==> WellFormedItem(defs[k])
  }

  /** Every server's first hand is a whole definition, since it may become the common one; nothing is asked
      of its other items. */
  ghost predicate GoodManagers(z: Codec, mgrs: map<Server, seq<byte>>) {
    forall s :: s in mgrs ==> GoodHands(ManagerOf(z, mgrs[s]).items)
  }

  /** The pairs of an alias map, in any order, each once. */
  ghost predicate ListsAliases(al: seq<Alias>, m: Aliases) {
    && (forall k :: 0 <= k < |al| ==> al[k].name in m && m[al[k].name] == al[k].convert)
    && (forall j, k :: 0 <= j < k < |al| ==> al[j].name != al[k].name)
    && (forall n :: n in m ==> HasAlias(al, n))
  }

  /** The same, with the names in rest still to come. */
  ghost predicate ListsSome(al: seq<Alias>, m: Aliases, rest: set<Name>) {
    ListsAliases(al, map n | n in m && n !in rest :: m[n])
  }

  lemma ListsMore(al: seq<Alias>, m: Aliases, rest: set<Name>, n: Name)
    requires ListsSome(al, m, rest) && n in m && n in rest
    ensures ListsSome(al + [Alias(n, m[n])], m, rest - {n})
  {
    var al' := al + [Alias(n, m[n])];
    forall n' | n' in m && n' !in rest - {n} ensures HasAlias(al', n') {
      if n' == n {
        assert al'[|al|].name == n;
      } else {
        assert HasAlias(al, n');
        var k :| 0 <= k < |al| && al[k].name == n';
        assert al'[k].name == n';
      }
    }
  }

  lemma ListsAll(al: seq<Alias>, m: Aliases)
    requires ListsSome(al, m, {})
    ensures ListsAliases(al, m)
  {
    assert (map n | n in m && n !in {} :: m[n]) == m;
  }

  lemma PushMore(cs: seq<Cand>, c: Cand)
    ensures PushAll(cs + [c]) == Push(PushAll(cs), c)
    ensures FirstHand(cs + [c]) == if FirstHand(cs) == [] && IsHand(c.def) then c.def else FirstHand(cs)
    ensures HandCapabs(cs + [c]) ==
      if IsHand(c.def) then HandCapabs(cs)[c.srv := K.CapabsOf(ParseItem(c.def).capabs)] else HandCapabs(cs)
  {
    hide IsHand, Push, K.CapabsOf, ParseItem;
    assert (cs + [c])[..|cs|] == cs;
  }

  lemma AliasMore(al: seq<Alias>, a: Alias)
    ensures AliasMap(al + [a]) == AddAlias(AliasMap(al), a)
  {
    assert (al + [a])[..|al|] == al;
  }

  lemma CandsMore(cs: seq<Cand>, srv: Server, m: seq<byte>, pos: nat, i: nat)
    ensures cs + CandsOf(srv, ParseItems(m, pos, i + 1))
         == (cs + CandsOf(srv, ParseItems(m, pos, i))) + [Cand(srv, Bytes16At(m, ItemsEnd(m, pos, i)))]
    ensures ItemsEnd(m, pos, i + 1) == Bytes16End(m, ItemsEnd(m, pos, i))
  {
    hide Bytes16At, Bytes16End;
  }

  lemma AliasesMore(al: seq<Alias>, m: seq<byte>, pos: nat, i: nat)
    ensures al + ParseAliases(m, pos, i + 1) == (al + ParseAliases(m, pos, i)) + [AliasAt(m, AliasesEnd(m, pos, i))]
    ensures AliasesEnd(m, pos, i + 1) == AliasEnd(m, AliasesEnd(m, pos, i))
  {
    hide AliasAt, AliasEnd;
  }

  method Lookup(items: seq<ItemDef>, n: Name) returns (found: bool)
    ensures found <==> Listed(items, n)
  {
    for k := 0 to |items|
      invariant forall j :: 0 <= j < k ==> items[j].name != n
    {
      if items[k].name == n {
        return true;
      }
    }
    return false;
  }

  /** What the item loop carries from round to round. */
  datatype Progress = Progress(items: seq<ItemDef>, hand: seq<byte>, capabs: map<Server, K.ToolCapabs>)

  function ProgressOf(cs: seq<Cand>): Progress {
    Progress(PushAll(cs), FirstHand(cs), HandCapabs(cs))
  }

  /** One round of the item loop. */
  method MergeItem(p0: Progress, srv: Server, def: seq<byte>, ghost cs: seq<Cand>) returns (p: Progress)
    requires p0 == ProgressOf(cs)
    ensures p == ProgressOf(cs + [Cand(srv, def)])
  {
    hide Fill, Next, U16At, Bytes16At, Bytes16End, PushAll, FirstHand, HandCapabs, Listed, K.CapabsOf, ParseItem;
    PushMore(cs, Cand(srv, def));
    p := p0;
    var dr := new Reader(def);
    dr.Seek(2);
    var itemName := dr.ReadBytes16();
    var desc := dr.ReadBytes16();
    var invImg := dr.ReadBytes16();
    var wieldImg := dr.ReadBytes16();
    dr.Seek(dr.pos + 16);
    CapabsRead(def);
    var capablen := dr.ReadUint16();
    var capab := dr.Read(capablen);
    if capablen > 0 && itemName == [] {
      var tcaps := K.ReadCapabs(capab);
      HandIsLong(def);
      if |p.hand| == 0 {
        p := p.(hand := def);
      }
      p := p.(capabs := p.capabs[srv := tcaps]);
      var def2 := def[..2] + PutBytes16(HAND_PREFIX + srv) + def[4 + |itemName|..];
      p := p.(items := p.items + [ItemDef(HAND_PREFIX + srv, def2)]);
      return;
    }
    var known := Lookup(p.items, itemName);
    if !known {
      p := p.(items := p.items + [ItemDef(itemName, def)]);
    }
  }

  lemma CapabsRead(d: seq<byte>)
    ensures Fill(d, Next(d, CapabPos(d), 2), U16At(d, CapabPos(d))) == ParseItem(d).capabs
  {
    hide Bytes16End, Fill, Next, U16At;
  }

  /** One server's manager. */
  method MergeServer(p0: Progress, aliases0: Aliases, srv: Server, buf: seq<byte>,
                     ghost cs: seq<Cand>, ghost al: seq<Alias>)
    returns (p: Progress, aliases: Aliases)
    requires p0 == ProgressOf(cs) && aliases0 == AliasMap(al)
    ensures p == ProgressOf(cs + CandsOf(srv, ParseManager(buf).items))
    ensures aliases == AliasMap(al + ParseManager(buf).aliases)
  {
    hide ProgressOf, AliasMap, Bytes16At, Bytes16End, U16At, Next, CandsOf, ParseItems, ParseAliases,
         ItemsEnd, AliasesEnd;
    p, aliases := p0, aliases0;
    var r := new Reader(buf);
    r.Seek(1);
    var count := r.ReadUint16();
    ghost var start := r.pos;
    NothingYet(cs, al, srv, buf, start);
    var i: nat := 0;
    while i < count
      invariant i <= count && r.data == buf && fresh(r) && r.pos == ItemsEnd(buf, start, i)
      invariant p == ProgressOf(cs + CandsOf(srv, ParseItems(buf, start, i)))
    {
      CandsMore(cs, srv, buf, start, i);
      var def := r.ReadBytes16();
      p := MergeItem(p, srv, def, cs + CandsOf(srv, ParseItems(buf, start, i)));
      i := i + 1;
    }
    var aliasCount := r.ReadUint16();
    ghost var astart := r.pos;
    NothingYet(cs, al, srv, buf, astart);
    i := 0;
    while i < aliasCount
      invariant i <= aliasCount && r.data == buf && fresh(r) && r.pos == AliasesEnd(buf, astart, i)
      invariant aliases == AliasMap(al + ParseAliases(buf, astart, i))
    {
      AliasesMore(al, buf, astart, i);
      var name := r.ReadBytes16();
      var convert := r.ReadBytes16();
      AliasMore(al + ParseAliases(buf, astart, i), Alias(name, convert));
      if (if name in aliases then aliases[name] else []) == [] {
        aliases := aliases[name := convert];
      }
      i := i + 1;
    }
  }

  lemma NothingYet(cs: seq<Cand>, al: seq<Alias>, srv: Server, m: seq<byte>, pos: nat)
    ensures ItemsEnd(m, pos, 0) == pos && AliasesEnd(m, pos, 0) == pos
    ensures cs + CandsOf(srv, ParseItems(m, pos, 0)) == cs && al + ParseAliases(m, pos, 0) == al
  {
  }

  lemma {:induction false} FirstHandConcat(xs: seq<Cand>, ys: seq<Cand>)
    ensures FirstHand(xs + ys) == if FirstHand(xs) == [] then FirstHand(ys) else FirstHand(xs)
    decreases |ys|
  {
    hide IsHand;
    if ys == [] {
      assert xs + ys == xs;
    } else {
      var front, c := ys[..|ys| - 1], ys[|ys| - 1];
      FirstHandConcat(xs, front);
      assert (xs + ys)[..|xs + ys| - 1] == xs + front;
    }
  }

  /** The common hand is a whole definition. */
  ghost predicate GoodCands(cs: seq<Cand>) {
    FirstHand(cs) != [] ==> WellFormedItem(FirstHand(cs)) && |FirstHand(cs)| >= 4
  }

  lemma ServerGood(srv: Server, defs: seq<seq<byte>>)
    requires GoodHands(defs)
    ensures GoodCands(CandsOf(srv, defs))
  {
    hide IsHand, WellFormedItem, FirstHand;
    var cs := CandsOf(srv, defs);
    FirstHandIsFirst(cs);
    if FirstHand(cs) != [] {
      var k: nat :| FirstHandAt(cs, k, FirstHand(cs));
      assert forall j :: 0 <= j < k ==> cs[..k][j].def == defs[j];
      assert IsFirstHand(defs, k);
      HandIsLong(defs[k]);
    }
  }

  lemma {:induction false} AllCandsGood(z: Codec, mgrs: map<Server, seq<byte>>, order: seq<Server>)
    requires GoodManagers(z, mgrs) && forall k :: 0 <= k < |order| ==> order[k] in mgrs
    ensures GoodCands(AllCands(z, mgrs, order))
  {
    hide FirstHand, WellFormedItem, ManagerOf, CandsOf, GoodHands;
    if order == [] {
      FirstHandIsFirst([]);
    } else {
      var front, last := order[..|order| - 1], order[|order| - 1];
      AllCandsGood(z, mgrs, front);
      ServerGood(last, ManagerOf(z, mgrs[last]).items);
      FirstHandConcat(AllCands(z, mgrs, front), CandsOf(last, ManagerOf(z, mgrs[last]).items));
    }
  }

  lemma OrderMore(z: Codec, mgrs: map<Server, seq<byte>>, order: seq<Server>, srv: Server)
    requires srv in mgrs && forall k :: 0 <= k < |order| ==> order[k] in mgrs
    ensures AllCands(z, mgrs, order + [srv]) == AllCands(z, mgrs, order) + CandsOf(srv, ManagerOf(z, mgrs[srv]).items)
    ensures AllAliases(z, mgrs, order + [srv]) == AllAliases(z, mgrs, order) + ManagerOf(z, mgrs[srv]).aliases
  {
    hide ManagerOf, CandsOf;
    assert (order + [srv])[..|order|] == order;
  }

  /** The outcome of a merge over the servers in the given order: the published blob holds the merged
      list and the merged aliases. */
  ghost predicate Merges(z: Codec, mgrs: map<Server, seq<byte>>, order: seq<Server>, blob: seq<byte>, al: seq<Alias>) {
    && Enumerates(order, mgrs.Keys)
    && ListsAliases(al, AliasMap(AllAliases(z, mgrs, order)))
    && blob == z.deflate(EncodeManager(Merged(AllCands(z, mgrs, order)), al))
  }

  /** The aliases in the order of a map iteration. */
  method EmitAliases(aliases: Aliases) returns (bytes: seq<byte>)
    ensures exists al :: ListsAliases(al, aliases) && bytes == EncodeAliases(al)
  {
    hide PutU16, EncodeAliases, PutBytes16, ListsSome, ListsAliases, EncodeAlias;
    bytes := [];
    ghost var al: seq<Alias> := [];
    NoAliases(aliases);
    var rest := aliases.Keys;
    while rest != {}
      invariant rest <= aliases.Keys && bytes == EncodeAliases(al) && ListsSome(al, aliases, rest)
    {
      var name :| name in rest;
      var convert := aliases[name];
      ghost var a := Alias(name, convert);
      EncodeAliasMore(al, a);
      PrefixedAlias(a);
      ListsMore(al, aliases, rest, name);
      bytes := bytes + (PutU16(|name| % 0x1_0000) + name + (PutU16(|convert| % 0x1_0000) + convert));
      al := al + [a];
      rest := rest - {name};
    }
    ListsAll(al, aliases);
  }

  lemma NoAliases(m: Aliases)
    ensures ListsSome([], m, m.Keys) && EncodeAliases([]) == []
  {
  }

  lemma PrefixedAlias(a: Alias)
    ensures PutU16(|a.name| % 0x1_0000) + a.name + (PutU16(|a.convert| % 0x1_0000) + a.convert) == EncodeAlias(a)
  {
    hide PutU16;
  }

  lemma EncodeAliasMore(al: seq<Alias>, a: Alias)
    ensures EncodeAliases(al + [a]) == EncodeAliases(al) + EncodeAlias(a)
  {
    hide EncodeAlias;
    assert (al + [a])[..|al|] == al;
  }

  method EmitItems(items: seq<ItemDef>) returns (bytes: seq<byte>)
    ensures bytes == EncodeItems(items)
  {
    hide PutU16;
    bytes := [];
    for i := 0 to |items|
      invariant bytes == EncodeItems(items[..i])
    {
      assert items[..i + 1][..i] == items[..i];
      bytes := bytes + (PutU16(|items[i].data| % 0x1_0000) + items[i].data);
    }
    assert items[..|items|] == items;
  }

  lemma {:induction false} DistinctAliasCount(al: seq<Alias>, m: Aliases)
    requires ListsAliases(al, m)
    ensures |al| == |m|
  {
    var ns := seq(|al|, k requires 0 <= k < |al| => al[k].name);
    DistinctSize(ns);
    assert forall k :: 0 <= k < |al| ==> ns[k] == al[k].name;
    assert (set n | n in ns) == m.Keys;
  }

  /** The globals itemdef and handcapabs. */
  class Multiplexer {
    var itemdef: seq<byte>
    var handcapabs: map<Server, K.ToolCapabs>

    constructor ()
      ensures itemdef == [] && handcapabs == map[]
    {
      itemdef := [];
      handcapabs := map[];
    }

    /** The loop over the servers, in any order; order lists those that were gone through. The hand
        capabilities are thrown away at the start even if the merge then fails. */
    method GoThrough(z: Codec, mgrs: map<Server, seq<byte>>)
      returns (ok: bool, p: Progress, aliases: Aliases, ghost order: seq<Server>)
      modifies this`handcapabs
      ensures ok <==> AllInflate(z, mgrs)
      ensures ok ==> Enumerates(order, mgrs.Keys)
      ensures Distinct(order) && forall s :: s in order ==> s in mgrs && z.inflate(mgrs[s]).Some?
      ensures p == ProgressOf(AllCands(z, mgrs, order)) && handcapabs == p.capabs
      ensures aliases == AliasMap(AllAliases(z, mgrs, order))
    {
      hide ProgressOf, AliasMap, AllCands, AllAliases, CandsOf, ParseManager;
      p, aliases := Progress([], [], map[]), map[];
      order := [];
      MergedNothing(z, mgrs);
      handcapabs := p.capabs;
      var srvs := mgrs.Keys;
      while srvs != {}
        invariant srvs <= mgrs.Keys && Enumerates(order, mgrs.Keys - srvs)
        invariant forall s :: s in order ==> s in mgrs && z.inflate(mgrs[s]).Some?
        invariant p == ProgressOf(AllCands(z, mgrs, order)) && handcapabs == p.capabs
        invariant aliases == AliasMap(AllAliases(z, mgrs, order))
      {
        var srv :| srv in srvs;
        if z.inflate(mgrs[srv]).None? {
          ok := false;
          return;
        }
        OrderMore(z, mgrs, order, srv);
        p, aliases := MergeServer(p, aliases, srv, z.inflate(mgrs[srv]).value.data,
                                  AllCands(z, mgrs, order), AllAliases(z, mgrs, order));
        handcapabs := p.capabs;
        order := order + [srv];
        srvs := srvs - {srv};
      }
      assert mgrs.Keys - srvs == mgrs.Keys;
      ok := true;
    }

    /** The common hand, and the new manager. */
    method Emit(z: Codec, p: Progress, aliases: Aliases, ghost cs: seq<Cand>) returns (ghost al: seq<Alias>)
      requires p == ProgressOf(cs) && GoodCands(cs)
      modifies this`itemdef
      ensures ListsAliases(al, aliases) && itemdef == z.deflate(EncodeManager(Merged(cs), al))
    {
      hide PushAll, FirstHand, HandCapabs, ListsAliases, EncodeItems, EncodeAliases, StdCaps, WellFormedItem, PutU16;
      var items, handDef := p.items, p.hand;
      if |handDef| >= 4 {
        var hand := new byte[|handDef|](k requires 0 <= k < |handDef| => handDef[k]);
        assert hand[..] == handDef;
        var handdata := RmToolCapabs(hand);
        items := items + [ItemDef([], handdata)];
      }
      assert items == Merged(cs);
      var allDefs := EmitItems(items);
      var allAliases := EmitAliases(aliases);
      al :| ListsAliases(al, aliases) && allAliases == EncodeAliases(al);
      DistinctAliasCount(al, aliases);
      itemdef := z.deflate([0] + (PutU16(|items| % 0x1_0000) + (allDefs
                   + (PutU16(|aliases| % 0x1_0000) + allAliases))));
    }

    /** mergeItemdefs. */
    method MergeItemdefs(z: Codec, mgrs: map<Server, seq<byte>>)
      returns (ok: bool, ghost order: seq<Server>, ghost al: seq<Alias>)
      requires GoodManagers(z, mgrs)
      modifies this
      ensures ok <==> AllInflate(z, mgrs)
      ensures !ok ==> itemdef == old(itemdef)
      ensures ok ==> Merges(z, mgrs, order, itemdef, al)
      ensures Distinct(order) && forall s :: s in order ==> s in mgrs && z.inflate(mgrs[s]).Some?
      ensures handcapabs == HandCapabs(AllCands(z, mgrs, order))
    {
      hide ProgressOf, AliasMap, AllCands, AllAliases, HandCapabs, GoodManagers, ListsAliases, EncodeManager, Merged,
           GoodCands, AllInflate, Distinct;
      var p, aliases;
      ok, p, aliases, order := GoThrough(z, mgrs);
      al := [];
      ProgressParts(AllCands(z, mgrs, order));
      if ok {
        AllCandsGood(z, mgrs, order);
        al := Emit(z, p, aliases, AllCands(z, mgrs, order));
      }
    }
  }

  lemma ProgressParts(cs: seq<Cand>)
    ensures ProgressOf(cs) == Progress(PushAll(cs), FirstHand(cs), HandCapabs(cs))
  {
  }

  lemma MergedNothing(z: Codec, mgrs: map<Server, seq<byte>>)
    ensures ProgressOf(AllCands(z, mgrs, [])) == Progress([], [], map[])
    ensures AliasMap(AllAliases(z, mgrs, [])) == map[]
  {
  }

  // ----- the merged list in terms of the managers -----

  /** The definitions of one server. */
  ghost function DefsOf(z: Codec, mgrs: map<Server, seq<byte>>, s: Server): seq<seq<byte>> {
    if s in mgrs then ManagerOf(z, mgrs[s]).items else []
  }

  /** The name under which a server's definition is listed. */
  function ListedName(s: Server, d: seq<byte>): Name {
    Item(Cand(s, d)).name
  }

  ghost predicate HasHand(z: Codec, mgrs: map<Server, seq<byte>>, s: Server) {
    exists k :: 0 <= k < |DefsOf(z, mgrs, s)| && IsHand(DefsOf(z, mgrs, s)[k])
  }

  /** No definition of the server's own comes before a hand under the hand's name. */
  ghost predicate OwnHandFree(z: Codec, mgrs: map<Server, seq<byte>>, s: Server) {
    var ds := DefsOf(z, mgrs, s);
    forall j, k :: 0 <= j < k < |ds| && IsHand(ds[k]) ==> ListedName(s, ds[j]) != HandName(s)
  }

  /** No definition of s has the name n. */
  ghost predicate NameFree(z: Codec, mgrs: map<Server, seq<byte>>, s: Server, n: Name) {
    forall d :: d in DefsOf(z, mgrs, s) ==> ListedName(s, d) != n
  }

  /** What the servers have to keep to: a hand's name is taken neither by an earlier definition of its own
      server nor by any definition of another, and where some server has a hand no definition is listed
      under the empty name. */
  ghost predicate NamesReserved(z: Codec, mgrs: map<Server, seq<byte>>) {
    && (forall s :: s in mgrs ==> OwnHandFree(z, mgrs, s))
    && (forall s, s' :: s in mgrs && s' in mgrs && s != s' && HasHand(z, mgrs, s) ==> NameFree(z, mgrs, s', HandName(s)))
    && (forall s, s' :: s in mgrs && s' in mgrs && HasHand(z, mgrs, s) ==> NameFree(z, mgrs, s', []))
  }

  lemma {:induction false} CandsAre(z: Codec, mgrs: map<Server, seq<byte>>, order: seq<Server>, c: Cand)
    requires forall k :: 0 <= k < |order| ==> order[k] in mgrs
    ensures c in AllCands(z, mgrs, order) <==> c.srv in order && c.def in DefsOf(z, mgrs, c.srv)
  {
    hide ManagerOf;
    if order != [] {
      var front, s := order[..|order| - 1], order[|order| - 1];
      assert order == front + [s];
      CandsAre(z, mgrs, front, c);
      var ds := ManagerOf(z, mgrs[s]).items;
      if c.srv == s && c.def in ds {
        var k :| 0 <= k < |ds| && ds[k] == c.def;
        assert CandsOf(s, ds)[k] == c;
      }
    }
  }

  lemma {:induction false} CandsConcat(z: Codec, mgrs: map<Server, seq<byte>>, a: seq<Server>, b: seq<Server>)
    requires forall k :: 0 <= k < |a + b| ==> (a + b)[k] in mgrs
    requires forall k :: 0 <= k < |a| ==> a[k] in mgrs
    requires forall k :: 0 <= k < |b| ==> b[k] in mgrs
    ensures AllCands(z, mgrs, a + b) == AllCands(z, mgrs, a) + AllCands(z, mgrs, b)
    decreases |b|
  {
    hide ManagerOf, CandsOf;
    if b == [] {
      assert a + b == a;
    } else {
      var front := b[..|b| - 1];
      assert (a + b)[..|a + b| - 1] == a + front;
      CandsConcat(z, mgrs, a, front);
    }
  }

  lemma CandsOne(z: Codec, mgrs: map<Server, seq<byte>>, s: Server)
    requires s in mgrs
    ensures AllCands(z, mgrs, [s]) == CandsOf(s, DefsOf(z, mgrs, s))
  {
    hide ManagerOf, CandsOf;
    assert AllCands(z, mgrs, []) == [];
    assert [s][..0] == [];
  }

  lemma NoClashConcat(xs: seq<Cand>, ys: seq<Cand>)
    ensures NoClash(xs + ys) <==> NoClash(xs) && NoClash(ys) && Apart(xs, ys)
  {
    hide Item, IsHand;
    var cs := xs + ys;
    forall k | 0 <= k < |xs| ensures Clash(cs, k) <==> Clash(xs, k) {
      assert forall j :: 0 <= j <= k ==> cs[j] == xs[j];
    }
    forall k | 0 <= k < |ys|
      ensures Clash(cs, |xs| + k) <==>
        Clash(ys, k) || (IsHand(ys[k].def) && exists j :: 0 <= j < |xs| && Item(xs[j]).name == Item(ys[k]).name)
    {
      ClashLater(xs, ys, k);
    }
    if NoClash(cs) {
      forall k | 0 <= k < |ys| ensures !Clash(ys, k) {
        assert !Clash(cs, |xs| + k);
      }
      forall j, k | 0 <= j < |xs| && 0 <= k < |ys| && IsHand(ys[k].def)
        ensures Item(xs[j]).name != Item(ys[k]).name
      {
        assert !Clash(cs, |xs| + k);
      }
    }
    if NoClash(xs) && NoClash(ys) && Apart(xs, ys) {
      forall k | 0 <= k < |cs| ensures !Clash(cs, k) {
        if k >= |xs| {
          assert !Clash(ys, k - |xs|);
        }
      }
    }
  }

  /** No hand of ys has a name of xs. */
  ghost predicate Apart(xs: seq<Cand>, ys: seq<Cand>) {
    forall j, k :: 0 <= j < |xs| && 0 <= k < |ys| && IsHand(ys[k].def) ==> Item(xs[j]).name != Item(ys[k]).name
  }

  lemma ClashLater(xs: seq<Cand>, ys: seq<Cand>, k: nat)
    requires k < |ys|
    ensures Clash(xs + ys, |xs| + k) <==>
      Clash(ys, k) || (IsHand(ys[k].def) && exists j :: 0 <= j < |xs| && Item(xs[j]).name == Item(ys[k]).name)
  {
    hide Item, IsHand;
    var cs := xs + ys;
    assert forall j :: 0 <= j < |xs| ==> cs[j] == xs[j];
    assert forall j :: 0 <= j < |ys| ==> cs[|xs| + j] == ys[j];
    if Clash(cs, |xs| + k) {
      var j :| 0 <= j < |xs| + k && Item(cs[j]).name == Item(cs[|xs| + k]).name;
      if j >= |xs| {
        assert ys[j - |xs|] == cs[j];
      }
    }
  }

  lemma OwnClash(z: Codec, mgrs: map<Server, seq<byte>>, s: Server)
    ensures NoClash(CandsOf(s, DefsOf(z, mgrs, s))) <==> OwnHandFree(z, mgrs, s)
  {
    hide IsHand, ItemName, HandName, Renamed, DefsOf;
    var ds := DefsOf(z, mgrs, s);
    var cs := CandsOf(s, ds);
    forall k | 0 <= k < |ds| && IsHand(ds[k]) ensures Item(cs[k]).name == HandName(s) {
      HandItem(cs[k]);
    }
    if NoClash(cs) {
      forall j, k | 0 <= j < k < |ds| && IsHand(ds[k]) ensures ListedName(s, ds[j]) != HandName(s) {
        assert !Clash(cs, k);
        assert Item(cs[j]).name == ListedName(s, ds[j]);
      }
    }
  }

  lemma HandItem(c: Cand)
    requires IsHand(c.def)
    ensures Item(c).name == HandName(c.srv)
  {
  }

  lemma {:induction false} ReservedNoClash(z: Codec, mgrs: map<Server, seq<byte>>, order: seq<Server>)
    requires NamesReserved(z, mgrs) && Distinct(order) && forall k :: 0 <= k < |order| ==> order[k] in mgrs
    ensures NoClash(AllCands(z, mgrs, order))
  {
    hide IsHand, Item, ManagerOf, NoClash, OwnHandFree, CandsOf;
    if order == [] {
      NothingClashes();
    } else {
      var front, s := order[..|order| - 1], order[|order| - 1];
      ReservedNoClash(z, mgrs, front);
      var xs, ys := AllCands(z, mgrs, front), CandsOf(s, DefsOf(z, mgrs, s));
      OwnClash(z, mgrs, s);
      forall c | c in xs ensures c.srv in front && c.srv in mgrs && c.def in DefsOf(z, mgrs, c.srv) {
        CandsAre(z, mgrs, front, c);
      }
      ReservedApart(z, mgrs, xs, s);
      NoClashConcat(xs, ys);
    }
  }

  lemma NothingClashes()
    ensures NoClash([])
  {
  }

  lemma ReservedApart(z: Codec, mgrs: map<Server, seq<byte>>, xs: seq<Cand>, s: Server)
    requires NamesReserved(z, mgrs) && s in mgrs
    requires forall c :: c in xs ==> c.srv in mgrs && c.srv != s && c.def in DefsOf(z, mgrs, c.srv)
    ensures Apart(xs, CandsOf(s, DefsOf(z, mgrs, s)))
  {
    hide IsHand, Item, DefsOf, OwnHandFree;
    var ds := DefsOf(z, mgrs, s);
    var ys := CandsOf(s, ds);
    forall j, k | 0 <= j < |xs| && 0 <= k < |ys| && IsHand(ys[k].def) ensures Item(xs[j]).name != Item(ys[k]).name {
      HandItem(ys[k]);
      assert IsHand(ds[k]);
      assert HasHand(z, mgrs, s);
      assert xs[j] in xs;
      assert NameFree(z, mgrs, xs[j].srv, HandName(s));
      assert ListedName(xs[j].srv, xs[j].def) == Item(xs[j]).name;
    }
  }

  /** The last hand of a server. */
  ghost predicate LastHandAt(ds: seq<seq<byte>>, k: nat) {
    k < |ds| && IsHand(ds[k]) && forall j :: k < j < |ds| ==> !IsHand(ds[j])
  }

  lemma {:induction false} HandCapabsConcat(xs: seq<Cand>, ys: seq<Cand>)
    ensures HandCapabs(xs + ys) == HandCapabs(xs) + HandCapabs(ys)
  {
    hide IsHand, K.CapabsOf, ParseItem;
    if ys == [] {
      assert xs + ys == xs;
    } else {
      assert (xs + ys)[..|xs + ys| - 1] == xs + ys[..|ys| - 1];
      HandCapabsConcat(xs, ys[..|ys| - 1]);
    }
  }

  lemma {:induction false} OwnCapabs(s: Server, ds: seq<seq<byte>>)
    ensures forall s' :: s' in HandCapabs(CandsOf(s, ds)) <==> s' == s && exists k :: 0 <= k < |ds| && IsHand(ds[k])
    ensures forall k: nat :: LastHandAt(ds, k) ==> HandCapabs(CandsOf(s, ds))[s] == K.CapabsOf(ParseItem(ds[k]).capabs)
  {
    hide IsHand, K.CapabsOf, ParseItem;
    if ds != [] {
      var front := ds[..|ds| - 1];
      OwnCapabs(s, front);
      assert CandsOf(s, ds)[..|ds| - 1] == CandsOf(s, front);
      assert forall k :: 0 <= k < |front| ==> front[k] == ds[k];
      forall k: nat | LastHandAt(ds, k) ensures HandCapabs(CandsOf(s, ds))[s] == K.CapabsOf(ParseItem(ds[k]).capabs) {
        if k < |front| {
          assert LastHandAt(front, k);
        }
      }
    }
  }

  /** Whatever the order: a server has hand capabilities if and only if it has a hand, and they are those of
      its own last one. */
  lemma {:induction false} HandCapabsContents(z: Codec, mgrs: map<Server, seq<byte>>, order: seq<Server>, s: Server)
    requires Distinct(order) && forall k :: 0 <= k < |order| ==> order[k] in mgrs
    ensures s in HandCapabs(AllCands(z, mgrs, order)) <==> s in order && HasHand(z, mgrs, s)
    ensures forall k: nat :: s in order && LastHandAt(DefsOf(z, mgrs, s), k) ==>
              HandCapabs(AllCands(z, mgrs, order))[s] == K.CapabsOf(ParseItem(DefsOf(z, mgrs, s)[k]).capabs)
  {
    hide IsHand, K.CapabsOf, ParseItem, ManagerOf, HandCapabs, CandsOf;
    if order == [] {
      NoCapabs();
    } else {
      var front, last := order[..|order| - 1], order[|order| - 1];
      assert order == front + [last];
      HandCapabsContents(z, mgrs, front, s);
      OwnCapabs(last, DefsOf(z, mgrs, last));
      HandCapabsConcat(AllCands(z, mgrs, front), CandsOf(last, DefsOf(z, mgrs, last)));
    }
  }

  lemma NoCapabs()
    ensures HandCapabs([]) == map[]
  {
  }

  /** The standard block is what a server writes for capabilities without groups, and is read as that. */
  lemma StdCapsIsEmptyBlock()
    ensures STD_CAPS == K.EncodeBlock(K.Block(0, 0, [], [], 0))
    ensures K.CapabsOf(STD_CAPS) == K.ToolCapabs(0, 0, map[], map[], 0)
  {
    K.CapabsReadIff(K.Block(0, 0, [], [], 0));
    K.EmptyBlock();
    hide K.EncodeBlock, K.CapabsOf;
    assert STD_CAPS == [5] + Zeros(16);
  }

  lemma HandsMet(z: Codec, mgrs: map<Server, seq<byte>>, order: seq<Server>)
    requires Enumerates(order, mgrs.Keys)
    ensures FirstHand(AllCands(z, mgrs, order)) != [] <==> exists s :: s in mgrs && HasHand(z, mgrs, s)
  {
    hide IsHand, DefsOf, AllCands;
    var cs := AllCands(z, mgrs, order);
    FirstHandIsFirst(cs);
    if FirstHand(cs) != [] {
      var k :| 0 <= k < |cs| && IsHand(cs[k].def);
      CandsAre(z, mgrs, order, cs[k]);
      var i :| 0 <= i < |DefsOf(z, mgrs, cs[k].srv)| && DefsOf(z, mgrs, cs[k].srv)[i] == cs[k].def;
      assert HasHand(z, mgrs, cs[k].srv);
    }
    if s :| s in mgrs && HasHand(z, mgrs, s) {
      var i :| 0 <= i < |DefsOf(z, mgrs, s)| && IsHand(DefsOf(z, mgrs, s)[i]);
      CandsAre(z, mgrs, order, Cand(s, DefsOf(z, mgrs, s)[i]));
      var k :| 0 <= k < |cs| && cs[k] == Cand(s, DefsOf(z, mgrs, s)[i]);
      assert IsHand(cs[k].def);
    }
  }

  lemma NamesMet(z: Codec, mgrs: map<Server, seq<byte>>, order: seq<Server>, n: Name)
    requires Enumerates(order, mgrs.Keys)
    ensures (exists k :: 0 <= k < |AllCands(z, mgrs, order)| && Item(AllCands(z, mgrs, order)[k]).name == n) <==>
      exists s :: s in mgrs && !NameFree(z, mgrs, s, n)
  {
    hide Item, DefsOf, AllCands;
    var cs := AllCands(z, mgrs, order);
    if k: int :| 0 <= k < |cs| && Item(cs[k]).name == n {
      CandsAre(z, mgrs, order, cs[k]);
      assert ListedName(cs[k].srv, cs[k].def) == n;
    }
    if s :| s in mgrs && !NameFree(z, mgrs, s, n) {
      var d :| d in DefsOf(z, mgrs, s) && ListedName(s, d) == n;
      CandsAre(z, mgrs, order, Cand(s, d));
      var k :| 0 <= k < |cs| && cs[k] == Cand(s, d);
      assert Item(cs[k]).name == n;
    }
  }

  /** Whatever order the merge takes: listed are exactly the names of the servers' definitions, hands under
      their servers' hand names, and the empty name if some server has a hand. */
  lemma MergedNames(z: Codec, mgrs: map<Server, seq<byte>>, order: seq<Server>, n: Name)
    requires Enumerates(order, mgrs.Keys)
    ensures Listed(Merged(AllCands(z, mgrs, order)), n) <==>
      || (exists s :: s in mgrs && !NameFree(z, mgrs, s, n))
      || (n == [] && exists s :: s in mgrs && HasHand(z, mgrs, s))
  {
    hide Item, IsHand, AllCands, NameFree, HasHand, StdCaps, PushAll, FirstHand;
    var cs := AllCands(z, mgrs, order);
    ListedIff(cs, n);
    NamesMet(z, mgrs, order, n);
    HandsMet(z, mgrs, order);
    var items, m := PushAll(cs), Merged(cs);
    assert forall k :: 0 <= k < |items| ==> m[k] == items[k];
    if Listed(items, n) {
      var k :| 0 <= k < |items| && items[k].name == n;
      assert m[k].name == n;
    }
    if FirstHand(cs) != [] {
      assert m[|items|].name == [];
    }
  }

  /** The names of the merged list are pairwise distinct in every order in which Go may visit the servers if
      and only if the servers keep to the reserved names. */
  lemma NamesDistinctInEveryOrder(z: Codec, mgrs: map<Server, seq<byte>>)
    ensures (forall order :: Enumerates(order, mgrs.Keys) ==> Distinct(Names(Merged(AllCands(z, mgrs, order)))))
       <==> NamesReserved(z, mgrs)
  {
    hide Item, IsHand, AllCands, Names, Merged, Distinct, OwnHandFree, HasHand, NameFree, DefsOf, HandName, NoClash;
    if NamesReserved(z, mgrs) {
      forall order | Enumerates(order, mgrs.Keys) ensures Distinct(Names(Merged(AllCands(z, mgrs, order)))) {
        ReservedDistinct(z, mgrs, order);
      }
    }
    if forall order :: Enumerates(order, mgrs.Keys) ==> Distinct(Names(Merged(AllCands(z, mgrs, order)))) {
      forall s | s in mgrs ensures OwnHandFree(z, mgrs, s) {
        var order := StartingWith(mgrs.Keys, [s]);
        OwnFromOrder(z, mgrs, order, s);
      }
      forall s, s' | s in mgrs && s' in mgrs && s != s' && HasHand(z, mgrs, s)
        ensures NameFree(z, mgrs, s', HandName(s))
      {
        var order := StartingWith(mgrs.Keys, [s', s]);
        OtherFromOrder(z, mgrs, order, s', s);
      }
      forall s, s' | s in mgrs && s' in mgrs && HasHand(z, mgrs, s) ensures NameFree(z, mgrs, s', []) {
        var order := StartingWith(mgrs.Keys, []);
        EmptyFromOrder(z, mgrs, order, s, s');
      }
    }
  }

  lemma StartingWith(keys: set<Server>, start: seq<Server>) returns (order: seq<Server>)
    requires Distinct(start) && forall s :: s in start ==> s in keys
    ensures Enumerates(order, keys) && |start| <= |order| && order[..|start|] == start
  {
    var rest := Enumeration(keys - set s | s in start);
    order := start + rest;
    forall i, j | 0 <= i < j < |order| ensures order[i] != order[j] {
      if j >= |start| {
        assert order[j] in rest;
        assert i < |start| ==> order[i] in start;
      }
    }
  }

  lemma ReservedDistinct(z: Codec, mgrs: map<Server, seq<byte>>, order: seq<Server>)
    requires NamesReserved(z, mgrs) && Enumerates(order, mgrs.Keys)
    ensures Distinct(Names(Merged(AllCands(z, mgrs, order))))
  {
    hide Item, IsHand, AllCands, Names, Merged, OwnHandFree, HasHand, NameFree, DefsOf, HandName, NoClash, FirstHand;
    var cs := AllCands(z, mgrs, order);
    ReservedNoClash(z, mgrs, order);
    NamesDistinctIff(cs);
    HandsMet(z, mgrs, order);
    NamesMet(z, mgrs, order, []);
  }

  lemma OrderSplit(z: Codec, mgrs: map<Server, seq<byte>>, order: seq<Server>, n: nat)
    requires Enumerates(order, mgrs.Keys) && n <= |order|
    requires Distinct(Names(Merged(AllCands(z, mgrs, order))))
    ensures forall k :: 0 <= k < n ==> order[..n][k] in mgrs
    ensures NoClash(AllCands(z, mgrs, order[..n]))
  {
    hide Item, IsHand, AllCands, Names, Merged, NoClash, FirstHand, Apart;
    assert order == order[..n] + order[n..];
    CandsConcat(z, mgrs, order[..n], order[n..]);
    NamesDistinctIff(AllCands(z, mgrs, order));
    NoClashConcat(AllCands(z, mgrs, order[..n]), AllCands(z, mgrs, order[n..]));
  }

  lemma OwnFromOrder(z: Codec, mgrs: map<Server, seq<byte>>, order: seq<Server>, s: Server)
    requires Enumerates(order, mgrs.Keys) && s in mgrs && |order| > 0 && order[..1] == [s]
    requires Distinct(Names(Merged(AllCands(z, mgrs, order))))
    ensures OwnHandFree(z, mgrs, s)
  {
    hide Item, IsHand, AllCands, Names, Merged, NoClash, FirstHand, OwnHandFree;
    OrderSplit(z, mgrs, order, 1);
    CandsOne(z, mgrs, s);
    OwnClash(z, mgrs, s);
  }

  lemma OtherFromOrder(z: Codec, mgrs: map<Server, seq<byte>>, order: seq<Server>, s': Server, s: Server)
    requires Enumerates(order, mgrs.Keys) && s in mgrs && s' in mgrs && |order| > 1 && order[..2] == [s', s]
    requires Distinct(Names(Merged(AllCands(z, mgrs, order)))) && HasHand(z, mgrs, s)
    ensures NameFree(z, mgrs, s', HandName(s))
  {
    hide Item, IsHand, AllCands, Names, Merged, NoClash, FirstHand, DefsOf, HandName;
    OrderSplit(z, mgrs, order, 2);
    assert [s', s] == [s'] + [s];
    CandsConcat(z, mgrs, [s'], [s]);
    CandsOne(z, mgrs, s');
    CandsOne(z, mgrs, s);
    var ds', ds := DefsOf(z, mgrs, s'), DefsOf(z, mgrs, s);
    var xs, ys := CandsOf(s', ds'), CandsOf(s, ds);
    NoClashConcat(xs, ys);
    var k :| 0 <= k < |ds| && IsHand(ds[k]);
    HandItem(ys[k]);
    forall d | d in ds' ensures ListedName(s', d) != HandName(s) {
      var j :| 0 <= j < |ds'| && ds'[j] == d;
      assert Item(xs[j]).name != Item(ys[k]).name;
    }
  }

  lemma EmptyFromOrder(z: Codec, mgrs: map<Server, seq<byte>>, order: seq<Server>, s: Server, s': Server)
    requires Enumerates(order, mgrs.Keys) && s in mgrs && s' in mgrs && HasHand(z, mgrs, s)
    requires Distinct(Names(Merged(AllCands(z, mgrs, order))))
    ensures NameFree(z, mgrs, s', [])
  {
    hide Item, IsHand, AllCands, Names, Merged, NoClash, FirstHand, HasHand, NameFree;
    NamesDistinctIff(AllCands(z, mgrs, order));
    HandsMet(z, mgrs, order);
    NamesMet(z, mgrs, order, []);
  }

  /** End to end: a client that parses the blob gets exactly the merged list, in which a definition
      stands exactly when it is a server's renamed hand, or the first of its name, or the common hand. */
  lemma ClientGetsMergedItems(z: Codec, mgrs: map<Server, seq<byte>>, order: seq<Server>, blob: seq<byte>,
                              al: seq<Alias>, cs: seq<Cand>, it: ItemDef)
    requires Lawful(z) && Merges(z, mgrs, order, blob, al) && cs == AllCands(z, mgrs, order)
    requires ManagerFits(Merged(cs), al)
    ensures z.inflate(blob).Some?
    ensures ParseManager(z.inflate(blob).value.data) == Manager(Datas(Merged(cs)), al)
    ensures it in Merged(cs) <==>
      KeptItem(cs, it) || (FirstHand(cs) != [] && it == ItemDef([], StdCaps(FirstHand(cs))))
  {
    hide PushAll, FirstHand, AliasMap, AllCands, AllAliases, KeptItem, StdCaps, ParseManager, EncodeManager,
         ManagerFits, Datas, ListsAliases;
    ManagerRoundTrip(Merged(cs), al);
    InflateDeflate(z, EncodeManager(Merged(cs), al));
    MergedContents(cs, it);
  }

  /** And exactly the aliases of all servers, each with the first non-empty target any of them gave. */
  lemma ClientGetsAliases(z: Codec, mgrs: map<Server, seq<byte>>, order: seq<Server>, blob: seq<byte>,
                          al: seq<Alias>, all: seq<Alias>, n: Name)
    requires Merges(z, mgrs, order, blob, al) && all == AllAliases(z, mgrs, order)
    ensures HasAlias(al, n) <==> HasAlias(all, n)
    ensures forall k :: 0 <= k < |al| && al[k].name == n ==> al[k].convert == FirstTarget(all, n)
  {
    hide PushAll, FirstHand, AliasMap, AllCands, AllAliases, FirstTarget, StdCaps, EncodeManager;
    AliasMapContents(all, n);
  }
}
