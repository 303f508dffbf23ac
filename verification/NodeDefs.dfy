/** Node definitions (nodedef.go): the allocation of global ids, the manager format, the tables from each
    server's ids to the global ones, and what an id means to the receiver of a manager. */
module NodeDefs {
  import opened Wire
  import opened Zlib

  const CONTENT_UNKNOWN: u16 := 125
  const CONTENT_AIR: u16 := 126
  const CONTENT_IGNORE: u16 := 127

  /** A definition without name and data only redirects a server's id to a shared one. */
  datatype NodeDef = NodeDef(id: u16, name: Name, data: seq<byte>)
  type Table = map<Server, map<u16, NodeDef>>

  predicate Reserved(id: u16) {
    CONTENT_UNKNOWN <= id <= CONTENT_IGNORE
  }

  // ----- allocation of global ids -----

  /** One increment of the 16-bit counter, with the jump over the reserved ids. */
  function NextId(id: u16): u16 {
    if id == 0xFFFF then 0
    else if id + 1 == CONTENT_UNKNOWN then CONTENT_IGNORE + 1
    else id + 1
  }

  /** The counter after k allocations. */
  function AllocId(k: nat): u16 {
    if k == 0 then 0 else NextId(AllocId(k - 1))
  }

  /** There are 2^16 - 3 ids to give away. */
  function ClosedForm(k: nat): u16 {
    if k % 65533 < 125 then k % 65533 else k % 65533 + 3
  }

  lemma RoundStep(k: nat)
    ensures (k + 1) % 65533 == if k % 65533 == 65532 then 0 else k % 65533 + 1
  {
  }

  lemma {:induction false} AllocClosedForm(k: nat)
    ensures AllocId(k) == ClosedForm(k)
  {
    if k > 0 {
      AllocClosedForm(k - 1);
      RoundStep(k - 1);
    }
  }

  /** The counter never yields a reserved id, and the first n ids are distinct exactly as long as it
      has not gone round. */
  lemma AllocDistinctIff(n: nat)
    ensures forall k: nat :: !Reserved(AllocId(k))
    ensures (forall i: nat, j: nat :: i < j < n ==> AllocId(i) != AllocId(j)) <==> n <= 65533
  {
    forall k: nat ensures !Reserved(AllocId(k)) {
      AllocClosedForm(k);
    }
    if n <= 65533 {
      forall i: nat, j: nat | i < j < n ensures AllocId(i) != AllocId(j) {
        AllocClosedForm(i);
        AllocClosedForm(j);
      }
    } else {
      AllocClosedForm(0);
      AllocClosedForm(65533);
      assert AllocId(0) == AllocId(65533);
    }
  }

  // ----- the manager format -----

  datatype Entry = Entry(id: u16, data: seq<byte>)

  /** The name follows the version byte of a definition. */
  function EntryName(e: Entry): Name {
    Bytes16At(e.data, 1)
  }

  /** A node definition as servers write it: a version byte, the name behind its 16-bit length, the rest. */
  function NodeBytes(version: byte, n: Name, rest: seq<byte>): seq<byte>
    requires |n| < 0x1_0000
  {
    [version, |n| / 0x100, |n| % 0x100] + n + rest
  }

  lemma NameStands(id: u16, version: byte, n: Name, rest: seq<byte>)
    requires |n| < 0x1_0000
    ensures EntryName(Entry(id, NodeBytes(version, n, rest))) == n
  {
    var d := NodeBytes(version, n, rest);
    assert d == [version] + PutBytes16(n) + rest;
    ReadBackBytes16(d, 1, n);
  }

  function EntryAt(m: seq<byte>, pos: nat): Entry {
    Entry(U16At(m, pos), Bytes16At(m, Next(m, pos, 2)))
  }

  /** The cursor after n entries. */
  function EntriesEnd(m: seq<byte>, pos: nat, n: nat): nat {
    if n == 0 then pos
    else Bytes16End(m, Next(m, EntriesEnd(m, pos, n - 1), 2))
  }

  function ParseEntries(m: seq<byte>, pos: nat, n: nat): (es: seq<Entry>)
    ensures |es| == n
  {
    if n == 0 then []
    else ParseEntries(m, pos, n - 1) + [EntryAt(m, EntriesEnd(m, pos, n - 1))]
  }

  /** The reader of the merge: version byte, 16-bit count, an ignored 32-bit length, then the entries. */
  function ParseManager(m: seq<byte>): seq<Entry> {
    ParseEntries(m, Next(m, 1, 2) + 4, U16At(m, 1))
  }

  function EncodeEntry(e: Entry): seq<byte> {
    PutU16(e.id) + PutU16(|e.data| % 0x1_0000) + e.data
  }

  function EncodeEntries(es: seq<Entry>): seq<byte> {
    if es == [] then []
    else EncodeEntries(es[..|es| - 1]) + EncodeEntry(es[|es| - 1])
  }

  function EncodeManager(total: u16, es: seq<Entry>): seq<byte> {
    [1] + PutU16(total) + PutBytes32(EncodeEntries(es))
  }

  ghost predicate Fits(es: seq<Entry>) {
    forall k :: 0 <= k < |es| ==> |es[k].data| < 0x1_0000
  }

  lemma ParseEncodedEntry(m: seq<byte>, pos: nat, e: Entry)
    requires |e.data| < 0x1_0000 && At(m, pos, EncodeEntry(e))
    ensures EntryAt(m, pos) == e && Bytes16End(m, Next(m, pos, 2)) == pos + |EncodeEntry(e)|
  {
    assert EncodeEntry(e) == PutU16(e.id) + PutBytes16(e.data);
    AtSplit(m, pos, PutU16(e.id), PutBytes16(e.data));
    ReadBackU16(m, pos, e.id);
    ReadBackBytes16(m, pos + 2, e.data);
  }

  lemma {:induction false} ParseEncodedEntries(m: seq<byte>, pos: nat, es: seq<Entry>)
    requires Fits(es) && At(m, pos, EncodeEntries(es))
    ensures ParseEntries(m, pos, |es|) == es
    ensures EntriesEnd(m, pos, |es|) == pos + |EncodeEntries(es)|
  {
    hide EntryAt, EncodeEntry, Bytes16End, Next;
    if es != [] {
      var front, last := es[..|es| - 1], es[|es| - 1];
      AtSplit(m, pos, EncodeEntries(front), EncodeEntry(last));
      ParseEncodedEntries(m, pos, front);
      ParseEncodedEntry(m, pos + |EncodeEntries(front)|, last);
    }
  }

  /** What the merge's own reader gets out of an emitted manager is what was put in. */
  lemma ManagerRoundTrip(es: seq<Entry>)
    requires Fits(es) && |es| < 0x1_0000
    ensures ParseManager(EncodeManager(|es|, es)) == es
  {
    var body := EncodeEntries(es);
    var m := EncodeManager(|es|, es);
    var len := PutU32(|body| % 0x1_0000_0000);
    assert m == [1] + (PutU16(|es|) + (len + body));
    assert At(m, 0, [1] + (PutU16(|es|) + (len + body)));
    AtSplit(m, 0, [1], PutU16(|es|) + (len + body));
    AtSplit(m, 1, PutU16(|es|), len + body);
    AtSplit(m, 3, len, body);
    ReadBackU16(m, 1, |es|);
    ParseEncodedEntries(m, 7, es);
  }

  lemma {:induction false} EncodedSize(es: seq<Entry>)
    requires Fits(es)
    ensures |EncodeEntries(es)| <= |es| * 65539
  {
    if es != [] {
      EncodedSize(es[..|es| - 1]);
    }
  }

  /** The 32-bit length prefix of the emitted manager is the exact length of what follows: even the
      largest merge is nine bytes short of overflowing it. */
  lemma LengthPrefixExact(es: seq<Entry>)
    requires Fits(es) && |es| <= 65533
    ensures |EncodeEntries(es)| < 0x1_0000_0000
    ensures Bytes32At(EncodeManager(|es|, es), 3) == EncodeEntries(es)
  {
    EncodedSize(es);
    var body := EncodeEntries(es);
    var m := EncodeManager(|es|, es);
    assert m == ([1] + PutU16(|es|)) + PutBytes32(body);
    assert At(m, 0, ([1] + PutU16(|es|)) + PutBytes32(body));
    AtSplit(m, 0, [1] + PutU16(|es|), PutBytes32(body));
    ReadBackBytes32(m, 3, body);
  }

  // ----- global ids -----

  function IndexOf(names: seq<Name>, n: Name): (k: nat)
    requires n in names
    ensures k < |names| && names[k] == n && forall j :: 0 <= j < k ==> names[j] != n
  {
    if names[0] == n then 0 else 1 + IndexOf(names[1..], n)
  }

  /** The id of the k-th distinct name. */
  function GlobalId(names: seq<Name>, n: Name): u16
    requires n in names
  {
    AllocId(IndexOf(names, n))
  }

  lemma AllocDiffers(i: nat, j: nat)
    requires i < j < 65533
    ensures AllocId(i) != AllocId(j)
  {
    hide AllocId;
    AllocClosedForm(i);
    AllocClosedForm(j);
  }

  lemma GlobalIdStable(names: seq<Name>, x: Name)
    requires x !in names
    ensures forall n :: n in names ==> n in names + [x] && GlobalId(names + [x], n) == GlobalId(names, n)
    ensures GlobalId(names + [x], x) == AllocId(|names|)
  {
    hide AllocId, IndexOf;
    var more := names + [x];
    assert more[|names|] == x && forall j :: 0 <= j < |names| ==> more[j] == names[j];
    forall n | n in names ensures n in more && IndexOf(more, n) == IndexOf(names, n) {
      assert more[IndexOf(names, n)] == n;
    }
  }

  /** Up to 65533 distinct names have distinct unreserved global ids. */
  lemma GlobalIdInjective(names: seq<Name>, a: Name, b: Name)
    requires a in names && b in names && |names| <= 65533
    ensures !Reserved(GlobalId(names, a))
    ensures GlobalId(names, a) == GlobalId(names, b) <==> a == b
  {
    AllocDistinctIff(|names|);
    var i, j := IndexOf(names, a), IndexOf(names, b);
    if i < j {
      assert AllocId(i) != AllocId(j);
    } else if j < i {
      assert AllocId(j) != AllocId(i);
    }
  }

  // ----- the tables -----

  ghost predicate Named(t: Table, s: Server, i: u16, n: Name) {
    s in t && i in t[s] && t[s][i].name == n
  }

  function Put(t: Table, s: Server, i: u16, d: NodeDef): Table
    requires s in t
  {
    var m: map<u16, NodeDef> := t[s];
    var m': map<u16, NodeDef> := m[i := d];
    t[s := m']
  }

  /** The table lookup `NodeDefs()[srv][id].ID()`: a nil map or a nil definition gives the unknown id. */
  function LookupId(t: Table, s: Server, id: u16): u16 {
    if s in t && id in t[s] then t[s][id].id else CONTENT_UNKNOWN
  }

  /** NodeDefByName: the definition of that name in one server's table. */
  method NodeDefByName(defs: map<u16, NodeDef>, n: Name) returns (r: Option<NodeDef>)
    ensures r.Some? ==> exists i :: i in defs && defs[i] == r.value && defs[i].name == n
    ensures r.None? ==> forall i :: i in defs ==> defs[i].name != n
  {
    var ids := defs.Keys;
    while ids != {}
      invariant ids <= defs.Keys
      invariant forall i :: i in defs && i !in ids ==> defs[i].name != n
    {
      var i :| i in ids;
      if defs[i].name == n {
        return Some(defs[i]);
      }
      ids := ids - {i};
    }
    r := None;
  }

  /** The scan over the tables of all servers; Go visits them in any order. */
  method FindByName(t: Table, n: Name) returns (r: Option<NodeDef>)
    ensures r.Some? ==> exists s, i :: Named(t, s, i, n) && t[s][i] == r.value
    ensures r.None? ==> forall s, i :: !Named(t, s, i, n)
  {
    var srvs := t.Keys;
    while srvs != {}
      invariant srvs <= t.Keys
      invariant forall s, i :: s in t && s !in srvs ==> !Named(t, s, i, n)
    {
      var s :| s in srvs;
      r := NodeDefByName(t[s], n);
      if r.Some? {
        var i :| i in t[s] && t[s][i] == r.value && t[s][i].name == n;
        assert Named(t, s, i, n);
        return;
      }
      srvs := srvs - {s};
    }
    r := None;
  }

  // ----- a server's definitions -----

  /** What the rest of this project asks of a server's manager: names are not empty and ids not repeated. */
  ghost predicate WellFormed(es: seq<Entry>) {
    && (forall k :: 0 <= k < |es| ==> EntryName(es[k]) != [])
    && (forall j, k :: 0 <= j < k < |es| ==> es[j].id != es[k].id)
  }

  ghost predicate Defines(es: seq<Entry>, i: u16) {
    exists k :: 0 <= k < |es| && es[k].id == i
  }

  function EntryNames(es: seq<Entry>): (ns: seq<Name>)
    ensures |ns| == |es|
  {
    seq(|es|, k requires 0 <= k < |es| => EntryName(es[k]))
  }

  /** The names in the order in which the merge meets them. */
  function Dedup(xs: seq<Name>): seq<Name> {
    if xs == [] then []
    else
      var d := Dedup(xs[..|xs| - 1]);
      if xs[|xs| - 1] in d then d else d + [xs[|xs| - 1]]
  }

  function ServerDefs(defs: map<Server, seq<Entry>>, s: Server): seq<Entry> {
    if s in defs then defs[s] else []
  }

  // ----- what an id means -----

  datatype Meaning = Unknown | Air | Ignore | Node(name: Name)

  /** How the receiver of a manager reads a content id; a later entry replaces an earlier one. */
  function MeaningOf(es: seq<Entry>, id: u16): Meaning {
    if id == CONTENT_UNKNOWN then Unknown
    else if id == CONTENT_AIR then Air
    else if id == CONTENT_IGNORE then Ignore
    else if es == [] then Unknown
    else if es[|es| - 1].id == id then Node(EntryName(es[|es| - 1]))
    else MeaningOf(es[..|es| - 1], id)
  }

  lemma {:induction false} MeaningOfDefined(es: seq<Entry>, k: nat)
    requires k < |es| && !Reserved(es[k].id)
    requires forall i, j :: 0 <= i < j < |es| ==> es[i].id != es[j].id
    ensures MeaningOf(es, es[k].id) == Node(EntryName(es[k]))
  {
    if k < |es| - 1 {
      MeaningOfDefined(es[..|es| - 1], k);
    }
  }

  lemma {:induction false} MeaningOfUndefined(es: seq<Entry>, id: u16)
    requires !Reserved(id) && !Defines(es, id)
    ensures MeaningOf(es, id) == Unknown
  {
    if es != [] {
      assert es[|es| - 1].id != id;
      var front := es[..|es| - 1];
      forall k | 0 <= k < |front| ensures front[k].id != id {
        assert es[k].id != id;
      }
      MeaningOfUndefined(front, id);
    }
  }

  lemma MeaningOfUnknown(es: seq<Entry>)
    ensures MeaningOf(es, CONTENT_UNKNOWN) == Unknown
  {
  }

  /** The managers that decompress, parsed. */
  ghost function Parsed(z: Codec, mgrs: map<Server, seq<byte>>): map<Server, seq<Entry>> {
    map s | s in mgrs && z.inflate(mgrs[s]).Some? :: ParseManager(z.inflate(mgrs[s]).value.data)
  }

  /** What a client that was sent blob reads under an id. */
  ghost function ClientMeaning(z: Codec, blob: seq<byte>, id: u16): Meaning {
    var m := z.inflate(blob);
    MeaningOf(if m.Some? then ParseManager(m.value.data) else [], id)
  }

  /** What a server means by an id. */
  ghost function ServerMeaning(z: Codec, mgrs: map<Server, seq<byte>>, s: Server, id: u16): Meaning {
    MeaningOf(if s in mgrs && z.inflate(mgrs[s]).Some? then ParseManager(z.inflate(mgrs[s]).value.data) else [], id)
  }

  ghost predicate GoodManagers(z: Codec, mgrs: map<Server, seq<byte>>) {
    forall s :: s in mgrs && z.inflate(mgrs[s]).Some? ==> WellFormed(ParseManager(z.inflate(mgrs[s]).value.data))
  }

  lemma NothingReserved()
    ensures WellFormed([])
  {
  }
}
