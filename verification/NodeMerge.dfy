/** The node definition multiplexer (nodedef.go): every distinct node name of any server gets one global
    content id, every server keeps a table from its own ids to the global ones, and one manager holding
    the full definitions of the tables is sent to every client.

    A merge is described step by step and from any tables it may start with. What it does to a name is
    followed by a fold over the definitions it meets: where the name's one full definition stands, and
    which names were given a new id. */
module NodeMerge {
  import opened Collections
  import opened Wire
  import opened Zlib
  import opened NodeDefs

  // ----- the steps of a merge -----

  /** nodeDefs, nextID and total. */
  datatype MergeState = MergeState(t: Table, next: u16, total: u16)

  datatype Item = Open(srv: Server) | Define(srv: Server, e: Entry)

  type Loc = (Server, u16)

  /** A full definition of that name has that global id; bare definitions have the empty name. */
  ghost predicate Known(t: Table, n: Name, id: u16) {
    exists s, i :: Named(t, s, i, n) && t[s][i].id == id
  }

  function Opened(t: Table, s: Server): Table {
    if s in t then t else t[s := map[]]
  }

  /** The server's id is pointed at a known one. */
  function Shared(a: MergeState, s: Server, e: Entry, id: u16): MergeState
    requires s in a.t
  {
    a.(t := Put(a.t, s, e.id, NodeDef(id, [], [])))
  }

  /** The definition is kept whole, under the next id. */
  function Renewed(a: MergeState, s: Server, e: Entry): MergeState
    requires s in a.t
  {
    MergeState(Put(a.t, s, e.id, NodeDef(a.next, EntryName(e), e.data)), NextId(a.next), (a.total + 1) % 0x1_0000)
  }

  ghost predicate MergeStep(a: MergeState, it: Item, b: MergeState) {
    match it
    case Open(s) => b == a.(t := Opened(a.t, s))
    case Define(s, e) =>
      && s in a.t
      && ((exists id :: Known(a.t, EntryName(e), id) && b == Shared(a, s, e, id))
          || ((forall id :: !Known(a.t, EntryName(e), id)) && b == Renewed(a, s, e)))
  }

  ghost predicate Reaches(a: MergeState, items: seq<Item>, b: MergeState)
    decreases |items|
  {
    if items == [] then a == b
    else
      var front, last := items[..|items| - 1], items[|items| - 1];
      exists m :: Reaches(a, front, m) && MergeStep(m, last, b)
  }

  function DefinesOf(s: Server, es: seq<Entry>): (items: seq<Item>)
    ensures |items| == |es|
  {
    seq(|es|, k requires 0 <= k < |es| => Define(s, es[k]))
  }

  /** What the merge goes through when it visits the servers in that order. */
  function ItemsOf(order: seq<Server>, defs: map<Server, seq<Entry>>): seq<Item> {
    if order == [] then []
    else
      var s := order[|order| - 1];
      ItemsOf(order[..|order| - 1], defs) + ([Open(s)] + DefinesOf(s, ServerDefs(defs, s)))
  }

  lemma ReachesMore(a: MergeState, items: seq<Item>, m: MergeState, it: Item, b: MergeState)
    requires Reaches(a, items, m) && MergeStep(m, it, b)
    ensures Reaches(a, items + [it], b)
  {
    hide MergeStep;
    assert (items + [it])[..|items|] == items;
  }

  lemma {:induction false} ReachesConcat(a: MergeState, xs: seq<Item>, m: MergeState, ys: seq<Item>, b: MergeState)
    requires Reaches(a, xs, m) && Reaches(m, ys, b)
    ensures Reaches(a, xs + ys, b)
    decreases |ys|
  {
    hide MergeStep;
    if ys == [] {
      assert xs + ys == xs;
    } else {
      var front, last := ys[..|ys| - 1], ys[|ys| - 1];
      var m': MergeState :| Reaches(m, front, m') && MergeStep(m', last, b);
      ReachesConcat(a, xs, m, front, m');
      ReachesMore(a, xs + front, m', last, b);
      assert (xs + front) + [last] == xs + ys;
    }
  }

  // ----- the emission -----

  /** The definitions of a table that have data, in any order, each once. */
  ghost predicate Lists(es: seq<Entry>, at: seq<Loc>, t: Table) {
    && |at| == |es|
    && Distinct(at)
    && (forall k :: 0 <= k < |at| ==>
          && at[k].0 in t
          && at[k].1 in t[at[k].0]
          && t[at[k].0][at[k].1].data != []
          && es[k] == Entry(t[at[k].0][at[k].1].id, t[at[k].0][at[k].1].data))
  }

  ghost predicate Complete(at: seq<Loc>, t: Table) {
    forall s, i :: s in t && i in t[s] && t[s][i].data != [] ==> (s, i) in at
  }

  /** es are all definitions of the table that have data, each once. */
  ghost predicate ListsAll(es: seq<Entry>, t: Table) {
    exists at :: Lists(es, at, t) && Complete(at, t)
  }

  lemma ListsMore(es: seq<Entry>, at: seq<Loc>, t: Table, s: Server, i: u16)
    requires Lists(es, at, t) && (s, i) !in at
    requires s in t && i in t[s] && t[s][i].data != []
    ensures Lists(es + [Entry(t[s][i].id, t[s][i].data)], at + [(s, i)], t)
    ensures EncodeEntries(es + [Entry(t[s][i].id, t[s][i].data)])
         == EncodeEntries(es) + EncodeEntry(Entry(t[s][i].id, t[s][i].data))
  {
    hide EncodeEntry;
    var e := Entry(t[s][i].id, t[s][i].data);
    assert (es + [e])[..|es|] == es;
  }

  method EmitServer(t: Table, srv: Server, soFar: seq<byte>, ghost es0: seq<Entry>, ghost at0: seq<Loc>)
    returns (allDefs: seq<byte>, ghost es: seq<Entry>, ghost at: seq<Loc>)
    requires srv in t && Lists(es0, at0, t) && soFar == EncodeEntries(es0)
    requires forall k :: 0 <= k < |at0| ==> at0[k].0 != srv
    ensures Lists(es, at, t) && allDefs == EncodeEntries(es)
    ensures forall k :: k in at0 ==> k in at
    ensures forall k :: k in at ==> k in at0 || k.0 == srv
    ensures forall i :: i in t[srv] && t[srv][i].data != [] ==> (srv, i) in at
  {
    hide Lists, EncodeEntries, PutU16;
    allDefs, es, at := soFar, es0, at0;
    var ids := t[srv].Keys;
    while ids != {}
      invariant ids <= t[srv].Keys
      invariant Lists(es, at, t) && allDefs == EncodeEntries(es)
      invariant forall k :: k in at0 ==> k in at
      invariant forall k :: k in at ==> k in at0 || (k.0 == srv && k.1 !in ids)
      invariant forall i :: i in t[srv] && i !in ids && t[srv][i].data != [] ==> (srv, i) in at
    {
      var i :| i in ids;
      var def := t[srv][i];
      if |def.data| > 0 {
        allDefs := allDefs + PutU16(def.id) + PutU16(|def.data| % 0x1_0000) + def.data;
        ListsMore(es, at, t, srv, i);
        assert allDefs == EncodeEntries(es) + EncodeEntry(Entry(def.id, def.data));
        es, at := es + [Entry(def.id, def.data)], at + [(srv, i)];
      }
      ids := ids - {i};
    }
  }

  method EmitAll(t: Table) returns (allDefs: seq<byte>)
    ensures exists es :: ListsAll(es, t) && allDefs == EncodeEntries(es)
  {
    ghost var es: seq<Entry>, at: seq<Loc> := [], [];
    allDefs := [];
    var srvs := t.Keys;
    while srvs != {}
      invariant srvs <= t.Keys
      invariant Lists(es, at, t) && allDefs == EncodeEntries(es)
      invariant forall k :: k in at ==> k.0 !in srvs
      invariant forall s, i :: s in t && s !in srvs && i in t[s] && t[s][i].data != [] ==> (s, i) in at
    {
      var s :| s in srvs;
      allDefs, es, at := EmitServer(t, s, allDefs, es, at);
      srvs := srvs - {s};
    }
    assert Complete(at, t);
    assert ListsAll(es, t);
  }

  // ----- the methods -----

  /** A merge over the given managers that started with the tables t0 and went through: the tables t, the
      published manager blob and the definitions es in it. */
  ghost predicate Outcome(z: Codec, mgrs: map<Server, seq<byte>>, t0: Table, order: seq<Server>,
                          t: Table, blob: seq<byte>, es: seq<Entry>) {
    && AllInflate(z, mgrs)
    && Enumerates(order, mgrs.Keys)
    && ListsAll(es, t)
    && exists next, total ::
         && Reaches(MergeState(t0, 0, 0), ItemsOf(order, Parsed(z, mgrs)), MergeState(t, next, total))
         && blob == z.deflate(EncodeManager(total, es))
  }

  /** A merge that broke off at a manager it could not decompress, with an empty table made for it. */
  ghost predicate BrokeOff(z: Codec, mgrs: map<Server, seq<byte>>, t0: Table, order: seq<Server>, t: Table) {
    && order != []
    && Distinct(order)
    && (forall s :: s in order ==> s in mgrs)
    && (forall k :: 0 <= k < |order| ==> (z.inflate(mgrs[order[k]]).None? <==> k == |order| - 1))
    && exists next, total :: Reaches(MergeState(t0, 0, 0), ItemsOf(order, Parsed(z, mgrs)), MergeState(t, next, total))
  }

  lemma ParseMore(m: seq<byte>, pos: nat, i: nat)
    ensures ParseEntries(m, pos, i + 1) == ParseEntries(m, pos, i) + [EntryAt(m, EntriesEnd(m, pos, i))]
    ensures EntriesEnd(m, pos, i + 1) == Bytes16End(m, Next(m, EntriesEnd(m, pos, i), 2))
    ensures ParseEntries(m, pos, 0) == [] && EntriesEnd(m, pos, 0) == pos
  {
  }

  lemma DefinesMore(s: Server, es: seq<Entry>, e: Entry)
    ensures DefinesOf(s, es + [e]) == DefinesOf(s, es) + [Define(s, e)]
  {
  }

  /** The globals nodeDefs and nodedef. */
  class Multiplexer {
    var nodeDefs: Table
    var nodedef: seq<byte>

    constructor ()
      ensures nodeDefs == map[] && nodedef == []
    {
      nodeDefs := map[];
      nodedef := [];
    }

    /** One definition. Lines 127-133 of the original are dead: the scan of all tables has just covered this
        server's own. */
    method MergeDefinition(srv: Server, id: u16, defb: seq<byte>, nextID0: u16, total0: u16)
      returns (nextID: u16, total: u16)
      requires srv in nodeDefs
      modifies this`nodeDefs
      ensures MergeStep(MergeState(old(nodeDefs), nextID0, total0), Define(srv, Entry(id, defb)),
                        MergeState(nodeDefs, nextID, total))
      ensures srv in nodeDefs
    {
      hide Bytes16At, Bytes16End, Named;
      nextID, total := nextID0, total0;
      var dr := new Reader(defb);
      dr.Seek(1);
      var nodeName := dr.ReadBytes16();
      var found := FindByName(nodeDefs, nodeName);
      if found.Some? {
        assert Known(nodeDefs, nodeName, found.value.id);
        nodeDefs := Put(nodeDefs, srv, id, NodeDef(found.value.id, [], []));
      } else {
        nodeDefs := Put(nodeDefs, srv, id, NodeDef(nextID, nodeName, defb));
        total := if total == 0xFFFF then 0 else total + 1;
        nextID := NextId(nextID);
      }
    }

    /** The definitions of one server. */
    method MergeServer(srv: Server, buf: seq<byte>, nextID0: u16, total0: u16) returns (nextID: u16, total: u16)
      requires srv in nodeDefs
      modifies this`nodeDefs
      ensures Reaches(MergeState(old(nodeDefs), nextID0, total0), DefinesOf(srv, ParseManager(buf)),
                      MergeState(nodeDefs, nextID, total))
      ensures srv in nodeDefs
    {
      hide Reaches, MergeStep, DefinesOf, Bytes16At, Bytes16End, U16At, Next, ParseEntries, EntriesEnd;
      var r := new Reader(buf);
      r.Seek(1);
      var count := r.ReadUint16();
      r.Seek(r.pos + 4);
      ghost var start := r.pos;
      nextID, total := nextID0, total0;
      ghost var s0 := MergeState(nodeDefs, nextID, total);
      NothingDone(srv, buf, start, s0);
      var i: nat := 0;
      while i < count
        invariant i <= count && r.data == buf && fresh(r) && srv in nodeDefs
        invariant r.pos == EntriesEnd(buf, start, i)
        invariant Reaches(s0, DefinesOf(srv, ParseEntries(buf, start, i)), MergeState(nodeDefs, nextID, total))
      {
        ghost var before := MergeState(nodeDefs, nextID, total);
        ParseMore(buf, start, i);
        var id := r.ReadUint16();
        var defb := r.ReadBytes16();
        ghost var e := Entry(id, defb);
        nextID, total := MergeDefinition(srv, id, defb, nextID, total);
        DefinesMore(srv, ParseEntries(buf, start, i), e);
        ReachesMore(s0, DefinesOf(srv, ParseEntries(buf, start, i)), before, Define(srv, e),
                    MergeState(nodeDefs, nextID, total));
        i := i + 1;
      }
    }

    /** mergeNodedefs over the servers in any order, whatever tables earlier merges have left. */
    method MergeNodedefs(z: Codec, mgrs: map<Server, seq<byte>>)
      returns (ok: bool, ghost order: seq<Server>, ghost es: seq<Entry>)
      modifies this
      ensures ok <==> AllInflate(z, mgrs)
      ensures ok ==> Outcome(z, mgrs, old(nodeDefs), order, nodeDefs, nodedef, es)
      ensures !ok ==> nodedef == old(nodedef) && BrokeOff(z, mgrs, old(nodeDefs), order, nodeDefs)
    {
      hide Reaches, ItemsOf, DefinesOf, ParseManager, ListsAll, EncodeEntries;
      var total: u16, nextID: u16 := 0, 0;
      order, es := [], [];
      ghost var s0, defs := MergeState(nodeDefs, 0, 0), Parsed(z, mgrs);
      NoItems(s0, defs);
      var srvs := mgrs.Keys;
      while srvs != {}
        invariant srvs <= mgrs.Keys && nodedef == old(nodedef)
        invariant Enumerates(order, mgrs.Keys - srvs)
        invariant forall s :: s in order ==> z.inflate(mgrs[s]).Some?
        invariant Reaches(s0, ItemsOf(order, defs), MergeState(nodeDefs, nextID, total))
      {
        var srv :| srv in srvs;
        ghost var before := MergeState(nodeDefs, nextID, total);
        if srv !in nodeDefs {
          nodeDefs := nodeDefs[srv := map[]];
        }
        ghost var entered := MergeState(nodeDefs, nextID, total);
        ReachesMore(s0, ItemsOf(order, defs), before, Open(srv), entered);
        if z.inflate(mgrs[srv]).None? {
          ServerLost(s0, order, srv, defs, entered);
          order := order + [srv];
          ok := false;
          return;
        }
        nextID, total := MergeServer(srv, z.inflate(mgrs[srv]).value.data, nextID, total);
        ServerDone(s0, order, srv, defs, entered, MergeState(nodeDefs, nextID, total));
        order := order + [srv];
        srvs := srvs - {srv};
      }
      assert mgrs.Keys - srvs == mgrs.Keys;
      var allDefs := EmitAll(nodeDefs);
      es :| ListsAll(es, nodeDefs) && allDefs == EncodeEntries(es);
      nodedef := z.deflate([1] + PutU16(total) + PutBytes32(allDefs));
      ok := true;
    }
  }

  lemma NothingDone(s: Server, buf: seq<byte>, pos: nat, a: MergeState)
    ensures EntriesEnd(buf, pos, 0) == pos && Reaches(a, DefinesOf(s, ParseEntries(buf, pos, 0)), a)
  {
  }

  lemma NoItems(a: MergeState, defs: map<Server, seq<Entry>>)
    ensures Reaches(a, ItemsOf([], defs), a)
  {
  }

  lemma ItemsMore(order: seq<Server>, s: Server, defs: map<Server, seq<Entry>>)
    ensures ItemsOf(order + [s], defs) == ItemsOf(order, defs) + ([Open(s)] + DefinesOf(s, ServerDefs(defs, s)))
  {
    hide DefinesOf;
    assert (order + [s])[..|order|] == order;
  }

  lemma ServerDone(a: MergeState, order: seq<Server>, s: Server, defs: map<Server, seq<Entry>>, m: MergeState,
                   b: MergeState)
    requires Reaches(a, ItemsOf(order, defs) + [Open(s)], m) && Reaches(m, DefinesOf(s, ServerDefs(defs, s)), b)
    ensures Reaches(a, ItemsOf(order + [s], defs), b)
  {
    hide Reaches, ItemsOf, DefinesOf;
    var xs, ys := ItemsOf(order, defs) + [Open(s)], DefinesOf(s, ServerDefs(defs, s));
    ReachesConcat(a, xs, m, ys, b);
    ItemsMore(order, s, defs);
    assert xs + ys == ItemsOf(order + [s], defs);
  }

  lemma ServerLost(a: MergeState, order: seq<Server>, s: Server, defs: map<Server, seq<Entry>>, b: MergeState)
    requires Reaches(a, ItemsOf(order, defs) + [Open(s)], b) && s !in defs
    ensures Reaches(a, ItemsOf(order + [s], defs), b)
  {
    hide Reaches, ItemsOf;
    ItemsMore(order, s, defs);
    assert ItemsOf(order, defs) + ([Open(s)] + DefinesOf(s, ServerDefs(defs, s))) == ItemsOf(order, defs) + [Open(s)];
  }

  // ----- following a name through a merge -----

  function Where(it: Item): Loc
    requires it.Define?
  {
    (it.srv, it.e.id)
  }

  /** Names are not empty, definitions fit their length prefix, and no server's id is defined twice. */
  ghost predicate Regular(items: seq<Item>) {
    && (forall k :: 0 <= k < |items| && items[k].Define? ==>
          EntryName(items[k].e) != [] && |items[k].e.data| < 0x1_0000)
    && (forall j, k :: 0 <= j < k < |items| && items[j].Define? && items[k].Define? ==>
          Where(items[j]) != Where(items[k]))
  }

  ghost predicate Touched(items: seq<Item>, l: Loc) {
    exists k :: 0 <= k < |items| && items[k].Define? && Where(items[k]) == l
  }

  ghost predicate TouchedBy(items: seq<Item>, l: Loc, n: Name) {
    exists k :: 0 <= k < |items| && items[k].Define? && Where(items[k]) == l && EntryName(items[k].e) == n
  }

  /** Where the full definition of n stands. */
  ghost function HomeIn(t: Table, n: Name): Option<Loc> {
    if exists s, i :: Named(t, s, i, n) then
      var s, i :| Named(t, s, i, n);
      Some((s, i))
    else None
  }

  /** Where it stands after a merge that started with the tables t: a name loses its full definition when
      its place is written again, and gets a new one with the next definition of that name. */
  ghost function HomeAfter(t: Table, items: seq<Item>, n: Name): Option<Loc> {
    if items == [] then HomeIn(t, n)
    else
      var h, it := HomeAfter(t, items[..|items| - 1], n), items[|items| - 1];
      if it.Open? then h
      else if h == Some(Where(it)) then None
      else if h.None? && EntryName(it.e) == n then Some(Where(it))
      else h
  }

  /** The names that are given a new id, in that order. */
  ghost function Fresh(t: Table, items: seq<Item>): seq<Name> {
    if items == [] then []
    else
      var front, it := items[..|items| - 1], items[|items| - 1];
      var f := Fresh(t, front);
      if it.Define? && HomeAfter(t, front, EntryName(it.e)).None? then f + [EntryName(it.e)] else f
  }

  ghost function IdAt(t: Table, s: Server, i: u16): Option<u16> {
    if s in t && i in t[s] then Some(t[s][i].id) else None
  }

  /** The id that a name had in the tables t. */
  ghost function OldId(t: Table, n: Name): u16 {
    var h := HomeIn(t, n);
    if h.Some? then LookupId(t, h.value.0, h.value.1) else CONTENT_UNKNOWN
  }

  ghost function NameId(t: Table, items: seq<Item>, n: Name): u16 {
    if n in Fresh(t, items) then GlobalId(Fresh(t, items), n) else OldId(t, n)
  }

  /** The id that the server's id i stands for. */
  ghost function IdAfter(t: Table, items: seq<Item>, s: Server, i: u16): Option<u16> {
    if items == [] then IdAt(t, s, i)
    else
      var front, it := items[..|items| - 1], items[|items| - 1];
      if it.Define? && Where(it) == (s, i) then Some(NameId(t, items, EntryName(it.e)))
      else IdAfter(t, front, s, i)
  }

  lemma RegularFront(front: seq<Item>, it: Item)
    requires Regular(front + [it])
    ensures Regular(front)
    ensures it.Define? ==> EntryName(it.e) != [] && |it.e.data| < 0x1_0000 && !Touched(front, Where(it))
  {
    hide EntryName, Where;
    var items := front + [it];
    assert items[|front|] == it;
    assert forall k :: 0 <= k < |front| ==> front[k] == items[k];
  }

  lemma TouchedMore(front: seq<Item>, it: Item, l: Loc, n: Name)
    ensures Touched(front + [it], l) <==> Touched(front, l) || (it.Define? && Where(it) == l)
    ensures TouchedBy(front + [it], l, n) <==>
      TouchedBy(front, l, n) || (it.Define? && Where(it) == l && EntryName(it.e) == n)
    ensures TouchedBy(front, l, n) ==> Touched(front, l)
  {
    hide EntryName, Where;
    var items := front + [it];
    assert items[|front|] == it;
    assert forall k :: 0 <= k < |front| ==> front[k] == items[k];
  }

  /** One step of the folds. */
  lemma FoldMore(t: Table, front: seq<Item>, it: Item, n: Name)
    ensures HomeAfter(t, front + [it], n) ==
      var h := HomeAfter(t, front, n);
      if it.Open? then h
      else if h == Some(Where(it)) then None
      else if h.None? && EntryName(it.e) == n then Some(Where(it))
      else h
    ensures Fresh(t, front + [it]) ==
      if it.Define? && HomeAfter(t, front, EntryName(it.e)).None? then Fresh(t, front) + [EntryName(it.e)]
      else Fresh(t, front)
    ensures forall s: Server, i: u16 ::
              IdAfter(t, front + [it], s, i) == (if it.Define? && Where(it) == (s, i) then
                                                   Some(NameId(t, front + [it], EntryName(it.e)))
                                                 else IdAfter(t, front, s, i))
  {
    hide NameId, EntryName, Where, HomeIn;
    assert (front + [it])[..|front|] == front;
  }

  /** A name that was given a new id has its full definition where it was met; any other has it where it
      had it at the start, if that place was not written again. */
  ghost predicate HomeCase(t: Table, items: seq<Item>, n: Name) {
    match HomeAfter(t, items, n)
    case None => n !in Fresh(t, items) && (HomeIn(t, n).Some? ==> Touched(items, HomeIn(t, n).value))
    case Some(l) =>
      if n in Fresh(t, items) then TouchedBy(items, l, n) && (HomeIn(t, n).Some? ==> Touched(items, HomeIn(t, n).value))
      else HomeIn(t, n) == Some(l) && !Touched(items, l)
  }

  lemma {:induction false} HomeCases(t: Table, items: seq<Item>, n: Name)
    requires Regular(items)
    ensures HomeCase(t, items, n)
  {
    hide Regular, HomeIn, EntryName, Touched, TouchedBy, Fresh, HomeAfter;
    if items == [] {
      NoFold(t, n);
    } else {
      var front, it := items[..|items| - 1], items[|items| - 1];
      assert items == front + [it];
      RegularFront(front, it);
      HomeCases(t, front, n);
      FoldMore(t, front, it, n);
      var home := HomeIn(t, n);
      if home.Some? {
        TouchedMore(front, it, home.value, n);
      }
      var h := HomeAfter(t, front, n);
      if h.Some? {
        TouchedMore(front, it, h.value, n);
      }
      if it.Define? {
        TouchedMore(front, it, Where(it), n);
      }
    }
  }

  lemma NoFold(t: Table, n: Name)
    ensures HomeAfter(t, [], n) == HomeIn(t, n) && Fresh(t, []) == []
    ensures forall l :: !Touched([], l)
    ensures forall s, i :: IdAfter(t, [], s, i) == IdAt(t, s, i)
  {
  }

  lemma {:induction false} FreshDistinct(t: Table, items: seq<Item>)
    requires Regular(items)
    ensures Distinct(Fresh(t, items))
  {
    hide Regular, HomeIn, HomeAfter, EntryName, Touched, TouchedBy;
    if items != [] {
      var front, it := items[..|items| - 1], items[|items| - 1];
      assert items == front + [it];
      RegularFront(front, it);
      FreshDistinct(t, front);
      if it.Define? {
        HomeCases(t, front, EntryName(it.e));
      }
    }
  }

  /** The id of a name does not change unless it is given a new one. */
  lemma NameIdMore(t: Table, front: seq<Item>, it: Item, n: Name)
    requires Regular(front + [it])
    ensures n in Fresh(t, front) || n !in Fresh(t, front + [it]) ==>
      NameId(t, front + [it], n) == NameId(t, front, n)
    ensures n in Fresh(t, front) ==> n in Fresh(t, front + [it])
  {
    hide Regular, HomeIn, HomeAfter, EntryName, Touched, TouchedBy, GlobalId, Fresh, OldId;
    RegularFront(front, it);
    FoldMore(t, front, it, n);
    if it.Define? {
      var m := EntryName(it.e);
      HomeCases(t, front, m);
      if HomeAfter(t, front, m).None? {
        GlobalIdStable(Fresh(t, front), m);
      }
    }
  }

  /** The server's id at a name's full definition stands for the name's id. */
  lemma {:induction false} HomeId(t: Table, items: seq<Item>, n: Name, l: Loc)
    requires Regular(items) && HomeAfter(t, items, n) == Some(l)
    requires HomeIn(t, n).Some? ==> IdAt(t, HomeIn(t, n).value.0, HomeIn(t, n).value.1).Some?
    ensures IdAfter(t, items, l.0, l.1) == Some(NameId(t, items, n))
  {
    hide Regular, HomeIn, HomeAfter, EntryName, Touched, TouchedBy, GlobalId, Fresh, IdAfter;
    if items == [] {
      NoFold(t, n);
    } else {
      var front, it := items[..|items| - 1], items[|items| - 1];
      assert items == front + [it];
      RegularFront(front, it);
      FoldMore(t, front, it, n);
      HomeCases(t, front, n);
      if HomeAfter(t, front, n) == Some(l) {
        HomeId(t, front, n, l);
        NameIdMore(t, front, it, n);
      }
    }
  }

  /** Before the definition at k, the place where n had its full definition at the start was written. */
  ghost predicate Freed(t: Table, items: seq<Item>, k: nat, n: Name)
    requires k <= |items|
  {
    HomeIn(t, n).Some? ==> Touched(items[..k], HomeIn(t, n).value)
  }

  lemma FreedLater(t: Table, items: seq<Item>, j: nat, k: nat, n: Name)
    requires j <= k <= |items| && Freed(t, items, j, n)
    ensures Freed(t, items, k, n)
  {
    hide HomeIn, Where;
    if HomeIn(t, n).Some? {
      var l := HomeIn(t, n).value;
      var i :| 0 <= i < j && items[..j][i].Define? && Where(items[..j][i]) == l;
      assert items[..k][i] == items[..j][i];
    }
  }

  /** A definition of n that comes when n has no full definition left from the start. */
  ghost predicate Renews(t: Table, items: seq<Item>, k: nat, n: Name) {
    k < |items| && items[k].Define? && EntryName(items[k].e) == n && Freed(t, items, k, n)
  }

  lemma RenewsMore(t: Table, front: seq<Item>, it: Item, n: Name)
    ensures (exists k: nat :: Renews(t, front + [it], k, n)) <==>
      (exists k: nat :: Renews(t, front, k, n)) || Renews(t, front + [it], |front|, n)
  {
    hide HomeIn, Touched, EntryName;
    var items := front + [it];
    forall k: nat | k < |front| ensures Renews(t, items, k, n) <==> Renews(t, front, k, n) {
      assert items[..k] == front[..k];
    }
    if k: nat :| Renews(t, items, k, n) {
      assert k < |front| || k == |front|;
    }
    if k: nat :| Renews(t, front, k, n) {
      assert Renews(t, items, k, n);
    }
  }

  /** Exactly the names that occur after their old place was written, or never had one, get a new id. */
  lemma {:induction false} FreshIff(t: Table, items: seq<Item>, n: Name)
    requires Regular(items)
    ensures n in Fresh(t, items) <==> exists k: nat :: Renews(t, items, k, n)
  {
    hide Regular, HomeIn, HomeAfter, EntryName, Touched, TouchedBy, Fresh, Renews;
    if items == [] {
      NoFold(t, n);
      NoRenewal(t, n);
    } else {
      var front, it := items[..|items| - 1], items[|items| - 1];
      assert items == front + [it];
      RegularFront(front, it);
      FreshIff(t, front, n);
      RenewsMore(t, front, it, n);
      FoldMore(t, front, it, n);
      HomeCases(t, front, n);
      RenewsLast(t, front, it, n);
      if h: nat :| Renews(t, front, h, n) {
        RenewedIsFreed(t, front, h, n);
      }
    }
  }

  lemma NoRenewal(t: Table, n: Name)
    ensures !exists k: nat :: Renews(t, [], k, n)
  {
  }

  lemma RenewsLast(t: Table, front: seq<Item>, it: Item, n: Name)
    ensures Renews(t, front + [it], |front|, n) <==>
      it.Define? && EntryName(it.e) == n && (HomeIn(t, n).Some? ==> Touched(front, HomeIn(t, n).value))
  {
    hide HomeIn, Touched, EntryName;
    assert (front + [it])[..|front|] == front && (front + [it])[|front|] == it;
  }

  lemma RenewedIsFreed(t: Table, items: seq<Item>, k: nat, n: Name)
    requires Renews(t, items, k, n)
    ensures HomeIn(t, n).Some? ==> Touched(items, HomeIn(t, n).value)
  {
    hide HomeIn, Touched, EntryName;
    FreedLater(t, items, k, |items|, n);
    assert items[..|items|] == items;
  }

  /** What an id stands for is decided by whether its name had lost its old place before it was met. */
  lemma {:induction false} EntryIds(t: Table, items: seq<Item>, k: nat)
    requires Regular(items) && k < |items| && items[k].Define?
    ensures var n := EntryName(items[k].e);
      && (Freed(t, items, k, n) ==> n in Fresh(t, items))
      && IdAfter(t, items, items[k].srv, items[k].e.id)
         == Some(if Freed(t, items, k, n) then GlobalId(Fresh(t, items), n) else OldId(t, n))
  {
    hide Regular, HomeIn, HomeAfter, EntryName, Touched, TouchedBy, Fresh, Renews, GlobalId, IdAfter, OldId;
    var n := EntryName(items[k].e);
    var front, it := items[..|items| - 1], items[|items| - 1];
    assert items == front + [it];
    RegularFront(front, it);
    FoldMore(t, front, it, n);
    if k == |front| {
      FreshIff(t, items, n);
      LastRenewal(t, items, n);
    } else {
      assert front[..k] == items[..k] && front[k] == items[k];
      EntryIds(t, front, k);
      SamePlaceTwice(items, k);
      NameIdMore(t, front, it, n);
    }
  }

  lemma LastRenewal(t: Table, items: seq<Item>, n: Name)
    requires items != [] && items[|items| - 1].Define? && EntryName(items[|items| - 1].e) == n
    ensures (exists k: nat :: Renews(t, items, k, n)) <==> Freed(t, items, |items| - 1, n)
  {
    hide HomeIn, Touched, EntryName;
    if k: nat :| Renews(t, items, k, n) {
      FreedLater(t, items, k, |items| - 1, n);
    }
    if Freed(t, items, |items| - 1, n) {
      assert Renews(t, items, |items| - 1, n);
    }
  }

  lemma SamePlaceTwice(items: seq<Item>, k: nat)
    requires Regular(items) && k < |items| - 1 && items[k].Define?
    ensures items[|items| - 1].Define? ==> Where(items[|items| - 1]) != (items[k].srv, items[k].e.id)
  {
    hide EntryName;
    if items[|items| - 1].Define? {
      assert Where(items[k]) != Where(items[|items| - 1]);
    }
  }

  // ----- the tables follow the folds -----

  /** A definition is bare, or it carries the bytes it is named after. */
  ghost predicate Shaped(d: NodeDef) {
    if d.name == [] then d.data == [] else |d.data| < 0x1_0000 && EntryName(Entry(d.id, d.data)) == d.name
  }

  /** Tables as a merge leaves them: every name has at most one full definition. */
  ghost predicate Sound(t: Table) {
    && (forall s, i :: s in t && i in t[s] ==> Shaped(t[s][i]))
    && (forall s, i, s', i', n :: Named(t, s, i, n) && Named(t, s', i', n) && n != [] ==> s == s' && i == i')
  }

  ghost predicate HomesFollow(t0: Table, items: seq<Item>, t: Table) {
    forall n: Name, s: Server, i: u16 :: n != [] ==> (Named(t, s, i, n) <==> HomeAfter(t0, items, n) == Some((s, i)))
  }

  ghost predicate IdsFollow(t0: Table, items: seq<Item>, t: Table) {
    forall s, i :: IdAt(t, s, i) == IdAfter(t0, items, s, i)
  }

  /** The bytes of a full definition come from a definition of that server's id, or were there before. */
  ghost predicate From(t0: Table, items: seq<Item>, s: Server, i: u16, d: NodeDef) {
    Define(s, Entry(i, d.data)) in items || (s in t0 && i in t0[s] && t0[s][i].name != [] && t0[s][i].data == d.data)
  }

  ghost predicate Mentioned(items: seq<Item>, s: Server) {
    exists k :: 0 <= k < |items| && items[k].srv == s
  }

  ghost predicate DefsFollow(t0: Table, items: seq<Item>, t: Table) {
    && (forall s :: s in t <==> s in t0 || Mentioned(items, s))
    && (forall s, i :: s in t && i in t[s] ==>
          Shaped(t[s][i]) && (t[s][i].name != [] ==> From(t0, items, s, i, t[s][i])))
  }

  /** After the items, starting with the tables t0 and the counter at 0. */
  ghost predicate Follows(t0: Table, items: seq<Item>, a: MergeState) {
    && HomesFollow(t0, items, a.t)
    && IdsFollow(t0, items, a.t)
    && DefsFollow(t0, items, a.t)
    && a.next == AllocId(|Fresh(t0, items)|)
    && a.total == |Fresh(t0, items)| % 0x1_0000
  }

  lemma FollowsNothing(t0: Table)
    requires Sound(t0)
    ensures Follows(t0, [], MergeState(t0, 0, 0))
  {
    hide Shaped, IdAt;
    forall n: Name, s: Server, i: u16 | n != [] ensures Named(t0, s, i, n) <==> HomeAfter(t0, [], n) == Some((s, i)) {
      NoFold(t0, n);
    }
    forall s, i ensures IdAt(t0, s, i) == IdAfter(t0, [], s, i) {
      NoFold(t0, []);
    }
  }

  lemma HomeUnique(t0: Table, items: seq<Item>, a: MergeState, n: Name, id: u16)
    requires Sound(t0) && Regular(items) && Follows(t0, items, a) && n != []
    ensures Known(a.t, n, id) <==> HomeAfter(t0, items, n).Some? && id == NameId(t0, items, n)
  {
    hide Regular, HomeAfter, IdAfter, Fresh, DefsFollow, NameId, Shaped;
    HomeInTable(t0, n);
    if HomeAfter(t0, items, n).Some? {
      var l := HomeAfter(t0, items, n).value;
      HomeId(t0, items, n, l);
      assert Named(a.t, l.0, l.1, n);
      assert IdAt(a.t, l.0, l.1) == IdAfter(t0, items, l.0, l.1);
    }
  }

  lemma HomeInTable(t: Table, n: Name)
    ensures HomeIn(t, n).Some? ==> IdAt(t, HomeIn(t, n).value.0, HomeIn(t, n).value.1).Some?
    ensures HomeIn(t, n).Some? ==> Named(t, HomeIn(t, n).value.0, HomeIn(t, n).value.1, n)
    ensures HomeIn(t, n).None? ==> forall s, i :: !Named(t, s, i, n)
  {
  }

  lemma OpenFollows(t0: Table, items: seq<Item>, a: MergeState, s: Server)
    requires Follows(t0, items, a)
    ensures Follows(t0, items + [Open(s)], a.(t := Opened(a.t, s)))
  {
    hide HomeAfter, IdAfter, Fresh, AllocId, NameId, Shaped, EntryName;
    var items', t' := items + [Open(s)], Opened(a.t, s);
    forall n: Name, s': Server, i: u16 | n != []
      ensures Named(t', s', i, n) <==> HomeAfter(t0, items', n) == Some((s', i))
    {
      FoldMore(t0, items, Open(s), n);
      assert Named(t', s', i, n) <==> Named(a.t, s', i, n);
    }
    FoldMore(t0, items, Open(s), []);
    forall s', i ensures IdAt(t', s', i) == IdAfter(t0, items', s', i) {
      assert IdAt(t', s', i) == IdAt(a.t, s', i);
    }
    DefsOpen(t0, items, a.t, s);
  }

  lemma MentionedMore(items: seq<Item>, it: Item, s: Server)
    ensures Mentioned(items + [it], s) <==> Mentioned(items, s) || it.srv == s
  {
    var items' := items + [it];
    assert items'[|items|] == it;
    assert forall k :: 0 <= k < |items| ==> items'[k] == items[k];
  }

  lemma DefsOpen(t0: Table, items: seq<Item>, t: Table, s: Server)
    requires DefsFollow(t0, items, t)
    ensures DefsFollow(t0, items + [Open(s)], Opened(t, s))
  {
    hide Shaped, Mentioned;
    forall s' ensures Mentioned(items + [Open(s)], s') <==> Mentioned(items, s') || s' == s {
      MentionedMore(items, Open(s), s');
    }
  }

  lemma DefsPut(t0: Table, items: seq<Item>, t: Table, s: Server, e: Entry, d: NodeDef)
    requires DefsFollow(t0, items, t) && s in t
    requires Shaped(d) && (d.name != [] ==> d.data == e.data)
    ensures DefsFollow(t0, items + [Define(s, e)], Put(t, s, e.id, d))
  {
    hide Shaped, Mentioned;
    var it := Define(s, e);
    forall s' ensures Mentioned(items + [it], s') <==> Mentioned(items, s') || s' == s {
      MentionedMore(items, it, s');
    }
    assert (items + [it])[|items|] == it;
    var t': Table := Put(t, s, e.id, d);
    forall s', i | s' in t' && i in t'[s']
      ensures Shaped(t'[s'][i]) && (t'[s'][i].name != [] ==> From(t0, items + [it], s', i, t'[s'][i]))
    {
      if s' != s || i != e.id {
        assert t'[s'][i] == t[s'][i];
        if t[s'][i].name != [] {
          assert From(t0, items, s', i, t[s'][i]);
        }
      }
    }
  }

  lemma HomesPut(t0: Table, items: seq<Item>, t: Table, s: Server, e: Entry, d: NodeDef)
    requires HomesFollow(t0, items, t) && s in t && EntryName(e) != []
    requires d.name == if HomeAfter(t0, items, EntryName(e)).Some? then [] else EntryName(e)
    ensures HomesFollow(t0, items + [Define(s, e)], Put(t, s, e.id, d))
  {
    hide HomeAfter, EntryName;
    var it := Define(s, e);
    var t': Table := Put(t, s, e.id, d);
    forall n: Name, s': Server, i: u16 | n != []
      ensures Named(t', s', i, n) <==> HomeAfter(t0, items + [it], n) == Some((s', i))
    {
      FoldMore(t0, items, it, n);
      NamedPut(t, s, e.id, d, s', i, n);
      assert Named(t, s', i, n) <==> HomeAfter(t0, items, n) == Some((s', i));
    }
  }

  lemma NamedPut(t: Table, s: Server, i: u16, d: NodeDef, s': Server, i': u16, n: Name)
    requires s in t
    ensures Named(Put(t, s, i, d), s', i', n) <==> if s' == s && i' == i then d.name == n else Named(t, s', i', n)
    ensures IdAt(Put(t, s, i, d), s', i') == if s' == s && i' == i then Some(d.id) else IdAt(t, s', i')
  {
  }

  lemma IdsPut(t0: Table, items: seq<Item>, t: Table, s: Server, e: Entry, d: NodeDef)
    requires IdsFollow(t0, items, t) && s in t
    requires d.id == NameId(t0, items + [Define(s, e)], EntryName(e))
    ensures IdsFollow(t0, items + [Define(s, e)], Put(t, s, e.id, d))
  {
    hide IdAfter, EntryName, IdAt, NameId;
    var it := Define(s, e);
    var t': Table := Put(t, s, e.id, d);
    FoldMore(t0, items, it, EntryName(e));
    forall s', i ensures IdAt(t', s', i) == IdAfter(t0, items + [it], s', i) {
      NamedPut(t, s, e.id, d, s', i, []);
      assert IdAt(t, s', i) == IdAfter(t0, items, s', i);
    }
  }

  /** The name has its definition: the server's id is pointed at its id. */
  lemma ShareStep(t0: Table, items: seq<Item>, a: MergeState, s: Server, e: Entry, id: u16)
    requires Sound(t0) && Regular(items + [Define(s, e)]) && Follows(t0, items, a) && s in a.t
    requires Known(a.t, EntryName(e), id)
    ensures Follows(t0, items + [Define(s, e)], Shared(a, s, e, id))
  {
    hide Regular, HomeAfter, IdAfter, Fresh, NameId, EntryName, AllocId, HomesFollow, IdsFollow, DefsFollow, Sound,
         Known;
    var n, it := EntryName(e), Define(s, e);
    RegularFront(items, it);
    HomeUnique(t0, items, a, n, id);
    FoldMore(t0, items, it, n);
    HomeCases(t0, items, n);
    NameIdMore(t0, items, it, n);
    var d := NodeDef(id, [], []);
    HomesPut(t0, items, a.t, s, e, d);
    IdsPut(t0, items, a.t, s, e, d);
    DefsPut(t0, items, a.t, s, e, d);
  }

  /** The name has none: its definition is kept and gets the next id. */
  lemma NewStep(t0: Table, items: seq<Item>, a: MergeState, s: Server, e: Entry)
    requires Sound(t0) && Regular(items + [Define(s, e)]) && Follows(t0, items, a) && s in a.t
    requires forall id :: !Known(a.t, EntryName(e), id)
    ensures Follows(t0, items + [Define(s, e)], Renewed(a, s, e))
  {
    hide Regular, HomeAfter, IdAfter, Fresh, EntryName, AllocId, HomesFollow, IdsFollow, DefsFollow, Sound, Known,
         GlobalId;
    var n, it := EntryName(e), Define(s, e);
    RegularFront(items, it);
    HomeUnique(t0, items, a, n, NameId(t0, items, n));
    FoldMore(t0, items, it, n);
    HomeCases(t0, items, n);
    GlobalIdStable(Fresh(t0, items), n);
    AllocMore(|Fresh(t0, items)|);
    var d := NodeDef(a.next, n, e.data);
    OwnBytes(e, a.next);
    HomesPut(t0, items, a.t, s, e, d);
    IdsPut(t0, items, a.t, s, e, d);
    DefsPut(t0, items, a.t, s, e, d);
  }

  lemma AllocMore(k: nat)
    ensures AllocId(k + 1) == NextId(AllocId(k))
    ensures (k % 0x1_0000 + 1) % 0x1_0000 == (k + 1) % 0x1_0000
  {
  }

  lemma OwnBytes(e: Entry, id: u16)
    requires |e.data| < 0x1_0000
    ensures Shaped(NodeDef(id, EntryName(e), e.data)) || EntryName(e) == []
  {
  }

  /** Whatever sound tables a merge starts with, and whatever regular definitions it meets: the tables,
      the counter and the total are what the folds say. */
  lemma {:induction false} MergeFollows(t0: Table, items: seq<Item>, b: MergeState)
    requires Sound(t0) && Regular(items) && Reaches(MergeState(t0, 0, 0), items, b)
    ensures Follows(t0, items, b)
    decreases |items|
  {
    hide Sound, Regular, Follows, Known, EntryName, Shared, Renewed, Opened;
    if items == [] {
      FollowsNothing(t0);
    } else {
      var front, it := items[..|items| - 1], items[|items| - 1];
      assert items == front + [it];
      var m: MergeState :| Reaches(MergeState(t0, 0, 0), front, m) && MergeStep(m, it, b);
      RegularFront(front, it);
      MergeFollows(t0, front, m);
      match it
      case Open(s) => OpenFollows(t0, front, m, s);
      case Define(s, e) =>
        if id: u16 :| Known(m.t, EntryName(e), id) && b == Shared(m, s, e, id) {
          ShareStep(t0, front, m, s, e, id);
        } else {
          NewStep(t0, front, m, s, e);
        }
    }
  }

  lemma FollowsSound(t0: Table, items: seq<Item>, a: MergeState)
    requires Follows(t0, items, a)
    ensures Sound(a.t)
  {
    hide HomeAfter, IdsFollow, Shaped, From, Mentioned, Fresh;
  }

  // ----- what is published -----

  /** The definitions that are sent: each distinct name once, under its global id, with bytes that some
      server sent for it. */
  ghost predicate Publishes(es: seq<Entry>, defs: map<Server, seq<Entry>>, names: seq<Name>) {
    && Fits(es)
    && |es| == |names|
    && Distinct(EntryNames(es))
    && (forall k :: 0 <= k < |es| ==> Published(es[k], defs, names))
    && (forall n :: n in names ==> n in EntryNames(es))
  }

  ghost predicate Published(e: Entry, defs: map<Server, seq<Entry>>, names: seq<Name>) {
    && EntryName(e) in names
    && e.id == GlobalId(names, EntryName(e))
    && exists s, i :: s in defs && Entry(i, e.data) in defs[s]
  }

  /** One definition of an emitted manager. */
  lemma EmittedEntry(t0: Table, items: seq<Item>, a: MergeState, es: seq<Entry>, at: seq<Loc>, k: nat)
    requires Sound(t0) && Regular(items) && Follows(t0, items, a) && Lists(es, at, a.t) && k < |es|
    ensures var n := EntryName(es[k]);
      && n != [] && |es[k].data| < 0x1_0000
      && HomeAfter(t0, items, n) == Some(at[k])
      && es[k].id == NameId(t0, items, n)
    ensures at[k].0 in a.t && at[k].1 in a.t[at[k].0] && a.t[at[k].0][at[k].1].data == es[k].data
    ensures From(t0, items, at[k].0, at[k].1, a.t[at[k].0][at[k].1])
  {
    hide Sound, Regular, HomeAfter, EntryName, NameId, From, Mentioned, IdsFollow, Fresh, Known, Distinct;
    var l := at[k];
    var d := a.t[l.0][l.1];
    assert Shaped(d);
    SameBytesSameName(Entry(d.id, d.data), es[k]);
    assert Named(a.t, l.0, l.1, d.name);
    KnownHere(a.t, l, d);
    HomeUnique(t0, items, a, d.name, d.id);
  }

  lemma KnownHere(t: Table, l: Loc, d: NodeDef)
    requires l.0 in t && l.1 in t[l.0] && t[l.0][l.1] == d
    ensures Known(t, d.name, d.id)
  {
    assert Named(t, l.0, l.1, d.name);
  }

  lemma SameBytesSameName(a: Entry, b: Entry)
    requires a.data == b.data
    ensures EntryName(a) == EntryName(b)
  {
  }

  /** An emitted manager holds, once and under its id, every name that has a full definition. */
  lemma EmittedNames(t0: Table, items: seq<Item>, a: MergeState, es: seq<Entry>)
    requires Sound(t0) && Regular(items) && Follows(t0, items, a) && ListsAll(es, a.t)
    ensures Fits(es) && Distinct(EntryNames(es))
    ensures forall k :: 0 <= k < |es| ==> es[k].id == NameId(t0, items, EntryName(es[k]))
    ensures forall n :: n in EntryNames(es) <==> n != [] && HomeAfter(t0, items, n).Some?
  {
    hide Sound, Regular, HomeAfter, EntryName, NameId, From, Follows, Known, Complete, Distinct;
    var at: seq<Loc> :| Lists(es, at, a.t) && Complete(at, a.t);
    var ns := EntryNames(es);
    assert |at| == |es| && Distinct(at);
    hide Lists;
    forall k | 0 <= k < |es|
      ensures |es[k].data| < 0x1_0000 && es[k].id == NameId(t0, items, ns[k])
      ensures ns[k] != [] && HomeAfter(t0, items, ns[k]) == Some(at[k])
    {
      EmittedEntry(t0, items, a, es, at, k);
    }
    HomesDistinct(t0, items, ns, at);
    forall n | n != [] && HomeAfter(t0, items, n).Some? ensures n in ns {
      HomeListed(t0, items, a, es, at, n);
    }
  }

  lemma HomesDistinct(t0: Table, items: seq<Item>, ns: seq<Name>, at: seq<Loc>)
    requires |ns| == |at| && Distinct(at)
    requires forall k :: 0 <= k < |ns| ==> HomeAfter(t0, items, ns[k]) == Some(at[k])
    ensures Distinct(ns)
  {
    hide HomeAfter;
  }

  lemma HomeListed(t0: Table, items: seq<Item>, a: MergeState, es: seq<Entry>, at: seq<Loc>, n: Name)
    requires Sound(t0) && Regular(items) && Follows(t0, items, a) && Lists(es, at, a.t) && Complete(at, a.t)
    requires n != [] && HomeAfter(t0, items, n).Some?
    ensures n in EntryNames(es)
  {
    hide Sound, Regular, HomeAfter, EntryName, NameId, From, IdsFollow, Known, Mentioned;
    var l := HomeAfter(t0, items, n).value;
    assert Named(a.t, l.0, l.1, n);
    NamedHasData(a.t[l.0][l.1]);
    assert l in at;
    var k :| 0 <= k < |at| && at[k] == l;
    SameBytesSameName(Entry(a.t[l.0][l.1].id, a.t[l.0][l.1].data), es[k]);
    assert EntryNames(es)[k] == n;
  }

  lemma NamedHasData(d: NodeDef)
    requires Shaped(d) && d.name != []
    ensures d.data != [] && EntryName(Entry(d.id, d.data)) == d.name
  {
  }

  /** The items are taken from the servers' definitions, and leave none of them out. */
  ghost predicate Draws(items: seq<Item>, defs: map<Server, seq<Entry>>) {
    && (forall it :: it in items ==> it.srv in defs && (it.Define? ==> it.e in defs[it.srv]))
    && (forall s, e :: s in defs && e in defs[s] ==> Define(s, e) in items)
    && (forall s :: s in defs ==> Open(s) in items)
  }

  /** No name keeps its old place. */
  ghost predicate AllFreed(t: Table, items: seq<Item>) {
    forall n :: HomeIn(t, n).Some? ==> Touched(items, HomeIn(t, n).value)
  }

  lemma FreshNames(t: Table, items: seq<Item>, n: Name)
    requires Regular(items) && AllFreed(t, items)
    ensures n in Fresh(t, items) <==> n != [] && HomeAfter(t, items, n).Some?
    ensures n in Fresh(t, items) ==> NameId(t, items, n) == GlobalId(Fresh(t, items), n)
  {
    hide Regular, HomeAfter, EntryName, HomeIn, Touched, TouchedBy, Fresh, GlobalId, OldId;
    HomeCases(t, items, n);
    if n in Fresh(t, items) {
      FreshNamed(t, items, n);
    } else if HomeIn(t, n).Some? {
      assert Touched(items, HomeIn(t, n).value);
    }
  }

  /** Every full definition of the tables is one of that server's own. */
  ghost predicate OwnedBy(t: Table, defs: map<Server, seq<Entry>>) {
    forall s, i :: s in t && i in t[s] && t[s][i].name != [] ==> s in defs && Entry(i, t[s][i].data) in defs[s]
  }

  /** If no name kept its old place, the names with a new id are what is published. */
  lemma FreshPublished(t0: Table, items: seq<Item>, a: MergeState, es: seq<Entry>, defs: map<Server, seq<Entry>>)
    requires Sound(t0) && Regular(items) && Follows(t0, items, a) && ListsAll(es, a.t) && Draws(items, defs)
    requires AllFreed(t0, items) && OwnedBy(t0, defs)
    ensures Publishes(es, defs, Fresh(t0, items))
  {
    hide Sound, Regular, HomeAfter, EntryName, Follows, Fresh, GlobalId, Draws, AllFreed, OwnedBy, NameId, ListsAll;
    var names, ns := Fresh(t0, items), EntryNames(es);
    EmittedNames(t0, items, a, es);
    forall k | 0 <= k < |es| ensures Published(es[k], defs, names) {
      assert ns[k] in ns;
      FreshNames(t0, items, ns[k]);
      EmittedFrom(t0, items, a, es, defs, k);
    }
    forall n ensures n in ns <==> n in names {
      FreshNames(t0, items, n);
    }
    FreshDistinct(t0, items);
    DistinctSize(ns);
    DistinctSize(names);
    assert (set n | n in ns) == (set n | n in names);
  }

  lemma EmittedFrom(t0: Table, items: seq<Item>, a: MergeState, es: seq<Entry>, defs: map<Server, seq<Entry>>, k: nat)
    requires Sound(t0) && Regular(items) && Follows(t0, items, a) && ListsAll(es, a.t) && Draws(items, defs)
    requires OwnedBy(t0, defs) && k < |es|
    ensures exists s, i :: s in defs && Entry(i, es[k].data) in defs[s]
  {
    hide Sound, Regular, HomeAfter, EntryName, Follows, From, Draws, NameId;
    var at: seq<Loc> :| Lists(es, at, a.t) && Complete(at, a.t);
    EmittedEntry(t0, items, a, es, at, k);
    FromDefs(t0, items, at[k], a.t[at[k].0][at[k].1], defs);
  }

  lemma FromDefs(t0: Table, items: seq<Item>, l: Loc, d: NodeDef, defs: map<Server, seq<Entry>>)
    requires Draws(items, defs) && From(t0, items, l.0, l.1, d) && OwnedBy(t0, defs)
    ensures l.0 in defs && Entry(l.1, d.data) in defs[l.0]
  {
  }

  lemma FreshNamed(t: Table, items: seq<Item>, n: Name)
    requires Regular(items) && n in Fresh(t, items)
    ensures n != []
  {
    hide HomeIn, EntryName, Fresh, Touched;
    FreshIff(t, items, n);
  }

  // ----- the definitions of the servers -----

  ghost predicate GoodDefs(defs: map<Server, seq<Entry>>) {
    forall s :: s in defs ==> WellFormed(defs[s]) && Fits(defs[s])
  }

  lemma {:induction false} ParsedFit(m: seq<byte>, pos: nat, n: nat)
    ensures Fits(ParseEntries(m, pos, n))
  {
    hide EntriesEnd, Next, U16At;
    if n > 0 {
      ParsedFit(m, pos, n - 1);
    }
  }

  lemma ParsedGood(z: Codec, mgrs: map<Server, seq<byte>>)
    requires GoodManagers(z, mgrs)
    ensures GoodDefs(Parsed(z, mgrs))
  {
    hide WellFormed, Fits, ParseEntries;
    var defs := Parsed(z, mgrs);
    forall s | s in defs ensures Fits(defs[s]) {
      var m := z.inflate(mgrs[s]).value.data;
      ParsedFit(m, Next(m, 1, 2) + 4, U16At(m, 1));
    }
  }

  lemma {:induction false} ItemsDraw(order: seq<Server>, defs: map<Server, seq<Entry>>)
    requires forall s :: s in order ==> s in defs
    ensures forall it :: it in ItemsOf(order, defs) ==> it.srv in order && (it.Define? ==> it.e in defs[it.srv])
    ensures forall s, e :: s in order && e in defs[s] ==> Define(s, e) in ItemsOf(order, defs)
    ensures forall s :: s in order ==> Open(s) in ItemsOf(order, defs)
  {
    if order != [] {
      var front, s := order[..|order| - 1], order[|order| - 1];
      assert order == front + [s];
      ItemsDraw(front, defs);
      forall e | e in defs[s] ensures Define(s, e) in DefinesOf(s, defs[s]) {
        var k :| 0 <= k < |defs[s]| && defs[s][k] == e;
        assert DefinesOf(s, defs[s])[k] == Define(s, e);
      }
    }
  }

  lemma {:induction false} ItemsRegular(order: seq<Server>, defs: map<Server, seq<Entry>>)
    requires Distinct(order) && GoodDefs(defs) && forall s :: s in order ==> s in defs
    ensures Regular(ItemsOf(order, defs))
  {
    hide EntryName, ItemsOf;
    if order == [] {
      NoItems(MergeState(map[], 0, 0), defs);
      assert ItemsOf([], defs) == [] by {
        NoneAtAll(defs);
      }
    } else {
      var front, s := order[..|order| - 1], order[|order| - 1];
      assert order == front + [s];
      ItemsRegular(front, defs);
      ItemsDraw(front, defs);
      ItemsMore(front, s, defs);
      var xs, ys := ItemsOf(front, defs), [Open(s)] + DefinesOf(s, defs[s]);
      forall k | 0 <= k < |xs| ensures xs[k].srv != s {
        assert xs[k] in xs;
      }
      OneServerRegular(s, defs[s]);
      RegularConcat(xs, ys);
    }
  }

  lemma NoneAtAll(defs: map<Server, seq<Entry>>)
    ensures ItemsOf([], defs) == []
  {
  }

  lemma OneServerRegular(s: Server, es: seq<Entry>)
    requires WellFormed(es) && Fits(es)
    ensures Regular([Open(s)] + DefinesOf(s, es))
    ensures forall k :: 0 <= k < |es| + 1 ==> ([Open(s)] + DefinesOf(s, es))[k].srv == s
  {
    hide EntryName;
  }

  lemma RegularConcat(xs: seq<Item>, ys: seq<Item>)
    requires Regular(xs) && Regular(ys)
    requires forall j, k :: 0 <= j < |xs| && 0 <= k < |ys| ==> xs[j].srv != ys[k].srv
    ensures Regular(xs + ys)
  {
    hide EntryName;
  }

  lemma ItemsOfAll(z: Codec, mgrs: map<Server, seq<byte>>, order: seq<Server>)
    requires GoodManagers(z, mgrs) && AllInflate(z, mgrs) && Enumerates(order, mgrs.Keys)
    ensures Regular(ItemsOf(order, Parsed(z, mgrs))) && Draws(ItemsOf(order, Parsed(z, mgrs)), Parsed(z, mgrs))
  {
    hide GoodManagers, ItemsOf, Regular, ParseManager, GoodDefs;
    ParsedGood(z, mgrs);
    ItemsDraw(order, Parsed(z, mgrs));
    ItemsRegular(order, Parsed(z, mgrs));
  }

  // ----- the first merge -----

  /** The names in the order in which a merge meets them. */
  function NamesMet(items: seq<Item>): seq<Name> {
    if items == [] then []
    else
      var it := items[|items| - 1];
      NamesMet(items[..|items| - 1]) + if it.Define? then [EntryName(it.e)] else []
  }

  lemma NothingNamed(n: Name)
    ensures HomeIn(map[], n).None?
    ensures Sound(map[])
  {
  }

  lemma {:induction false} FreshAtFirst(items: seq<Item>)
    requires Regular(items)
    ensures Fresh(map[], items) == Dedup(NamesMet(items))
  {
    hide Regular, HomeAfter, HomeIn, EntryName, Touched, TouchedBy;
    if items != [] {
      var front, it := items[..|items| - 1], items[|items| - 1];
      assert items == front + [it];
      RegularFront(front, it);
      FreshAtFirst(front);
      if it.Define? {
        HomeCases(map[], front, EntryName(it.e));
        NothingNamed(EntryName(it.e));
        assert NamesMet(items)[..|NamesMet(items)| - 1] == NamesMet(front);
      } else {
        assert NamesMet(items) == NamesMet(front);
      }
    }
  }

  /** Every id of every server resolves to the global id of its name, and nothing else resolves. */
  ghost predicate Multiplexes(t: Table, defs: map<Server, seq<Entry>>, names: seq<Name>) {
    && Distinct(names)
    && Sound(t)
    && t.Keys == defs.Keys
    && (forall s, k :: s in defs && 0 <= k < |defs[s]| ==> ResolvesEntry(t, s, defs[s][k], names))
    && (forall s, i :: s in t && i in t[s] ==> Defines(defs[s], i))
  }

  ghost predicate ResolvesEntry(t: Table, s: Server, e: Entry, names: seq<Name>) {
    && EntryName(e) in names
    && IdAt(t, s, e.id) == Some(GlobalId(names, EntryName(e)))
  }

  /** The outcome of a first merge: the tables t and the published manager blob. */
  ghost predicate Merges(z: Codec, mgrs: map<Server, seq<byte>>, t: Table, blob: seq<byte>,
                         names: seq<Name>, es: seq<Entry>)
  {
    && AllInflate(z, mgrs)
    && Multiplexes(t, Parsed(z, mgrs), names)
    && Publishes(es, Parsed(z, mgrs), names)
    && blob == z.deflate(EncodeManager(|es| % 0x1_0000, es))
  }

  lemma {:induction false} OnlyDefined(t: Table, items: seq<Item>, s: Server, i: u16)
    requires IdAfter(t, items, s, i).Some?
    ensures IdAt(t, s, i).Some? || exists k :: 0 <= k < |items| && items[k].Define? && Where(items[k]) == (s, i)
  {
    hide NameId;
    if items != [] {
      var front := items[..|items| - 1];
      if IdAfter(t, front, s, i).Some? {
        OnlyDefined(t, front, s, i);
        if k :| 0 <= k < |front| && front[k].Define? && Where(front[k]) == (s, i) {
          assert Where(items[k]) == (s, i);
        }
      }
      if items[|front|].Define? && Where(items[|front|]) == (s, i) {
        assert Where(items[|front|]) == (s, i);
      }
    }
  }

  lemma FirstKeys(items: seq<Item>, defs: map<Server, seq<Entry>>, a: MergeState)
    requires Draws(items, defs) && Follows(map[], items, a)
    ensures a.t.Keys == defs.Keys
  {
    hide HomesFollow, IdsFollow, Shaped, From, Fresh;
    forall s ensures Mentioned(items, s) <==> s in defs {
      if k: int :| 0 <= k < |items| && items[k].srv == s {
        assert items[k] in items;
      }
      if s in defs {
        assert Open(s) in items;
        var k :| 0 <= k < |items| && items[k] == Open(s);
      }
    }
  }

  lemma FirstResolves(items: seq<Item>, defs: map<Server, seq<Entry>>, a: MergeState, s: Server, k: nat)
    requires Regular(items) && Draws(items, defs) && Follows(map[], items, a) && s in defs && k < |defs[s]|
    ensures ResolvesEntry(a.t, s, defs[s][k], Fresh(map[], items))
  {
    hide Regular, HomesFollow, DefsFollow, Fresh, EntryName, HomeIn, GlobalId, IdAfter, IdAt;
    var e := defs[s][k];
    assert Define(s, e) in items;
    var j :| 0 <= j < |items| && items[j] == Define(s, e);
    EntryIds(map[], items, j);
    NothingNamed(EntryName(e));
    assert IdAt(a.t, s, e.id) == IdAfter(map[], items, s, e.id);
  }

  lemma FirstOnly(items: seq<Item>, defs: map<Server, seq<Entry>>, a: MergeState, s: Server, i: u16)
    requires Draws(items, defs) && Follows(map[], items, a) && IdAt(a.t, s, i).Some?
    ensures s in defs && Defines(defs[s], i)
  {
    hide HomesFollow, DefsFollow, Fresh, IdAfter;
    assert IdAt(a.t, s, i) == IdAfter(map[], items, s, i);
    OnlyDefined(map[], items, s, i);
    var j :| 0 <= j < |items| && items[j].Define? && Where(items[j]) == (s, i);
    assert items[j] in items;
    var k :| 0 <= k < |defs[s]| && defs[s][k] == items[j].e;
  }

  lemma FirstMultiplexes(items: seq<Item>, defs: map<Server, seq<Entry>>, a: MergeState)
    requires Regular(items) && Draws(items, defs) && Follows(map[], items, a)
    ensures Multiplexes(a.t, defs, Fresh(map[], items))
  {
    hide Regular, Draws, Follows, Fresh, Sound, ResolvesEntry, Defines;
    FreshDistinct(map[], items);
    FollowsSound(map[], items, a);
    FirstKeys(items, defs, a);
    forall s, k | s in defs && 0 <= k < |defs[s]| ensures ResolvesEntry(a.t, s, defs[s][k], Fresh(map[], items)) {
      FirstResolves(items, defs, a, s, k);
    }
    forall s, i | s in a.t && i in a.t[s] ensures Defines(defs[s], i) {
      FirstOnly(items, defs, a, s, i);
    }
  }

  /** A merge at process start, over the servers in any order: names are numbered in the order in which
      they are met, every id resolves to the number of its name, and every name is published once. */
  lemma FirstMerge(z: Codec, mgrs: map<Server, seq<byte>>, order: seq<Server>, t: Table, blob: seq<byte>,
                   es: seq<Entry>)
    requires GoodManagers(z, mgrs) && Outcome(z, mgrs, map[], order, t, blob, es)
    ensures Merges(z, mgrs, t, blob, Dedup(NamesMet(ItemsOf(order, Parsed(z, mgrs)))), es)
  {
    hide GoodManagers, Reaches, ItemsOf, Regular, Draws, Follows, Fresh, Sound, ListsAll, Publishes, Multiplexes,
         EncodeManager, AllocId;
    var items, defs := ItemsOf(order, Parsed(z, mgrs)), Parsed(z, mgrs);
    var next: u16, total: u16 :|
      Reaches(MergeState(map[], 0, 0), items, MergeState(t, next, total)) && blob == z.deflate(EncodeManager(total, es));
    var a := MergeState(t, next, total);
    ItemsOfAll(z, mgrs, order);
    NothingNamed([]);
    MergeFollows(map[], items, a);
    FreshAtFirst(items);
    FirstMultiplexes(items, defs, a);
    NothingToFree(items, defs);
    FreshPublished(map[], items, a, es, defs);
    FollowsTotal(map[], items, a);
    PublishesSize(es, defs, Fresh(map[], items));
  }

  lemma NothingToFree(items: seq<Item>, defs: map<Server, seq<Entry>>)
    ensures AllFreed(map[], items) && OwnedBy(map[], defs)
  {
    hide HomeIn;
    forall n ensures HomeIn(map[], n).None? {
      NothingNamed(n);
    }
  }

  lemma FollowsTotal(t0: Table, items: seq<Item>, a: MergeState)
    requires Follows(t0, items, a)
    ensures a.next == AllocId(|Fresh(t0, items)|) && a.total == |Fresh(t0, items)| % 0x1_0000
  {
    hide HomesFollow, IdsFollow, DefsFollow, Fresh, AllocId;
  }

  lemma PublishesSize(es: seq<Entry>, defs: map<Server, seq<Entry>>, names: seq<Name>)
    requires Publishes(es, defs, names)
    ensures |es| == |names|
  {
  }

  // ----- what the client reads -----

  /** What the client reads under a name's global id is that name. */
  lemma ClientReadsName(es: seq<Entry>, defs: map<Server, seq<Entry>>, names: seq<Name>, n: Name)
    requires Publishes(es, defs, names) && n in names && |names| <= 65533
    ensures MeaningOf(es, GlobalId(names, n)) == Node(n)
  {
    hide GlobalId, EntryName, MeaningOf;
    var ns := EntryNames(es);
    var k :| 0 <= k < |ns| && ns[k] == n;
    forall i, j | 0 <= i < j < |es| ensures es[i].id != es[j].id {
      assert Published(es[i], defs, names) && Published(es[j], defs, names);
      assert ns[i] != ns[j];
      GlobalIdInjective(names, ns[i], ns[j]);
    }
    assert Published(es[k], defs, names);
    GlobalIdInjective(names, n, n);
    MeaningOfDefined(es, k);
  }

  /** The heart of the multiplexer. For every server, known to the merge or not, and every id that server
      did not leave to the engine: what the client reads under the translated id is what the server
      meant, undefined ids included. */
  lemma LookupPreservesMeaning(t: Table, defs: map<Server, seq<Entry>>, names: seq<Name>, es: seq<Entry>,
                               s: Server, id: u16)
    requires Multiplexes(t, defs, names) && Publishes(es, defs, names) && |names| <= 65533
    requires WellFormed(ServerDefs(defs, s)) && !Reserved(id)
    ensures MeaningOf(es, LookupId(t, s, id)) == MeaningOf(ServerDefs(defs, s), id)
  {
    hide GlobalId, EntryName, MeaningOf, Sound, Publishes;
    if s in defs && Defines(defs[s], id) {
      var k :| 0 <= k < |defs[s]| && defs[s][k].id == id;
      assert ResolvesEntry(t, s, defs[s][k], names);
      ClientReadsName(es, defs, names, EntryName(defs[s][k]));
      MeaningOfDefined(defs[s], k);
    } else {
      assert !(s in t && id in t[s]);
      MeaningOfUndefined(ServerDefs(defs, s), id);
      MeaningOfUnknown(es);
    }
  }

  /** Ids of two servers are translated to one id exactly when they stand for the same node name. */
  lemma SharedIffSameName(t: Table, defs: map<Server, seq<Entry>>, names: seq<Name>, s: Server, i: nat, s': Server,
                          j: nat)
    requires Multiplexes(t, defs, names) && |names| <= 65533
    requires s in defs && i < |defs[s]| && s' in defs && j < |defs[s']|
    ensures LookupId(t, s, defs[s][i].id) == LookupId(t, s', defs[s'][j].id)
       <==> EntryName(defs[s][i]) == EntryName(defs[s'][j])
  {
    hide GlobalId, EntryName, Sound;
    assert ResolvesEntry(t, s, defs[s][i], names) && ResolvesEntry(t, s', defs[s'][j], names);
    GlobalIdInjective(names, EntryName(defs[s][i]), EntryName(defs[s'][j]));
  }

  lemma ResolvesAt(t: Table, defs: map<Server, seq<Entry>>, names: seq<Name>, s: Server, k: nat)
    requires Multiplexes(t, defs, names) && s in defs && k < |defs[s]|
    ensures ResolvesEntry(t, s, defs[s][k], names)
    ensures LookupId(t, s, defs[s][k].id) == GlobalId(names, EntryName(defs[s][k]))
  {
    hide EntryName, Sound, GlobalId;
  }

  lemma PublishedOnce(es: seq<Entry>, defs: map<Server, seq<Entry>>, names: seq<Name>, n: Name) returns (k: nat)
    requires Publishes(es, defs, names) && n in names
    ensures k < |es| && EntryName(es[k]) == n && es[k].id == GlobalId(names, n)
    ensures forall m :: 0 <= m < |es| && m != k ==> EntryName(es[m]) != n
  {
    hide EntryName, GlobalId;
    k :| 0 <= k < |es| && EntryNames(es)[k] == n;
    assert Published(es[k], defs, names);
    forall m | 0 <= m < |es| && m != k ensures EntryName(es[m]) != n {
      assert EntryNames(es)[m] != EntryNames(es)[k];
    }
  }

  /** Two definitions as servers write them are shared exactly when the names in their bytes agree, whatever
      the versions and the rest; a shared name is published once, under the id it is translated to. */
  lemma SharedByBytes(t: Table, defs: map<Server, seq<Entry>>, names: seq<Name>, es: seq<Entry>, s: Server, i: nat,
                      s': Server, j: nat, v: byte, n: Name, rest: seq<byte>, v': byte, n': Name, rest': seq<byte>)
    requires Multiplexes(t, defs, names) && Publishes(es, defs, names) && |names| <= 65533
    requires s in defs && i < |defs[s]| && s' in defs && j < |defs[s']| && |n| < 0x1_0000 && |n'| < 0x1_0000
    requires defs[s][i].data == NodeBytes(v, n, rest) && defs[s'][j].data == NodeBytes(v', n', rest')
    ensures LookupId(t, s, defs[s][i].id) == LookupId(t, s', defs[s'][j].id) <==> n == n'
    ensures exists k :: 0 <= k < |es| && EntryName(es[k]) == n && es[k].id == LookupId(t, s, defs[s][i].id)
                        && forall m :: 0 <= m < |es| && m != k ==> EntryName(es[m]) != n
  {
    hide EntryName, GlobalId, NodeBytes, Multiplexes, Publishes, LookupId;
    NameStands(defs[s][i].id, v, n, rest);
    NameStands(defs[s'][j].id, v', n', rest');
    SharedIffSameName(t, defs, names, s, i, s', j);
    ResolvesAt(t, defs, names, s, i);
    var k := PublishedOnce(es, defs, names, n);
  }

  // ----- end to end -----

  lemma ClientParsesPublished(z: Codec, defs: map<Server, seq<Entry>>, blob: seq<byte>, names: seq<Name>, es: seq<Entry>)
    requires Lawful(z) && Publishes(es, defs, names) && |names| <= 65533
    requires blob == z.deflate(EncodeManager(|es| % 0x1_0000, es))
    ensures z.inflate(blob).Some? && ParseManager(z.inflate(blob).value.data) == es
  {
    hide Published, EntryNames, Distinct, ParseManager, EncodeManager;
    InflateDeflate(z, EncodeManager(|es|, es));
    ManagerRoundTrip(es);
  }

  /** From the compressed managers to the compressed manager: every id a server uses means, once
      translated, the same thing to the client. */
  lemma MergePreservesMeaning(z: Codec, mgrs: map<Server, seq<byte>>, t: Table, blob: seq<byte>,
                              names: seq<Name>, es: seq<Entry>, s: Server, id: u16)
    requires Lawful(z) && GoodManagers(z, mgrs)
    requires Merges(z, mgrs, t, blob, names, es) && |names| <= 65533
    requires !Reserved(id)
    ensures ClientMeaning(z, blob, LookupId(t, s, id)) == ServerMeaning(z, mgrs, s, id)
  {
    hide Multiplexes, Publishes, MeaningOf, LookupId, ParseManager, EncodeManager, Lawful;
    ClientParsesPublished(z, Parsed(z, mgrs), blob, names, es);
    if s !in mgrs {
      NothingReserved();
    }
    LookupPreservesMeaning(t, Parsed(z, mgrs), names, es, s, id);
  }
}
