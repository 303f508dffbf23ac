/** What a second merge does. When the connection to a server's RPC client is lost, the reconnection loads
    that server's media again and merges the managers of all servers once more (rpc.go, media.go), into the
    tables of the first merge and with the counter back at 0. The scan for a known name then also finds the
    name's own definition, and the definition is replaced by a bare one. */
module SecondMerge {
  import opened Collections
  import opened Wire
  import opened Zlib
  import opened NodeDefs
  import opened NodeMerge

  /** The tables of a first merge: every name has its full definition at one of the ids that stand for it. */
  ghost predicate FirstTables(t: Table, defs: map<Server, seq<Entry>>, names: seq<Name>) {
    && Multiplexes(t, defs, names)
    && OwnedBy(t, defs)
    && (forall n :: n in names ==> n != [] && HomeIn(t, n).Some?)
  }

  /** Before the definition at k, the second merge has gone over the one that held the full definition of
      the same name. */
  ghost predicate Behind(t1: Table, items: seq<Item>, k: nat)
    requires k < |items| && items[k].Define?
  {
    exists j :: 0 <= j < k && items[j].Define? && Named(t1, items[j].srv, items[j].e.id, EntryName(items[k].e))
  }

  /** Some definition of n comes after the one that held its full definition. */
  ghost predicate Followed(t1: Table, items: seq<Item>, n: Name) {
    exists k :: 0 <= k < |items| && items[k].Define? && EntryName(items[k].e) == n && Behind(t1, items, k)
  }

  /** The names met after their old place was written. */
  ghost function FollowNames(t1: Table, items: seq<Item>): seq<Name> {
    if items == [] then []
    else
      var k := |items| - 1;
      FollowNames(t1, items[..k]) + if items[k].Define? && Behind(t1, items, k) then [EntryName(items[k].e)] else []
  }

  /** Two merges of the same managers: the tables t1, the manager blob1 and the names of the first; the
      order, tables and manager of the second; and the names whose place was written by the second before
      they were met, in that order. */
  datatype Twice = Twice(z: Codec, mgrs: map<Server, seq<byte>>, t1: Table, blob1: seq<byte>, names: seq<Name>,
                         order: seq<Server>, t2: Table, blob2: seq<byte>, again: seq<Name>)

  /** What the second merge goes through. */
  ghost function Items(r: Twice): seq<Item> {
    ItemsOf(r.order, Parsed(r.z, r.mgrs))
  }

  ghost predicate TwoMerges(r: Twice) {
    && Lawful(r.z)
    && GoodManagers(r.z, r.mgrs)
    && (exists order1, es1 ::
          && Outcome(r.z, r.mgrs, map[], order1, r.t1, r.blob1, es1)
          && r.names == Dedup(NamesMet(ItemsOf(order1, Parsed(r.z, r.mgrs)))))
    && |r.names| <= 65533
    && (exists es2 :: Outcome(r.z, r.mgrs, r.t1, r.order, r.t2, r.blob2, es2))
    && r.again == Dedup(FollowNames(r.t1, Items(r)))
  }

  // ----- the tables of the first merge -----

  lemma FirstOwned(items: seq<Item>, defs: map<Server, seq<Entry>>, a: MergeState)
    requires Draws(items, defs) && Follows(map[], items, a)
    ensures OwnedBy(a.t, defs)
  {
    hide HomesFollow, IdsFollow, Draws, Fresh;
    forall s, i | s in a.t && i in a.t[s] && a.t[s][i].name != []
      ensures s in defs && Entry(i, a.t[s][i].data) in defs[s]
    {
      NothingToFree(items, defs);
      FromDefs(map[], items, (s, i), a.t[s][i], defs);
    }
  }

  lemma FirstHomes(items: seq<Item>, a: MergeState, n: Name)
    requires Regular(items) && Follows(map[], items, a) && n in Fresh(map[], items)
    ensures n != [] && HomeIn(a.t, n).Some?
  {
    hide Regular, HomeAfter, HomeIn, IdsFollow, DefsFollow, Fresh, Touched, TouchedBy, EntryName;
    FreshNamed(map[], items, n);
    HomeCases(map[], items, n);
    var l := HomeAfter(map[], items, n).value;
    assert Named(a.t, l.0, l.1, n);
    HomeInTable(a.t, n);
  }

  lemma AfterFirst(z: Codec, mgrs: map<Server, seq<byte>>, order: seq<Server>, t: Table, blob: seq<byte>,
                   es: seq<Entry>)
    requires GoodManagers(z, mgrs) && Outcome(z, mgrs, map[], order, t, blob, es)
    ensures FirstTables(t, Parsed(z, mgrs), Dedup(NamesMet(ItemsOf(order, Parsed(z, mgrs)))))
  {
    hide GoodManagers, Reaches, ItemsOf, Regular, Draws, Follows, Fresh, Sound, ListsAll, Multiplexes,
         EncodeManager, OwnedBy, HomeIn;
    var items, defs := ItemsOf(order, Parsed(z, mgrs)), Parsed(z, mgrs);
    var next: u16, total: u16 :|
      Reaches(MergeState(map[], 0, 0), items, MergeState(t, next, total)) && blob == z.deflate(EncodeManager(total, es));
    var a := MergeState(t, next, total);
    ItemsOfAll(z, mgrs, order);
    NothingNamed([]);
    MergeFollows(map[], items, a);
    FreshAtFirst(items);
    FirstMultiplexes(items, defs, a);
    FirstOwned(items, defs, a);
    forall n | n in Fresh(map[], items) ensures n != [] && HomeIn(t, n).Some? {
      FirstHomes(items, a, n);
    }
  }

  /** A name's full definition stands at an id that stands for the name. */
  lemma HomeEntry(t: Table, defs: map<Server, seq<Entry>>, names: seq<Name>, n: Name, s: Server, i: u16)
    requires FirstTables(t, defs, names) && n != [] && Named(t, s, i, n)
    ensures s in defs && exists e :: e in defs[s] && e.id == i && EntryName(e) == n
    ensures n in names && HomeIn(t, n) == Some((s, i)) && OldId(t, n) == GlobalId(names, n)
  {
    hide EntryName, GlobalId, Defines;
    var d := t[s][i];
    assert Entry(i, d.data) in defs[s];
    NamedHasData(d);
    SameBytesSameName(Entry(i, d.data), Entry(d.id, d.data));
    var k :| 0 <= k < |defs[s]| && defs[s][k] == Entry(i, d.data);
    assert ResolvesEntry(t, s, defs[s][k], names);
    HomeInTable(t, n);
  }

  // ----- the second merge -----

  lemma AllTouched(t: Table, defs: map<Server, seq<Entry>>, names: seq<Name>, items: seq<Item>)
    requires FirstTables(t, defs, names) && Draws(items, defs)
    ensures AllFreed(t, items)
  {
    hide HomeIn, OwnedBy, Sound, ResolvesEntry;
    forall n | HomeIn(t, n).Some? ensures Touched(items, HomeIn(t, n).value) {
      HomeInTable(t, n);
      var l := HomeIn(t, n).value;
      assert Defines(defs[l.0], l.1);
      var k :| 0 <= k < |defs[l.0]| && defs[l.0][k].id == l.1;
      assert Define(l.0, defs[l.0][k]) in items;
      var j :| 0 <= j < |items| && items[j] == Define(l.0, defs[l.0][k]);
    }
  }

  lemma NameOfItem(t: Table, defs: map<Server, seq<Entry>>, names: seq<Name>, items: seq<Item>, k: nat)
    requires FirstTables(t, defs, names) && Draws(items, defs) && k < |items| && items[k].Define?
    ensures var n := EntryName(items[k].e); n in names && n != [] && HomeIn(t, n).Some?
  {
    hide EntryName, HomeIn, OwnedBy, Sound, GlobalId;
    assert items[k] in items;
    var s, e := items[k].srv, items[k].e;
    var h :| 0 <= h < |defs[s]| && defs[s][h] == e;
    assert ResolvesEntry(t, s, defs[s][h], names);
  }

  lemma FreedIffBehind(t: Table, items: seq<Item>, k: nat)
    requires Sound(t) && k < |items| && items[k].Define?
    requires EntryName(items[k].e) != [] && HomeIn(t, EntryName(items[k].e)).Some?
    ensures Freed(t, items, k, EntryName(items[k].e)) <==> Behind(t, items, k)
  {
    hide EntryName, HomeIn, Shaped;
    var n := EntryName(items[k].e);
    HomeInTable(t, n);
    var l := HomeIn(t, n).value;
    if Behind(t, items, k) {
      var j :| 0 <= j < k && items[j].Define? && Named(t, items[j].srv, items[j].e.id, n);
      assert items[..k][j] == items[j];
    }
    if Freed(t, items, k, n) {
      var j :| 0 <= j < k && items[..k][j].Define? && Where(items[..k][j]) == l;
      assert items[..k][j] == items[j];
    }
  }

  /** Every definition is one of a name that has its full definition in the tables t. */
  ghost predicate AllKnown(t: Table, items: seq<Item>) {
    forall k :: 0 <= k < |items| && items[k].Define? ==> HomeIn(t, EntryName(items[k].e)).Some?
  }

  /** The fold of the merge in closed form. */
  lemma {:induction false} FreshFollows(t: Table, items: seq<Item>)
    requires Sound(t) && Regular(items) && AllKnown(t, items)
    ensures Fresh(t, items) == Dedup(FollowNames(t, items))
  {
    hide Sound, Regular, HomeIn, EntryName, Touched, TouchedBy, Behind, HomeAfter, Fresh;
    if items == [] {
      NoFold(t, []);
    } else {
      var front, it := items[..|items| - 1], items[|items| - 1];
      assert items == front + [it];
      RegularFront(front, it);
      assert forall k :: 0 <= k < |front| ==> front[k] == items[k];
      FreshFollows(t, front);
      FoldMore(t, front, it, []);
      if it.Define? {
        HomeCases(t, front, EntryName(it.e));
        FreedIffBehind(t, items, |front|);
        DedupAppend(FollowNames(t, front), EntryName(it.e));
      }
      if !it.Define? || !Behind(t, items, |front|) {
        assert FollowNames(t, items) == FollowNames(t, front);
      }
    }
  }

  lemma DedupAppend(xs: seq<Name>, x: Name)
    ensures Dedup(xs + [x]) == if x in Dedup(xs) then Dedup(xs) else Dedup(xs) + [x]
  {
    assert (xs + [x])[..|xs|] == xs;
  }

  /** Where the two merges stand at the end, in terms of the folds. */
  lemma AfterSecond(z: Codec, mgrs: map<Server, seq<byte>>, t1: Table, names: seq<Name>, order: seq<Server>,
                    t2: Table, blob2: seq<byte>, es2: seq<Entry>)
    requires GoodManagers(z, mgrs) && FirstTables(t1, Parsed(z, mgrs), names)
    requires Outcome(z, mgrs, t1, order, t2, blob2, es2)
    ensures var items := ItemsOf(order, Parsed(z, mgrs));
      && Regular(items) && Draws(items, Parsed(z, mgrs)) && AllFreed(t1, items)
      && IdsFollow(t1, items, t2)
      && Publishes(es2, Parsed(z, mgrs), Fresh(t1, items))
      && Fresh(t1, items) == Dedup(FollowNames(t1, items))
      && blob2 == z.deflate(EncodeManager(|es2| % 0x1_0000, es2))
  {
    hide GoodManagers, Reaches, ItemsOf, Regular, Draws, Fresh, Sound, ListsAll, Publishes,
         EncodeManager, OwnedBy, HomeIn, AllFreed, AllocId, HomesFollow, IdsFollow, DefsFollow, ResolvesEntry, Defines;
    var items, defs := ItemsOf(order, Parsed(z, mgrs)), Parsed(z, mgrs);
    var next: u16, total: u16 :|
      Reaches(MergeState(t1, 0, 0), items, MergeState(t2, next, total)) && blob2 == z.deflate(EncodeManager(total, es2));
    var a := MergeState(t2, next, total);
    ItemsOfAll(z, mgrs, order);
    MergeFollows(t1, items, a);
    AllTouched(t1, defs, names, items);
    FreshPublished(t1, items, a, es2, defs);
    PublishesSize(es2, defs, Fresh(t1, items));
    ItemsKnown(t1, defs, names, items);
    FreshFollows(t1, items);
  }

  lemma ItemsKnown(t: Table, defs: map<Server, seq<Entry>>, names: seq<Name>, items: seq<Item>)
    requires FirstTables(t, defs, names) && Draws(items, defs)
    ensures AllKnown(t, items)
  {
    hide FirstTables, Draws, HomeIn, EntryName;
    forall k | 0 <= k < |items| && items[k].Define? ensures HomeIn(t, EntryName(items[k].e)).Some? {
      NameOfItem(t, defs, names, items, k);
    }
  }

  lemma BothMerges(r: Twice) returns (es1: seq<Entry>, es2: seq<Entry>)
    requires TwoMerges(r)
    ensures AllInflate(r.z, r.mgrs) && Enumerates(r.order, r.mgrs.Keys)
    ensures Merges(r.z, r.mgrs, r.t1, r.blob1, r.names, es1) && FirstTables(r.t1, Parsed(r.z, r.mgrs), r.names)
    ensures var items := Items(r);
      && Regular(items) && Draws(items, Parsed(r.z, r.mgrs))
      && IdsFollow(r.t1, items, r.t2) && r.again == Fresh(r.t1, items)
      && Publishes(es2, Parsed(r.z, r.mgrs), r.again)
      && r.blob2 == r.z.deflate(EncodeManager(|es2| % 0x1_0000, es2))
  {
    hide GoodManagers, Regular, Draws, Fresh, Publishes, Merges, EncodeManager, AllFreed, IdsFollow, FirstTables,
         ItemsOf, Lawful, Dedup, NamesMet, FollowNames;
    var order1: seq<Server>, es: seq<Entry> :|
      && Outcome(r.z, r.mgrs, map[], order1, r.t1, r.blob1, es)
      && r.names == Dedup(NamesMet(ItemsOf(order1, Parsed(r.z, r.mgrs))));
    es1 := es;
    FirstMerge(r.z, r.mgrs, order1, r.t1, r.blob1, es1);
    AfterFirst(r.z, r.mgrs, order1, r.t1, r.blob1, es1);
    es2 :| Outcome(r.z, r.mgrs, r.t1, r.order, r.t2, r.blob2, es2);
    AfterSecond(r.z, r.mgrs, r.t1, r.names, r.order, r.t2, r.blob2, es2);
  }

  // ----- the results -----

  lemma {:induction false} FollowedIff(t: Table, items: seq<Item>, n: Name)
    ensures n in Dedup(FollowNames(t, items)) <==> Followed(t, items, n)
  {
    hide EntryName, Behind;
    if items != [] {
      var front, it := items[..|items| - 1], items[|items| - 1];
      assert items == front + [it];
      FollowedIff(t, front, n);
      FollowedMore(t, front, it, n);
      if it.Define? && Behind(t, items, |front|) {
        DedupAppend(FollowNames(t, front), EntryName(it.e));
      } else {
        assert FollowNames(t, items) == FollowNames(t, front);
      }
    }
  }

  lemma FollowedMore(t: Table, front: seq<Item>, it: Item, n: Name)
    ensures Followed(t, front + [it], n) <==>
      Followed(t, front, n) || (it.Define? && EntryName(it.e) == n && Behind(t, front + [it], |front|))
  {
    hide EntryName, Named;
    var items := front + [it];
    forall k | 0 <= k < |front| && front[k].Define? ensures Behind(t, items, k) <==> Behind(t, front, k) {
      assert forall j :: 0 <= j <= k ==> items[j] == front[j];
    }
    if Followed(t, front, n) {
      var k :| 0 <= k < |front| && front[k].Define? && EntryName(front[k].e) == n && Behind(t, front, k);
      assert items[k] == front[k];
    }
    if Followed(t, items, n) {
      var k :| 0 <= k < |items| && items[k].Define? && EntryName(items[k].e) == n && Behind(t, items, k);
      assert k < |front| ==> items[k] == front[k];
    }
    assert items[|front|] == it;
  }

  /** A name is still published after the second merge if and only if one of its definitions was met after
      the one that held the full definition. The names that are left are numbered from 0 again, in the
      order in which those definitions are met. */
  lemma StillPublishedIff(r: Twice)
    requires TwoMerges(r)
    ensures r.z.inflate(r.blob2).Some?
    ensures var es2 := ParseManager(r.z.inflate(r.blob2).value.data);
      && |es2| == |r.again|
      && (forall n :: n in EntryNames(es2) <==> Followed(r.t1, Items(r), n))
      && (forall k :: 0 <= k < |es2| ==>
            EntryName(es2[k]) in r.again && es2[k].id == GlobalId(r.again, EntryName(es2[k])))
  {
    hide TwoMerges, Regular, Draws, Fresh, Merges, EncodeManager, IdsFollow, FirstTables, EntryName, GlobalId,
         ItemsOf, Dedup, FollowNames, Followed, ParseManager;
    var es1, es2 := BothMerges(r);
    var items := Items(r);
    AgainNames(r);
    ClientParsesPublished(r.z, Parsed(r.z, r.mgrs), r.blob2, r.again, es2);
    forall n ensures n in EntryNames(es2) <==> Followed(r.t1, items, n) {
      FollowedIff(r.t1, items, n);
      InNames(es2, Parsed(r.z, r.mgrs), r.again, n);
    }
    forall k | 0 <= k < |es2|
      ensures EntryName(es2[k]) in r.again && es2[k].id == GlobalId(r.again, EntryName(es2[k]))
    {
      assert Published(es2[k], Parsed(r.z, r.mgrs), r.again);
    }
  }

  lemma InNames(es: seq<Entry>, defs: map<Server, seq<Entry>>, names: seq<Name>, n: Name)
    requires Publishes(es, defs, names)
    ensures n in EntryNames(es) <==> n in names
  {
    hide EntryName, GlobalId;
    if n in EntryNames(es) {
      var k :| 0 <= k < |es| && EntryNames(es)[k] == n;
      assert Published(es[k], defs, names);
    }
  }

  lemma {:induction false} DedupDistinct(xs: seq<Name>)
    ensures Distinct(Dedup(xs))
  {
    if xs != [] {
      DedupDistinct(xs[..|xs| - 1]);
    }
  }

  lemma FollowNamesKnown(t: Table, items: seq<Item>, names: seq<Name>)
    requires forall k :: 0 <= k < |items| && items[k].Define? ==> EntryName(items[k].e) in names
    ensures forall n :: n in Dedup(FollowNames(t, items)) ==> n in names
  {
    hide EntryName, Behind;
    forall n | n in Dedup(FollowNames(t, items)) ensures n in names {
      FollowedIff(t, items, n);
    }
  }

  lemma SubsetSize(a: seq<Name>, b: seq<Name>)
    requires Distinct(a) && Distinct(b) && forall n :: n in a ==> n in b
    ensures |a| <= |b|
  {
    DistinctSize(a);
    DistinctSize(b);
    SetSize(set n | n in a, set n | n in b);
  }

  /** No name is new in the second merge. */
  lemma AgainNames(r: Twice)
    requires TwoMerges(r)
    ensures Lawful(r.z) && Distinct(r.names) && Distinct(r.again) && |r.again| <= |r.names| <= 65533
    ensures r.again == Dedup(FollowNames(r.t1, Items(r)))
    ensures forall n :: n in r.again ==> n in r.names
  {
    hide Regular, Draws, Fresh, Publishes, EncodeManager, IdsFollow, EntryName, ItemsOf, Dedup, FollowNames, Lawful,
         Outcome, GoodManagers, NamesMet, OwnedBy, HomeIn, Sound, ResolvesEntry, Defines;
    var es1, es2 := BothMerges(r);
    var items := Items(r);
    forall k | 0 <= k < |items| && items[k].Define? ensures EntryName(items[k].e) in r.names {
      NameOfItem(r.t1, Parsed(r.z, r.mgrs), r.names, items, k);
    }
    FollowNamesKnown(r.t1, items, r.names);
    DedupDistinct(FollowNames(r.t1, items));
    SubsetSize(r.again, r.names);
  }

  /** The id to which a server's definition is translated after the second merge. */
  lemma SecondLookup(r: Twice, k: nat)
    requires TwoMerges(r)
    requires k < |Items(r)| && Items(r)[k].Define?
    ensures var it := Items(r)[k];
      var n := EntryName(it.e);
      && n in r.names
      && (Behind(r.t1, Items(r), k) ==> n in r.again)
      && LookupId(r.t2, it.srv, it.e.id) ==
         if Behind(r.t1, Items(r), k) then GlobalId(r.again, n) else GlobalId(r.names, n)
  {
    hide TwoMerges, Regular, Draws, Fresh, Merges, EncodeManager, EntryName, GlobalId, Publishes, HomeIn, OldId,
         ItemsOf, Behind, IdAfter, Freed, OwnedBy, Sound, ResolvesEntry, Defines;
    var es1, es2 := BothMerges(r);
    var items := Items(r);
    var it := items[k];
    var n := EntryName(it.e);
    NameOfItem(r.t1, Parsed(r.z, r.mgrs), r.names, items, k);
    FreedIffBehind(r.t1, items, k);
    EntryIds(r.t1, items, k);
    assert IdAt(r.t2, it.srv, it.e.id) == IdAfter(r.t1, items, it.srv, it.e.id);
    HomeInTable(r.t1, n);
    HomeEntry(r.t1, Parsed(r.z, r.mgrs), r.names, n, HomeIn(r.t1, n).value.0, HomeIn(r.t1, n).value.1);
  }

  lemma ReadsIndex(es: seq<Entry>, defs: map<Server, seq<Entry>>, names: seq<Name>, p: nat)
    requires Publishes(es, defs, names) && Distinct(names) && |names| <= 65533 && p < 65533
    ensures MeaningOf(es, AllocId(p)) == if p < |names| then Node(names[p]) else Unknown
  {
    hide EntryName, MeaningOf, AllocId;
    if p < |names| {
      assert IndexOf(names, names[p]) == p;
      ClientReadsName(es, defs, names, names[p]);
    } else {
      AllocDistinctIff(p);
      forall k | 0 <= k < |es| ensures es[k].id != AllocId(p) {
        assert Published(es[k], defs, names);
        AllocDiffers(IndexOf(names, EntryName(es[k])), p);
      }
      MeaningOfUndefined(es, AllocId(p));
    }
  }

  /** A client that gets the second manager reads an id of the servers rightly if the definition came after
      the one that held its name. Otherwise it is shown whatever the second merge gave the old id to: the
      name at the same place in the new numbering, or an unknown node. */
  lemma NewClientReads(r: Twice, k: nat)
    requires TwoMerges(r)
    requires k < |Items(r)| && Items(r)[k].Define?
    ensures var it := Items(r)[k];
      var n := EntryName(it.e);
      && n in r.names
      && ClientMeaning(r.z, r.blob2, LookupId(r.t2, it.srv, it.e.id)) ==
         (if Behind(r.t1, Items(r), k) then Node(n)
          else if IndexOf(r.names, n) < |r.again| then Node(r.again[IndexOf(r.names, n)])
          else Unknown)
  {
    hide TwoMerges, Regular, Draws, Fresh, Merges, EncodeManager, EntryName, AllocId, Publishes, Lawful, LookupId,
         ItemsOf, Behind, IdsFollow, FirstTables, MeaningOf, ParseManager, FollowNames, Dedup, IndexOf;
    var es1, es2 := BothMerges(r);
    AgainNames(r);
    SecondLookup(r, k);
    ClientParsesPublished(r.z, Parsed(r.z, r.mgrs), r.blob2, r.again, es2);
    var n := EntryName(Items(r)[k].e);
    if Behind(r.t1, Items(r), k) {
      ReadsIndex(es2, Parsed(r.z, r.mgrs), r.again, IndexOf(r.again, n));
    } else {
      ReadsIndex(es2, Parsed(r.z, r.mgrs), r.again, IndexOf(r.names, n));
    }
  }

  /** A client that still has the first manager reads exactly the others rightly. */
  lemma OldClientReads(r: Twice, k: nat)
    requires TwoMerges(r)
    requires k < |Items(r)| && Items(r)[k].Define?
    ensures var it := Items(r)[k];
      var n := EntryName(it.e);
      && |r.again| <= |r.names|
      && (Behind(r.t1, Items(r), k) ==> n in r.again)
      && ClientMeaning(r.z, r.blob1, LookupId(r.t2, it.srv, it.e.id)) ==
         if Behind(r.t1, Items(r), k) then Node(r.names[IndexOf(r.again, n)]) else Node(n)
  {
    hide TwoMerges, Regular, Draws, Fresh, EncodeManager, EntryName, AllocId, Publishes, Lawful, LookupId,
         ItemsOf, Behind, IdsFollow, FirstTables, MeaningOf, ParseManager, FollowNames, Dedup, IndexOf,
         Sound, ResolvesEntry, Defines;
    var es1, es2 := BothMerges(r);
    AgainNames(r);
    SecondLookup(r, k);
    ClientParsesPublished(r.z, Parsed(r.z, r.mgrs), r.blob1, r.names, es1);
    var n := EntryName(Items(r)[k].e);
    if Behind(r.t1, Items(r), k) {
      ReadsIndex(es1, Parsed(r.z, r.mgrs), r.names, IndexOf(r.again, n));
    } else {
      ReadsIndex(es1, Parsed(r.z, r.mgrs), r.names, IndexOf(r.names, n));
    }
  }

  lemma ServerMeans(z: Codec, mgrs: map<Server, seq<byte>>, order: seq<Server>, k: nat)
    requires GoodManagers(z, mgrs) && AllInflate(z, mgrs) && Enumerates(order, mgrs.Keys)
    requires k < |ItemsOf(order, Parsed(z, mgrs))| && ItemsOf(order, Parsed(z, mgrs))[k].Define?
    ensures var it := ItemsOf(order, Parsed(z, mgrs))[k];
      !Reserved(it.e.id) ==> ServerMeaning(z, mgrs, it.srv, it.e.id) == Node(EntryName(it.e))
  {
    hide Regular, EntryName, ItemsOf, MeaningOf, ParseManager;
    ItemsOfAll(z, mgrs, order);
    var it := ItemsOf(order, Parsed(z, mgrs))[k];
    assert it in ItemsOf(order, Parsed(z, mgrs));
    var defs := Parsed(z, mgrs);
    var h :| 0 <= h < |defs[it.srv]| && defs[it.srv][h] == it.e;
    if !Reserved(it.e.id) {
      MeaningOfDefined(defs[it.srv], h);
    }
  }

  /** Exactly when the second merge keeps what a server's id means: to clients that get the new manager,
      and to those that keep the old one. */
  lemma SecondMeaningIff(r: Twice, k: nat)
    requires TwoMerges(r)
    requires k < |Items(r)| && Items(r)[k].Define?
    requires !Reserved(Items(r)[k].e.id)
    ensures var it := Items(r)[k];
      var n, behind := EntryName(it.e), Behind(r.t1, Items(r), k);
      && n in r.names && |r.again| <= |r.names| && (behind ==> n in r.again)
      && (ClientMeaning(r.z, r.blob2, LookupId(r.t2, it.srv, it.e.id)) == ServerMeaning(r.z, r.mgrs, it.srv, it.e.id)
          <==> behind || (IndexOf(r.names, n) < |r.again| && r.again[IndexOf(r.names, n)] == n))
      && (ClientMeaning(r.z, r.blob1, LookupId(r.t2, it.srv, it.e.id)) == ServerMeaning(r.z, r.mgrs, it.srv, it.e.id)
          <==> !behind || r.names[IndexOf(r.again, n)] == n)
  {
    hide Regular, Draws, Fresh, EncodeManager, EntryName, Publishes, Lawful, LookupId, Merges, ClientMeaning,
         ServerMeaning, ItemsOf, Behind, IdsFollow, FirstTables, FollowNames, Dedup, IndexOf, GoodManagers, Outcome;
    var es1, es2 := BothMerges(r);
    NewClientReads(r, k);
    OldClientReads(r, k);
    ServerMeans(r.z, r.mgrs, r.order, k);
  }

  /** The definition at k is read rightly by a client with that manager. */
  ghost predicate ReadRightly(r: Twice, blob: seq<byte>, k: nat)
    requires k < |Items(r)| && Items(r)[k].Define?
  {
    ClientMeaning(r.z, blob, LookupId(r.t2, Items(r)[k].srv, Items(r)[k].e.id)) == Node(EntryName(Items(r)[k].e))
  }

  /** One kind of clients always reads a definition rightly. Both do exactly when the two managers publish
      its name under one id. */
  lemma BothReadRightlyIff(r: Twice, k: nat)
    requires TwoMerges(r)
    requires k < |Items(r)| && Items(r)[k].Define?
    ensures ReadRightly(r, r.blob1, k) || ReadRightly(r, r.blob2, k)
    ensures var n := EntryName(Items(r)[k].e);
      && n in r.names
      && (ReadRightly(r, r.blob1, k) && ReadRightly(r, r.blob2, k)
          <==> n in r.again && GlobalId(r.again, n) == GlobalId(r.names, n))
  {
    hide TwoMerges, EntryName, LookupId, ClientMeaning, ItemsOf, Behind, FollowNames, Dedup, AllocId;
    NewClientReads(r, k);
    OldClientReads(r, k);
    AgainNames(r);
    var n := EntryName(Items(r)[k].e);
    var p := IndexOf(r.names, n);
    if p < |r.again| && r.again[p] == n {
      SameIndex(r.again, n, p);
    }
    if n in r.again {
      SameId(IndexOf(r.again, n), p);
      if r.names[IndexOf(r.again, n)] == n {
        SameIndex(r.names, n, IndexOf(r.again, n));
      }
    }
  }

  lemma SameIndex(names: seq<Name>, n: Name, p: nat)
    requires p < |names| && names[p] == n && Distinct(names)
    ensures IndexOf(names, n) == p
  {
  }

  lemma SameId(i: nat, j: nat)
    requires i < 65533 && j < 65533
    ensures AllocId(i) == AllocId(j) <==> i == j
  {
    hide AllocId;
    if i < j {
      AllocDiffers(i, j);
    } else if j < i {
      AllocDiffers(j, i);
    }
  }

  /** A client with that manager reads every definition of the servers rightly. */
  ghost predicate ReadsAll(r: Twice, blob: seq<byte>) {
    forall k: nat :: k < |Items(r)| && Items(r)[k].Define? ==> ReadRightly(r, blob, k)
  }

  /** The definition that held the full definition of n. */
  lemma HomeItem(r: Twice, n: Name) returns (k: nat)
    requires TwoMerges(r) && n in r.names
    ensures k < |Items(r)| && Items(r)[k].Define? && EntryName(Items(r)[k].e) == n && !Behind(r.t1, Items(r), k)
  {
    hide TwoMerges, EntryName, ItemsOf, Merges, Named, Publishes, IdsFollow, Fresh, OldId, Multiplexes, OwnedBy, HomeIn,
         GlobalId;
    var es1, es2 := BothMerges(r);
    var items, defs := Items(r), Parsed(r.z, r.mgrs);
    HomeInTable(r.t1, n);
    var l := HomeIn(r.t1, n).value;
    HomeEntry(r.t1, defs, r.names, n, l.0, l.1);
    var e: Entry :| e in defs[l.0] && e.id == l.1 && EntryName(e) == n;
    assert Define(l.0, e) in items;
    k :| 0 <= k < |items| && items[k] == Define(l.0, e);
    forall j | 0 <= j < k && items[j].Define? ensures !Named(r.t1, items[j].srv, items[j].e.id, n) {
      assert Where(items[j]) != Where(items[k]);
      if Named(r.t1, items[j].srv, items[j].e.id, n) {
        HomeEntry(r.t1, defs, r.names, n, items[j].srv, items[j].e.id);
      }
    }
  }

  lemma SameNumber(r: Twice, p: nat)
    requires TwoMerges(r) && ReadsAll(r, r.blob2) && p < |r.names|
    ensures p < |r.again| && r.again[p] == r.names[p]
  {
    hide TwoMerges, EntryName, LookupId, ClientMeaning, ItemsOf, Behind, FollowNames, Dedup;
    AgainNames(r);
    var k := HomeItem(r, r.names[p]);
    assert ReadRightly(r, r.blob2, k);
    NewClientReads(r, k);
    SameIndex(r.names, r.names[p], p);
  }

  /** The clients with the new manager read everything rightly if and only if the second merge numbers all
      names as the first did. */
  lemma NewReadsAllIff(r: Twice)
    requires TwoMerges(r)
    ensures ReadsAll(r, r.blob2) <==> r.again == r.names
  {
    hide TwoMerges, EntryName, LookupId, ClientMeaning, ItemsOf, Behind, FollowNames, Dedup, AllocId, GlobalId;
    AgainNames(r);
    if r.again == r.names {
      forall k: nat | k < |Items(r)| && Items(r)[k].Define? ensures ReadRightly(r, r.blob2, k) {
        BothReadRightlyIff(r, k);
      }
    }
    if ReadsAll(r, r.blob2) {
      if r.names != [] {
        SameNumber(r, |r.names| - 1);
      }
      forall p | 0 <= p < |r.names| ensures r.again[p] == r.names[p] {
        SameNumber(r, p);
      }
    }
  }

  /** The clients that keep the old manager do if and only if the names that are left are the first ones of
      the first merge, in their order. */
  lemma OldReadsAllIff(r: Twice)
    requires TwoMerges(r)
    ensures ReadsAll(r, r.blob1) <==> r.again <= r.names
  {
    hide TwoMerges, EntryName, LookupId, ClientMeaning, ItemsOf, Behind, FollowNames, Dedup, AllocId, GlobalId;
    AgainNames(r);
    if r.again <= r.names {
      forall k: nat | k < |Items(r)| && Items(r)[k].Define? ensures ReadRightly(r, r.blob1, k) {
        OldClientReads(r, k);
        assert Behind(r.t1, Items(r), k) ==> EntryName(Items(r)[k].e) in r.again;
      }
    }
    if ReadsAll(r, r.blob1) {
      forall p | 0 <= p < |r.again| ensures r.names[p] == r.again[p] {
        var n := r.again[p];
        FollowedIff(r.t1, Items(r), n);
        var k: nat :|
          k < |Items(r)| && Items(r)[k].Define? && EntryName(Items(r)[k].e) == n && Behind(r.t1, Items(r), k);
        assert ReadRightly(r, r.blob1, k);
        OldClientReads(r, k);
        SameIndex(r.again, n, p);
      }
    }
  }

  /** A name that only one definition of only one server has is no longer published. */
  lemma SingleVanishes(r: Twice, n: Name)
    requires TwoMerges(r)
    requires forall s, e, s', e' :: s in Parsed(r.z, r.mgrs) && e in Parsed(r.z, r.mgrs)[s] && EntryName(e) == n
                                 && s' in Parsed(r.z, r.mgrs) && e' in Parsed(r.z, r.mgrs)[s'] && EntryName(e') == n
                                 ==> s == s' && e == e'
    ensures r.z.inflate(r.blob2).Some? && n !in EntryNames(ParseManager(r.z.inflate(r.blob2).value.data))
  {
    hide TwoMerges, Fresh, Merges, EncodeManager, EntryName, GlobalId, HomeIn, OldId, Publishes,
         ItemsOf, IdsFollow, FirstTables, ParseManager, Parsed;
    var es1, es2 := BothMerges(r);
    StillPublishedIff(r);
    var items := Items(r);
    if Followed(r.t1, items, n) {
      var k :| 0 <= k < |items| && items[k].Define? && EntryName(items[k].e) == n && Behind(r.t1, items, k);
      var j :| 0 <= j < k && items[j].Define? && Named(r.t1, items[j].srv, items[j].e.id, n);
      assert Where(items[j]) != Where(items[k]);
      assert items[k] in items;
      NameOfItem(r.t1, Parsed(r.z, r.mgrs), r.names, items, k);
      HomeEntry(r.t1, Parsed(r.z, r.mgrs), r.names, n, items[j].srv, items[j].e.id);
    }
  }

  /** With one server whose names are all different nothing at all is published any more. */
  lemma OneServerLosesAll(r: Twice, s: Server)
    requires TwoMerges(r)
    requires r.mgrs.Keys == {s} && s in Parsed(r.z, r.mgrs) && Distinct(EntryNames(Parsed(r.z, r.mgrs)[s]))
    ensures r.z.inflate(r.blob2).Some? && ParseManager(r.z.inflate(r.blob2).value.data) == []
  {
    hide TwoMerges, EntryName, ParseManager;
    var defs := Parsed(r.z, r.mgrs);
    forall e, e' | e in defs[s] && e' in defs[s] && EntryName(e) == EntryName(e') ensures e == e' {
      var j :| 0 <= j < |defs[s]| && defs[s][j] == e;
      var k :| 0 <= k < |defs[s]| && defs[s][k] == e';
      assert EntryNames(defs[s])[j] == EntryNames(defs[s])[k];
    }
    StillPublishedIff(r);
    var ns := EntryNames(ParseManager(r.z.inflate(r.blob2).value.data));
    assert ns != [] ==> ns[0] in ns;
    forall n ensures n !in ns {
      SingleVanishes(r, n);
    }
  }
}
