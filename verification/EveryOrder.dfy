/** The second merge in terms of the servers' managers alone. Go visits the servers in any order, in the first
    merge and in the second; what is said here holds for every pair of orders, or tells exactly when it does. */
module EveryOrder {
  import opened Collections
  import opened Wire
  import opened Zlib
  import opened NodeDefs
  import opened NodeMerge
  import opened SecondMerge

  // ----- every pair of orders is a pair of merges -----

  lemma {:induction false} ServerRuns(a: MergeState, s: Server, es: seq<Entry>) returns (b: MergeState)
    requires s in a.t
    ensures Reaches(a, DefinesOf(s, es), b) && s in b.t
    decreases |es|
  {
    hide Known, EntryName;
    if es == [] {
      b := a;
    } else {
      var front, e := es[..|es| - 1], es[|es| - 1];
      var m := ServerRuns(a, s, front);
      if id: u16 :| Known(m.t, EntryName(e), id) {
        b := Shared(m, s, e, id);
      } else {
        b := Renewed(m, s, e);
      }
      DefinesMore(s, front, e);
      assert es == front + [e];
      ReachesMore(a, DefinesOf(s, front), m, Define(s, e), b);
    }
  }

  lemma {:induction false} OrderRuns(a: MergeState, order: seq<Server>, defs: map<Server, seq<Entry>>)
    returns (b: MergeState)
    ensures Reaches(a, ItemsOf(order, defs), b)
    decreases |order|
  {
    hide Reaches, ItemsOf, DefinesOf;
    if order == [] {
      b := a;
      NoItems(a, defs);
    } else {
      var front, s := order[..|order| - 1], order[|order| - 1];
      var m := OrderRuns(a, front, defs);
      var o := m.(t := Opened(m.t, s));
      b := ServerRuns(o, s, ServerDefs(defs, s));
      ReachesMore(a, ItemsOf(front, defs), m, Open(s), o);
      ServerDone(a, front, s, defs, o, b);
      assert front + [s] == order;
    }
  }

  lemma ListingExists(t: Table) returns (es: seq<Entry>)
    ensures ListsAll(es, t)
  {
    var locs := set s, i | s in t && i in t[s] && t[s][i].data != [] :: (s, i);
    var at := Enumeration(locs);
    assert forall k :: 0 <= k < |at| ==> at[k] in locs;
    es := seq(|at|, k requires 0 <= k < |at| => Entry(t[at[k].0][at[k].1].id, t[at[k].0][at[k].1].data));
    assert Lists(es, at, t) && Complete(at, t);
  }

  lemma OutcomeExists(z: Codec, mgrs: map<Server, seq<byte>>, t0: Table, order: seq<Server>)
    returns (t: Table, blob: seq<byte>, es: seq<Entry>)
    requires AllInflate(z, mgrs) && Enumerates(order, mgrs.Keys)
    ensures Outcome(z, mgrs, t0, order, t, blob, es)
  {
    hide Reaches, ItemsOf, ListsAll, EncodeManager, Parsed;
    var b := OrderRuns(MergeState(t0, 0, 0), order, Parsed(z, mgrs));
    t := b.t;
    es := ListingExists(t);
    blob := z.deflate(EncodeManager(b.total, es));
    assert Reaches(MergeState(t0, 0, 0), ItemsOf(order, Parsed(z, mgrs)), MergeState(t, b.next, b.total));
  }

  /** The names that the servers define. */
  ghost function AllNames(defs: map<Server, seq<Entry>>): set<Name> {
    set s, e | s in defs && e in defs[s] :: EntryName(e)
  }

  /** What is asked of the managers: they decompress, no server repeats an id or leaves a name empty, and
      the names fit the ids. */
  ghost predicate Mergeable(z: Codec, mgrs: map<Server, seq<byte>>) {
    && Lawful(z)
    && AllInflate(z, mgrs)
    && GoodManagers(z, mgrs)
    && |AllNames(Parsed(z, mgrs))| <= 65533
  }

  ghost predicate PairOf(z: Codec, mgrs: map<Server, seq<byte>>, r: Twice) {
    r.z == z && r.mgrs == mgrs && TwoMerges(r)
  }

  /** The first merge of the two took that order. */
  ghost predicate FirstOrder(r: Twice, order: seq<Server>) {
    && Enumerates(order, r.mgrs.Keys)
    && (exists es :: Outcome(r.z, r.mgrs, map[], order, r.t1, r.blob1, es))
    && r.names == Dedup(NamesMet(ItemsOf(order, Parsed(r.z, r.mgrs))))
  }

  lemma SomeFirstOrder(r: Twice) returns (order: seq<Server>)
    requires TwoMerges(r)
    ensures FirstOrder(r, order)
  {
    hide ItemsOf, Reaches, ListsAll, Dedup, NamesMet, FollowNames, Lawful, GoodManagers, Parsed;
    var order1: seq<Server>, es1: seq<Entry> :|
      && Outcome(r.z, r.mgrs, map[], order1, r.t1, r.blob1, es1)
      && r.names == Dedup(NamesMet(ItemsOf(order1, Parsed(r.z, r.mgrs))));
    order := order1;
  }

  lemma {:induction false} MetNames(items: seq<Item>, n: Name)
    ensures n in Dedup(NamesMet(items)) <==>
            exists k :: 0 <= k < |items| && items[k].Define? && EntryName(items[k].e) == n
  {
    hide EntryName;
    if items != [] {
      var front, it := items[..|items| - 1], items[|items| - 1];
      assert items == front + [it];
      MetNames(front, n);
      assert forall k :: 0 <= k < |front| ==> front[k] == items[k];
      if it.Define? {
        DedupAppend(NamesMet(front), EntryName(it.e));
      } else {
        assert NamesMet(items) == NamesMet(front);
      }
    }
  }

  lemma NamesFit(z: Codec, mgrs: map<Server, seq<byte>>, order: seq<Server>)
    requires Mergeable(z, mgrs) && Enumerates(order, mgrs.Keys)
    ensures |Dedup(NamesMet(ItemsOf(order, Parsed(z, mgrs))))| <= 65533
  {
    hide EntryName, ItemsOf, GoodManagers, Lawful, Parsed, Dedup, NamesMet;
    var defs := Parsed(z, mgrs);
    var items := ItemsOf(order, defs);
    var names := Dedup(NamesMet(items));
    ItemsOfAll(z, mgrs, order);
    forall n | n in names ensures n in AllNames(defs) {
      MetNames(items, n);
      var k :| 0 <= k < |items| && items[k].Define? && EntryName(items[k].e) == n;
      assert items[k] in items;
    }
    DedupDistinct(NamesMet(items));
    DistinctSize(names);
    var met := set n | n in names;
    SetSize(met, AllNames(defs));
  }

  /** Any two orders are taken by some pair of merges. */
  lemma PairExists(z: Codec, mgrs: map<Server, seq<byte>>, order1: seq<Server>, order2: seq<Server>)
    returns (r: Twice)
    requires Mergeable(z, mgrs) && Enumerates(order1, mgrs.Keys) && Enumerates(order2, mgrs.Keys)
    ensures PairOf(z, mgrs, r) && FirstOrder(r, order1) && r.order == order2
  {
    hide ItemsOf, Reaches, ListsAll, Dedup, NamesMet, FollowNames, Lawful, GoodManagers, Parsed, Outcome, AllNames;
    var t1, blob1, es1 := OutcomeExists(z, mgrs, map[], order1);
    var t2, blob2, es2 := OutcomeExists(z, mgrs, t1, order2);
    NamesFit(z, mgrs, order1);
    var names := Dedup(NamesMet(ItemsOf(order1, Parsed(z, mgrs))));
    r := Twice(z, mgrs, t1, blob1, names, order2, t2, blob2, Dedup(FollowNames(t1, ItemsOf(order2, Parsed(z, mgrs)))));
  }

  // ----- where a name's full definition stands after the first merge -----

  /** The first definition of n stands at l. */
  ghost predicate FirstMet(items: seq<Item>, n: Name, l: Loc) {
    exists h :: FirstMetAt(items, n, h) && Where(items[h]) == l
  }

  ghost predicate FirstMetAt(items: seq<Item>, n: Name, h: int) {
    && 0 <= h < |items| && items[h].Define? && EntryName(items[h].e) == n
    && forall j :: 0 <= j < h && items[j].Define? ==> EntryName(items[j].e) != n
  }

  ghost predicate NeverMet(items: seq<Item>, n: Name) {
    forall j :: 0 <= j < |items| && items[j].Define? ==> EntryName(items[j].e) != n
  }

  lemma MetMore(front: seq<Item>, it: Item, n: Name)
    ensures NeverMet(front + [it], n) <==> NeverMet(front, n) && !(it.Define? && EntryName(it.e) == n)
    ensures forall h :: 0 <= h < |front| ==> (FirstMetAt(front + [it], n, h) <==> FirstMetAt(front, n, h))
    ensures FirstMetAt(front + [it], n, |front|) <==> NeverMet(front, n) && it.Define? && EntryName(it.e) == n
  {
    hide EntryName;
    var items := front + [it];
    assert items[|front|] == it && forall k :: 0 <= k < |front| ==> front[k] == items[k];
  }

  lemma {:induction false} HomeIsFirst(items: seq<Item>, n: Name)
    requires Regular(items)
    ensures HomeAfter(map[], items, n).None? ==> NeverMet(items, n)
    ensures HomeAfter(map[], items, n).Some? ==> FirstMet(items, n, HomeAfter(map[], items, n).value)
  {
    hide Regular, HomeAfter, Fresh, EntryName, NeverMet, IdAfter;
    if items == [] {
      NothingMet(n);
    } else {
      var front, it := items[..|items| - 1], items[|items| - 1];
      assert items == front + [it];
      RegularFront(front, it);
      HomeIsFirst(front, n);
      FoldMore(map[], front, it, n);
      MetMore(front, it, n);
      var home := HomeAfter(map[], front, n);
      if home.Some? {
        var h: int :| FirstMetAt(front, n, h) && Where(front[h]) == home.value;
        MetInside(front, it, n, h);
      }
    }
  }

  lemma MetInside(front: seq<Item>, it: Item, n: Name, h: int)
    requires FirstMetAt(front, n, h)
    ensures 0 <= h < |front| && (front + [it])[h] == front[h] && front[h].Define?
    ensures Touched(front, Where(front[h])) && FirstMetAt(front + [it], n, h)
  {
    hide EntryName;
    MetMore(front, it, n);
  }

  lemma NothingMet(n: Name)
    ensures HomeAfter(map[], [], n).None? && NeverMet([], n)
  {
    NoFold(map[], n);
    NothingNamed(n);
  }

  lemma FirstMetUnique(items: seq<Item>, n: Name, g: int, h: int)
    requires FirstMetAt(items, n, g) && FirstMetAt(items, n, h)
    ensures g == h
  {
    hide EntryName;
  }

  /** After the first merge a name's full definition stands where it was first met. */
  lemma NamedIffFirst(r: Twice, order: seq<Server>, n: Name, s: Server, i: u16)
    requires TwoMerges(r) && FirstOrder(r, order) && n != []
    ensures Named(r.t1, s, i, n) <==> FirstMet(ItemsOf(order, Parsed(r.z, r.mgrs)), n, (s, i))
  {
    hide ItemsOf, Reaches, ListsAll, Dedup, NamesMet, FollowNames, Lawful, GoodManagers, Parsed, Regular, HomeAfter,
         Fresh, Draws, FirstMetAt, IdsFollow, DefsFollow, AllocId, EncodeManager, Sound;
    var items := ItemsOf(order, Parsed(r.z, r.mgrs));
    var es: seq<Entry> :| Outcome(r.z, r.mgrs, map[], order, r.t1, r.blob1, es);
    var next: u16, total: u16 :|
      && Reaches(MergeState(map[], 0, 0), items, MergeState(r.t1, next, total))
      && r.blob1 == r.z.deflate(EncodeManager(total, es));
    ItemsOfAll(r.z, r.mgrs, order);
    NothingNamed([]);
    MergeFollows(map[], items, MergeState(r.t1, next, total));
    HomeIsFirst(items, n);
    HomeOrNever(items, n, (s, i));
  }

  lemma HomeOrNever(items: seq<Item>, n: Name, l: Loc)
    requires HomeAfter(map[], items, n).None? ==> NeverMet(items, n)
    requires HomeAfter(map[], items, n).Some? ==> FirstMet(items, n, HomeAfter(map[], items, n).value)
    ensures FirstMet(items, n, l) <==> HomeAfter(map[], items, n) == Some(l)
  {
    hide HomeAfter, EntryName;
    if FirstMet(items, n, l) && HomeAfter(map[], items, n).Some? {
      var g: int :| FirstMetAt(items, n, g) && Where(items[g]) == l;
      var h: int :| FirstMetAt(items, n, h) && Where(items[h]) == HomeAfter(map[], items, n).value;
      FirstMetUnique(items, n, g, h);
    }
  }

  // ----- where the definitions stand in an order -----

  lemma {:induction false} ItemsConcat(a: seq<Server>, b: seq<Server>, defs: map<Server, seq<Entry>>)
    ensures ItemsOf(a + b, defs) == ItemsOf(a, defs) + ItemsOf(b, defs)
  {
    hide DefinesOf, ItemsOf;
    if b == [] {
      assert a + b == a;
      NoneAtAll(defs);
    } else {
      var front, s := b[..|b| - 1], b[|b| - 1];
      ItemsConcat(a, front, defs);
      ItemsMore(a + front, s, defs);
      ItemsMore(front, s, defs);
      assert a + b == (a + front) + [s] && b == front + [s];
    }
  }

  /** The definitions of a server that comes after the servers in a. */
  lemma ServerAt(a: seq<Server>, s: Server, b: seq<Server>, defs: map<Server, seq<Entry>>)
    requires s in defs
    ensures ItemsOf(a + [s] + b, defs) == ItemsOf(a, defs) + ([Open(s)] + DefinesOf(s, defs[s])) + ItemsOf(b, defs)
  {
    hide ItemsOf, DefinesOf;
    ItemsMore(a, s, defs);
    ItemsConcat(a + [s], b, defs);
  }

  /** The definitions of every server stand together, in their order. */
  ghost predicate StandsAt(items: seq<Item>, defs: map<Server, seq<Entry>>, s: Server, o: nat) {
    && s in defs && o + |defs[s]| <= |items|
    && forall k :: 0 <= k < |defs[s]| ==> items[o + k] == Define(s, defs[s][k])
  }

  lemma ServerStands(a: seq<Server>, s: Server, b: seq<Server>, defs: map<Server, seq<Entry>>)
    requires s in defs
    ensures var items, o := ItemsOf(a + [s] + b, defs), |ItemsOf(a, defs)| + 1;
      && StandsAt(items, defs, s, o) && items[o - 1] == Open(s)
      && |items| == o + |defs[s]| + |ItemsOf(b, defs)|
  {
    hide ItemsOf;
    ServerAt(a, s, b, defs);
  }

  lemma StandsSomewhere(order: seq<Server>, defs: map<Server, seq<Entry>>, s: Server) returns (o: nat)
    requires s in order && s in defs
    ensures StandsAt(ItemsOf(order, defs), defs, s, o)
  {
    hide ItemsOf;
    var i :| 0 <= i < |order| && order[i] == s;
    var a, b := order[..i], order[i + 1..];
    assert order == a + [s] + b;
    ServerStands(a, s, b, defs);
    o := |ItemsOf(a, defs)| + 1;
  }

  lemma OneIndex(items: seq<Item>, j: nat, k: nat)
    requires Regular(items) && j < |items| && k < |items| && items[j].Define? && items[k].Define?
    requires Where(items[j]) == Where(items[k])
    ensures j == k
  {
    hide Regular;
    if j < k {
      Apart(items, j, k);
    } else if k < j {
      Apart(items, k, j);
    }
  }

  lemma Apart(items: seq<Item>, j: nat, k: nat)
    requires Regular(items) && j < k < |items| && items[j].Define? && items[k].Define?
    ensures Where(items[j]) != Where(items[k])
  {
    hide EntryName;
  }

  /** The name's first definition overall is its first one in its server. */
  lemma FirstInServer(items: seq<Item>, defs: map<Server, seq<Entry>>, n: Name, l: Loc, o: nat) returns (k: nat)
    requires Regular(items) && Draws(items, defs) && FirstMet(items, n, l) && StandsAt(items, defs, l.0, o)
    ensures k < |defs[l.0]| && defs[l.0][k].id == l.1 && EntryName(defs[l.0][k]) == n
    ensures forall j :: 0 <= j < k ==> EntryName(defs[l.0][j]) != n
    ensures FirstMetAt(items, n, o + k)
  {
    hide EntryName, Regular;
    var h: int :| FirstMetAt(items, n, h) && Where(items[h]) == l;
    assert items[h] in items;
    var i :| 0 <= i < |defs[l.0]| && defs[l.0][i] == items[h].e;
    k := i;
    OneIndex(items, o + k, h);
    forall j | 0 <= j < k ensures EntryName(defs[l.0][j]) != n {
      assert items[o + j] == Define(l.0, defs[l.0][j]);
    }
  }

  lemma MetSomewhere(items: seq<Item>, n: Name, k: nat) returns (h: int)
    requires k < |items| && items[k].Define? && EntryName(items[k].e) == n
    ensures FirstMetAt(items, n, h) && h <= k
    decreases k
  {
    hide EntryName;
    if j: nat :| j < k && items[j].Define? && EntryName(items[j].e) == n {
      h := MetSomewhere(items, n, j);
    } else {
      h := k;
    }
  }

  // ----- which names are published again -----

  ghost predicate DefinesAt(defs: map<Server, seq<Entry>>, s: Server, k: nat, n: Name) {
    s in defs && k < |defs[s]| && EntryName(defs[s][k]) == n
  }

  /** The server defines the name at least twice. */
  ghost predicate Twofold(defs: map<Server, seq<Entry>>, s: Server, n: Name) {
    exists j, k :: DefinesAt(defs, s, j, n) && DefinesAt(defs, s, k, n) && j < k
  }

  ghost predicate PublishedAgain(r: Twice, n: Name) {
    r.z.inflate(r.blob2).Some? && n in EntryNames(ParseManager(r.z.inflate(r.blob2).value.data))
  }

  lemma PublishedIffFollowed(r: Twice, n: Name)
    requires TwoMerges(r)
    ensures PublishedAgain(r, n) <==> Followed(r.t1, Items(r), n)
  {
    hide TwoMerges, Followed, ItemsOf, ParseManager;
    StillPublishedIff(r);
  }

  lemma PairItems(z: Codec, mgrs: map<Server, seq<byte>>, r: Twice)
    requires Mergeable(z, mgrs) && PairOf(z, mgrs, r)
    ensures Enumerates(r.order, mgrs.Keys) && Regular(Items(r)) && Draws(Items(r), Parsed(z, mgrs))
    ensures Parsed(z, mgrs).Keys == mgrs.Keys
  {
    hide ItemsOf, Reaches, ListsAll, Dedup, NamesMet, FollowNames, Lawful, GoodManagers, ParseManager, Regular, Draws;
    var es2: seq<Entry> :| Outcome(r.z, r.mgrs, r.t1, r.order, r.t2, r.blob2, es2);
    ItemsOfAll(z, mgrs, r.order);
  }

  /** If every server with the name has it twice, some definition always follows the first. */
  lemma TwofoldFollowed(z: Codec, mgrs: map<Server, seq<byte>>, n: Name, r: Twice, s0: Server, k0: nat)
    requires Mergeable(z, mgrs) && PairOf(z, mgrs, r) && DefinesAt(Parsed(z, mgrs), s0, k0, n)
    requires forall s, k :: DefinesAt(Parsed(z, mgrs), s, k, n) ==> Twofold(Parsed(z, mgrs), s, n)
    ensures Followed(r.t1, Items(r), n)
  {
    hide ItemsOf, TwoMerges, Regular, Draws, FirstMetAt, Lawful, GoodManagers, ParseManager, Dedup, NamesMet, Named,
         EntryName, AllNames, AllInflate;
    var defs := Parsed(z, mgrs);
    var order1 := SomeFirstOrder(r);
    var items1, items2 := ItemsOf(order1, defs), Items(r);
    PairItems(z, mgrs, r);
    ItemsOfAll(z, mgrs, order1);
    var l := FirstPlace(items1, defs, order1, n, s0, k0);
    var o1 := StandsSomewhere(order1, defs, l.0);
    var h := FirstInServer(items1, defs, n, l, o1);
    assert DefinesAt(defs, l.0, h, n);
    var i: nat, j: nat :| DefinesAt(defs, l.0, i, n) && DefinesAt(defs, l.0, j, n) && i < j;
    NameNotEmpty(items1, defs, order1, l.0, h);
    NamedIffFirst(r, order1, n, l.0, l.1);
    var o2 := StandsSomewhere(r.order, defs, l.0);
    assert items2[o2 + h] == Define(l.0, defs[l.0][h]) && items2[o2 + j] == Define(l.0, defs[l.0][j]);
    assert Behind(r.t1, items2, o2 + j);
  }

  lemma FirstPlace(items: seq<Item>, defs: map<Server, seq<Entry>>, order: seq<Server>, n: Name, s: Server, k: nat)
    returns (l: Loc)
    requires DefinesAt(defs, s, k, n) && s in order && items == ItemsOf(order, defs) && Draws(items, defs)
    ensures FirstMet(items, n, l) && l.0 in defs && l.0 in order
  {
    hide ItemsOf, EntryName;
    var o := StandsSomewhere(order, defs, s);
    assert items[o + k] == Define(s, defs[s][k]);
    var h := MetSomewhere(items, n, o + k);
    l := Where(items[h]);
    assert items[h] in items;
    ItemsFromOrder(order, defs, h);
  }

  lemma {:induction false} ItemsFromOrder(order: seq<Server>, defs: map<Server, seq<Entry>>, h: nat)
    requires h < |ItemsOf(order, defs)|
    ensures ItemsOf(order, defs)[h].srv in order
    decreases |order|
  {
    if order != [] {
      var front := order[..|order| - 1];
      if h < |ItemsOf(front, defs)| {
        ItemsFromOrder(front, defs, h);
      }
    }
  }

  lemma NameNotEmpty(items: seq<Item>, defs: map<Server, seq<Entry>>, order: seq<Server>, s: Server, k: nat)
    requires Regular(items) && items == ItemsOf(order, defs) && s in order && s in defs && k < |defs[s]|
    ensures EntryName(defs[s][k]) != []
  {
    hide ItemsOf, EntryName;
    var o := StandsSomewhere(order, defs, s);
    assert items[o + k] == Define(s, defs[s][k]);
  }

  /** If the server s has the name once, a first merge that begins with s and a second one that ends with it
      lose the name. */
  lemma OnceIsLost(z: Codec, mgrs: map<Server, seq<byte>>, n: Name, s: Server, k: nat) returns (r: Twice)
    requires Mergeable(z, mgrs) && DefinesAt(Parsed(z, mgrs), s, k, n) && !Twofold(Parsed(z, mgrs), s, n)
    ensures PairOf(z, mgrs, r) && !Followed(r.t1, Items(r), n)
  {
    hide ItemsOf, TwoMerges, Regular, Draws, Lawful, GoodManagers, ParseManager, Dedup, NamesMet, Named, EntryName,
         AllNames, AllInflate, FirstMetAt, StandsAt, Twofold, Followed, FirstMet;
    var defs := Parsed(z, mgrs);
    var rest := Enumeration(mgrs.Keys - {s});
    var order1, order2 := [s] + rest, rest + [s];
    r := PairExists(z, mgrs, order1, order2);
    PairItems(z, mgrs, r);
    ItemsOfAll(z, mgrs, order1);
    var items1, items2 := ItemsOf(order1, defs), Items(r);
    assert [] + [s] + rest == order1 && rest + [s] + [] == order2;
    ServerStands([], s, rest, defs);
    ServerStands(rest, s, [], defs);
    NoneAtAll(defs);
    OnlyOneFirst(items1, defs, s, k, n);
    NameNotEmpty(items1, defs, order1, s, k);
    LastIsNotFollowed(r, order1, s, k, n, |ItemsOf(rest, defs)| + 1);
  }

  lemma LastIsNotFollowed(r: Twice, order1: seq<Server>, s: Server, k: nat, n: Name, o: nat)
    requires TwoMerges(r) && FirstOrder(r, order1) && n != [] && Regular(Items(r))
    requires DefinesAt(Parsed(r.z, r.mgrs), s, k, n) && !Twofold(Parsed(r.z, r.mgrs), s, n)
    requires FirstMet(ItemsOf(order1, Parsed(r.z, r.mgrs)), n, (s, Parsed(r.z, r.mgrs)[s][k].id))
    requires StandsAt(Items(r), Parsed(r.z, r.mgrs), s, o) && |Items(r)| == o + |Parsed(r.z, r.mgrs)[s]|
    ensures !Followed(r.t1, Items(r), n)
  {
    hide ItemsOf, TwoMerges, Regular, Named, EntryName, FirstOrder, FirstMetAt, Parsed;
    var defs, items := Parsed(r.z, r.mgrs), Items(r);
    forall f | 0 <= f < |items| && items[f].Define? && EntryName(items[f].e) == n ensures !Behind(r.t1, items, f) {
      forall j | 0 <= j < f && items[j].Define? ensures !Named(r.t1, items[j].srv, items[j].e.id, n) {
        NamedIffFirst(r, order1, n, items[j].srv, items[j].e.id);
        FirstMetIsOne(ItemsOf(order1, defs), n, Where(items[j]), (s, defs[s][k].id));
        OneBefore(items, defs, s, k, n, o, j, f);
      }
    }
  }

  lemma OneBefore(items: seq<Item>, defs: map<Server, seq<Entry>>, s: Server, k: nat, n: Name, o: nat, j: nat, f: nat)
    requires Regular(items) && DefinesAt(defs, s, k, n) && !Twofold(defs, s, n)
    requires StandsAt(items, defs, s, o) && |items| == o + |defs[s]|
    requires j < f < |items| && items[j].Define? && items[f].Define? && EntryName(items[f].e) == n
    ensures Where(items[j]) != (s, defs[s][k].id)
  {
    hide Regular, EntryName;
    assert items[o + k] == Define(s, defs[s][k]);
    forall g | o + k < g < |items| ensures items[g].Define? && EntryName(items[g].e) != n {
      assert items[o + (g - o)] == Define(s, defs[s][g - o]);
      assert DefinesAt(defs, s, g - o, n) ==> Twofold(defs, s, n);
    }
    if Where(items[j]) == (s, defs[s][k].id) {
      OneIndex(items, j, o + k);
    }
  }

  lemma OnlyOneFirst(items: seq<Item>, defs: map<Server, seq<Entry>>, s: Server, k: nat, n: Name)
    requires DefinesAt(defs, s, k, n) && !Twofold(defs, s, n)
    requires StandsAt(items, defs, s, 1) && items[0] == Open(s)
    ensures FirstMetAt(items, n, 1 + k) && FirstMet(items, n, (s, defs[s][k].id))
  {
    hide EntryName;
    assert items[1 + k] == Define(s, defs[s][k]);
    forall i | 0 <= i < k ensures EntryName(defs[s][i]) != n {
      assert DefinesAt(defs, s, i, n) ==> Twofold(defs, s, n);
    }
    forall j | 0 <= j < 1 + k && items[j].Define? ensures EntryName(items[j].e) != n {
      assert j > 0 ==> items[1 + (j - 1)] == Define(s, defs[s][j - 1]);
    }
    assert Where(items[1 + k]) == (s, defs[s][k].id);
  }

  lemma FirstMetIsOne(items: seq<Item>, n: Name, l: Loc, l': Loc)
    requires FirstMet(items, n, l')
    ensures FirstMet(items, n, l) ==> l == l'
  {
    hide EntryName;
    if FirstMet(items, n, l) {
      var g: int :| FirstMetAt(items, n, g) && Where(items[g]) == l;
      var h: int :| FirstMetAt(items, n, h) && Where(items[h]) == l';
      FirstMetUnique(items, n, g, h);
    }
  }

  /** A name that is defined at all is published after every pair of merges if and only if every server that
      defines it defines it at least twice. */
  lemma AlwaysPublishedIff(z: Codec, mgrs: map<Server, seq<byte>>, n: Name)
    requires Mergeable(z, mgrs) && exists s, k :: DefinesAt(Parsed(z, mgrs), s, k, n)
    ensures (forall r :: PairOf(z, mgrs, r) ==> PublishedAgain(r, n))
       <==> (forall s, k :: DefinesAt(Parsed(z, mgrs), s, k, n) ==> Twofold(Parsed(z, mgrs), s, n))
  {
    hide Mergeable, TwoMerges, DefinesAt, Twofold, PublishedAgain, Followed, Items, Parsed;
    var defs := Parsed(z, mgrs);
    var s0, k0 :| DefinesAt(defs, s0, k0, n);
    if forall s, k :: DefinesAt(defs, s, k, n) ==> Twofold(defs, s, n) {
      forall r | PairOf(z, mgrs, r) ensures PublishedAgain(r, n) {
        TwofoldFollowed(z, mgrs, n, r, s0, k0);
        PublishedIffFollowed(r, n);
      }
    } else {
      var s, k :| DefinesAt(defs, s, k, n) && !Twofold(defs, s, n);
      var r := OnceIsLost(z, mgrs, n, s, k);
      PublishedIffFollowed(r, n);
    }
  }

  /** The name has two definitions, on one server or on two. */
  ghost predicate DefinedTwice(defs: map<Server, seq<Entry>>, n: Name) {
    exists s, j, s', k :: DefinesAt(defs, s, j, n) && DefinesAt(defs, s', k, n) && (s, j) != (s', k)
  }

  lemma HomeAt(r: Twice, n: Name, s: Server, i: u16) returns (k: nat)
    requires TwoMerges(r) && n != [] && Named(r.t1, s, i, n)
    ensures DefinesAt(Parsed(r.z, r.mgrs), s, k, n) && Parsed(r.z, r.mgrs)[s][k].id == i
  {
    hide Regular, Draws, Fresh, Publishes, EncodeManager, IdsFollow, ItemsOf, Dedup, FollowNames, Lawful, Parsed,
         GoodManagers, NamesMet, FirstTables, Named, Merges, TwoMerges, EntryName;
    var defs := Parsed(r.z, r.mgrs);
    var es1, es2 := BothMerges(r);
    HomeEntry(r.t1, defs, r.names, n, s, i);
    var e: Entry :| e in defs[s] && e.id == i && EntryName(e) == n;
    k :| 0 <= k < |defs[s]| && defs[s][k] == e;
  }

  lemma ItemDefinesAt(items: seq<Item>, defs: map<Server, seq<Entry>>, f: nat) returns (k: nat)
    requires Draws(items, defs) && f < |items| && items[f].Define?
    ensures DefinesAt(defs, items[f].srv, k, EntryName(items[f].e)) && defs[items[f].srv][k] == items[f].e
  {
    hide EntryName;
    assert items[f] in items;
    k :| 0 <= k < |defs[items[f].srv]| && defs[items[f].srv][k] == items[f].e;
  }

  lemma FollowedIsTwice(z: Codec, mgrs: map<Server, seq<byte>>, n: Name, r: Twice)
    requires Mergeable(z, mgrs) && PairOf(z, mgrs, r) && Followed(r.t1, Items(r), n)
    ensures DefinedTwice(Parsed(z, mgrs), n)
  {
    hide ItemsOf, TwoMerges, Regular, Draws, Lawful, GoodManagers, Named, EntryName, AllNames, AllInflate, DefinesAt,
         Parsed;
    var defs, items := Parsed(z, mgrs), Items(r);
    PairItems(z, mgrs, r);
    var f :| 0 <= f < |items| && items[f].Define? && EntryName(items[f].e) == n && Behind(r.t1, items, f);
    var g :| 0 <= g < f && items[g].Define? && Named(r.t1, items[g].srv, items[g].e.id, n);
    NameNotEmptyHere(items, f);
    var k := ItemDefinesAt(items, defs, f);
    var j := HomeAt(r, n, items[g].srv, items[g].e.id);
    if (items[g].srv, j) == (items[f].srv, k) {
      OneIndex(items, g, f);
    }
    assert DefinesAt(defs, items[g].srv, j, n) && DefinesAt(defs, items[f].srv, k, n);
  }

  lemma NameNotEmptyHere(items: seq<Item>, k: nat)
    requires Regular(items) && k < |items| && items[k].Define?
    ensures EntryName(items[k].e) != []
  {
    hide EntryName;
  }

  lemma IdsDiffer(z: Codec, mgrs: map<Server, seq<byte>>, s: Server, j: nat, k: nat)
    requires GoodManagers(z, mgrs) && s in Parsed(z, mgrs)
    requires j < |Parsed(z, mgrs)[s]| && k < |Parsed(z, mgrs)[s]|
    requires Parsed(z, mgrs)[s][j].id == Parsed(z, mgrs)[s][k].id
    ensures j == k
  {
    hide ParseManager, EntryName;
  }

  /** Two of the definitions of n, in the order in which they are met. */
  lemma TwoPlaces(z: Codec, mgrs: map<Server, seq<byte>>, order: seq<Server>, n: Name) returns (first: nat, second: nat)
    requires GoodManagers(z, mgrs) && DefinedTwice(Parsed(z, mgrs), n)
    requires forall s, k :: DefinesAt(Parsed(z, mgrs), s, k, n) ==> s in order
    ensures var items := ItemsOf(order, Parsed(z, mgrs));
      first < second < |items|
      && items[first].Define? && EntryName(items[first].e) == n
      && items[second].Define? && EntryName(items[second].e) == n
  {
    hide ItemsOf, GoodManagers, EntryName, Parsed;
    var defs := Parsed(z, mgrs);
    var items := ItemsOf(order, defs);
    var s: Server, j: nat, s': Server, k: nat :|
      DefinesAt(defs, s, j, n) && DefinesAt(defs, s', k, n) && (s, j) != (s', k);
    var o := StandsSomewhere(order, defs, s);
    var o' := StandsSomewhere(order, defs, s');
    assert items[o + j] == Define(s, defs[s][j]) && items[o' + k] == Define(s', defs[s'][k]);
    if o + j == o' + k {
      IdsDiffer(z, mgrs, s, j, k);
    }
    first, second := if o + j < o' + k then o + j else o' + k, if o + j < o' + k then o' + k else o + j;
  }

  /** With the same order in both merges every further definition follows the first. */
  lemma TwiceIsFollowed(z: Codec, mgrs: map<Server, seq<byte>>, n: Name) returns (r: Twice)
    requires Mergeable(z, mgrs) && DefinedTwice(Parsed(z, mgrs), n)
    ensures PairOf(z, mgrs, r) && Followed(r.t1, Items(r), n)
  {
    hide ItemsOf, TwoMerges, Regular, Draws, Lawful, GoodManagers, ParseManager, Dedup, NamesMet, Named, EntryName,
         AllNames, AllInflate, FirstMetAt, DefinedTwice;
    var order := Enumeration(mgrs.Keys);
    r := PairExists(z, mgrs, order, order);
    PairItems(z, mgrs, r);
    var items := Items(r);
    var first, second := TwoPlaces(z, mgrs, order, n);
    var h := MetSomewhere(items, n, first);
    HereFirst(items, n, h);
    NameNotEmptyHere(items, first);
    NamedIffFirst(r, order, n, items[h].srv, items[h].e.id);
    assert Behind(r.t1, items, second);
  }

  lemma HereFirst(items: seq<Item>, n: Name, h: int)
    requires FirstMetAt(items, n, h)
    ensures 0 <= h < |items| && items[h].Define? && FirstMet(items, n, (items[h].srv, items[h].e.id))
  {
    hide EntryName;
    assert Where(items[h]) == (items[h].srv, items[h].e.id);
  }

  /** A name is published after some pair of merges if and only if it has at least two definitions. */
  lemma SometimesPublishedIff(z: Codec, mgrs: map<Server, seq<byte>>, n: Name)
    requires Mergeable(z, mgrs)
    ensures (exists r :: PairOf(z, mgrs, r) && PublishedAgain(r, n)) <==> DefinedTwice(Parsed(z, mgrs), n)
  {
    hide Mergeable, TwoMerges, DefinedTwice, PublishedAgain, Followed, Items, Parsed;
    if r :| PairOf(z, mgrs, r) && PublishedAgain(r, n) {
      PublishedIffFollowed(r, n);
      FollowedIsTwice(z, mgrs, n, r);
    }
    if DefinedTwice(Parsed(z, mgrs), n) {
      var r := TwiceIsFollowed(z, mgrs, n);
      PublishedIffFollowed(r, n);
      assert PairOf(z, mgrs, r) && PublishedAgain(r, n);
    }
  }
}
