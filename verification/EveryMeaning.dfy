/** What the clients read after two merges, in terms of the servers' managers alone: exactly which managers
    make the clients with the new manager, or those that keep the old one, read every definition rightly
    whatever orders Go picks. */
module EveryMeaning {
  import opened Collections
  import opened Wire
  import opened Zlib
  import opened NodeDefs
  import opened NodeMerge
  import opened SecondMerge
  import opened EveryOrder

  function NamesOf(defs: map<Server, seq<Entry>>, s: Server): seq<Name> {
    EntryNames(ServerDefs(defs, s))
  }

  /** The server defines anything at all. */
  ghost predicate Busy(defs: map<Server, seq<Entry>>, s: Server) {
    s in defs && defs[s] != []
  }

  /** The names that come up once more, each time they do. */
  function Repeats(ns: seq<Name>): seq<Name> {
    if ns == [] then []
    else
      var front, n := ns[..|ns| - 1], ns[|ns| - 1];
      Repeats(front) + if n in front then [n] else []
  }

  /** Those with two definitions. */
  ghost function Multiple(defs: map<Server, seq<Entry>>, ns: seq<Name>): seq<Name> {
    if ns == [] then []
    else
      var front, n := ns[..|ns| - 1], ns[|ns| - 1];
      Multiple(defs, front) + if DefinedTwice(defs, n) then [n] else []
  }

  /** A name with two definitions is one of every server that defines anything. */
  ghost predicate Common(defs: map<Server, seq<Entry>>) {
    forall s, n :: Busy(defs, s) && DefinedTwice(defs, n) ==> n in NamesOf(defs, s)
  }

  /** The names with two definitions are the first ones of every server, in the order in which they come up
      once more there and then on any other. */
  ghost predicate KeepsOld(defs: map<Server, seq<Entry>>) {
    && Common(defs)
    && (forall s :: Busy(defs, s) ==> Dedup(Repeats(NamesOf(defs, s))) <= Dedup(NamesOf(defs, s)))
    && (forall s, t :: Busy(defs, s) && Busy(defs, t) && s != t ==>
          Dedup(Repeats(NamesOf(defs, s)) + Multiple(defs, NamesOf(defs, t))) <= Dedup(NamesOf(defs, s)))
  }

  /** Every server has the same names, each of them twice, and they come up a second time in the order in
      which they came up first. */
  ghost predicate KeepsNew(defs: map<Server, seq<Entry>>) {
    && (forall s, t, n :: Busy(defs, s) && Busy(defs, t) && n in NamesOf(defs, s) ==> n in NamesOf(defs, t))
    && (forall s :: Busy(defs, s) ==> Dedup(Repeats(NamesOf(defs, s))) == Dedup(NamesOf(defs, s)))
  }

  // ----- lists of names -----

  lemma {:induction false} DedupPrefix(xs: seq<Name>, ys: seq<Name>)
    ensures Dedup(xs) <= Dedup(xs + ys)
  {
    hide Dedup;
    if ys == [] {
      assert xs + ys == xs;
    } else {
      var front, y := ys[..|ys| - 1], ys[|ys| - 1];
      DedupPrefix(xs, front);
      DedupAppend(xs + front, y);
      assert xs + ys == (xs + front) + [y];
    }
  }

  lemma {:induction false} DedupKnown(xs: seq<Name>, ys: seq<Name>)
    requires forall n :: n in ys ==> n in xs
    ensures Dedup(xs + ys) == Dedup(xs)
  {
    hide Dedup;
    if ys == [] {
      assert xs + ys == xs;
    } else {
      var front, y := ys[..|ys| - 1], ys[|ys| - 1];
      assert ys == front + [y];
      DedupKnown(xs, front);
      DedupAppend(xs + front, y);
      InDedup(xs, y);
      assert xs + ys == (xs + front) + [y];
    }
  }

  lemma {:induction false} InDedup(xs: seq<Name>, n: Name)
    ensures n in Dedup(xs) <==> n in xs
  {
    if xs != [] {
      var front, x := xs[..|xs| - 1], xs[|xs| - 1];
      assert xs == front + [x];
      InDedup(front, n);
      DedupAppend(front, x);
    }
  }

  lemma {:induction false} RepeatsNames(ns: seq<Name>, n: Name)
    ensures n in Repeats(ns) <==> exists j, k :: 0 <= j < k < |ns| && ns[j] == n && ns[k] == n
  {
    if ns != [] {
      var front, x := ns[..|ns| - 1], ns[|ns| - 1];
      assert ns == front + [x];
      RepeatsNames(front, n);
      if j, k :| 0 <= j < k < |ns| && ns[j] == n && ns[k] == n {
        assert k < |front| ==> front[j] == n && front[k] == n;
        assert front[j] == n;
      }
      if n in Repeats(front) {
        var j, k :| 0 <= j < k < |front| && front[j] == n && front[k] == n;
        assert ns[j] == n && ns[k] == n;
      }
      if x == n && n in front {
        var j :| 0 <= j < |front| && front[j] == n;
        assert ns[j] == n && ns[|front|] == n;
      }
    }
  }

  lemma {:induction false} MultipleNames(defs: map<Server, seq<Entry>>, ns: seq<Name>, n: Name)
    ensures n in Multiple(defs, ns) <==> n in ns && DefinedTwice(defs, n)
  {
    hide DefinedTwice;
    if ns != [] {
      var front, x := ns[..|ns| - 1], ns[|ns| - 1];
      assert ns == front + [x];
      MultipleNames(defs, front, n);
    }
  }

  /** Two beginnings of one list, the first without names that the second lacks. */
  lemma ShorterPrefix(xs: seq<Name>, ys: seq<Name>, all: seq<Name>)
    requires xs <= all && ys <= all && Distinct(all) && forall n :: n in xs ==> n in ys
    ensures xs <= ys
  {
    if |ys| < |xs| {
      OneMore(xs, ys, all);
    }
  }

  lemma OneMore(xs: seq<Name>, ys: seq<Name>, all: seq<Name>)
    requires xs <= all && ys <= all && Distinct(all) && |ys| < |xs|
    ensures xs[|ys|] in xs && xs[|ys|] !in ys
  {
    assert forall k :: 0 <= k < |ys| ==> all[k] == ys[k];
    assert all[|ys|] == xs[|ys|];
  }

  lemma SameSize(xs: seq<Name>, ys: seq<Name>)
    requires xs <= ys && Distinct(ys) && forall n :: n in ys ==> n in xs
    ensures xs == ys
  {
    ShorterPrefix(ys, xs, ys);
  }

  // ----- the names that follow, block by block -----

  /** The full definition of n is one of the items. */
  ghost predicate Passed(t1: Table, items: seq<Item>, n: Name) {
    exists j :: 0 <= j < |items| && items[j].Define? && Named(t1, items[j].srv, items[j].e.id, n)
  }

  lemma FollowMore(t1: Table, front: seq<Item>, it: Item)
    ensures FollowNames(t1, front + [it]) ==
            FollowNames(t1, front) + if it.Define? && Passed(t1, front, EntryName(it.e)) then [EntryName(it.e)] else []
  {
    hide Named, EntryName, FollowNames;
    var items := front + [it];
    assert items[..|front|] == front && items[|front|] == it;
    assert forall j :: 0 <= j < |front| ==> items[j] == front[j];
    if it.Define? {
      PassedIsBehind(t1, items, |front|);
    }
    FollowLast(t1, items);
  }

  lemma FollowLast(t1: Table, items: seq<Item>)
    requires items != []
    ensures FollowNames(t1, items) ==
            FollowNames(t1, items[..|items| - 1]) +
            if items[|items| - 1].Define? && Behind(t1, items, |items| - 1) then
              [EntryName(items[|items| - 1].e)]
            else []
  {
    hide Behind, EntryName;
  }

  lemma PassedIsBehind(t1: Table, items: seq<Item>, k: nat)
    requires k < |items| && items[k].Define?
    ensures Passed(t1, items[..k], EntryName(items[k].e)) <==> Behind(t1, items, k)
  {
    hide Named, EntryName;
    assert forall j :: 0 <= j < k ==> items[..k][j] == items[j];
    if Behind(t1, items, k) {
      var j :| 0 <= j < k && items[j].Define? && Named(t1, items[j].srv, items[j].e.id, EntryName(items[k].e));
      assert items[..k][j].Define?;
    }
  }

  lemma PassedMore(t1: Table, x: seq<Item>, y: seq<Item>, n: Name)
    requires Passed(t1, x, n)
    ensures Passed(t1, x + y, n)
  {
    hide Named;
    var j :| 0 <= j < |x| && x[j].Define? && Named(t1, x[j].srv, x[j].e.id, n);
    assert (x + y)[j] == x[j];
  }

  /** The definitions in y whose name has been passed are of names that follow already. */
  ghost predicate OnlyKnown(t1: Table, x: seq<Item>, y: seq<Item>) {
    forall k :: 0 <= k < |y| && y[k].Define? && Passed(t1, x + y[..k], EntryName(y[k].e)) ==>
      EntryName(y[k].e) in FollowNames(t1, x)
  }

  lemma {:induction false} KnownFollow(t1: Table, x: seq<Item>, y: seq<Item>)
    requires OnlyKnown(t1, x, y)
    ensures FollowNames(t1, x) <= FollowNames(t1, x + y)
    ensures forall n :: n in FollowNames(t1, x + y) ==> n in FollowNames(t1, x)
    decreases |y|
  {
    hide Passed, EntryName, FollowNames;
    if y == [] {
      assert x + y == x;
    } else {
      var front, it := y[..|y| - 1], y[|y| - 1];
      assert y == front + [it];
      forall k | 0 <= k < |front| ensures front[k] == y[k] && front[..k] == y[..k] {
      }
      KnownFollow(t1, x, front);
      FollowMore(t1, x + front, it);
      assert x + y == (x + front) + [it];
    }
  }

  /** What follows in the whole is what follows in x. */
  lemma KnownAgain(t1: Table, x: seq<Item>, y: seq<Item>)
    requires OnlyKnown(t1, x, y)
    ensures Dedup(FollowNames(t1, x + y)) == Dedup(FollowNames(t1, x))
  {
    hide OnlyKnown, Dedup, FollowNames;
    KnownFollow(t1, x, y);
    var a, b := FollowNames(t1, x), FollowNames(t1, x + y);
    assert b == a + b[|a|..];
    DedupKnown(a, b[|a|..]);
  }

  lemma {:induction false} FollowPrefix(t1: Table, x: seq<Item>, y: seq<Item>)
    ensures FollowNames(t1, x) <= FollowNames(t1, x + y)
    decreases |y|
  {
    hide Passed, EntryName, FollowNames;
    if y == [] {
      assert x + y == x;
    } else {
      var front, it := y[..|y| - 1], y[|y| - 1];
      FollowPrefix(t1, x, front);
      FollowMore(t1, x + front, it);
      assert x + y == (x + front) + [it];
    }
  }

  lemma AgainPrefix(t1: Table, x: seq<Item>, y: seq<Item>)
    ensures Dedup(FollowNames(t1, x)) <= Dedup(FollowNames(t1, x + y))
  {
    hide Dedup, FollowNames;
    FollowPrefix(t1, x, y);
    var a, b := FollowNames(t1, x), FollowNames(t1, x + y);
    assert b == a + b[|a|..];
    DedupPrefix(a, b[|a|..]);
  }

  // ----- the server that comes first -----

  /** None of the servers defines anything. */
  ghost predicate Idle(order: seq<Server>, defs: map<Server, seq<Entry>>) {
    forall s :: s in order ==> !Busy(defs, s)
  }

  /** Either no server in the order defines anything, or one of them is the first to do so. */
  lemma {:induction false} SplitIdle(order: seq<Server>, defs: map<Server, seq<Entry>>)
    returns (idle: bool, a: seq<Server>, s: Server, b: seq<Server>)
    ensures if idle then Idle(order, defs) else order == a + [s] + b && Idle(a, defs) && Busy(defs, s)
    decreases |order|
  {
    hide Busy;
    if order == [] {
      idle, a, s, b := true, [], [], [];
    } else {
      var front, last := order[..|order| - 1], order[|order| - 1];
      assert order == front + [last];
      idle, a, s, b := SplitIdle(front, defs);
      if !idle {
        b := b + [last];
        assert order == a + [s] + b;
      } else if Busy(defs, last) {
        idle, a, s, b := false, front, last, [];
        assert order == a + [s] + b;
      }
    }
  }

  lemma {:induction false} IdleItems(order: seq<Server>, defs: map<Server, seq<Entry>>)
    requires Idle(order, defs)
    ensures forall k :: 0 <= k < |ItemsOf(order, defs)| ==> ItemsOf(order, defs)[k].Open?
  {
    if order != [] {
      var front, s := order[..|order| - 1], order[|order| - 1];
      assert order == front + [s];
      IdleItems(front, defs);
      assert !Busy(defs, s);
      ItemsMore(front, s, defs);
    }
  }

  /** Its first definition of n. */
  function HomeId(defs: map<Server, seq<Entry>>, s: Server, n: Name): u16
    requires n in NamesOf(defs, s)
  {
    ServerDefs(defs, s)[IndexOf(NamesOf(defs, s), n)].id
  }

  /** The names of s have their full definitions there. */
  ghost predicate Homes(t1: Table, defs: map<Server, seq<Entry>>, s: Server) {
    forall n, u: Server, i: u16 :: n in NamesOf(defs, s) ==>
      (Named(t1, u, i, n) <==> u == s && i == HomeId(defs, s, n))
  }

  /** s is the first server in the first merge that defines anything. */
  ghost predicate Leads(r: Twice, s: Server) {
    && Busy(Parsed(r.z, r.mgrs), s)
    && exists a, b :: Idle(a, Parsed(r.z, r.mgrs)) && FirstOrder(r, a + [s] + b)
  }

  lemma LeaderMeets(a: seq<Server>, s: Server, b: seq<Server>, defs: map<Server, seq<Entry>>, n: Name)
    requires Idle(a, defs) && s in defs && n in NamesOf(defs, s)
    ensures FirstMet(ItemsOf(a + [s] + b, defs), n, (s, HomeId(defs, s, n)))
  {
    hide ItemsOf, EntryName, Idle, StandsAt, FirstMet, DefinesOf;
    var items, o := ItemsOf(a + [s] + b, defs), |ItemsOf(a, defs)| + 1;
    ServerAt(a, s, b, defs);
    IdleItems(a, defs);
    ServerStands(a, s, b, defs);
    forall j | 0 <= j < o + IndexOf(NamesOf(defs, s), n) && items[j].Define? ensures EntryName(items[j].e) != n {
      BeforeHome(items, ItemsOf(a, defs), defs, s, n, j);
    }
    HomeStands(items, defs, s, o, n);
  }

  lemma HomeStands(items: seq<Item>, defs: map<Server, seq<Entry>>, s: Server, o: nat, n: Name)
    requires n in NamesOf(defs, s) && StandsAt(items, defs, s, o)
    requires forall j :: 0 <= j < o + IndexOf(NamesOf(defs, s), n) < |items| && items[j].Define? ==>
               EntryName(items[j].e) != n
    ensures FirstMet(items, n, (s, HomeId(defs, s, n)))
  {
    hide EntryName;
    var k := IndexOf(NamesOf(defs, s), n);
    assert items[o + k] == Define(s, defs[s][k]);
    assert FirstMetAt(items, n, o + k);
  }

  lemma BeforeHome(items: seq<Item>, x: seq<Item>, defs: map<Server, seq<Entry>>, s: Server, n: Name, j: nat)
    requires n in NamesOf(defs, s) && StandsAt(items, defs, s, |x| + 1) && items[|x|] == Open(s)
    requires x <= items && forall k :: 0 <= k < |x| ==> x[k].Open?
    requires j < |x| + 1 + IndexOf(NamesOf(defs, s), n)
    ensures items[j].Define? ==> EntryName(items[j].e) != n
  {
    hide EntryName;
    if j < |x| {
      assert items[j] == x[j];
    } else if j > |x| {
      var i := j - |x| - 1;
      assert items[|x| + 1 + i] == Define(s, defs[s][i]);
      assert NamesOf(defs, s)[i] != n;
    }
  }

  lemma LeaderHomes(r: Twice, s: Server)
    requires TwoMerges(r) && Leads(r, s)
    ensures Homes(r.t1, Parsed(r.z, r.mgrs), s)
  {
    hide TwoMerges, ItemsOf, Busy, Idle, FirstOrder, FirstMet, Named, Parsed, HomeId, EntryName, Regular, GoodManagers;
    var defs := Parsed(r.z, r.mgrs);
    var a, b :| Idle(a, defs) && FirstOrder(r, a + [s] + b);
    var items := ItemsOf(a + [s] + b, defs);
    forall n, u: Server, i: u16 | n in NamesOf(defs, s)
      ensures Named(r.t1, u, i, n) <==> u == s && i == HomeId(defs, s, n)
    {
      LeaderDefines(defs, s, n);
      LeaderMeets(a, s, b, defs, n);
      FirstNotEmpty(r, a + [s] + b, n, (s, HomeId(defs, s, n)));
      NamedIffFirst(r, a + [s] + b, n, u, i);
      FirstMetIsOne(items, n, (u, i), (s, HomeId(defs, s, n)));
    }
  }

  lemma LeaderDefines(defs: map<Server, seq<Entry>>, s: Server, n: Name)
    requires n in NamesOf(defs, s)
    ensures s in defs
  {
    hide EntryName;
  }

  lemma FirstNotEmpty(r: Twice, order: seq<Server>, n: Name, l: Loc)
    requires TwoMerges(r) && FirstOrder(r, order) && FirstMet(ItemsOf(order, Parsed(r.z, r.mgrs)), n, l)
    ensures n != []
  {
    hide ItemsOf, EntryName, Regular, Draws, GoodManagers, ListsAll, Reaches, Lawful, Dedup, NamesMet, FollowNames,
         Parsed, EncodeManager;
    var items := ItemsOf(order, Parsed(r.z, r.mgrs));
    ItemsOfAll(r.z, r.mgrs, order);
    var h: int :| FirstMetAt(items, n, h) && Where(items[h]) == l;
    NameNotEmptyHere(items, h);
  }

  // ----- what follows in the second merge -----

  ghost predicate Without(items: seq<Item>, s: Server) {
    forall k :: 0 <= k < |items| ==> items[k].srv != s
  }

  lemma NotPassed(t1: Table, defs: map<Server, seq<Entry>>, s: Server, items: seq<Item>, n: Name)
    requires Homes(t1, defs, s) && Without(items, s) && n in NamesOf(defs, s)
    ensures !Passed(t1, items, n)
  {
    hide Named, HomeId, NamesOf;
  }

  /** All of s has been gone over. */
  lemma PassedAll(t1: Table, defs: map<Server, seq<Entry>>, s: Server, items: seq<Item>, o: nat, n: Name)
    requires Homes(t1, defs, s) && StandsAt(items, defs, s, o) && n in NamesOf(defs, s)
    ensures Passed(t1, items, n)
  {
    hide Named, EntryName;
    var k := IndexOf(NamesOf(defs, s), n);
    assert items[o + k] == Define(s, defs[s][k]);
    assert Named(t1, s, HomeId(defs, s, n), n);
  }

  /** Half way through s the names that have been passed are those that have been met. */
  lemma PassedInside(t1: Table, defs: map<Server, seq<Entry>>, s: Server, x: seq<Item>, m: nat, n: Name)
    requires Homes(t1, defs, s) && Without(x, s) && n in NamesOf(defs, s)
    requires s in defs && m <= |defs[s]| && WellFormed(defs[s])
    ensures Passed(t1, x + [Open(s)] + DefinesOf(s, defs[s][..m]), n) <==> n in NamesOf(defs, s)[..m]
  {
    hide Named, EntryName, Without, Homes;
    var items := x + [Open(s)] + DefinesOf(s, defs[s][..m]);
    if Passed(t1, items, n) {
      var j :| 0 <= j < |items| && items[j].Define? && Named(t1, items[j].srv, items[j].e.id, n);
      PassedHere(t1, defs, s, x, m, n, j);
    }
    if n in NamesOf(defs, s)[..m] {
      HomePassed(t1, defs, s, x, m, n);
    }
  }

  lemma PassedHere(t1: Table, defs: map<Server, seq<Entry>>, s: Server, x: seq<Item>, m: nat, n: Name, j: nat)
    requires Homes(t1, defs, s) && Without(x, s) && n in NamesOf(defs, s)
    requires s in defs && m <= |defs[s]| && WellFormed(defs[s])
    requires var items := x + [Open(s)] + DefinesOf(s, defs[s][..m]);
      j < |items| && items[j].Define? && Named(t1, items[j].srv, items[j].e.id, n)
    ensures n in NamesOf(defs, s)[..m]
  {
    hide Named, EntryName, DefinesOf;
    var items := x + [Open(s)] + DefinesOf(s, defs[s][..m]);
    assert forall i :: 0 <= i < |x| ==> items[i] == x[i];
    assert items[j].srv == s && items[j].e.id == HomeId(defs, s, n);
    var i := j - |x| - 1;
    assert items[j] == DefinesOf(s, defs[s][..m])[i];
    DefineAt(s, defs[s][..m], i);
    var h := IndexOf(NamesOf(defs, s), n);
    assert i == h;
    assert NamesOf(defs, s)[..m][i] == n;
  }

  lemma DefineAt(s: Server, es: seq<Entry>, i: nat)
    requires i < |es|
    ensures DefinesOf(s, es)[i] == Define(s, es[i])
  {
  }

  lemma HomePassed(t1: Table, defs: map<Server, seq<Entry>>, s: Server, x: seq<Item>, m: nat, n: Name)
    requires Homes(t1, defs, s) && s in defs && m <= |defs[s]| && n in NamesOf(defs, s) && n in NamesOf(defs, s)[..m]
    ensures Passed(t1, x + [Open(s)] + DefinesOf(s, defs[s][..m]), n)
  {
    hide Named, EntryName, DefinesOf;
    var items := x + [Open(s)] + DefinesOf(s, defs[s][..m]);
    var k :| 0 <= k < m && NamesOf(defs, s)[..m][k] == n;
    assert NamesOf(defs, s)[k] == n;
    var h := IndexOf(NamesOf(defs, s), n);
    DefineAt(s, defs[s][..m], h);
    assert items[|x| + 1 + h] == Define(s, defs[s][h]);
    assert Named(t1, s, HomeId(defs, s, n), n);
  }

  /** In the server that came first in the first merge, what follows are the names that come up again. */
  lemma {:induction false} RepeatsFollow(t1: Table, defs: map<Server, seq<Entry>>, s: Server, x: seq<Item>, m: nat)
    requires Homes(t1, defs, s) && Without(x, s) && s in defs && m <= |defs[s]| && WellFormed(defs[s])
    ensures FollowNames(t1, x + [Open(s)] + DefinesOf(s, defs[s][..m])) ==
            FollowNames(t1, x) + Repeats(NamesOf(defs, s)[..m])
    decreases m
  {
    hide Passed, EntryName, FollowNames, DefinesOf, Homes, Without, WellFormed;
    var ns, es := NamesOf(defs, s), defs[s];
    if m == 0 {
      NoDefines(s);
      assert x + [Open(s)] + DefinesOf(s, es[..m]) == x + [Open(s)];
      FollowMore(t1, x, Open(s));
    } else {
      var k := m - 1;
      RepeatsFollow(t1, defs, s, x, k);
      assert es[..m] == es[..k] + [es[k]] && ns[..m] == ns[..k] + [ns[k]];
      DefinesMore(s, es[..k], es[k]);
      var front := x + [Open(s)] + DefinesOf(s, es[..k]);
      assert x + [Open(s)] + DefinesOf(s, es[..m]) == front + [Define(s, es[k])];
      FollowMore(t1, front, Define(s, es[k]));
      assert ns[k] in ns;
      PassedInside(t1, defs, s, x, k, ns[k]);
    }
  }

  lemma NoDefines(s: Server)
    ensures DefinesOf(s, []) == []
  {
  }

  /** In any later server that defines anything, they are those with two definitions. */
  lemma {:induction false} MultipleFollow(t1: Table, defs: map<Server, seq<Entry>>, x: seq<Item>, u: Server, m: nat)
    requires u in defs && m <= |defs[u]|
    requires forall k :: 0 <= k < m ==>
               (Passed(t1, x + [Open(u)] + DefinesOf(u, defs[u][..k]), NamesOf(defs, u)[k])
                <==> DefinedTwice(defs, NamesOf(defs, u)[k]))
    ensures FollowNames(t1, x + [Open(u)] + DefinesOf(u, defs[u][..m])) ==
            FollowNames(t1, x) + Multiple(defs, NamesOf(defs, u)[..m])
    decreases m
  {
    hide Passed, EntryName, FollowNames, DefinesOf, DefinedTwice;
    var ns, es := NamesOf(defs, u), defs[u];
    if m == 0 {
      NoDefines(u);
      assert x + [Open(u)] + DefinesOf(u, es[..m]) == x + [Open(u)];
      FollowMore(t1, x, Open(u));
    } else {
      var k := m - 1;
      MultipleFollow(t1, defs, x, u, k);
      assert es[..m] == es[..k] + [es[k]] && ns[..m] == ns[..k] + [ns[k]];
      DefinesMore(u, es[..k], es[k]);
      var front := x + [Open(u)] + DefinesOf(u, es[..k]);
      assert x + [Open(u)] + DefinesOf(u, es[..m]) == front + [Define(u, es[k])];
      FollowMore(t1, front, Define(u, es[k]));
    }
  }

  /** What has been passed has two definitions. */
  ghost predicate PassedTwice(t1: Table, defs: map<Server, seq<Entry>>, items: seq<Item>) {
    forall k :: 0 <= k < |items| && items[k].Define? && Passed(t1, items[..k], EntryName(items[k].e)) ==>
      DefinedTwice(defs, EntryName(items[k].e))
  }

  lemma FollowersTwice(z: Codec, mgrs: map<Server, seq<byte>>, r: Twice)
    requires Mergeable(z, mgrs) && PairOf(z, mgrs, r)
    ensures PassedTwice(r.t1, Parsed(z, mgrs), Items(r))
  {
    hide Mergeable, TwoMerges, Behind, Passed, DefinedTwice, EntryName, Items, Parsed;
    var items := Items(r);
    forall k | 0 <= k < |items| && items[k].Define? && Passed(r.t1, items[..k], EntryName(items[k].e))
      ensures DefinedTwice(Parsed(z, mgrs), EntryName(items[k].e))
    {
      PassedIsBehind(r.t1, items, k);
      FollowedIsTwice(z, mgrs, EntryName(items[k].e), r);
    }
  }

  lemma NoneBefore(t1: Table, defs: map<Server, seq<Entry>>, s: Server, x: seq<Item>, y: seq<Item>)
    requires Homes(t1, defs, s) && Common(defs) && Busy(defs, s) && PassedTwice(t1, defs, x + y) && Without(x, s)
    ensures FollowNames(t1, x) == []
  {
    hide Homes, Passed, DefinedTwice, EntryName, Busy, FollowNames;
    assert FollowNames(t1, x) != [] ==> FollowNames(t1, x)[0] in FollowNames(t1, x);
    NothingFollows(t1);
    forall k | 0 <= k < |x| && x[k].Define? ensures !Passed(t1, [] + x[..k], EntryName(x[k].e)) {
      assert [] + x[..k] == (x + y)[..k] && (x + y)[k] == x[k];
      if EntryName(x[k].e) in NamesOf(defs, s) {
        NotPassed(t1, defs, s, (x + y)[..k], EntryName(x[k].e));
      }
    }
    KnownFollow(t1, [], x);
    assert [] + x == x;
  }

  lemma NothingFollows(t1: Table)
    ensures FollowNames(t1, []) == []
  {
  }

  lemma WithoutOthers(order: seq<Server>, defs: map<Server, seq<Entry>>, s: Server)
    requires s !in order
    ensures Without(ItemsOf(order, defs), s)
  {
    hide ItemsOf;
    forall h | 0 <= h < |ItemsOf(order, defs)| ensures ItemsOf(order, defs)[h].srv != s {
      ItemsFromOrder(order, defs, h);
    }
  }

  /** Up to the server that came first in the first merge. */
  lemma LeaderFollow(t1: Table, defs: map<Server, seq<Entry>>, a: seq<Server>, s: Server, b: seq<Server>)
    requires Homes(t1, defs, s) && Common(defs) && Busy(defs, s) && GoodDefs(defs) && Distinct(a + [s] + b)
    requires PassedTwice(t1, defs, ItemsOf(a + [s] + b, defs))
    ensures FollowNames(t1, ItemsOf(a + [s], defs)) == Repeats(NamesOf(defs, s))
  {
    hide Homes, Common, PassedTwice, ItemsOf, FollowNames, DefinesOf, NamesOf, WellFormed, Fits, Repeats, Without;
    var x := ItemsOf(a, defs);
    NotTwice(a, s, b);
    WithoutOthers(a, defs, s);
    ServerAt(a, s, b, defs);
    var y := [Open(s)] + DefinesOf(s, defs[s]) + ItemsOf(b, defs);
    assert ItemsOf(a + [s] + b, defs) == x + y;
    NoneBefore(t1, defs, s, x, y);
    RepeatsFollow(t1, defs, s, x, |defs[s]|);
    ItemsMore(a, s, defs);
    AllOf(defs, s);
    assert x + [Open(s)] + DefinesOf(s, defs[s]) == x + ([Open(s)] + DefinesOf(s, defs[s]));
  }

  lemma NotTwice(a: seq<Server>, s: Server, b: seq<Server>)
    requires Distinct(a + [s] + b)
    ensures s !in a && s !in b
  {
    var order := a + [s] + b;
    assert order[|a|] == s;
    assert forall k :: 0 <= k < |a| ==> order[k] == a[k];
    assert forall k :: 0 <= k < |b| ==> order[|a| + 1 + k] == b[k];
  }

  lemma AllOf(defs: map<Server, seq<Entry>>, s: Server)
    requires s in defs
    ensures |NamesOf(defs, s)| == |defs[s]|
    ensures NamesOf(defs, s)[..|defs[s]|] == NamesOf(defs, s) && defs[s][..|defs[s]|] == defs[s]
  {
    hide EntryName;
  }

  lemma {:induction false} IdleFollow(t1: Table, x: seq<Item>, y: seq<Item>)
    requires forall k :: 0 <= k < |y| ==> y[k].Open?
    ensures FollowNames(t1, x + y) == FollowNames(t1, x)
    decreases |y|
  {
    hide Passed, EntryName, FollowNames;
    if y == [] {
      assert x + y == x;
    } else {
      var front, it := y[..|y| - 1], y[|y| - 1];
      IdleFollow(t1, x, front);
      FollowMore(t1, x + front, it);
      assert x + y == (x + front) + [it];
    }
  }

  lemma PassedIffTwice(t1: Table, defs: map<Server, seq<Entry>>, s: Server, x: seq<Item>, o: nat, u: Server,
                       y: seq<Item>, k: nat)
    requires Homes(t1, defs, s) && Common(defs) && Busy(defs, s) && StandsAt(x, defs, s, o)
    requires u in defs && k < |defs[u]|
    requires PassedTwice(t1, defs, x + ([Open(u)] + DefinesOf(u, defs[u])) + y)
    ensures Passed(t1, x + [Open(u)] + DefinesOf(u, defs[u][..k]), EntryName(defs[u][k])) <==>
            DefinedTwice(defs, EntryName(defs[u][k]))
  {
    hide Homes, Passed, DefinedTwice, EntryName, Busy, StandsAt;
    var items, front := x + ([Open(u)] + DefinesOf(u, defs[u])) + y, x + [Open(u)] + DefinesOf(u, defs[u][..k]);
    var n := EntryName(defs[u][k]);
    assert items[..|x| + 1 + k] == front && items[|x| + 1 + k] == Define(u, defs[u][k]);
    if DefinedTwice(defs, n) {
      PassedAll(t1, defs, s, x, o, n);
      PassedMore(t1, x, [Open(u)] + DefinesOf(u, defs[u][..k]), n);
      assert x + ([Open(u)] + DefinesOf(u, defs[u][..k])) == front;
    }
  }

  /** Up to the next server that defines anything. */
  lemma NextFollow(t1: Table, defs: map<Server, seq<Entry>>, a: seq<Server>, s: Server, c: seq<Server>, u: Server,
                   d: seq<Server>)
    requires Homes(t1, defs, s) && Common(defs) && Busy(defs, s) && Busy(defs, u) && Idle(c, defs) && GoodDefs(defs)
    requires Distinct(a + [s] + (c + [u] + d)) && PassedTwice(t1, defs, ItemsOf(a + [s] + (c + [u] + d), defs))
    ensures FollowNames(t1, ItemsOf(a + [s] + c + [u], defs)) ==
            Repeats(NamesOf(defs, s)) + Multiple(defs, NamesOf(defs, u))
  {
    hide Homes, Common, PassedTwice, ItemsOf, FollowNames, DefinesOf, WellFormed, Fits, Repeats, Multiple, Idle, Passed,
         DefinedTwice, EntryName, GoodDefs, StandsAt;
    LeaderFollow(t1, defs, a, s, c + [u] + d);
    ItemsConcat(a + [s], c, defs);
    IdleItems(c, defs);
    IdleFollow(t1, ItemsOf(a + [s], defs), ItemsOf(c, defs));
    var x := ItemsOf(a + [s] + c, defs);
    ServerStands(a, s, c, defs);
    ServerAt(a + [s] + c, u, d, defs);
    assert a + [s] + (c + [u] + d) == (a + [s] + c) + [u] + d;
    forall k | 0 <= k < |defs[u]|
      ensures Passed(t1, x + [Open(u)] + DefinesOf(u, defs[u][..k]), NamesOf(defs, u)[k])
              <==> DefinedTwice(defs, NamesOf(defs, u)[k])
    {
      PassedIffTwice(t1, defs, s, x, |ItemsOf(a, defs)| + 1, u, ItemsOf(d, defs), k);
    }
    MultipleFollow(t1, defs, x, u, |defs[u]|);
    AllOf(defs, u);
    ItemsMore(a + [s] + c, u, defs);
    assert x + [Open(u)] + DefinesOf(u, defs[u]) == x + ([Open(u)] + DefinesOf(u, defs[u]));
  }

  /** Nothing new comes after that. */
  lemma RestKnown(t1: Table, defs: map<Server, seq<Entry>>, x: seq<Item>, y: seq<Item>)
    requires PassedTwice(t1, defs, x + y)
    requires forall n :: DefinedTwice(defs, n) ==> n in FollowNames(t1, x)
    ensures OnlyKnown(t1, x, y)
  {
    hide Passed, DefinedTwice, EntryName, FollowNames;
    forall k | 0 <= k < |y| ensures x + y[..k] == (x + y)[..|x| + k] && y[k] == (x + y)[|x| + k] {
    }
  }

  // ----- the names of the first merge -----

  lemma {:induction false} MetConcat(x: seq<Item>, y: seq<Item>)
    ensures NamesMet(x + y) == NamesMet(x) + NamesMet(y)
    decreases |y|
  {
    hide EntryName;
    if y == [] {
      assert x + y == x;
    } else {
      var front, it := y[..|y| - 1], y[|y| - 1];
      MetConcat(x, front);
      assert (x + y)[..|x + y| - 1] == x + front;
    }
  }

  lemma {:induction false} MetIdle(x: seq<Item>)
    requires forall k :: 0 <= k < |x| ==> x[k].Open?
    ensures NamesMet(x) == []
  {
    if x != [] {
      MetIdle(x[..|x| - 1]);
    }
  }

  lemma {:induction false} MetInServer(s: Server, es: seq<Entry>)
    ensures NamesMet(DefinesOf(s, es)) == EntryNames(es)
  {
    hide EntryName;
    if es != [] {
      var front, e := es[..|es| - 1], es[|es| - 1];
      MetInServer(s, front);
      assert es == front + [e];
      DefinesMore(s, front, e);
      assert EntryNames(es) == EntryNames(front) + [EntryName(e)];
      assert DefinesOf(s, es)[..|es| - 1] == DefinesOf(s, front);
    }
  }

  lemma LeaderNames(r: Twice, s: Server)
    requires TwoMerges(r) && Leads(r, s)
    ensures Dedup(NamesOf(Parsed(r.z, r.mgrs), s)) <= r.names
  {
    hide TwoMerges, ItemsOf, Idle, Parsed, EntryName, NamesMet, Dedup, DefinesOf;
    var defs := Parsed(r.z, r.mgrs);
    var a, b :| Idle(a, defs) && FirstOrder(r, a + [s] + b);
    var x, y := ItemsOf(a, defs), ItemsOf(b, defs);
    ServerAt(a, s, b, defs);
    IdleItems(a, defs);
    MetIdle(x);
    MetIdle([Open(s)]);
    MetInServer(s, defs[s]);
    MetConcat([Open(s)], DefinesOf(s, defs[s]));
    MetConcat(x, [Open(s)] + DefinesOf(s, defs[s]));
    MetConcat(x + ([Open(s)] + DefinesOf(s, defs[s])), y);
    assert [] + ([] + NamesOf(defs, s)) == NamesOf(defs, s);
    DedupPrefix(NamesOf(defs, s), NamesMet(y));
  }

  // ----- clients that keep the old manager -----

  /** What the lemmas above want of a pair of merges in the first of which s came first. */
  ghost predicate LedBy(r: Twice, s: Server) {
    var defs := Parsed(r.z, r.mgrs);
    && Homes(r.t1, defs, s) && Busy(defs, s) && GoodDefs(defs) && Distinct(r.order)
    && PassedTwice(r.t1, defs, Items(r)) && Dedup(NamesOf(defs, s)) <= r.names && Distinct(r.names)
    && r.again == Dedup(FollowNames(r.t1, Items(r)))
  }

  lemma LeaderFacts(z: Codec, mgrs: map<Server, seq<byte>>, r: Twice, s: Server)
    requires Mergeable(z, mgrs) && PairOf(z, mgrs, r) && Leads(r, s)
    ensures LedBy(r, s)
  {
    hide TwoMerges, Homes, GoodDefs, PassedTwice, Dedup, NamesOf, FollowNames, Items, Parsed, GoodManagers, AllInflate,
         Lawful, AllNames, Busy;
    LeaderHomes(r, s);
    LeaderNames(r, s);
    FollowersTwice(z, mgrs, r);
    ParsedGood(z, mgrs);
    PairItems(z, mgrs, r);
    AgainNames(r);
  }

  lemma SplitAt(order: seq<Server>, s: Server) returns (a: seq<Server>, b: seq<Server>)
    requires s in order
    ensures order == a + [s] + b
  {
    var i :| 0 <= i < |order| && order[i] == s;
    a, b := order[..i], order[i + 1..];
  }

  lemma SomeLeader(z: Codec, mgrs: map<Server, seq<byte>>, r: Twice) returns (idle: bool, s: Server)
    requires Mergeable(z, mgrs) && PairOf(z, mgrs, r)
    ensures idle ==> Idle(r.order, Parsed(z, mgrs))
    ensures !idle ==> Leads(r, s) && s in r.order
  {
    hide TwoMerges, Busy, GoodManagers, AllInflate, Lawful, AllNames, Parsed, Regular, Draws, Dedup, NamesMet, Items,
         ItemsOf;
    var order := SomeFirstOrder(r);
    PairItems(z, mgrs, r);
    var a: seq<Server>, b: seq<Server>;
    idle, a, s, b := SplitIdle(order, Parsed(z, mgrs));
    assert forall u :: u in order <==> u in r.order;
    if !idle {
      assert order[|a|] == s;
    }
  }

  lemma KeepsOldSuffices(z: Codec, mgrs: map<Server, seq<byte>>, r: Twice)
    requires Mergeable(z, mgrs) && PairOf(z, mgrs, r) && KeepsOld(Parsed(z, mgrs))
    ensures r.again <= r.names
  {
    hide TwoMerges, Mergeable, Homes, GoodDefs, PassedTwice, Dedup, NamesOf, FollowNames, ItemsOf, Parsed, Busy, Idle,
         Repeats, Multiple, Common, Leads;
    var defs := Parsed(z, mgrs);
    var idle, s := SomeLeader(z, mgrs, r);
    if idle {
      IdleItems(r.order, defs);
      NothingAgain(r);
    } else {
      LeaderFacts(z, mgrs, r, s);
      var a, b := SplitAt(r.order, s);
      var alone, c, u, d := SplitIdle(b, defs);
      if alone {
        AloneAgain(r, a, s, b);
      } else {
        NextAgain(r, a, s, c, u, d);
      }
    }
  }

  lemma NothingAgain(r: Twice)
    requires TwoMerges(r) && forall k :: 0 <= k < |Items(r)| ==> Items(r)[k].Open?
    ensures r.again == []
  {
    hide TwoMerges, FollowNames, Items;
    AgainNames(r);
    NothingFollows(r.t1);
    IdleFollow(r.t1, [], Items(r));
    assert [] + Items(r) == Items(r);
  }

  lemma AloneAgain(r: Twice, a: seq<Server>, s: Server, b: seq<Server>)
    requires LedBy(r, s) && KeepsOld(Parsed(r.z, r.mgrs))
    requires r.order == a + [s] + b && Idle(b, Parsed(r.z, r.mgrs))
    ensures r.again <= r.names
  {
    hide Homes, GoodDefs, PassedTwice, Dedup, NamesOf, FollowNames, ItemsOf, Parsed, Busy, Idle, Repeats, Multiple,
         Common;
    var defs := Parsed(r.z, r.mgrs);
    LeaderFollow(r.t1, defs, a, s, b);
    ItemsConcat(a + [s], b, defs);
    IdleItems(b, defs);
    IdleFollow(r.t1, ItemsOf(a + [s], defs), ItemsOf(b, defs));
  }

  lemma NextAgain(r: Twice, a: seq<Server>, s: Server, c: seq<Server>, u: Server, d: seq<Server>)
    requires LedBy(r, s) && KeepsOld(Parsed(r.z, r.mgrs))
    requires r.order == a + [s] + (c + [u] + d) && Idle(c, Parsed(r.z, r.mgrs)) && Busy(Parsed(r.z, r.mgrs), u)
    ensures r.again <= r.names
  {
    hide Homes, GoodDefs, PassedTwice, Dedup, NamesOf, FollowNames, ItemsOf, Parsed, Busy, Idle, Repeats, Multiple,
         OnlyKnown, DefinedTwice;
    var defs := Parsed(r.z, r.mgrs);
    NextFollow(r.t1, defs, a, s, c, u, d);
    ItemsConcat(a + [s] + c + [u], d, defs);
    assert r.order == (a + [s] + c + [u]) + d;
    var x, y := ItemsOf(a + [s] + c + [u], defs), ItemsOf(d, defs);
    forall n | DefinedTwice(defs, n) ensures n in FollowNames(r.t1, x) {
      MultipleNames(defs, NamesOf(defs, u), n);
    }
    RestKnown(r.t1, defs, x, y);
    KnownAgain(r.t1, x, y);
    NotTwice(a, s, c + [u] + d);
    assert (c + [u] + d)[|c|] == u;
  }

  lemma ParsedKeys(z: Codec, mgrs: map<Server, seq<byte>>, s: Server)
    requires AllInflate(z, mgrs) && Busy(Parsed(z, mgrs), s)
    ensures s in Parsed(z, mgrs) && Parsed(z, mgrs).Keys == mgrs.Keys
  {
    hide ParseManager;
  }

  /** If a server lacks a name with two definitions, a first merge that begins with it and a second one that
      ends with it put another name in front. */
  lemma LackingShifts(z: Codec, mgrs: map<Server, seq<byte>>, s: Server, n: Name) returns (r: Twice)
    requires Mergeable(z, mgrs) && Busy(Parsed(z, mgrs), s)
    requires DefinedTwice(Parsed(z, mgrs), n) && n !in NamesOf(Parsed(z, mgrs), s)
    ensures PairOf(z, mgrs, r) && !(r.again <= r.names)
  {
    hide TwoMerges, FollowNames, ItemsOf, GoodManagers, AllInflate, Lawful, AllNames, Parsed, Dedup, NamesOf, NamesMet,
         Homes, PassedTwice, GoodDefs, FirstMetAt, DefinedTwice;
    var defs := Parsed(z, mgrs);
    ParsedKeys(z, mgrs, s);
    var rest := Enumeration(mgrs.Keys - {s});
    r := PairExists(z, mgrs, [s] + rest, rest + [s]);
    assert [] + [s] + rest == [s] + rest && Idle([], defs);
    LeaderFacts(z, mgrs, r, s);
    var x := ItemsOf(rest, defs);
    LackedFollows(z, mgrs, r, s, n, rest);
    ItemsConcat(rest, [s], defs);
    AgainPrefix(r.t1, x, ItemsOf([s], defs));
    WithoutOthers(rest, defs, s);
    OthersFirst(r, s, x, n);
  }

  /** The second definition of n follows the first. */
  lemma LackedFollows(z: Codec, mgrs: map<Server, seq<byte>>, r: Twice, s: Server, n: Name, rest: seq<Server>)
    requires Mergeable(z, mgrs) && PairOf(z, mgrs, r) && FirstOrder(r, [s] + rest) && s in Parsed(z, mgrs)
    requires DefinedTwice(Parsed(z, mgrs), n) && n !in NamesOf(Parsed(z, mgrs), s)
    ensures Followed(r.t1, ItemsOf(rest, Parsed(z, mgrs)), n)
  {
    hide TwoMerges, ItemsOf, AllInflate, Lawful, AllNames, Parsed, GoodManagers, NamesOf, EntryName, FirstMetAt, Named,
         DefinedTwice, Regular, Draws, Dedup, NamesMet;
    var defs := Parsed(z, mgrs);
    NamesAreKeys(z, mgrs, [s] + rest);
    ItemsOfAll(z, mgrs, [s] + rest);
    OnlyInRest(z, mgrs, s, n, rest);
    var items, x := ItemsOf([s] + rest, defs), ItemsOf(rest, defs);
    var first, second := TwoPlaces(z, mgrs, rest, n);
    var h := MetSomewhere(x, n, first);
    var o := FirstInAll(defs, s, rest, n, h);
    HereFirst(items, n, o + h);
    NameNotEmptyHere(items, o + h);
    NamedIffFirst(r, [s] + rest, n, x[h].srv, x[h].e.id);
    assert Behind(r.t1, x, second);
  }

  lemma NamesAreKeys(z: Codec, mgrs: map<Server, seq<byte>>, order: seq<Server>)
    requires AllInflate(z, mgrs) && Enumerates(order, mgrs.Keys)
    ensures Enumerates(order, Parsed(z, mgrs).Keys)
  {
    hide ParseManager;
  }

  lemma OnlyInRest(z: Codec, mgrs: map<Server, seq<byte>>, s: Server, n: Name, rest: seq<Server>)
    requires Enumerates([s] + rest, Parsed(z, mgrs).Keys) && n !in NamesOf(Parsed(z, mgrs), s)
    ensures forall u, k :: DefinesAt(Parsed(z, mgrs), u, k, n) ==> u in rest
  {
    hide EntryName, Parsed;
    var defs := Parsed(z, mgrs);
    forall u, k: nat | DefinesAt(defs, u, k, n) ensures u in rest {
      assert NamesOf(defs, u)[k] == n;
      assert u in [s] + rest;
    }
  }

  lemma FirstInAll(defs: map<Server, seq<Entry>>, s: Server, rest: seq<Server>, n: Name, h: int) returns (o: nat)
    requires s in defs && n !in NamesOf(defs, s) && FirstMetAt(ItemsOf(rest, defs), n, h)
    ensures FirstMetAt(ItemsOf([s] + rest, defs), n, o + h)
    ensures 0 <= h < |ItemsOf(rest, defs)| && ItemsOf([s] + rest, defs)[o + h] == ItemsOf(rest, defs)[h]
    ensures ItemsOf(rest, defs)[h].Define? && EntryName(ItemsOf(rest, defs)[h].e) == n
  {
    hide EntryName, ItemsOf, DefinesOf;
    var x, front := ItemsOf(rest, defs), [Open(s)] + DefinesOf(s, defs[s]);
    ServerAt([], s, rest, defs);
    NoneAtAll(defs);
    assert [] + [s] + rest == [s] + rest && [] + front + x == front + x;
    o := |front|;
    forall j | 0 <= j < |front| && front[j].Define? ensures EntryName(front[j].e) != n {
      DefineAt(s, defs[s], j - 1);
      assert NamesOf(defs, s)[j - 1] != n;
    }
  }

  lemma OthersFirst(r: Twice, s: Server, x: seq<Item>, n: Name)
    requires LedBy(r, s) && Without(x, s) && Followed(r.t1, x, n)
    requires Dedup(FollowNames(r.t1, x)) <= r.again
    ensures !(r.again <= r.names)
  {
    hide FollowNames, Dedup, NamesOf, Items, Homes, PassedTwice, GoodDefs, Parsed, Behind, EntryName;
    var defs := Parsed(r.z, r.mgrs);
    FollowedIff(r.t1, x, n);
    var m := r.again[0];
    assert m == Dedup(FollowNames(r.t1, x))[0];
    FollowedIff(r.t1, x, m);
    var k :| 0 <= k < |x| && x[k].Define? && EntryName(x[k].e) == m && Behind(r.t1, x, k);
    PassedIsBehind(r.t1, x, k);
    NamesFirst(defs, s);
    if r.again <= r.names {
      NotPassed(r.t1, defs, s, x[..k], m);
    }
  }

  lemma NamesFirst(defs: map<Server, seq<Entry>>, s: Server)
    requires Busy(defs, s)
    ensures Dedup(NamesOf(defs, s)) != [] && Dedup(NamesOf(defs, s))[0] in NamesOf(defs, s)
  {
    hide EntryName, Dedup;
    assert NamesOf(defs, s)[0] in NamesOf(defs, s);
    InDedup(NamesOf(defs, s), NamesOf(defs, s)[0]);
    InDedup(NamesOf(defs, s), Dedup(NamesOf(defs, s))[0]);
  }

  /** With s in front in both merges. */
  lemma RepeatsKept(z: Codec, mgrs: map<Server, seq<byte>>, s: Server)
    requires Mergeable(z, mgrs) && Busy(Parsed(z, mgrs), s) && Common(Parsed(z, mgrs))
    requires forall r :: PairOf(z, mgrs, r) ==> r.again <= r.names
    ensures Dedup(Repeats(NamesOf(Parsed(z, mgrs), s))) <= Dedup(NamesOf(Parsed(z, mgrs), s))
  {
    hide TwoMerges, FollowNames, ItemsOf, GoodManagers, AllInflate, Lawful, AllNames, Parsed, Dedup, NamesOf, NamesMet,
         Homes, PassedTwice, GoodDefs, Repeats, Common;
    var defs := Parsed(z, mgrs);
    ParsedKeys(z, mgrs, s);
    var rest := Enumeration(mgrs.Keys - {s});
    var order := [] + [s] + rest;
    var r := PairExists(z, mgrs, order, order);
    assert Idle([], defs);
    LeaderFacts(z, mgrs, r, s);
    LeaderFollow(r.t1, defs, [], s, rest);
    ItemsConcat([] + [s], rest, defs);
    AgainPrefix(r.t1, ItemsOf([] + [s], defs), ItemsOf(rest, defs));
    var ns := NamesOf(defs, s);
    forall n | n in Dedup(Repeats(ns)) ensures n in Dedup(ns) {
      InDedup(Repeats(ns), n);
      InDedup(ns, n);
      RepeatsNames(ns, n);
    }
    ShorterPrefix(Dedup(Repeats(ns)), Dedup(ns), r.names);
  }

  /** With s in front and t next to it in both merges. */
  lemma MultipleKept(z: Codec, mgrs: map<Server, seq<byte>>, s: Server, t: Server)
    requires Mergeable(z, mgrs) && Busy(Parsed(z, mgrs), s) && Busy(Parsed(z, mgrs), t) && s != t
    requires Common(Parsed(z, mgrs)) && forall r :: PairOf(z, mgrs, r) ==> r.again <= r.names
    ensures var defs := Parsed(z, mgrs);
      Dedup(Repeats(NamesOf(defs, s)) + Multiple(defs, NamesOf(defs, t))) <= Dedup(NamesOf(defs, s))
  {
    hide TwoMerges, FollowNames, ItemsOf, GoodManagers, AllInflate, Lawful, AllNames, Parsed, Dedup, NamesOf, NamesMet,
         Homes, PassedTwice, GoodDefs, Repeats, Common, Multiple;
    var defs := Parsed(z, mgrs);
    ParsedKeys(z, mgrs, s);
    ParsedKeys(z, mgrs, t);
    var rest := Enumeration(mgrs.Keys - {s, t});
    var order := [] + [s] + ([] + [t] + rest);
    var r := PairExists(z, mgrs, order, order);
    assert Idle([], defs);
    LeaderFacts(z, mgrs, r, s);
    NextFollow(r.t1, defs, [], s, [], t, rest);
    var two := [] + [s] + [] + [t];
    assert order == two + rest;
    ItemsConcat(two, rest, defs);
    AgainPrefix(r.t1, ItemsOf(two, defs), ItemsOf(rest, defs));
    var follow, ns := Repeats(NamesOf(defs, s)) + Multiple(defs, NamesOf(defs, t)), NamesOf(defs, s);
    forall n | n in Dedup(follow) ensures n in Dedup(ns) {
      AmongNames(defs, s, t, n);
    }
    ShorterPrefix(Dedup(follow), Dedup(ns), r.names);
  }

  lemma AmongNames(defs: map<Server, seq<Entry>>, s: Server, t: Server, n: Name)
    requires Common(defs) && Busy(defs, s) && n in Dedup(Repeats(NamesOf(defs, s)) + Multiple(defs, NamesOf(defs, t)))
    ensures n in Dedup(NamesOf(defs, s))
  {
    hide Dedup, Repeats, Multiple, NamesOf, DefinedTwice, Busy;
    InDedup(Repeats(NamesOf(defs, s)) + Multiple(defs, NamesOf(defs, t)), n);
    InDedup(NamesOf(defs, s), n);
    RepeatsNames(NamesOf(defs, s), n);
    MultipleNames(defs, NamesOf(defs, t), n);
  }

  /** The names that are left are the first ones after every pair of merges if and only if the managers are
      like that. */
  lemma KeepsOldIff(z: Codec, mgrs: map<Server, seq<byte>>)
    requires Mergeable(z, mgrs)
    ensures (forall r :: PairOf(z, mgrs, r) ==> r.again <= r.names) <==> KeepsOld(Parsed(z, mgrs))
  {
    hide Mergeable, PairOf, Busy, DefinedTwice, Dedup, NamesOf, Repeats, Multiple, Parsed;
    var defs := Parsed(z, mgrs);
    if KeepsOld(defs) {
      forall r | PairOf(z, mgrs, r) ensures r.again <= r.names {
        KeepsOldSuffices(z, mgrs, r);
      }
    }
    if forall r :: PairOf(z, mgrs, r) ==> r.again <= r.names {
      forall s, n | Busy(defs, s) && DefinedTwice(defs, n) ensures n in NamesOf(defs, s) {
        if n !in NamesOf(defs, s) {
          var r := LackingShifts(z, mgrs, s, n);
        }
      }
      forall s | Busy(defs, s) ensures Dedup(Repeats(NamesOf(defs, s))) <= Dedup(NamesOf(defs, s)) {
        RepeatsKept(z, mgrs, s);
      }
      forall s, t | Busy(defs, s) && Busy(defs, t) && s != t
        ensures Dedup(Repeats(NamesOf(defs, s)) + Multiple(defs, NamesOf(defs, t))) <= Dedup(NamesOf(defs, s))
      {
        MultipleKept(z, mgrs, s, t);
      }
    }
  }

  /** A client that keeps the first manager reads every definition rightly after every pair of merges if and
      only if the names with two definitions are the first ones of every server, in the order in which they
      come up again. */
  lemma OldClientsIff(z: Codec, mgrs: map<Server, seq<byte>>)
    requires Mergeable(z, mgrs)
    ensures (forall r :: PairOf(z, mgrs, r) ==> ReadsAll(r, r.blob1)) <==> KeepsOld(Parsed(z, mgrs))
  {
    hide Mergeable, ReadsAll, KeepsOld, TwoMerges;
    KeepsOldIff(z, mgrs);
    forall r | PairOf(z, mgrs, r) ensures ReadsAll(r, r.blob1) <==> r.again <= r.names {
      OldReadsAllIff(r);
    }
  }

  // ----- clients that get the new manager -----

  lemma KeepsNewKeepsOld(defs: map<Server, seq<Entry>>)
    requires KeepsNew(defs)
    ensures KeepsOld(defs)
    ensures forall s, k, n :: DefinesAt(defs, s, k, n) ==> Twofold(defs, s, n)
  {
    hide Dedup, Repeats, Multiple, EntryName;
    forall s, n | Busy(defs, s) && DefinedTwice(defs, n) ensures n in NamesOf(defs, s) {
      var u: Server, k: nat :| DefinesAt(defs, u, k, n);
      assert NamesOf(defs, u)[k] == n && Busy(defs, u);
    }
    forall s, t | Busy(defs, s) && Busy(defs, t) && s != t
      ensures Dedup(Repeats(NamesOf(defs, s)) + Multiple(defs, NamesOf(defs, t))) <= Dedup(NamesOf(defs, s))
    {
      forall n | n in Multiple(defs, NamesOf(defs, t)) ensures n in Repeats(NamesOf(defs, s)) {
        MultipleNames(defs, NamesOf(defs, t), n);
        InDedup(NamesOf(defs, s), n);
        InDedup(Repeats(NamesOf(defs, s)), n);
      }
      DedupKnown(Repeats(NamesOf(defs, s)), Multiple(defs, NamesOf(defs, t)));
    }
    forall s, k: nat, n | DefinesAt(defs, s, k, n) ensures Twofold(defs, s, n) {
      assert NamesOf(defs, s)[k] == n;
      InDedup(NamesOf(defs, s), n);
      InDedup(Repeats(NamesOf(defs, s)), n);
      RepeatedIsTwofold(defs, s, n);
    }
  }

  lemma RepeatedIsTwofold(defs: map<Server, seq<Entry>>, s: Server, n: Name)
    requires s in defs
    ensures n in Repeats(NamesOf(defs, s)) <==> Twofold(defs, s, n)
  {
    hide EntryName, Repeats;
    var ns := NamesOf(defs, s);
    RepeatsNames(ns, n);
    if j: nat, k: nat :| DefinesAt(defs, s, j, n) && DefinesAt(defs, s, k, n) && j < k {
      assert ns[j] == n && ns[k] == n;
    }
    if n in Repeats(ns) {
      var j: nat, k: nat :| j < k < |ns| && ns[j] == n && ns[k] == n;
      assert DefinesAt(defs, s, j, n) && DefinesAt(defs, s, k, n);
    }
  }

  lemma DefinedIsNamed(r: Twice, s: Server, k: nat, n: Name)
    requires TwoMerges(r) && DefinesAt(Parsed(r.z, r.mgrs), s, k, n)
    ensures n in r.names
  {
    hide TwoMerges, EntryName, ItemsOf, Merges, Publishes, IdsFollow, Fresh, OwnedBy, HomeIn, Regular, GlobalId;
    var es1, es2 := BothMerges(r);
    assert ResolvesEntry(r.t1, s, Parsed(r.z, r.mgrs)[s][k], r.names);
  }

  lemma KeepsNewSuffices(z: Codec, mgrs: map<Server, seq<byte>>, r: Twice)
    requires Mergeable(z, mgrs) && PairOf(z, mgrs, r) && KeepsNew(Parsed(z, mgrs))
    ensures r.again == r.names
  {
    hide TwoMerges, Mergeable, KeepsNew, KeepsOld, Parsed, Followed, Twofold, DefinesAt, Items, Dedup, FollowNames,
         Behind, EntryName;
    var defs := Parsed(z, mgrs);
    KeepsNewKeepsOld(defs);
    KeepsOldSuffices(z, mgrs, r);
    AgainNames(r);
    forall n | n in r.names ensures n in r.again {
      var h := HomeItem(r, n);
      PairItems(z, mgrs, r);
      var k := ItemDefinesAt(Items(r), defs, h);
      TwofoldFollowed(z, mgrs, n, r, Items(r)[h].srv, k);
      FollowedIff(r.t1, Items(r), n);
    }
    SameSize(r.again, r.names);
  }

  /** If the second merge always numbers all names as the first did, every server has its names twice. */
  lemma AllTwofold(z: Codec, mgrs: map<Server, seq<byte>>, s: Server, k: nat, n: Name)
    requires Mergeable(z, mgrs) && DefinesAt(Parsed(z, mgrs), s, k, n)
    requires forall r :: PairOf(z, mgrs, r) ==> r.again == r.names
    ensures Twofold(Parsed(z, mgrs), s, n)
  {
    hide TwoMerges, Mergeable, Parsed, Followed, Twofold, DefinesAt, Items, Dedup, FollowNames;
    if !Twofold(Parsed(z, mgrs), s, n) {
      var r := OnceIsLost(z, mgrs, n, s, k);
      AgainNames(r);
      FollowedIff(r.t1, Items(r), n);
      DefinedIsNamed(r, s, k, n);
    }
  }

  lemma KeepsNewNeeded(z: Codec, mgrs: map<Server, seq<byte>>)
    requires Mergeable(z, mgrs) && forall r :: PairOf(z, mgrs, r) ==> r.again == r.names
    ensures KeepsNew(Parsed(z, mgrs))
  {
    hide PairOf, Mergeable, Parsed, Dedup, Repeats, Multiple, EntryName, Twofold;
    var defs := Parsed(z, mgrs);
    KeepsOldIff(z, mgrs);
    forall s, n | Busy(defs, s) && n in NamesOf(defs, s) ensures Twofold(defs, s, n) && n in Repeats(NamesOf(defs, s)) {
      var k :| 0 <= k < |NamesOf(defs, s)| && NamesOf(defs, s)[k] == n;
      AllTwofold(z, mgrs, s, k, n);
      RepeatedIsTwofold(defs, s, n);
    }
    forall s, t, n | Busy(defs, s) && Busy(defs, t) && n in NamesOf(defs, s) ensures n in NamesOf(defs, t) {
      TwofoldIsTwice(defs, s, n);
    }
    forall s | Busy(defs, s) ensures Dedup(Repeats(NamesOf(defs, s))) == Dedup(NamesOf(defs, s)) {
      var ns := NamesOf(defs, s);
      forall n | n in Dedup(ns) ensures n in Dedup(Repeats(ns)) {
        InDedup(ns, n);
        InDedup(Repeats(ns), n);
      }
      DedupDistinct(ns);
      SameSize(Dedup(Repeats(ns)), Dedup(ns));
    }
  }

  lemma TwofoldIsTwice(defs: map<Server, seq<Entry>>, s: Server, n: Name)
    requires Twofold(defs, s, n)
    ensures DefinedTwice(defs, n)
  {
    hide DefinesAt;
    var j: nat, k: nat :| DefinesAt(defs, s, j, n) && DefinesAt(defs, s, k, n) && j < k;
    assert (s, j) != (s, k);
  }

  /** A client that gets the second manager reads every definition rightly after every pair of merges if and
      only if all servers that define anything have the same names, each at least twice, and their names come
      up a second time in the order in which they came up first. */
  lemma NewClientsIff(z: Codec, mgrs: map<Server, seq<byte>>)
    requires Mergeable(z, mgrs)
    ensures (forall r :: PairOf(z, mgrs, r) ==> ReadsAll(r, r.blob2)) <==> KeepsNew(Parsed(z, mgrs))
  {
    hide Mergeable, ReadsAll, KeepsNew, TwoMerges;
    forall r | PairOf(z, mgrs, r) ensures ReadsAll(r, r.blob2) <==> r.again == r.names {
      NewReadsAllIff(r);
    }
    if KeepsNew(Parsed(z, mgrs)) {
      forall r | PairOf(z, mgrs, r) ensures r.again == r.names {
        KeepsNewSuffices(z, mgrs, r);
      }
    }
    if forall r :: PairOf(z, mgrs, r) ==> ReadsAll(r, r.blob2) {
      KeepsNewNeeded(z, mgrs);
    }
  }
}
