/** Privileges (privs.go, and the grant and revoke commands of igutils.go): a player's privileges are stored
    as one string of names separated by bars. */
module Privs {
  import opened Collections
  import opened Strings
  import opened Wire

  const BAR := '|'

  /** What a stored string grants, and what a name turns into when it is stored and read back. */
  ghost function Pieces(name: string): set<string> {
    set p | p in Split(name, BAR) && p != ""
  }

  ghost function PiecesOfAll(names: set<string>): set<string> {
    set n, p | n in names && p in Pieces(n) :: p
  }

  predicate Plain(name: string) {
    name != "" && BAR !in name
  }

  ghost function TrueNames(privs: map<string, bool>): set<string> {
    set p | p in privs && privs[p]
  }

  /** The first loop of encodePrivs. */
  method CountTrue(privs: map<string, bool>) returns (lenP: nat)
    ensures lenP == |TrueNames(privs)|
  {
    lenP := 0;
    var rest := privs.Keys;
    ghost var yes: set<string> := {};
    while rest != {}
      invariant rest <= privs.Keys && lenP == |yes|
      invariant yes == set p | p in privs && p !in rest && privs[p]
    {
      var priv :| priv in rest;
      if privs[priv] {
        lenP := lenP + 1;
        yes := yes + {priv};
      }
      rest := rest - {priv};
    }
    assert yes == TrueNames(privs);
  }

  /** The true names that are still to come. */
  ghost function Pending(privs: map<string, bool>, rest: set<string>): set<string> {
    set p | p in privs && p in rest && privs[p]
  }

  /** The second loop: the count leaves room for every true name, and none over. */
  method FillTrue(privs: map<string, bool>, ps: array<string>)
    requires ps.Length == |TrueNames(privs)|
    modifies ps
    ensures Enumerates(ps[..], TrueNames(privs))
  {
    hide Enumerates, Pending, TrueNames, Taken;
    var i: nat := 0;
    var rest := privs.Keys;
    NonePending(privs);
    while rest != {}
      invariant rest <= privs.Keys && i + |Pending(privs, rest)| == ps.Length
      invariant Enumerates(ps[..i], Taken(privs, rest))
    {
      var priv :| priv in rest;
      PendingLess(privs, rest, priv);
      if privs[priv] {
        EnumerateMore(ps[..i], Taken(privs, rest), priv);
        ps[i] := priv;
        assert ps[..i + 1] == ps[..i] + [priv];
        i := i + 1;
      }
      rest := rest - {priv};
    }
    assert ps[..i] == ps[..];
  }

  lemma NonePending(privs: map<string, bool>)
    ensures |Pending(privs, privs.Keys)| == |TrueNames(privs)| && Taken(privs, {}) == TrueNames(privs)
    ensures |Pending(privs, {})| == 0 && Enumerates([], Taken(privs, privs.Keys))
  {
    assert Pending(privs, privs.Keys) == TrueNames(privs);
    assert Pending(privs, {}) == {};
  }

  lemma PendingLess(privs: map<string, bool>, rest: set<string>, priv: string)
    requires rest <= privs.Keys && priv in rest
    ensures !privs[priv] ==> Pending(privs, rest - {priv}) == Pending(privs, rest)
    ensures !privs[priv] ==> Taken(privs, rest - {priv}) == Taken(privs, rest)
    ensures privs[priv] ==> |Pending(privs, rest - {priv})| == |Pending(privs, rest)| - 1
    ensures privs[priv] ==> priv !in Taken(privs, rest) && Taken(privs, rest - {priv}) == Taken(privs, rest) + {priv}
  {
    var before, after := Pending(privs, rest), Pending(privs, rest - {priv});
    if privs[priv] {
      assert before == after + {priv};
    } else {
      assert before == after;
    }
  }

  ghost function Taken(privs: map<string, bool>, rest: set<string>): set<string> {
    TrueNames(privs) - Pending(privs, rest)
  }

  lemma EnumerateMore(order: seq<string>, s: set<string>, x: string)
    requires Enumerates(order, s) && x !in s
    ensures Enumerates(order + [x], s + {x})
  {
  }

  /** names, each once and in any order, joined by bars. */
  ghost predicate Encodes(names: set<string>, stored: string) {
    exists order: seq<string> :: Enumerates(order, names) && stored == Join(order, BAR)
  }

  /** encodePrivs; the two loops visit the map in any order, and not necessarily the same one. */
  method EncodePrivs(privs: map<string, bool>) returns (r: string)
    ensures Encodes(TrueNames(privs), r)
  {
    var lenP := CountTrue(privs);
    var ps := new string[lenP](_ => "");
    FillTrue(privs, ps);
    r := Join(ps[..], BAR);
    ghost var order := ps[..];
    assert Enumerates(order, TrueNames(privs)) && r == Join(order, BAR);
  }

  method DecodePrivs(s: string) returns (r: map<string, bool>)
    ensures r.Keys == Pieces(s) && forall p :: p in r ==> r[p]
  {
    var ps := Split(s, BAR);
    r := map[];
    for i := 0 to |ps|
      invariant r.Keys == set p | p in ps[..i] && p != ""
      invariant forall p :: p in r ==> r[p]
    {
      assert ps[..i + 1] == ps[..i] + [ps[i]];
      if ps[i] != "" {
        r := r[ps[i] := true];
      }
    }
    assert ps[..|ps|] == ps;
  }

  /** Storing a set of names and reading it back gives their pieces. */
  lemma StoredHeld(names: set<string>, stored: string)
    requires Encodes(names, stored)
    ensures Pieces(stored) == PiecesOfAll(names)
  {
    hide Split, Join;
    var order: seq<string> :| Enumerates(order, names) && stored == Join(order, BAR);
    if order == [] {
      NothingHeld();
      assert names == {};
    } else {
      forall p ensures p in Pieces(stored) <==> p in PiecesOfAll(names) {
        SplitJoin(order, BAR, p);
        if p in PiecesOfAll(names) {
          var n :| n in names && p in Pieces(n);
          var k :| 0 <= k < |order| && order[k] == n;
        }
        if p in Pieces(stored) {
          var k :| 0 <= k < |order| && p in Split(order[k], BAR);
          assert order[k] in names && p in Pieces(order[k]);
        }
      }
    }
  }

  lemma NothingHeld()
    ensures Pieces(Join([], BAR)) == {}
  {
  }

  lemma PlainPieces(n: string)
    ensures Plain(n) ==> Pieces(n) == {n}
    ensures forall p :: p in Pieces(n) ==> Plain(p)
  {
    hide Split;
    SplitHasNoSeparator(n, BAR);
    if Plain(n) {
      SplitWhole(n, BAR);
    }
  }

  /** The stored privileges are exactly the granted ones if and only if all of these are non-empty and
      without a bar. */
  lemma PrivsRoundTripIff(names: set<string>, stored: string)
    requires Encodes(names, stored)
    ensures Pieces(stored) == names <==> forall n :: n in names ==> Plain(n)
  {
    hide Pieces, Encodes;
    StoredHeld(names, stored);
    forall n | n in names ensures Plain(n) ==> Pieces(n) == {n} {
      PlainPieces(n);
    }
    if PiecesOfAll(names) == names {
      forall n | n in names ensures Plain(n) {
        assert n in PiecesOfAll(names);
        var m :| m in names && n in Pieces(m);
        PlainPieces(m);
      }
    } else if forall n :: n in names ==> Plain(n) {
      forall p ensures p in PiecesOfAll(names) <==> p in names {
        if p in PiecesOfAll(names) {
          var n :| n in names && p in Pieces(n);
        }
        if p in names {
          assert p in Pieces(p);
        }
      }
    }
  }

  lemma MarkName(privs: map<string, bool>, n: string)
    ensures TrueNames(privs[n := true]) == TrueNames(privs) + {n}
    ensures TrueNames(privs[n := false]) == TrueNames(privs) - {n}
  {
  }

  // ----- the store -----

  /** A player without a row has the empty string. */
  function StoredOf(db: map<string, string>, player: string): string {
    if player in db then db[player] else ""
  }

  ghost function HeldBy(db: map<string, string>, player: string): set<string> {
    Pieces(StoredOf(db, player))
  }

  lemma HeldIsPlain(stored: string)
    ensures PiecesOfAll(Pieces(stored)) == Pieces(stored)
  {
    hide Pieces;
    PlainPieces(stored);
    forall p ensures p in PiecesOfAll(Pieces(stored)) <==> p in Pieces(stored) {
      if p in PiecesOfAll(Pieces(stored)) {
        var n :| n in Pieces(stored) && p in Pieces(n);
        PlainPieces(n);
      }
      if p in Pieces(stored) {
        PlainPieces(p);
        assert p in Pieces(p);
      }
    }
  }

  lemma GrantPieces(held: set<string>, names: set<string>)
    requires PiecesOfAll(held) == held
    ensures PiecesOfAll(held + names) == held + PiecesOfAll(names)
  {
    hide Pieces;
    forall p ensures p in PiecesOfAll(held + names) <==> p in held + PiecesOfAll(names) {
      if p in held {
        assert p in PiecesOfAll(held);
        var n :| n in held && p in Pieces(n);
        assert n in held + names;
      }
      if p in PiecesOfAll(names) {
        var n :| n in names && p in Pieces(n);
        assert n in held + names;
      }
      if p in PiecesOfAll(held + names) {
        var n :| n in held + names && p in Pieces(n);
        if n in held {
          assert p in PiecesOfAll(held);
        }
      }
    }
  }

  lemma SubsetPieces(held: set<string>, some: set<string>)
    requires some <= held && forall p :: p in held ==> Plain(p)
    ensures PiecesOfAll(some) == some
  {
    hide Pieces;
    forall p ensures p in PiecesOfAll(some) <==> p in some {
      if p in PiecesOfAll(some) {
        var n :| n in some && p in Pieces(n);
        PlainPieces(n);
      }
      if p in some {
        PlainPieces(p);
        assert p in Pieces(p);
      }
    }
  }

  datatype Op = Grant(names: set<string>) | Revoke(names: set<string>)

  ghost function After(held: set<string>, op: Op): set<string> {
    match op
    case Grant(names) => held + PiecesOfAll(names)
    case Revoke(names) => held - names
  }

  /** stored' is what a command leaves in the table when it finds stored. */
  ghost predicate Stores(stored: string, op: Op, stored': string) {
    Encodes(if op.Grant? then Pieces(stored) + op.names else Pieces(stored) - op.names, stored')
  }

  /** An odd name is granted by its pieces, and revokes nothing. */
  lemma StoresRefines(stored: string, op: Op, stored': string)
    requires Stores(stored, op, stored')
    ensures Pieces(stored') == After(Pieces(stored), op)
  {
    hide PiecesOfAll, Encodes, Pieces;
    StoredHeld(if op.Grant? then Pieces(stored) + op.names else Pieces(stored) - op.names, stored');
    HeldIsPlain(stored);
    PlainPieces(stored);
    match op
    case Grant(names) => GrantPieces(Pieces(stored), names);
    case Revoke(names) => SubsetPieces(Pieces(stored), Pieces(stored) - names);
  }

  /** A command on the table. */
  datatype Command = Command(player: string, op: Op)

  ghost predicate Executes(db: map<string, string>, cmd: Command, db': map<string, string>) {
    && Stores(StoredOf(db, cmd.player), cmd.op, StoredOf(db', cmd.player))
    && forall other :: other != cmd.player ==> StoredOf(db', other) == StoredOf(db, other)
  }

  lemma ExecutesRefines(db: map<string, string>, cmd: Command, db': map<string, string>, player: string)
    requires Executes(db, cmd, db')
    ensures HeldBy(db', player) == if player == cmd.player then After(HeldBy(db, player), cmd.op) else HeldBy(db, player)
  {
    hide Stores, After, Pieces, StoredOf;
    if player == cmd.player {
      StoresRefines(StoredOf(db, player), cmd.op, StoredOf(db', player));
    }
  }

  /** The player and the privileges that the parameter of a command names: the first word and the
      comma-separated second, or the caller and the only word. The console is no player. A word has no
      spaces left to remove. */
  function Target(caller: Option<string>, param: string): Option<(string, seq<string>)> {
    var words := Split(param, ' ');
    if |words| >= 2 then Some((words[0], Split(words[1], ',')))
    else if caller.None? then None
    else Some((caller.value, Split(words[0], ',')))
  }

  predicate Listable(names: seq<string>) {
    names != [] && forall k :: 0 <= k < |names| ==> ',' !in names[k] && ' ' !in names[k]
  }

  /** A command that is written as its usage says reaches the player and the privileges meant. */
  lemma TargetReads(caller: Option<string>, player: string, names: seq<string>)
    requires Listable(names) && ' ' !in player
    ensures Target(caller, player + " " + Join(names, ',')) == Some((player, names))
    ensures caller.Some? ==> Target(caller, Join(names, ',')) == Some((caller.value, names))
    ensures caller.None? ==> Target(caller, Join(names, ',')) == None
  {
    hide Split, Join;
    var list := Join(names, ',');
    JoinHasOnly(names, ',', ' ');
    SplitJoined(names, ',');
    SplitWhole(list, ' ');
    SplitWhole(player, ' ');
    SplitConcat(player, list, ' ');
  }

  /** The loop of both commands. */
  method Mark(privs0: map<string, bool>, names: seq<string>, value: bool) returns (privs: map<string, bool>)
    ensures TrueNames(privs) == if value then TrueNames(privs0) + (set n | n in names)
                                else TrueNames(privs0) - (set n | n in names)
  {
    hide TrueNames;
    privs := privs0;
    for i := 0 to |names|
      invariant TrueNames(privs) == if value then TrueNames(privs0) + (set n | n in names[..i])
                                    else TrueNames(privs0) - (set n | n in names[..i])
    {
      assert names[..i + 1] == names[..i] + [names[i]];
      MarkName(privs, names[i]);
      privs := privs[names[i] := value];
    }
    assert names[..|names|] == names;
  }

  /** The privileges table. */
  class Store {
    var db: map<string, string>

    constructor ()
      ensures db == map[]
    {
      db := map[];
    }

    method Privs(name: string) returns (privs: map<string, bool>)
      ensures privs.Keys == HeldBy(db, name) && forall p :: p in privs ==> privs[p]
    {
      var eprivs := "";
      if name in db {
        eprivs := db[name];
      }
      privs := DecodePrivs(eprivs);
    }

    /** SetPrivs inserts a row or updates the one there is. */
    method SetPrivs(name: string, privs: map<string, bool>)
      modifies this
      ensures name in db && Encodes(TrueNames(privs), db[name])
      ensures HeldBy(db, name) == PiecesOfAll(TrueNames(privs))
      ensures forall other :: other != name ==> StoredOf(db, other) == StoredOf(old(db), other)
    {
      var e := EncodePrivs(privs);
      StoredHeld(TrueNames(privs), e);
      db := db[name := e];
    }

    method CheckPrivs(name: string, req: map<string, bool>) returns (ok: bool)
      ensures ok <==> TrueNames(req) <= HeldBy(db, name)
    {
      var privs := Privs(name);
      var rest := req.Keys;
      while rest != {}
        invariant rest <= req.Keys
        invariant forall p :: p in req && p !in rest && req[p] ==> p in HeldBy(db, name)
      {
        var priv :| priv in rest;
        if req[priv] && !(priv in privs && privs[priv]) {
          assert priv in TrueNames(req);
          return false;
        }
        rest := rest - {priv};
      }
      return true;
    }

    /** The grant command. */
    method Grant(caller: Option<string>, param: string) returns (ok: bool)
      modifies this
      ensures ok <==> Target(caller, param).Some?
      ensures !ok ==> db == old(db)
      ensures ok ==> var (name, names) := Target(caller, param).value;
                     Executes(old(db), Command(name, Op.Grant(set n | n in names)), db)
    {
      var target := Target(caller, param);
      if target.None? {
        return false;
      }
      var (name, names) := target.value;
      hide Pieces, StoredOf, Encodes, Target;
      var privs := Privs(name);
      privs := Mark(privs, names, true);
      SetPrivs(name, privs);
      RowOf(db, name);
      ok := true;
    }

    /** The revoke command. */
    method Revoke(caller: Option<string>, param: string) returns (ok: bool)
      modifies this
      ensures ok <==> Target(caller, param).Some?
      ensures !ok ==> db == old(db)
      ensures ok ==> var (name, names) := Target(caller, param).value;
                     Executes(old(db), Command(name, Op.Revoke(set n | n in names)), db)
    {
      var target := Target(caller, param);
      if target.None? {
        return false;
      }
      var (name, names) := target.value;
      hide Pieces, StoredOf, Encodes, Target;
      var privs := Privs(name);
      privs := Mark(privs, names, false);
      SetPrivs(name, privs);
      RowOf(db, name);
      ok := true;
    }
  }

  lemma RowOf(db: map<string, string>, name: string)
    requires name in db
    ensures StoredOf(db, name) == db[name]
  {
  }

  // ----- runs of grants and revokes on the table -----

  ghost function AfterAll(held: set<string>, cmds: seq<Command>, player: string): set<string> {
    if cmds == [] then held
    else
      var h, cmd := AfterAll(held, cmds[..|cmds| - 1], player), cmds[|cmds| - 1];
      if cmd.player == player then After(h, cmd.op) else h
  }

  /** The command decides whether the player holds p. */
  ghost predicate Touches(cmd: Command, player: string, p: string) {
    && cmd.player == player
    && match cmd.op
       case Grant(names) => p in PiecesOfAll(names)
       case Revoke(names) => p in names
  }

  /** The command at k is the last one that touches p. */
  ghost predicate LastTouch(cmds: seq<Command>, k: nat, player: string, p: string) {
    k < |cmds| && Touches(cmds[k], player, p) && forall j :: k < j < |cmds| ==> !Touches(cmds[j], player, p)
  }

  ghost predicate Untouched(cmds: seq<Command>, player: string, p: string) {
    forall k :: 0 <= k < |cmds| ==> !Touches(cmds[k], player, p)
  }

  /** The last command that touches p, if any, decides; otherwise p is as it was. */
  lemma {:induction false} LastTouchDecides(held: set<string>, cmds: seq<Command>, player: string, p: string)
    ensures Untouched(cmds, player, p) ==> (p in AfterAll(held, cmds, player) <==> p in held)
    ensures forall k: nat :: LastTouch(cmds, k, player, p) ==>
              (p in AfterAll(held, cmds, player) <==> cmds[k].op.Grant?)
  {
    hide PiecesOfAll;
    if cmds != [] {
      var front := cmds[..|cmds| - 1];
      LastTouchDecides(held, front, player, p);
      assert forall j :: 0 <= j < |front| ==> front[j] == cmds[j];
      forall k: nat | LastTouch(cmds, k, player, p) ensures p in AfterAll(held, cmds, player) <==> cmds[k].op.Grant? {
        if k < |front| {
          assert LastTouch(front, k, player, p);
        }
      }
    }
  }

  lemma {:induction false} RunHolds(dbs: seq<map<string, string>>, cmds: seq<Command>, player: string)
    requires |dbs| == |cmds| + 1 && forall k :: 0 <= k < |cmds| ==> Executes(dbs[k], cmds[k], dbs[k + 1])
    ensures HeldBy(dbs[|cmds|], player) == AfterAll(HeldBy(dbs[0], player), cmds, player)
    decreases |cmds|
  {
    hide Executes, After, HeldBy;
    if cmds != [] {
      var n := |cmds| - 1;
      RunHolds(dbs[..n + 1], cmds[..n], player);
      ExecutesRefines(dbs[n], cmds[n], dbs[n + 1], player);
    }
  }

  /** Over every run of grants and revokes on the table, in whatever order the maps were visited: a player
      holds a privilege at the end exactly when the last command that touched it granted it, or none
      touched it and the player held it at the start. */
  lemma PrivilegeRuns(dbs: seq<map<string, string>>, cmds: seq<Command>, player: string, p: string)
    requires |dbs| == |cmds| + 1 && forall k :: 0 <= k < |cmds| ==> Executes(dbs[k], cmds[k], dbs[k + 1])
    ensures Untouched(cmds, player, p) ==> (p in HeldBy(dbs[|cmds|], player) <==> p in HeldBy(dbs[0], player))
    ensures forall k: nat :: LastTouch(cmds, k, player, p) ==>
              (p in HeldBy(dbs[|cmds|], player) <==> cmds[k].op.Grant?)
  {
    hide Executes, HeldBy, AfterAll, LastTouch, Untouched;
    LastTouchDecides(HeldBy(dbs[0], player), cmds, player, p);
    RunHolds(dbs, cmds, player);
  }
}
