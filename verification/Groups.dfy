/** Load balancing over server groups: the choice Redirect makes when it is given a group instead of a
    server (redirect.go), with the member counts of ConnsServer (conn.go). */
module Groups {
  import opened Collections
  import opened Wire

  /** The connected clients and the server each is on. */
  type Conns = map<nat, Server>

  ghost function On(conns: Conns, srv: Server): set<nat> {
    set c | c in conns && conns[c] == srv
  }

  ghost function Load(conns: Conns, srv: Server): nat {
    |On(conns, srv)|
  }

  /** ConnsServer */
  method ConnsServer(conns: Conns, srv: Server) returns (r: seq<nat>)
    ensures |r| == Load(conns, srv)
    ensures forall c :: c in r <==> c in On(conns, srv)
  {
    r := [];
    var rest := conns.Keys;
    ghost var seen: set<nat> := {};
    while rest != {}
      invariant rest <= conns.Keys
      invariant seen == set c | c in conns && c !in rest && conns[c] == srv
      invariant |r| == |seen| && forall c :: c in r <==> c in seen
    {
      var c :| c in rest;
      if conns[c] == srv {
        r := r + [c];
        seen := seen + {c};
      }
      rest := rest - {c};
    }
    assert seen == On(conns, srv);
  }

  datatype Choice = Chosen(srv: Server) | AlreadyConnected | NoMember

  /** Less loaded than every member before it. */
  ghost predicate RunningMin(conns: Conns, grp: seq<Server>, i: nat)
    requires i < |grp|
  {
    forall j :: 0 <= j < i ==> Load(conns, grp[i]) < Load(conns, grp[j])
  }

  ghost predicate FirstArgmin(conns: Conns, grp: seq<Server>, i: nat) {
    && i < |grp|
    && RunningMin(conns, grp, i)
    && forall j :: 0 <= j < |grp| ==> Load(conns, grp[i]) <= Load(conns, grp[j])
  }

  /** The client's own server comes out as a running minimum somewhere. */
  ghost predicate Refused(conns: Conns, grp: seq<Server>, current: Server) {
    exists i :: 0 <= i < |grp| && grp[i] == current && RunningMin(conns, grp, i)
  }

  /** The outcome for a client that is on the server current. */
  ghost predicate Outcome(conns: Conns, grp: seq<Server>, current: Server, r: Choice) {
    && (r == AlreadyConnected <==> Refused(conns, grp, current))
    && (r == NoMember <==> grp == [])
    && (r.Chosen? ==> exists i: nat :: FirstArgmin(conns, grp, i) && r.srv == grp[i])
  }

  const MAX_INT: nat := 0x7FFF_FFFF_FFFF_FFFF

  /** The loop over the members. A client on a member that is less loaded than those before it is refused
      even if a still emptier member follows. Otherwise the first of the least loaded is chosen. */
  method Choose(conns: Conns, grp: seq<Server>, current: Server) returns (r: Choice)
    requires |conns| < MAX_INT
    ensures Outcome(conns, grp, current, r)
  {
    var smallestCnt: nat := MAX_INT;
    r := NoMember;
    ghost var best: nat := 0;
    for k := 0 to |grp|
      invariant !r.AlreadyConnected?
      invariant forall i :: 0 <= i < k && RunningMin(conns, grp, i) ==> grp[i] != current
      invariant k == 0 ==> r == NoMember && smallestCnt == MAX_INT
      invariant k > 0 ==> best < k && r == Chosen(grp[best]) && smallestCnt == Load(conns, grp[best])
      invariant k > 0 ==> RunningMin(conns, grp, best)
      invariant forall j :: 0 <= j < k ==> smallestCnt <= Load(conns, grp[j])
    {
      var on := ConnsServer(conns, grp[k]);
      var cnt := |on|;
      LoadBound(conns, grp[k]);
      if cnt < smallestCnt {
        assert RunningMin(conns, grp, k);
        if current == grp[k] {
          return AlreadyConnected;
        }
        smallestCnt := cnt;
        r := Chosen(grp[k]);
        best := k;
      } else {
        assert k > 0 && !RunningMin(conns, grp, k) by {
          assert Load(conns, grp[best]) <= Load(conns, grp[k]);
        }
      }
    }
    if grp != [] {
      assert FirstArgmin(conns, grp, best);
    }
  }

  lemma LoadBound(conns: Conns, srv: Server)
    ensures Load(conns, srv) <= |conns|
  {
    var on := On(conns, srv);
    SetSize(on, conns.Keys);
  }

  // ----- balance -----

  ghost predicate Balanced(conns: Conns, grp: seq<Server>) {
    forall i, j :: 0 <= i < |grp| && 0 <= j < |grp| ==> Load(conns, grp[i]) <= Load(conns, grp[j]) + 1
  }

  lemma LoadAfterMove(conns: Conns, c: nat, srv: Server, other: Server)
    requires c !in conns || conns[c] != srv
    ensures Load(conns[c := srv], other) ==
      if other == srv then Load(conns, other) + 1
      else if c in conns && conns[c] == other then Load(conns, other) - 1
      else Load(conns, other)
  {
    hide On;
    OnAfterMove(conns, c, srv, other);
    var before, after := On(conns, other), On(conns[c := srv], other);
    if other == srv {
      assert c !in before;
    } else if c in conns && conns[c] == other {
      assert before == after + {c} && c !in after;
    }
  }

  lemma OnAfterMove(conns: Conns, c: nat, srv: Server, other: Server)
    requires c !in conns || conns[c] != srv
    ensures On(conns[c := srv], other) == if other == srv then On(conns, other) + {c} else On(conns, other) - {c}
    ensures c in On(conns, other) <==> c in conns && conns[c] == other
  {
  }

  lemma OutsiderKeepsBalance(conns: Conns, grp: seq<Server>, c: nat, i: nat)
    requires Balanced(conns, grp) && c in conns && conns[c] !in grp && FirstArgmin(conns, grp, i)
    ensures Balanced(conns[c := grp[i]], grp)
  {
    hide Load;
    var after := conns[c := grp[i]];
    forall a, b | 0 <= a < |grp| && 0 <= b < |grp| ensures Load(after, grp[a]) <= Load(after, grp[b]) + 1 {
      LoadAfterMove(conns, c, grp[i], grp[a]);
      LoadAfterMove(conns, c, grp[i], grp[b]);
    }
  }

  lemma InsiderMoves(conns: Conns, grp: seq<Server>, c: nat, i: nat)
    requires Balanced(conns, grp) && FirstArgmin(conns, grp, i)
    requires c in conns && conns[c] in grp && conns[c] != grp[i]
    ensures Balanced(conns[c := grp[i]], grp) <==> Load(conns, conns[c]) > Load(conns, grp[i])
  {
    hide Load;
    var after := conns[c := grp[i]];
    var k :| 0 <= k < |grp| && grp[k] == conns[c];
    LoadAfterMove(conns, c, grp[i], grp[k]);
    LoadAfterMove(conns, c, grp[i], grp[i]);
    if Load(conns, grp[k]) > Load(conns, grp[i]) {
      forall a, b | 0 <= a < |grp| && 0 <= b < |grp| ensures Load(after, grp[a]) <= Load(after, grp[b]) + 1 {
        LoadAfterMove(conns, c, grp[i], grp[a]);
        LoadAfterMove(conns, c, grp[i], grp[b]);
      }
    }
  }

  /** The client c asks for a redirect to the group. */
  ghost predicate Moves(before: Conns, grp: seq<Server>, c: nat, after: Conns) {
    && c in before
    && exists r :: Outcome(before, grp, before[c], r) && after == if r.Chosen? then before[c := r.srv] else before
  }

  /** A redirect is refused only to a client on a member of the group. */
  lemma OutsiderNeverRefused(conns: Conns, grp: seq<Server>, c: nat, r: Choice)
    requires c in conns && conns[c] !in grp && Outcome(conns, grp, conns[c], r)
    ensures r.Chosen? <==> grp != []
  {
  }

  /** A redirect inside a balanced group moves the client off its server, and keeps the balance exactly
      when it leaves a fuller member. */
  lemma InsiderKeepsBalanceIff(conns: Conns, grp: seq<Server>, c: nat, r: Choice)
    requires Balanced(conns, grp) && c in conns && conns[c] in grp
    requires Outcome(conns, grp, conns[c], r) && r.Chosen?
    ensures conns[c] != r.srv
    ensures Balanced(conns[c := r.srv], grp) <==> Load(conns, conns[c]) > Load(conns, r.srv)
  {
    hide Balanced, Load, RunningMin;
    var i: nat :| FirstArgmin(conns, grp, i) && r.srv == grp[i];
    InsiderMoves(conns, grp, c, i);
  }

  /** A group that is balanced stays balanced through any sequence of redirects from outside. */
  lemma {:induction false} ArrivalsKeepBalance(grp: seq<Server>, states: seq<Conns>, movers: seq<nat>)
    requires |states| == |movers| + 1
    requires forall k :: 0 <= k < |movers| ==> Moves(states[k], grp, movers[k], states[k + 1])
    requires forall k :: 0 <= k < |movers| && movers[k] in states[k] ==> states[k][movers[k]] !in grp
    requires Balanced(states[0], grp)
    ensures Balanced(states[|movers|], grp)
    decreases |movers|
  {
    hide Balanced, Outcome;
    if movers != [] {
      var n := |movers| - 1;
      ArrivalsKeepBalance(grp, states[..n + 1], movers[..n]);
      ArrivalKeepsBalance(states[n], grp, movers[n], states[n + 1]);
    }
  }

  lemma ArrivalKeepsBalance(before: Conns, grp: seq<Server>, c: nat, after: Conns)
    requires Moves(before, grp, c, after) && before[c] !in grp && Balanced(before, grp)
    ensures Balanced(after, grp)
  {
    hide Balanced, RunningMin, Load;
    var r :| Outcome(before, grp, before[c], r) && after == if r.Chosen? then before[c := r.srv] else before;
    if r.Chosen? {
      var i: nat :| FirstArgmin(before, grp, i) && r.srv == grp[i];
      OutsiderKeepsBalance(before, grp, c, i);
    }
  }
}
