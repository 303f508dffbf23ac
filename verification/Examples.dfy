/** Concrete inputs. The first part shows that the assumption on zlib can be met; the others are inputs at
    which a property one might expect of the proxy fails. */
module Examples {
  import opened Collections
  import opened Wire
  import opened Zlib
  import A = ActiveObjects
  import B = BlockData
  import C = Conns
  import E = EveryMeaning
  import F = Forwarding
  import G = Groups
  import I = ItemDefs
  import K = Capabs
  import M = NodeMerge
  import N = NodeDefs
  import O = EveryOrder
  import P = Privs
  import R = Runs
  import S = SecondMerge
  import U = Chat

  // ----- a codec with the law that is asked of zlib -----

  /** The leading ones. */
  function Ones(s: seq<byte>): (n: nat)
    ensures n <= |s| && (n < |s| ==> s[n] != 1) && forall k :: 0 <= k < n ==> s[k] == 1
  {
    if s == [] || s[0] != 1 then 0 else 1 + Ones(s[1..])
  }

  /** The length in ones, a zero, and the bytes themselves. */
  function Stored(x: seq<byte>): seq<byte> {
    Repeat(|x|, 1) + [0] + x
  }

  function Unstored(s: seq<byte>): Option<Inflated> {
    var n := Ones(s);
    if 2 * n + 1 <= |s| && s[n] == 0 then Some(Inflated(s[n + 1..2 * n + 1], 2 * n + 1)) else None
  }

  const UNARY: Codec := Codec(x => Stored(x), s => Unstored(s))

  lemma UnaryIsLawful()
    ensures Lawful(UNARY)
  {
    forall x: seq<byte>, rest: seq<byte>
      ensures Unstored(Stored(x) + rest) == Some(Inflated(x, |Stored(x)|))
    {
      var s := Stored(x) + rest;
      assert s[|x|] == 0 && forall k :: 0 <= k < |x| ==> s[k] == 1;
      assert Ones(s) == |x|;
      assert s[|x| + 1..2 * |x| + 1] == x;
    }
  }

  // ----- node definitions -----

  /** The name after the last one that fits gets the id of the first. */
  lemma IdsGoRound()
    ensures N.AllocId(65533) == N.AllocId(0)
  {
    N.AllocClosedForm(65533);
    N.AllocClosedForm(0);
  }

  function OneManager(z: Codec, s: Server, e: N.Entry): map<Server, seq<byte>> {
    map[s := z.deflate(N.EncodeManager(1, [e]))]
  }

  lemma OneManagerParses(z: Codec, s: Server, e: N.Entry)
    requires Lawful(z) && N.EntryName(e) != [] && |e.data| < 0x1_0000
    ensures AllInflate(z, OneManager(z, s, e)) && N.GoodManagers(z, OneManager(z, s, e))
    ensures N.Parsed(z, OneManager(z, s, e)) == map[s := [e]]
  {
    hide N.EncodeManager, N.ParseManager, N.EntryName, Lawful;
    InflateDeflate(z, N.EncodeManager(1, [e]));
    N.ManagerRoundTrip([e]);
    assert OneManager(z, s, e).Keys == {s};
  }

  lemma OneServerNames(order: seq<Server>, s: Server, e: N.Entry)
    requires Enumerates(order, {s})
    ensures order == [s] && N.Dedup(M.NamesMet(M.ItemsOf(order, map[s := [e]]))) == [N.EntryName(e)]
  {
    hide N.EntryName;
    var defs := map[s := [e]];
    assert s in order;
    DistinctSize(order);
    assert (set x | x in order) == {s};
    assert order[0] in order;
    assert order == [s];
    M.ItemsMore([], s, defs);
    assert [] + [s] == order;
    var items := M.ItemsOf(order, defs);
    assert M.ItemsOf([], defs) == [];
    assert items == [M.Open(s), M.Define(s, e)];
    assert items[..1] == [M.Open(s)] && items[..1][..0] == [];
    assert M.NamesMet([M.Open(s)]) == [];
    assert M.NamesMet(items) == [N.EntryName(e)];
    assert [N.EntryName(e)][..0] == [];
  }

  /** One server with one node. The first merge publishes the node under the id 0; when the server has come
      back, nothing is published and the server's id means nothing to a client that joins. */
  method MergeTwice(z: Codec, s: Server, e: N.Entry) returns (blob1: seq<byte>, blob2: seq<byte>, id: u16)
    requires Lawful(z) && N.EntryName(e) != [] && |e.data| < 0x1_0000 && !N.Reserved(e.id)
    ensures z.inflate(blob1).Some? && N.ParseManager(z.inflate(blob1).value.data) == [N.Entry(0, e.data)]
    ensures z.inflate(blob2).Some? && N.ParseManager(z.inflate(blob2).value.data) == []
    ensures N.ClientMeaning(z, blob1, id) == N.Node(N.EntryName(e)) && N.ClientMeaning(z, blob2, id) == N.Unknown
  {
    var mgrs := OneManager(z, s, e);
    OneManagerParses(z, s, e);
    hide N.EntryName, N.EncodeManager, N.ParseManager, Lawful, M.Outcome, N.GoodManagers;
    var m := new M.Multiplexer();
    var ok1, order1, es1 := m.MergeNodedefs(z, mgrs);
    blob1 := m.nodedef;
    ghost var t1 := m.nodeDefs;
    var ok2, order2, es2 := m.MergeNodedefs(z, mgrs);
    blob2 := m.nodedef;
    id := N.LookupId(m.nodeDefs, s, e.id);
    AfterTwo(z, s, e, order1, es1, t1, blob1, order2, es2, m.nodeDefs, blob2);
  }

  lemma AfterTwo(z: Codec, s: Server, e: N.Entry, order1: seq<Server>, es1: seq<N.Entry>, t1: N.Table,
                 blob1: seq<byte>, order2: seq<Server>, es2: seq<N.Entry>, t2: N.Table, blob2: seq<byte>)
    requires Lawful(z) && N.EntryName(e) != [] && |e.data| < 0x1_0000 && !N.Reserved(e.id)
    requires M.Outcome(z, OneManager(z, s, e), map[], order1, t1, blob1, es1)
    requires M.Outcome(z, OneManager(z, s, e), t1, order2, t2, blob2, es2)
    ensures z.inflate(blob1).Some? && N.ParseManager(z.inflate(blob1).value.data) == [N.Entry(0, e.data)]
    ensures z.inflate(blob2).Some? && N.ParseManager(z.inflate(blob2).value.data) == []
    ensures N.ClientMeaning(z, blob1, N.LookupId(t2, s, e.id)) == N.Node(N.EntryName(e))
    ensures N.ClientMeaning(z, blob2, N.LookupId(t2, s, e.id)) == N.Unknown
  {
    hide N.EntryName, N.EncodeManager, N.ParseManager, Lawful, M.Reaches, M.ListsAll, M.Publishes, M.ItemsOf,
         N.Dedup, M.NamesMet, S.FollowNames, M.Multiplexes, N.ClientMeaning, S.Behind, N.GoodManagers, N.IndexOf;
    var mgrs, n := OneManager(z, s, e), N.EntryName(e);
    OneManagerParses(z, s, e);
    var defs := N.Parsed(z, mgrs);
    OneServerNames(order1, s, e);
    OneServerNames(order2, s, e);
    var items := M.ItemsOf(order2, defs);
    var again := N.Dedup(S.FollowNames(t1, items));
    var r := S.Twice(z, mgrs, t1, blob1, [n], order2, t2, blob2, again);
    assert S.TwoMerges(r);
    S.OneServerLosesAll(r, s);
    S.StillPublishedIff(r);
    OnlyItem(s, e);
    S.NewClientReads(r, 1);
    S.OldClientReads(r, 1);
    M.FirstMerge(z, mgrs, order1, t1, blob1, es1);
    M.ClientParsesPublished(z, defs, blob1, [n], es1);
    OnePublished(es1, s, e);
  }

  lemma OnlyItem(s: Server, e: N.Entry)
    ensures M.ItemsOf([s], map[s := [e]]) == [M.Open(s), M.Define(s, e)]
  {
    var defs := map[s := [e]];
    assert M.ItemsOf([], defs) == [];
    M.ItemsMore([], s, defs);
    assert [] + [s] == [s];
  }

  lemma OnePublished(es: seq<N.Entry>, s: Server, e: N.Entry)
    requires M.Publishes(es, map[s := [e]], [N.EntryName(e)])
    ensures es == [N.Entry(0, e.data)]
  {
    hide N.EntryName;
    assert M.Published(es[0], map[s := [e]], [N.EntryName(e)]);
    assert N.IndexOf([N.EntryName(e)], N.EntryName(e)) == 0;
  }

  /** The same server: a client that keeps the first manager always reads its node rightly, one that gets the
      second does not. */
  lemma OneNodeKept(z: Codec, s: Server, e: N.Entry)
    requires Lawful(z) && N.EntryName(e) != [] && |e.data| < 0x1_0000
    ensures var mgrs := OneManager(z, s, e);
      && O.Mergeable(z, mgrs)
      && (forall r :: O.PairOf(z, mgrs, r) ==> S.ReadsAll(r, r.blob1))
      && (exists r :: O.PairOf(z, mgrs, r) && !S.ReadsAll(r, r.blob2))
  {
    hide N.EntryName, Lawful, N.Parsed, O.PairOf, S.ReadsAll, N.GoodManagers, AllInflate;
    var mgrs, defs: map<Server, seq<N.Entry>> := OneManager(z, s, e), map[s := [e]];
    OneManagerParses(z, s, e);
    var names := O.AllNames(defs);
    assert s in defs && e in defs[s] && N.EntryName(e) in names;
    assert names == {N.EntryName(e)};
    OneNodeDefs(s, e);
    E.OldClientsIff(z, mgrs);
    E.NewClientsIff(z, mgrs);
  }

  lemma OneNodeDefs(s: Server, e: N.Entry)
    ensures E.KeepsOld(map[s := [e]]) && !E.KeepsNew(map[s := [e]])
  {
    hide N.EntryName;
    var defs: map<Server, seq<N.Entry>> := map[s := [e]];
    var ns := E.NamesOf(defs, s);
    assert ns == [N.EntryName(e)];
    assert E.Repeats(ns[..0]) == [] && E.Repeats(ns) == [];
    assert N.Dedup(ns[..0]) == [] && N.Dedup(ns) == ns;
    assert E.Busy(defs, s);
  }

  /** A packet that puts air at the origin is forwarded as one that puts an unknown node there. */
  method PlaceAir(srv: Server) returns (out: seq<byte>)
    ensures out == [0, 0, 0, 0, 0, 0, 0, 125, 0, 0, 0]
  {
    var pkt: seq<byte> := [0, 0x21, 0, 0, 0, 0, 0, 0, 0, 126, 0, 0, 0];
    out := B.RewriteAddnode(map[], srv, pkt);
    assert Fill(pkt, 8, 2) == [0, 126];
    assert pkt[2..8] == [0, 0, 0, 0, 0, 0] && pkt[10..] == [0, 0, 0];
  }

  // ----- connections -----

  /** The initialisation data of a player: version, name, and nothing else. */
  function PlayerData(user: Name): seq<byte> {
    [1] + PutBytes16(user)
  }

  lemma PlayerDataNamed(user: Name, id: u16)
    requires |user| < 0x1_0000
    ensures R.Own(user, C.AoAdd(id, 1, PlayerData(user)))
  {
    var d := PlayerData(user);
    assert At(d, 0, [1] + PutBytes16(user));
    AtSplit(d, 0, [1], PutBytes16(user));
    ReadBackBytes16(d, 1, user);
  }

  /** Two sessions, each opened by the announcement of the player's own object alone: the second packet
      announces one addition and carries none. */
  lemma SecondSessionMiscounts(k: R.Link, srv: Server)
    requires |k.user| < 0x1_0000
    ensures var a, b := C.AoAdd(5, 1, PlayerData(k.user)), C.AoAdd(7, 1, PlayerData(k.user));
      var evs := [R.RmAddFrom([], [a]), R.Redirected([], [], srv)];
      && R.LegalRun(k, evs + [R.RmAddFrom([], [b])])
      && R.LegalRun(k, evs)
      && C.ForwardedRmAdd(R.Exec(k, evs).proxy, k.user, [], [b]) == C.RmAdd(0, [], 1, [])
  {
    hide R.Own, R.LegalRun, R.Exec, PlayerData, R.Step, C.ForwardedRmAdd, R.Legal;
    var a, b := C.AoAdd(5, 1, PlayerData(k.user)), C.AoAdd(7, 1, PlayerData(k.user));
    PlayerDataNamed(k.user, 5);
    PlayerDataNamed(k.user, 7);
    var e1, e2, e3 := R.RmAddFrom([], [a]), R.Redirected([], [], srv), R.RmAddFrom([], [b]);
    NoRun(k);
    LegalMore(k, [], e1);
    assert [] + [e1] == [e1];
    FirstSession(k, a, srv);
    LegalMore(k, [e1], e2);
    assert [e1] + [e2] == [e1, e2];
    OpensLegally(k, R.Exec(k, [e1, e2]), b);
    LegalMore(k, [e1, e2], e3);
    OwnAgain(R.Exec(k, [e1, e2]).proxy, k.user, b);
  }

  lemma OpensLegally(k: R.Link, w: R.World, b: C.AoAdd)
    requires R.Own(k.user, b) && b.id != 0 && w.server == map[] && !w.announced
    ensures R.Legal(k, w, R.RmAddFrom([], [b]))
  {
    hide R.Own;
  }

  lemma NoRun(k: R.Link)
    ensures R.LegalRun(k, []) && R.Exec(k, []) == R.Start(k)
  {
  }

  /** What is left after the first session. */
  lemma FirstSession(k: R.Link, a: C.AoAdd, srv: Server)
    requires R.Own(k.user, a) && a.id != 0
    ensures R.Legal(k, R.Start(k), R.RmAddFrom([], [a]))
    ensures var w := R.Step(k, R.Start(k), R.RmAddFrom([], [a]));
      && R.Legal(k, w, R.Redirected([], [], srv))
      && var w' := R.Step(k, w, R.Redirected([], [], srv));
         w'.proxy == C.Tracking(true, a.id, a.id, map[], [], map[]) && w'.server == map[] && !w'.announced
  {
    hide R.Own, R.Receive, R.ReceiveAll, C.Cleanup, C.AfterRmAdd, C.ForwardedRmAdd, R.AddAll;
    OwnFirst(k.user, a);
  }

  lemma LegalMore(k: R.Link, evs: seq<R.Event>, ev: R.Event)
    requires R.LegalRun(k, evs)
    ensures R.LegalRun(k, evs + [ev]) <==> R.Legal(k, R.Exec(k, evs), ev)
    ensures R.LegalRun(k, evs + [ev]) ==> R.Exec(k, evs + [ev]) == R.Step(k, R.Exec(k, evs), ev)
  {
    hide R.Legal, R.Step;
    assert (evs + [ev])[..|evs|] == evs;
  }

  lemma OwnFirst(user: Name, a: C.AoAdd)
    requires R.Own(user, a)
    ensures C.AfterRmAdd(C.FRESH, user, [], [a]) == C.Tracking(true, a.id, a.id, map[], [], map[])
  {
    hide C.AoName, A.InitPacket;
    assert [a][..0] == [];
    var sc := C.StartScan(C.FRESH, []);
    assert C.ScanAll(sc, user, 1, []) == sc;
    assert C.ScanAll(sc, user, 1, [a]) == C.ScanOne(sc, user, 1, a);
  }

  lemma OwnAgain(t: C.Tracking, user: Name, b: C.AoAdd)
    requires R.Own(user, b) && t.init
    ensures C.ForwardedRmAdd(t, user, [], [b]) == C.RmAdd(0, [], 1, [])
  {
    hide C.AoName, A.InitPacket;
    assert [b][..0] == [];
    var sc := C.StartScan(t, []);
    assert C.ScanAll(sc, user, 1, []) == sc;
    assert C.ScanAll(sc, user, 1, [b]) == C.ScanOne(sc, user, 1, b);
  }

  /** A player's initialisation data with one message: attach to the object 7. */
  const ATTACHED: seq<byte> := [1, 0, 0] + Zeros(30) + [1, 0, 0, 0, 3, 8, 0, 7]

  lemma AttachedParses()
    ensures A.InitMsgs(ATTACHED) == [[8, 0, 7]]
  {
    var d := ATTACHED;
    assert |d| == 41 && d[1] == 0 && d[2] == 0 && d[33] == 1 && d[36] == 0 && d[37] == 3;
    assert Bytes16End(d, 1) == 3 by {
      assert Fill(d, 1, 2) == [0, 0];
    }
    assert Fill(d, 33, 1) == [1] && Fill(d, 36, 2) == [0, 3] && Fill(d, 38, 3) == [8, 0, 7];
    assert A.InitEnd(d, 34, 0) == 34;
    assert A.ParseInit(d, 34, 0) == [];
  }

  /** The player was 5 on the last server and is 7 on this one, and 5 to the client. A message that attaches
      something to the player reaches the client with the id 7. */
  lemma AttachedToAStranger()
    ensures var fwd := A.ParseMsgs(A.InitPacket(5, 5, ATTACHED), 2);
      |fwd| == 1 && fwd[0].id == 5 && |fwd[0].data| >= 3 && A.PayloadId(fwd[0].data) != A.Swap(5, 7, 7)
  {
    AttachedParses();
    hide A.ParseMsgs, A.InitPacket, A.InitMsgs, ATTACHED;
    assert A.PayloadId([8, 0, 7]) == 7;
    A.InitPayloadIff(5, 5, 7, ATTACHED, 0);
  }

  // ----- forwarding -----

  /** The client closes while its redirect is under way, and its loop leaves before the switch: the place
      is given back twice. */
  lemma LateRedirectCountsTwice()
    ensures var acts := [F.InitDone, F.CloseClient, F.RecvUp(0, F.Closed), F.CheckUp(0)];
      && F.Run(F.Fresh(true), acts)
      && var c := F.Exec(F.Fresh(true), acts);
         && F.Enabled(c, F.Redirect)
         && !F.TimelyRedirect(c, F.Redirect)
         && F.Act(F.Act(F.Act(c, F.Redirect), F.RecvUp(1, F.Closed)), F.CheckUp(1)).decremented == 2
  {
    var c0 := F.Fresh(true);
    var c1 := F.Act(c0, F.InitDone);
    var c2 := F.Act(c1, F.CloseClient);
    var c3 := F.Act(c2, F.RecvUp(0, F.Closed));
    var c4 := F.Act(c3, F.CheckUp(0));
    hide F.Run, F.Exec;
    FourActions(c0, F.InitDone, F.CloseClient, F.RecvUp(0, F.Closed), F.CheckUp(0));
  }

  lemma FourActions(c: F.Client, a0: F.Action, a1: F.Action, a2: F.Action, a3: F.Action)
    requires F.Enabled(c, a0) && F.TimelyRedirect(c, a0)
    requires var c1 := F.Act(c, a0); F.Enabled(c1, a1) && F.TimelyRedirect(c1, a1)
    requires var c2 := F.Act(F.Act(c, a0), a1); F.Enabled(c2, a2) && F.TimelyRedirect(c2, a2)
    requires var c3 := F.Act(F.Act(F.Act(c, a0), a1), a2); F.Enabled(c3, a3) && F.TimelyRedirect(c3, a3)
    ensures F.Run(c, [a0, a1, a2, a3])
    ensures F.Exec(c, [a0, a1, a2, a3]) == F.Act(F.Act(F.Act(F.Act(c, a0), a1), a2), a3)
  {
    hide F.Enabled, F.Act, F.TimelyRedirect, F.Run, F.Exec;
    var c1 := F.Act(c, a0);
    var c2 := F.Act(c1, a1);
    var c3 := F.Act(c2, a2);
    NoActions(F.Act(c3, a3));
    F.RunOne(c3, a3, []);
    F.RunOne(c2, a2, [a3] + []);
    F.RunOne(c1, a1, [a2] + ([a3] + []));
    F.RunOne(c, a0, [a1] + ([a2] + ([a3] + [])));
    assert [a0] + ([a1] + ([a2] + ([a3] + []))) == [a0, a1, a2, a3];
  }

  lemma NoActions(c: F.Client)
    ensures F.Run(c, []) && F.Exec(c, []) == c
  {
  }

  /** A gateway for one player; the first client is denied, and the gateway is full for ever. */
  lemma DeniedClientFillsGateway(open: bool, evs: seq<F.Event>)
    requires F.GatewayRun(1, F.Gateway(1, false, [F.Act(F.Fresh(open), F.InitDenied)]), evs)
    ensures var start := [F.AcceptCheck, F.AcceptDone(open), F.ClientEvent(0, F.InitDenied)];
      && F.GatewayRun(1, F.Gateway(0, false, []), start)
      && F.GatewayExec(1, F.Gateway(0, false, []), start) == F.Gateway(1, false, [F.Act(F.Fresh(open), F.InitDenied)])
    ensures F.GatewayExec(1, F.Gateway(1, false, [F.Act(F.Fresh(open), F.InitDenied)]), evs).connected == 1
  {
    var g0 := F.Gateway(0, false, []);
    var g1 := F.GatewayStep(1, g0, F.AcceptCheck);
    var g2 := F.GatewayStep(1, g1, F.AcceptDone(open));
    var g3 := F.GatewayStep(1, g2, F.ClientEvent(0, F.InitDenied));
    assert g3 == F.Gateway(1, false, [F.Act(F.Fresh(open), F.InitDenied)]);
    hide F.GatewayRun, F.GatewayExec;
    ThreeEvents(g0, F.AcceptCheck, F.AcceptDone(open), F.ClientEvent(0, F.InitDenied));
    FullForEver(g0, [F.AcceptCheck, F.AcceptDone(open), F.ClientEvent(0, F.InitDenied)], g3, evs);
  }

  lemma ThreeEvents(g: F.Gateway, e0: F.Event, e1: F.Event, e2: F.Event)
    requires F.GatewayEnabled(g, e0) && F.GatewayEnabled(F.GatewayStep(1, g, e0), e1)
    requires F.GatewayEnabled(F.GatewayStep(1, F.GatewayStep(1, g, e0), e1), e2)
    ensures F.GatewayRun(1, g, [e0, e1, e2])
    ensures F.GatewayExec(1, g, [e0, e1, e2]) == F.GatewayStep(1, F.GatewayStep(1, F.GatewayStep(1, g, e0), e1), e2)
  {
    hide F.GatewayEnabled, F.GatewayStep, F.GatewayRun, F.GatewayExec;
    var g1 := F.GatewayStep(1, g, e0);
    var g2 := F.GatewayStep(1, g1, e1);
    NoEvents(F.GatewayStep(1, g2, e2));
    GatewayOne(g2, e2, []);
    GatewayOne(g1, e1, [e2] + []);
    GatewayOne(g, e0, [e1] + ([e2] + []));
    assert [e0] + ([e1] + ([e2] + [])) == [e0, e1, e2];
  }

  lemma NoEvents(g: F.Gateway)
    ensures F.GatewayRun(1, g, []) && F.GatewayExec(1, g, []) == g
  {
  }

  lemma GatewayOne(g: F.Gateway, ev: F.Event, evs: seq<F.Event>)
    requires F.GatewayEnabled(g, ev) && F.GatewayRun(1, F.GatewayStep(1, g, ev), evs)
    ensures F.GatewayRun(1, g, [ev] + evs)
    ensures F.GatewayExec(1, g, [ev] + evs) == F.GatewayExec(1, F.GatewayStep(1, g, ev), evs)
  {
    assert ([ev] + evs)[1..] == evs;
  }

  lemma FullForEver(g0: F.Gateway, start: seq<F.Event>, g: F.Gateway, evs: seq<F.Event>)
    requires g0 == F.Gateway(0, false, []) && F.GatewayRun(1, g0, start) && F.GatewayExec(1, g0, start) == g
    requires |g.clients| == 1 && F.Leaked(g.clients[0]) && F.GatewayRun(1, g, evs)
    ensures F.GatewayExec(1, g, evs).connected == 1
  {
    hide F.GatewayRun, F.GatewayExec, F.Inv, F.Leaked;
    assert F.GatewayInv(1, g0);
    F.GatewayRunKeepsInv(1, g0, start);
    F.GatewayRunKeepsInv(1, g, evs);
    F.LeakedForever(1, g, evs, 0);
    var cs := F.GatewayExec(1, g, evs).clients;
    F.HeldExactly(cs);
    LeakedCounted(cs, 0);
  }

  lemma {:induction false} LeakedCounted(cs: seq<F.Client>, n: nat)
    requires n < |cs| && F.Leaked(cs[n])
    ensures F.LeakedCount(cs) >= 1
  {
    if n < |cs| - 1 {
      LeakedCounted(cs[..|cs| - 1], n);
    }
  }

  // ----- items, privileges, chat, groups -----

  const HAND: I.Parts := I.Parts([0, 0], [], [], [], [], Zeros(16), [5], [])

  /** A server with two hands lists its hand name twice. */
  lemma TwoHandsClash(srv: Server)
    requires |I.HandName(srv)| < 0x1_0000
    ensures var c := I.Cand(srv, I.EncodeItem(HAND)); !Distinct(I.Names(I.Merged([c, c])))
  {
    assert I.ValidParts(HAND) && HAND.name == [] && HAND.capabs != [];
    hide I.EncodeItem, I.HandName, I.Renamed, I.ParseItem, I.Names, I.Merged, I.NoClash, HAND;
    I.RenamedParses(srv, HAND);
    var c := I.Cand(srv, I.EncodeItem(HAND));
    TwiceClashes(c);
    I.NamesDistinctIff([c, c]);
  }

  lemma TwiceClashes(c: I.Cand)
    requires I.IsHand(c.def)
    ensures !I.NoClash([c, c])
  {
    hide I.Item, I.IsHand;
    assert I.Clash([c, c], 1) by {
      assert [c, c][0] == [c, c][1];
    }
  }

  /** A privilege with a bar comes back as two. */
  lemma BarSplits(stored: string)
    requires P.Encodes({"a|b"}, stored)
    ensures P.Pieces(stored) != {"a|b"}
  {
    hide P.Pieces, P.Encodes;
    P.PrivsRoundTripIff({"a|b"}, stored);
    assert "a|b"[1] == P.BAR;
  }

  /** The two UTF-8 bytes of U+00E9 come back with a NUL behind them. */
  lemma AccentIsPadded(w: seq<byte>)
    requires U.IsWide([0xC3, 0xA9], w)
    ensures U.Narrow(w) != [0xC3, 0xA9]
  {
    hide U.Narrow, U.IsWide;
    U.NarrowWiderExactIffAscii([0xC3, 0xA9], w);
    assert [0xC3, 0xA9][0] as int >= 0x80;
  }

  /** Two members with one client each. The client on the second is moved to the first. */
  lemma InsiderUnbalances(a: Server, b: Server)
    requires a != b
    ensures var before: G.Conns := map[0 := a, 1 := b];
      && G.Balanced(before, [a, b])
      && G.Outcome(before, [a, b], b, G.Chosen(a))
      && !G.Balanced(before[1 := a], [a, b])
  {
    var before: G.Conns := map[0 := a, 1 := b];
    assert G.On(before, a) == {0} && G.On(before, b) == {1};
    hide G.On;
    assert G.FirstArgmin(before, [a, b], 0) && [a, b][0] == a;
    assert !G.RunningMin(before, [a, b], 1);
    G.InsiderKeepsBalanceIff(before, [a, b], 1, G.Chosen(a));
  }

  /** A hand that does damage to one group loses it. */
  lemma DamageIsLost(rating: i16)
    ensures var b := K.Block(0, 0, [], [K.Damage([102], rating)], 0);
      K.CapabsOf(K.EncodeBlock(b)) != K.Kept(b)
  {
    K.CapabsReadIff(K.Block(0, 0, [], [K.Damage([102], rating)], 0));
  }

  /** A client alone on the first member is refused although the second is empty. */
  lemma EmptierMemberIgnored(a: Server, b: Server)
    requires a != b
    ensures var conns: G.Conns := map[0 := a];
      && G.Outcome(conns, [a, b], a, G.AlreadyConnected)
      && G.Load(conns, b) < G.Load(conns, a)
  {
    var conns: G.Conns := map[0 := a];
    assert G.On(conns, a) == {0} && G.On(conns, b) == {};
    assert G.RunningMin(conns, [a, b], 0) && [a, b][0] == a;
  }
}
