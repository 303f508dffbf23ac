/** What stands where, byte by byte: packets, managers and stored strings written out, and what the proxy makes
    of them. The general statements are with the formats; these are single cases of each. */
module Formats {
  import opened Collections
  import opened Wire
  import opened Zlib
  import A = ActiveObjects
  import B = BlockData
  import C = Conns
  import D = Media
  import I = ItemDefs
  import K = Capabs
  import M = NodeMerge
  import N = NodeDefs
  import P = Privs
  import S = Strings
  import U = Chat
  import V = Auth

  // ----- the dispatch of a connection whose own object is 9 to the client and 5 to the server -----

  ghost predicate NineAndFive(c: C.Conn)
    reads c
  {
    c.initAoReceived && c.localPlayerCao == 9 && c.currentPlayerCao == 5
  }

  const MESSAGES: seq<byte> := [0, 0x32, 0, 4, 0, 3, 11, 0, 5, 0, 5, 0, 1, 4]
  const MESSAGES_FORWARDED: seq<byte> := [0, 0x32, 0, 4, 0, 3, 11, 0, 9, 0, 9, 0, 1, 4]
  const TWO_MSGS: seq<A.Msg> := [A.Msg(4, [11, 0, 5]), A.Msg(5, [4])]

  /** Two object messages, one that makes the own object an infant of object 4 and one for the own object. */
  method ForwardMessages(c: C.Conn, z: Codec, t: N.Table) returns (drop: bool, out: seq<byte>, sent: seq<seq<byte>>)
    requires NineAndFive(c)
    modifies c
    ensures !drop && sent == [] && c.View() == old(c.View()) && out == MESSAGES_FORWARDED
  {
    MessagesParse();
    MessagesSwapped();
    OnlyCommand(MESSAGES, 0x32);
    hide A.ParseMsgs, A.EncodeMsgs, A.SwapMsgs, A.WellFormedMsgs, At, C.RepeatsFit, C.ParseRmAdd, B.Roomy, B.Tail,
         B.Rewrites, C.AfterRmAdd, C.ForwardedRmAdd, C.ScanOf, C.EncodeRmAdd, U16At, U32At, Fill, B.PosAt, PutU16,
         MESSAGES, MESSAGES_FORWARDED, TWO_MSGS;
    drop, out, sent := c.ProcessPktCommand(z, t, MESSAGES, []);
  }

  lemma OnlyCommand(pkt: seq<byte>, cmd: byte)
    requires At(pkt, 0, [0, cmd])
    ensures forall other: byte :: other != cmd ==> !At(pkt, 0, [0, other])
  {
    forall other: byte | other != cmd ensures !At(pkt, 0, [0, other]) {
      assert [0, cmd][1] != [0, other][1];
    }
  }

  lemma MessagesParse()
    ensures At(MESSAGES, 0, [0, 0x32]) && A.ParseMsgs(MESSAGES, 2) == TWO_MSGS && A.WellFormedMsgs(TWO_MSGS)
  {
    TwoMsgs(TWO_MSGS[0], TWO_MSGS[1]);
    assert A.EncodeMsg(TWO_MSGS[0]) == [0, 4, 0, 3, 11, 0, 5] && A.EncodeMsg(TWO_MSGS[1]) == [0, 5, 0, 1, 4];
    hide A.ParseMsgs, A.EncodeMsgs;
    A.ParseEncodedMsgs(MESSAGES, 2, TWO_MSGS);
  }

  lemma TwoMsgs(a: A.Msg, b: A.Msg)
    ensures A.EncodeMsgs([a, b]) == A.EncodeMsg(a) + A.EncodeMsg(b)
  {
    hide A.EncodeMsg;
    assert [a, b][1..] == [b] && [b][1..] == [];
    assert A.EncodeMsgs([b]) == A.EncodeMsg(b) + A.EncodeMsgs([]);
  }

  lemma MessagesSwapped()
    ensures [0, 0x32] + A.EncodeMsgs(A.SwapMsgs(9, 5, TWO_MSGS)) == MESSAGES_FORWARDED
  {
    TwoSwapped(9, 5, TWO_MSGS[0], TWO_MSGS[1]);
    InfantSwapped();
    OwnSwapped();
    TwoMsgs(A.Msg(4, [11, 0, 9]), A.Msg(9, [4]));
    MsgsWritten();
    hide A.SwapMsgs, A.EncodeMsgs, A.SwapMsg, A.EncodeMsg, MESSAGES_FORWARDED;
    assert TWO_MSGS == [TWO_MSGS[0], TWO_MSGS[1]];
  }

  lemma OwnSwapped()
    ensures A.SwapMsg(9, 5, A.Msg(5, [4])) == A.Msg(9, [4])
  {
  }

  lemma MsgsWritten()
    ensures [0, 0x32] + (A.EncodeMsg(A.Msg(4, [11, 0, 9])) + A.EncodeMsg(A.Msg(9, [4]))) == MESSAGES_FORWARDED
  {
    assert A.EncodeMsg(A.Msg(4, [11, 0, 9])) == [0, 4, 0, 3, 11, 0, 9] && A.EncodeMsg(A.Msg(9, [4])) == [0, 9, 0, 1, 4];
    hide A.EncodeMsg;
  }

  lemma TwoSwapped(local: u16, current: u16, a: A.Msg, b: A.Msg)
    ensures A.SwapMsgs(local, current, [a, b]) == [A.SwapMsg(local, current, a), A.SwapMsg(local, current, b)]
  {
    hide A.SwapMsg;
    assert [a, b][1..] == [b] && [b][1..] == [];
  }

  lemma InfantSwapped()
    ensures A.SwapMsg(9, 5, A.Msg(4, [11, 0, 5])) == A.Msg(4, [11, 0, 9])
  {
    A.PayloadBytes(9, 5, [11, 0, 5]);
    assert [11, 0, 5][3..] == [];
  }

  const REMOVE_ADD: seq<byte> :=
    [0, 0x31, 0, 3, 0, 9, 0, 5, 0, 7, 0, 2, 0, 9, 2, 0, 0, 0, 3, 1, 0, 0, 0, 5, 2, 0, 0, 0, 3, 1, 0, 0]
  const REMOVE_ADD_FORWARDED: seq<byte> :=
    [0, 0x31, 0, 3, 0, 5, 0, 5, 0, 7, 0, 2, 0, 5, 2, 0, 0, 0, 3, 1, 0, 0, 0, 5, 2, 0, 0, 0, 3, 1, 0, 0]
  const REMOVED: seq<u16> := [9, 5, 7]
  const ADDED: seq<C.AoAdd> := [C.AoAdd(9, 2, [1, 0, 0]), C.AoAdd(5, 2, [1, 0, 0])]

  /** Removals and additions of objects with the own object's two ids, and the removal of another object: of the
      two ids only the one that the own object has at the client is replaced. */
  method ForwardRmAdd(c: C.Conn, z: Codec, t: N.Table) returns (drop: bool, out: seq<byte>, sent: seq<seq<byte>>)
    requires NineAndFive(c) && c.username == [120]
    modifies c
    ensures !drop && sent == [] && out == REMOVE_ADD_FORWARDED
    ensures c.aoIDs == old(c.aoIDs)[5 := false][7 := false]
  {
    RmAddParses();
    RmAddSwapped(c.View());
    OnlyCommand(REMOVE_ADD, 0x31);
    hide A.ParseMsgs, A.EncodeMsgs, A.SwapMsgs, A.WellFormedMsgs, At, C.RepeatsFit, C.ParseRmAdd, B.Roomy, B.Tail,
         B.Rewrites, C.AfterRmAdd, C.ForwardedRmAdd, C.ScanOf, C.EncodeRmAdd, U16At, U32At, Fill, B.PosAt, PutU16,
         REMOVE_ADD, REMOVE_ADD_FORWARDED, REMOVED, ADDED;
    drop, out, sent := c.ProcessPktCommand(z, t, REMOVE_ADD, []);
  }

  lemma RmAddParses()
    ensures At(REMOVE_ADD, 0, [0, 0x31]) && C.ParseRmAdd(REMOVE_ADD, 2) == (REMOVED, ADDED)
    ensures C.RepeatsFit(true, [120], REMOVED, ADDED)
  {
    RmAddWritten(C.RmAdd(3, REMOVED, 2, ADDED), 9, 5, 7, 9, 5);
    Joined();
    NoRepeat();
    hide C.ParseRmAdd, C.EncodeRmAdd, C.RepeatsFit, REMOVE_ADD, At;
    ParsesBack(REMOVE_ADD, C.RmAdd(3, REMOVED, 2, ADDED));
  }

  lemma ParsesBack(pkt: seq<byte>, p: C.RmAdd)
    requires p.rmCount == |p.rm| && p.count == |p.adds| && C.AddsFit(p.adds) && pkt == [0, 0x31] + C.EncodeRmAdd(p)
    ensures At(pkt, 0, [0, 0x31]) && C.ParseRmAdd(pkt, 2) == (p.rm, p.adds)
  {
    hide C.ParseRmAdd, C.EncodeRmAdd;
    AtWhole(pkt);
    AtSplit(pkt, 0, [0, 0x31], C.EncodeRmAdd(p));
    C.RmAddRoundTrip(pkt, 2, p);
  }

  lemma NoRepeat()
    ensures C.RepeatsFit(true, [120], REMOVED, ADDED)
  {
    Nameless(9);
    Nameless(5);
    hide C.AoName, A.WellFormedInit, C.PatchOffset;
  }

  /** The bytes of such a packet behind its command word. */
  function ListBytes(i: byte, j: byte, k: byte, id: byte, id': byte): seq<byte> {
    [0, 3, 0, i, 0, j, 0, k] + ([0, 2] + ([0, id, 2, 0, 0, 0, 3, 1, 0, 0] + [0, id', 2, 0, 0, 0, 3, 1, 0, 0]))
  }

  lemma Joined()
    ensures [0, 0x31] + ListBytes(9, 5, 7, 9, 5) == REMOVE_ADD
  {
  }

  lemma JoinedForwarded()
    ensures [0, 0x31] + ListBytes(5, 5, 7, 5, 5) == REMOVE_ADD_FORWARDED
  {
  }

  lemma Nameless(id: u16)
    ensures C.AoName(C.AoAdd(id, 2, [1, 0, 0])) == []
  {
    assert Fill([1, 0, 0], 1, 2) == [0, 0];
  }

  lemma RmAddWritten(p: C.RmAdd, i: byte, j: byte, k: byte, id: byte, id': byte)
    requires p == C.RmAdd(3, [i, j, k], 2, [C.AoAdd(id, 2, [1, 0, 0]), C.AoAdd(id', 2, [1, 0, 0])])
    ensures C.EncodeRmAdd(p) == ListBytes(i, j, k, id, id')
  {
    IdsWritten(i, j, k);
    AddsWritten(id, id');
    assert PutU16(3) == [0, 3] && PutU16(2) == [0, 2];
    hide PutU16, C.EncodeIds, C.EncodeAdds;
    assert [0, 3] + [0, i, 0, j, 0, k] == [0, 3, 0, i, 0, j, 0, k];
  }

  lemma IdsWritten(i: byte, j: byte, k: byte)
    ensures C.EncodeIds([i, j, k]) == [0, i, 0, j, 0, k]
  {
    var rm: seq<u16> := [i, j, k];
    assert rm[..2] == [i, j] && rm[..2][..1] == [i] && rm[..1][..0] == [];
    assert PutU16(i) == [0, i] && PutU16(j) == [0, j] && PutU16(k) == [0, k];
    hide PutU16;
    assert C.EncodeIds(rm[..1]) == C.EncodeIds([]) + [0, i];
    assert C.EncodeIds(rm[..2]) == C.EncodeIds(rm[..1]) + [0, j];
  }

  lemma AddWritten(id: byte)
    ensures C.EncodeAdd(C.AoAdd(id, 2, [1, 0, 0])) == [0, id, 2, 0, 0, 0, 3, 1, 0, 0]
  {
    assert PutBytes32([1, 0, 0]) == [0, 0, 0, 3, 1, 0, 0] by {
      BigEndian(0, 3, 0, 0, 0, 0);
    }
    hide PutBytes32;
  }

  lemma AddsWritten(id: byte, id': byte)
    ensures C.EncodeAdds([C.AoAdd(id, 2, [1, 0, 0]), C.AoAdd(id', 2, [1, 0, 0])])
         == [0, id, 2, 0, 0, 0, 3, 1, 0, 0] + [0, id', 2, 0, 0, 0, 3, 1, 0, 0]
  {
    var a, b := C.AoAdd(id, 2, [1, 0, 0]), C.AoAdd(id', 2, [1, 0, 0]);
    AddWritten(id);
    AddWritten(id');
    hide C.EncodeAdd;
    assert [a, b][..1] == [a] && [a][..0] == [];
    assert C.EncodeAdds([a]) == C.EncodeAdds([]) + C.EncodeAdd(a) == C.EncodeAdd(a);
  }

  lemma RmAddSwapped(t: C.Tracking)
    requires t.init && t.local == 9 && t.current == 5
    ensures [0, 0x31] + C.EncodeRmAdd(C.ForwardedRmAdd(t, [120], REMOVED, ADDED)) == REMOVE_ADD_FORWARDED
    ensures C.ScanOf(t, [120], REMOVED, ADDED).sent == []
    ensures C.AfterRmAdd(t, [120], REMOVED, ADDED) == t.(aoIDs := t.aoIDs[5 := false][7 := false])
  {
    BothScanned(t);
    hide C.ScanOf, C.EncodeRmAdd, REMOVE_ADD_FORWARDED;
    assert C.RmIds(t, REMOVED) == [5, 5, 7];
    MarksInOrder(t.aoIDs);
    hide C.MarkGone, C.MarkLive;
    RmAddWritten(C.ForwardedRmAdd(t, [120], REMOVED, ADDED), 5, 5, 7, 5, 5);
    hide C.ForwardedRmAdd, ListBytes;
    JoinedForwarded();
  }

  lemma BothScanned(t: C.Tracking)
    requires t.init && t.local == 9 && t.current == 5
    ensures C.ScanOf(t, [120], REMOVED, ADDED) ==
            C.Scan(true, true, 9, 5, [C.AoAdd(5, 2, [1, 0, 0]), C.AoAdd(5, 2, [1, 0, 0])], [5, 5], [])
  {
    var sc := C.StartScan(t, REMOVED);
    Nameless(9);
    Nameless(5);
    assert ADDED[..1] == [ADDED[0]] && ADDED[..1][..0] == [];
    assert C.ScanAll(sc, [120], 2, []) == sc;
    hide C.AoName, A.InitPacket;
    var sc1 := C.ScanAll(sc, [120], 2, ADDED[..1]);
    assert sc1 == C.ScanOne(sc, [120], 2, ADDED[0]);
    assert C.ScanAll(sc, [120], 2, ADDED) == C.ScanOne(sc1, [120], 2, ADDED[1]);
  }

  lemma MarksInOrder(m: map<u16, bool>)
    ensures C.MarkGone(C.MarkLive(m, [5, 5]), [5, 5, 7]) == m[5 := false][7 := false]
  {
    var g: seq<u16>, l: seq<u16> := [5, 5, 7], [5, 5];
    assert g[..2] == l && l[..1] == [5] && l[..1][..0] == [];
    assert C.MarkLive(m, []) == m && C.MarkLive(m, l[..1]) == m[5 := true];
    var live := C.MarkLive(m, l);
    assert live == m[5 := true];
    assert C.MarkGone(live, []) == live && C.MarkGone(live, l[..1]) == m[5 := false];
    assert C.MarkGone(live, l) == m[5 := false];
  }

  /** A HUD element is taken note of by the four bytes behind the command word. */
  method ForwardHud(c: C.Conn, z: Codec, t: N.Table) returns (drop: bool, out: seq<byte>, sent: seq<seq<byte>>)
    modifies c
    ensures !drop && sent == [] && out == [0, 0x49, 1, 2, 3, 4, 0]
    ensures c.View() == old(c.View()).(huds := old(c.huds)[0x0102_0304 := true])
  {
    var pkt: seq<byte> := [0, 0x49, 1, 2, 3, 4, 0];
    assert At(pkt, 0, [0, 0x49]);
    assert U32At(pkt, 2) == 0x0102_0304 by {
      assert Fill(pkt, 2, 4) == [1, 2, 3, 4];
      BigEndian(0, 0, 1, 2, 3, 4);
    }
    OnlyCommand(pkt, 0x49);
    hide A.ParseMsgs, A.EncodeMsgs, A.SwapMsgs, A.WellFormedMsgs, At, C.RepeatsFit, C.ParseRmAdd, B.Roomy, B.Tail,
         B.Rewrites, C.AfterRmAdd, C.ForwardedRmAdd, C.ScanOf, C.EncodeRmAdd, U16At, U32At, Fill, B.PosAt, PutU16;
    drop, out, sent := c.ProcessPktCommand(z, t, pkt, []);
  }

  /** The packet that empties the block at (1, -1, 2). */
  lemma IgnoredBlockBytes(z: Codec)
    ensures C.IgnoreBlock(z, B.Pos(1, -1, 2)) ==
            [0, 0x20, 0, 1, 0xFF, 0xFF, 0, 2, 0, 0xFF, 0xFF, 2, 2] + z.deflate(C.IgnoreNodes())
    ensures C.IgnoreNodes()[..4] == [0, 127, 0, 127] && C.IgnoreNodes()[8190..8194] == [0, 127, 0, 0]
  {
    assert B.PutPos(B.Pos(1, -1, 2)) == [0, 1, 0xFF, 0xFF, 0, 2];
  }

  // ----- node definitions -----

  /** A manager with one node "x" of version 13 under that id; the last byte stands for the rest. */
  function OneNode(id: byte, last: byte): seq<byte> {
    [1] + [0, 1] + ([0, 0, 0, 9] + [0, id, 0, 5, 13, 0, 1, 120, last])
  }

  function NodeX(id: byte, last: byte): N.Entry {
    N.Entry(id, [13, 0, 1, 120, last])
  }

  lemma OneNodeWritten(id: byte, last: byte)
    ensures N.EncodeManager(1, [NodeX(id, last)]) == OneNode(id, last)
  {
    var e := NodeX(id, last);
    assert [e][..0] == [] && N.EncodeEntries([]) == [];
    assert N.EncodeEntry(e) == [0, id, 0, 5, 13, 0, 1, 120, last];
    hide N.EncodeEntry;
    assert N.EncodeEntries([e]) == [0, id, 0, 5, 13, 0, 1, 120, last];
    hide N.EncodeEntries;
    BigEndian(1, 9, 0, 0, 0, 0);
  }

  lemma NodeXIs(id: byte, last: byte)
    ensures var e := NodeX(id, last);
      e.id == id && |e.data| == 5 && e.data == NodeX(0, last).data && N.EntryName(e) == [120]
  {
    assert N.NodeBytes(13, [120], [last]) == [13, 0, 1, 120, last];
    hide N.NodeBytes, N.EntryName;
    N.NameStands(id, 13, [120], [last]);
  }

  lemma OneManagerParses(z: Codec, id: byte, last: byte)
    requires Lawful(z)
    ensures var m := z.inflate(z.deflate(OneNode(id, last)));
      m.Some? && N.ParseManager(m.value.data) == [NodeX(id, last)] && N.WellFormed([NodeX(id, last)])
  {
    OneNodeWritten(id, last);
    NodeXIs(id, last);
    hide N.EncodeManager, N.ParseManager, N.EntryName, Lawful, OneNode, NodeX;
    InflateDeflate(z, OneNode(id, last));
    N.ManagerRoundTrip([NodeX(id, last)]);
  }

  lemma TwoManagersParse(z: Codec, a: Server, b: Server, mgrs: map<Server, seq<byte>>)
    requires Lawful(z) && a != b && mgrs == map[a := z.deflate(OneNode(7, 1)), b := z.deflate(OneNode(3, 2))]
    ensures AllInflate(z, mgrs) && N.GoodManagers(z, mgrs)
    ensures N.Parsed(z, mgrs) == map[a := [NodeX(7, 1)], b := [NodeX(3, 2)]]
  {
    hide N.ParseManager, N.EntryName, Lawful, OneNode, NodeX, N.WellFormed;
    OneManagerParses(z, 7, 1);
    OneManagerParses(z, 3, 2);
    assert mgrs.Keys == {a, b};
  }

  /** Two servers define the node "x" under ids of their own and with different bytes behind the name. It gets one
      id, and is published once. */
  method ShareAcrossServers(z: Codec, a: Server, b: Server) returns (blob: seq<byte>, idA: u16, idB: u16)
    requires Lawful(z) && a != b
    ensures idA == 0 && idB == 0
    ensures blob == z.deflate(OneNode(0, 1)) || blob == z.deflate(OneNode(0, 2))
  {
    var mgrs: map<Server, seq<byte>> := map[a := z.deflate(OneNode(7, 1)), b := z.deflate(OneNode(3, 2))];
    TwoManagersParse(z, a, b, mgrs);
    hide N.EntryName, N.EncodeManager, N.ParseManager, Lawful, M.Outcome, N.GoodManagers, N.LookupId, OneNode, N.Parsed,
         AllInflate, NodeX;
    var m := new M.Multiplexer();
    var ok, order, es := m.MergeNodedefs(z, mgrs);
    blob := m.nodedef;
    idA := N.LookupId(m.nodeDefs, a, 7);
    idB := N.LookupId(m.nodeDefs, b, 3);
    SharedX(z, a, b, mgrs, order, m.nodeDefs, blob, es);
  }

  lemma SharedX(z: Codec, a: Server, b: Server, mgrs: map<Server, seq<byte>>, order: seq<Server>, t: N.Table,
                blob: seq<byte>, es: seq<N.Entry>)
    requires Lawful(z) && a != b && N.GoodManagers(z, mgrs) && M.Outcome(z, mgrs, map[], order, t, blob, es)
    requires N.Parsed(z, mgrs) == map[a := [NodeX(7, 1)], b := [NodeX(3, 2)]]
    ensures N.LookupId(t, a, 7) == 0 && N.LookupId(t, b, 3) == 0
    ensures blob == z.deflate(OneNode(0, 1)) || blob == z.deflate(OneNode(0, 2))
  {
    hide N.EntryName, N.EncodeManager, N.ParseManager, Lawful, M.Outcome, N.GoodManagers, M.ItemsOf, M.NamesMet,
         N.Dedup, OneNode, M.Publishes, M.Multiplexes, N.Parsed;
    var defs := N.Parsed(z, mgrs);
    var names := N.Dedup(M.NamesMet(M.ItemsOf(order, defs)));
    M.FirstMerge(z, mgrs, order, t, blob, es);
    OnlyX(a, b, defs, t, names, es);
    OneNodeWritten(0, 1);
    OneNodeWritten(0, 2);
  }

  lemma OnlyX(a: Server, b: Server, defs: map<Server, seq<N.Entry>>, t: N.Table, names: seq<Name>, es: seq<N.Entry>)
    requires defs == map[a := [NodeX(7, 1)], b := [NodeX(3, 2)]] && a != b
    requires M.Multiplexes(t, defs, names) && M.Publishes(es, defs, names)
    ensures N.LookupId(t, a, 7) == 0 && N.LookupId(t, b, 3) == 0
    ensures es == [NodeX(0, 1)] || es == [NodeX(0, 2)]
  {
    NodeXIs(7, 1);
    NodeXIs(3, 2);
    OneName(a, b, defs, t, names, es);
    hide N.EntryName, NodeX, N.IndexOf, M.Publishes, M.Multiplexes;
    M.ResolvesAt(t, defs, names, a, 0);
    M.ResolvesAt(t, defs, names, b, 0);
    PublishedX(a, b, defs, names, es, 0);
    NodeXIs(0, 1);
    NodeXIs(0, 2);
    assert N.IndexOf(names, [120]) == 0;
  }

  lemma OneName(a: Server, b: Server, defs: map<Server, seq<N.Entry>>, t: N.Table, names: seq<Name>, es: seq<N.Entry>)
    requires defs == map[a := [NodeX(7, 1)], b := [NodeX(3, 2)]] && a != b
    requires M.Multiplexes(t, defs, names) && M.Publishes(es, defs, names)
    ensures names == [[120]] && |es| == 1
  {
    hide N.EntryName, M.Sound, NodeX, N.GlobalId, M.Publishes;
    M.ResolvesAt(t, defs, names, a, 0);
    NodeXIs(7, 1);
    forall n | n in names ensures n == [120] {
      NameIsX(a, b, defs, names, es, n);
    }
    OnlyElement(names, [120]);
    M.PublishesSize(es, defs, names);
  }

  lemma NameIsX(a: Server, b: Server, defs: map<Server, seq<N.Entry>>, names: seq<Name>, es: seq<N.Entry>, n: Name)
    requires defs == map[a := [NodeX(7, 1)], b := [NodeX(3, 2)]] && M.Publishes(es, defs, names) && n in names
    ensures n == [120]
  {
    hide N.EntryName, NodeX, N.GlobalId, M.Published, Distinct;
    var k :| 0 <= k < |es| && N.EntryNames(es)[k] == n;
    PublishedX(a, b, defs, names, es, k);
  }

  lemma PublishedX(a: Server, b: Server, defs: map<Server, seq<N.Entry>>, names: seq<Name>, es: seq<N.Entry>, k: nat)
    requires defs == map[a := [NodeX(7, 1)], b := [NodeX(3, 2)]] && M.Publishes(es, defs, names) && k < |es|
    ensures N.EntryName(es[k]) == [120] && [120] in names && es[k].id == N.GlobalId(names, [120])
    ensures es[k].data == NodeX(0, 1).data || es[k].data == NodeX(0, 2).data
  {
    NodeXIs(7, 1);
    NodeXIs(3, 2);
    hide N.EntryName, NodeX, N.GlobalId;
    assert M.Published(es[k], defs, names);
    var s, i :| s in defs && N.Entry(i, es[k].data) in defs[s];
    SameBytes(es[k], N.Entry(i, es[k].data));
  }

  lemma SameBytes(e: N.Entry, f: N.Entry)
    requires e.data == f.data
    ensures N.EntryName(e) == N.EntryName(f)
  {
  }

  lemma OnlyElement(names: seq<Name>, n: Name)
    requires Distinct(names) && n in names && forall m :: m in names ==> m == n
    ensures names == [n]
  {
    DistinctSize(names);
    assert (set m | m in names) == {n};
    assert names[0] in names;
  }

  // ----- media -----

  const NAME_A: Name := [97]

  /** The announcement of one file "a" with the digest "de" to a receiver that has nothing: the file is asked
      for by its name and entered under it. */
  method AskForOneFile(cached: D.Announced -> bool) returns (store: D.Store, request: seq<byte>)
    requires !cached(D.Announced(NAME_A, [100, 101]))
    ensures request == [0, 0x40, 0, 1, 0, 1, 97]
    ensures store == map[NAME_A := D.File([100, 101], [])]
  {
    var pkt: seq<byte> := [0, 0x3C, 0, 1, 0, 1, 97, 0, 2, 100, 101, 0, 0];
    OneFileAnnounced(pkt);
    OneFileEntered(cached);
    RequestBytes();
    hide D.ParseAnnouncement, D.AnnounceAll, D.EncodeRequest;
    store, request := D.HandleAnnounce(map[], pkt, cached);
  }

  lemma OneFileAnnounced(pkt: seq<byte>)
    requires pkt == [0, 0x3C, 0, 1, 0, 1, 97, 0, 2, 100, 101, 0, 0]
    ensures D.ParseAnnouncement(pkt) == [D.Announced(NAME_A, [100, 101])]
  {
    var ann: seq<D.Announced> := [D.Announced(NAME_A, [100, 101])];
    assert ann[..0] == [] && PutBytes16(NAME_A) == [0, 1, 97] && PutBytes16([100, 101]) == [0, 2, 100, 101];
    assert PutU16(1) == [0, 1] && PutBytes16([]) == [0, 0];
    hide PutBytes16, PutU16;
    assert D.EncodeAnns(ann) == [0, 1, 97, 0, 2, 100, 101];
    assert D.EncodeAnnouncement(ann, []) == pkt;
    hide D.EncodeAnnouncement, D.ParseAnnouncement;
    D.AnnouncementRoundTrip(ann, []);
  }

  lemma OneFileEntered(cached: D.Announced -> bool)
    requires !cached(D.Announced(NAME_A, [100, 101]))
    ensures D.AnnounceAll(map[], [D.Announced(NAME_A, [100, 101])], cached) ==
            D.Requested(map[NAME_A := D.File([100, 101], [])], [NAME_A])
  {
    var a := D.Announced(NAME_A, [100, 101]);
    assert [a][..0] == [];
    assert D.AnnounceAll(map[], [], cached) == D.Requested(map[], []);
  }

  lemma RequestBytes()
    ensures D.EncodeRequest([NAME_A]) == [0, 0x40, 0, 1, 0, 1, 97]
  {
    var ns: seq<Name> := [NAME_A];
    assert ns[..0] == [] && PutBytes16(NAME_A) == [0, 1, 97] && PutU16(1) == [0, 1];
    hide PutBytes16, PutU16;
    assert D.EncodeNames(ns) == [0, 1, 97];
  }

  /** The second of three packets, with the file "a". */
  lemma PacketBytes()
    ensures D.EncodePacket(3, 1, [D.Entry(NAME_A, [7, 8])])
         == [0, 0x38] + ([0, 3] + ([0, 1] + ([0, 0, 0, 1] + [0, 1, 97, 0, 0, 0, 2, 7, 8])))
  {
    var es: seq<D.Entry> := [D.Entry(NAME_A, [7, 8])];
    BigEndian(0, 1, 0, 0, 0, 0);
    BigEndian(0, 2, 0, 0, 0, 0);
    assert es[..0] == [] && PutBytes16(NAME_A) == [0, 1, 97] && PutBytes32([7, 8]) == [0, 0, 0, 2, 7, 8];
    assert PutU16(3) == [0, 3] && PutU16(1) == [0, 1] && PutU32(1) == [0, 0, 0, 1];
    hide PutBytes16, PutBytes32, PutU16, PutU32;
    assert D.EncodeEntries(es) == [0, 1, 97, 0, 0, 0, 2, 7, 8];
  }

  // ----- items -----

  const HAND: I.Parts := I.Parts([9, 4], [], [100], [], [], Zeros(16), [5, 6], [7])

  /** A hand with the description "d", and with the standard capabilities. */
  lemma HandBytes()
    ensures I.EncodeItem(HAND) == [9, 4, 0, 0, 0, 1, 100, 0, 0, 0, 0] + Zeros(16) + [0, 2, 5, 6] + [7]
    ensures I.IsHand(I.EncodeItem(HAND))
    ensures I.StdCaps(I.EncodeItem(HAND))
         == [9, 4, 0, 0, 0, 1, 100, 0, 0, 0, 0] + Zeros(16) + ([0, 17, 5] + Zeros(16)) + [7]
  {
    HandWritten(HAND.capabs);
    HandWritten(I.STD_CAPS);
    StdCapsWritten();
    hide PutBytes16, I.EncodeItem, I.ParseItem, I.IsHand, Zeros, I.STD_CAPS;
    I.ItemRoundTrip(HAND);
    I.IsHandIff(HAND);
  }

  lemma StdCapsWritten()
    ensures PutBytes16(I.STD_CAPS) == [0, 17, 5] + Zeros(16) && PutBytes16([5, 6]) == [0, 2, 5, 6]
  {
  }

  lemma HandWritten(capabs: seq<byte>)
    requires |capabs| < 0x1_0000
    ensures I.EncodeItem(HAND.(capabs := capabs)) ==
            [9, 4, 0, 0, 0, 1, 100, 0, 0, 0, 0] + Zeros(16) + PutBytes16(capabs) + [7]
  {
    assert PutBytes16([]) == [0, 0] && PutBytes16([100]) == [0, 1, 100];
    hide PutBytes16, Zeros;
    assert I.Strings(HAND) == [0, 0, 0, 1, 100, 0, 0, 0, 0];
  }

  function Ascii(s: string): (b: seq<byte>)
    requires forall k :: 0 <= k < |s| ==> s[k] as int < 0x80
    ensures |b| == |s|
  {
    seq(|s|, k requires 0 <= k < |s| => s[k] as int)
  }

  /** The name under which a server's hand is listed. */
  lemma HandNameText(srv: Server)
    ensures I.HandName(srv) == Ascii("multiserver:hand_") + srv
  {
    assert I.HAND_PREFIX == Ascii("multiserver:hand_");
  }

  lemma ItemManagerBytes()
    ensures I.EncodeManager([I.ItemDef(NAME_A, [1, 2])], [I.Alias(NAME_A, [98])])
         == [0] + ([0, 1] + ([0, 2, 1, 2] + ([0, 1] + [0, 1, 97, 0, 1, 98])))
  {
    var items: seq<I.ItemDef>, al: seq<I.Alias> := [I.ItemDef(NAME_A, [1, 2])], [I.Alias(NAME_A, [98])];
    assert items[..0] == [] && al[..0] == [] && PutU16(1) == [0, 1];
    assert PutBytes16([1, 2]) == [0, 2, 1, 2] && PutBytes16(NAME_A) == [0, 1, 97] && PutBytes16([98]) == [0, 1, 98];
    hide PutBytes16, PutU16;
    assert I.EncodeAlias(al[0]) == [0, 1, 97, 0, 1, 98] && I.EncodeAliases([]) == [] && I.EncodeItems([]) == [];
    hide I.EncodeAlias;
    assert I.EncodeItems(items) == [0, 2, 1, 2] && I.EncodeAliases(al) == [0, 1, 97, 0, 1, 98];
  }

  /** Punch interval 1.0, drop level 1, the group "a" with 3 uses, maximum level -1, and the time 2.0 at level 2. */
  lemma CapabBytes()
    ensures var g := K.Group(NAME_A, 3, -1, [K.Level(2, 0x4000_0000)]);
      var b := K.Block(0x3F80_0000, 1, [g], [], 0);
      && K.EncodeBlock(b) == [5] + ([0x3F, 0x80, 0, 0] + ([0, 1] + ([0, 0, 0, 1]
                             + (K.EncodeGroup(g) + ([0, 0, 0, 0] + ([] + [0, 0]))))))
      && K.EncodeGroup(g) == [0, 1, 97, 0, 3, 0xFF, 0xFF, 0, 0, 0, 1] + [0, 2, 0x40, 0, 0, 0]
      && K.CapabsOf(K.EncodeBlock(b)) ==
         K.ToolCapabs(0x3F80_0000, 1, map[NAME_A := K.GroupCap(3, -1, map[2 := 0x4000_0000])], map[], 0)
  {
    var g := K.Group(NAME_A, 3, -1, [K.Level(2, 0x4000_0000)]);
    var b := K.Block(0x3F80_0000, 1, [g], [], 0);
    GroupWritten(g, K.Level(2, 0x4000_0000));
    CapabNumbers();
    OneGroup(g);
    hide PutU32, PutU16, K.PutI16, K.EncodeGroup, K.CapabsOf, K.EncodeGroups, K.EncodeDamages, K.GroupsOf;
    K.CapabsReadIff(b);
    hide K.EncodeBlock;
    CapabWritten(b, g);
  }

  lemma CapabNumbers()
    ensures K.PutI16(1) == [0, 1] && PutU32(1) == [0, 0, 0, 1] && PutU32(0) == [0, 0, 0, 0] && PutU16(0) == [0, 0]
    ensures PutU32(0x3F80_0000) == [0x3F, 0x80, 0, 0]
  {
  }

  lemma OneGroup(g: K.Group)
    requires g == K.Group(NAME_A, 3, -1, [K.Level(2, 0x4000_0000)])
    ensures K.EncodeGroups([g]) == K.EncodeGroup(g) && K.EncodeDamages([]) == []
    ensures K.GroupsOf([g]) == map[NAME_A := K.GroupCap(3, -1, map[2 := 0x4000_0000])] && K.DamageOf([]) == map[]
  {
    hide K.EncodeGroup;
    assert [g][..0] == [] && g.times[..0] == [];
    assert K.TimesOf([]) == map[] && K.GroupsOf([]) == map[] && K.EncodeGroups([]) == [];
  }

  lemma CapabWritten(b: K.Block, g: K.Group)
    requires b == K.Block(0x3F80_0000, 1, [g], [], 0)
    ensures K.EncodeBlock(b) == [5] + (PutU32(0x3F80_0000) + (K.PutI16(1) + (PutU32(1)
                                + (K.EncodeGroups([g]) + (PutU32(0) + (K.EncodeDamages([]) + PutU16(0)))))))
  {
    hide PutU32, PutU16, K.PutI16, K.EncodeGroups, K.EncodeDamages;
  }

  /** Damage to a group is kept when it stands behind the empty group. */
  lemma DamageKept()
    ensures K.CapabsOf(K.EncodeBlock(K.Block(0, 0, [], [K.Damage([], 0), K.Damage(NAME_A, 5)], 0))).damage ==
            map[[] := 0, NAME_A := 5]
  {
    var ds: seq<K.Damage> := [K.Damage([], 0), K.Damage(NAME_A, 5)];
    assert ds[..1] == [ds[0]] && ds[..1][..0] == [];
    assert K.DamageOf([]) == map[] && K.DamageOf(ds[..1]) == map[[] := 0];
    K.CapabsReadIff(K.Block(0, 0, [], ds, 0));
    hide K.CapabsOf, K.EncodeBlock, K.DamageOf;
  }

  lemma GroupWritten(g: K.Group, l: K.Level)
    requires l == K.Level(2, 0x4000_0000) && g == K.Group(NAME_A, 3, -1, [l])
    ensures K.EncodeGroup(g) == [0, 1, 97, 0, 3, 0xFF, 0xFF, 0, 0, 0, 1] + [0, 2, 0x40, 0, 0, 0]
  {
    assert K.PutI16(3) == [0, 3] && K.PutI16(-1) == [0xFF, 0xFF] && K.PutI16(2) == [0, 2];
    assert PutU32(1) == [0, 0, 0, 1] && PutU32(0x4000_0000) == [0x40, 0, 0, 0] && PutBytes16(NAME_A) == [0, 1, 97];
    hide PutU32, PutBytes16, K.PutI16;
    assert [l][..0] == [] && K.EncodeLevels([]) == [];
    assert K.EncodeLevels([l]) == [0, 2, 0x40, 0, 0, 0];
  }

  // ----- texts -----

  /** U+20AC and U+1F600 in both encodings. */
  lemma RuneBytes()
    ensures U.EncodeRune(0x20AC) == [0xE2, 0x82, 0xAC] && U.UnitsOf(0x20AC) == [0x20AC]
    ensures U.EncodeRune(0x1F600) == [0xF0, 0x9F, 0x98, 0x80] && U.UnitsOf(0x1F600) == [0xD83D, 0xDE00]
  {
  }

  /** The base64 of "Man" and of "M" (RFC 4648, section 4). */
  lemma Base64Letters()
    ensures V.Encode([77, 97, 110]) == "TWFu" && V.Encode([77]) == "TQ=="
  {
    FirstLetters();
  }

  lemma FirstLetters()
    ensures V.EncodeGroup([77, 97, 110]) == "TWFu" && V.EncodeGroup([77]) == "TQ=="
  {
  }

  /** Two privileges are stored with a bar between them. */
  lemma PrivBytes(stored: string)
    requires P.Encodes({"a", "b"}, stored)
    ensures stored == "a|b" || stored == "b|a"
  {
    var order: seq<string> :| Enumerates(order, {"a", "b"}) && stored == S.Join(order, P.BAR);
    DistinctSize(order);
    assert (set x | x in order) == {"a", "b"};
    assert order[0] in order && order[1] in order;
    assert order == ["a", "b"] || order == ["b", "a"];
    TwoJoined("a", "b");
    TwoJoined("b", "a");
    assert "a" + ['|'] + "b" == "a|b" && "b" + ['|'] + "a" == "b|a";
  }

  lemma TwoJoined(x: string, y: string)
    ensures S.Join([x, y], '|') == x + ['|'] + y
  {
    assert [x, y][..1] == [x];
  }
}
