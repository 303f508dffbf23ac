/** Whole runs of one client connection: any number of server packets and redirects, each an atomic step,
    with a ghost view of what the client holds and of what the current server has told it.

    A server is assumed to announce the player's own object before anything else, once per session, to use
    each non-zero id for one object at a time, and to remove only objects it has announced and never the
    player's own. Nothing is assumed about how the ids of different servers relate. */
module Runs {
  import opened Collections
  import opened Wire
  import opened Zlib
  import opened NodeDefs
  import opened NodeMerge
  import opened BlockData
  import opened ActiveObjects
  import opened Conns

  datatype Obj = Player | Entity(kind: byte, initData: seq<byte>)

  function ObjOf(user: Name, a: AoAdd): Obj {
    if AoName(a) == user then Player else Entity(a.kind, a.initData)
  }

  type Objects = map<u16, Obj>

  function Remove(m: Objects, rm: seq<u16>): Objects {
    map id | id in m && id !in rm :: m[id]
  }

  function AddAll(m: Objects, user: Name, adds: seq<AoAdd>): Objects {
    if adds == [] then m
    else
      var r: Objects := AddAll(m, user, adds[..|adds| - 1]);
      r[adds[|adds| - 1].id := ObjOf(user, adds[|adds| - 1])]
  }

  /** The client takes as many removals and additions as are announced and present. */
  function TakenIds(p: RmAdd): seq<u16> {
    if p.rmCount < |p.rm| then p.rm[..p.rmCount] else p.rm
  }

  function Taken(p: RmAdd): seq<AoAdd> {
    if p.count < |p.adds| then p.adds[..p.count] else p.adds
  }

  /** What the client has on screen. */
  datatype Client = Client(objects: Objects, blocks: map<Pos, seq<byte>>, huds: set<u32>)

  function Receive(z: Codec, user: Name, c: Client, p: ToClient): Client {
    match p
    case RmAddPkt(ra) => c.(objects := AddAll(Remove(c.objects, TakenIds(ra)), user, Taken(ra)))
    case BlockPkt(bytes) =>
      (match ParseBlock(z, bytes)
       case None => c
       case Some(b) => c.(blocks := c.blocks[b.pos := b.nodes]))
    case HudRmPkt(hud) => c.(huds := c.huds - {hud})
  }

  function ReceiveAll(z: Codec, user: Name, c: Client, ps: seq<ToClient>): Client {
    if ps == [] then c else Receive(z, user, ReceiveAll(z, user, c, ps[..|ps| - 1]), ps[|ps| - 1])
  }

  /** Content id v at the p-th position, if there is one. */
  function SetWord(b: seq<byte>, p: nat, v: u16): (r: seq<byte>)
    ensures |r| == |b|
  {
    if 2 * p + 1 < |b| then b[2 * p := v / 0x100][2 * p + 1 := v % 0x100] else b
  }

  /** What stays the same through a connection: zlib, the player, the tables of the node definitions, and
      the server the player starts on. */
  datatype Link = Link(z: Codec, user: Name, t: Table, first: Server)

  /** proxy: the connection's fields; server: the objects of the current server's session, `announced` once
      the player's own is among them; srv: the current server; sent: the nodes of the blocks that the client
      got in this session, as the server means them; single: the positions last set by a single-node
      packet. */
  datatype World = World(proxy: Tracking, server: Objects, announced: bool, client: Client,
                         srv: Server, sent: map<Pos, seq<byte>>, single: set<(Pos, nat)>)

  function Start(k: Link): World {
    World(FRESH, map[], false, Client(map[], map[], {}), k.first, map[], {})
  }

  /** The nodes of a block, from the server and as forwarded. */
  datatype Nodes = Nodes(sent: seq<byte>, forwarded: seq<byte>)

  datatype Event =
    | RmAddFrom(rm: seq<u16>, adds: seq<AoAdd>)
    | BlockFrom(pos: Pos, nodes: Option<Nodes>)          // None: the block was dropped
    | NodeFrom(pos: Pos, p: nat, id: u16)                // the p-th node of the block, as the server numbers it
    | NodeRemoved(pos: Pos, p: nat)                      // passed on unread; the client puts air there
    | HudAddFrom(hud: u32)
    | HudRmFrom(hud: u32)
    | Redirected(objects: seq<u16>, huds: seq<u32>, srv: Server)   // with the orders in which Go visits the maps

  // ----- what servers are assumed to do -----

  predicate Own(user: Name, a: AoAdd) {
    AoName(a) == user
  }

  ghost predicate LegalAdds(user: Name, server: Objects, announced: bool, adds: seq<AoAdd>) {
    && (forall k :: 0 <= k < |adds| ==> adds[k].id != 0 && adds[k].id !in server)
    && (forall j, k :: 0 <= j < k < |adds| ==> adds[j].id != adds[k].id)
    && (forall k :: 0 <= k < |adds| ==> (Own(user, adds[k]) <==> !announced && k == 0))
  }

  ghost predicate Legal(k: Link, w: World, ev: Event) {
    match ev
    case RmAddFrom(rm, adds) =>
      && |rm| < 0x1_0000 && |adds| < 0x1_0000
      && (forall i :: 0 <= i < |rm| ==> rm[i] in w.server && w.server[rm[i]] != Player)
      && LegalAdds(k.user, Remove(w.server, rm), w.announced, adds)
    case BlockFrom(_, nodes) => nodes.Some? ==> TranslatedData(nodes.value.sent, nodes.value.forwarded, k.t, w.srv)
    case NodeFrom(pos, p, _) => pos in w.proxy.blocks && p < NODE_COUNT
    case NodeRemoved(pos, p) => pos in w.proxy.blocks && p < NODE_COUNT
    case HudAddFrom(_) => true
    case HudRmFrom(_) => true
    case Redirected(objects, huds, _) =>
      Enumerates(objects, w.proxy.aoIDs.Keys) && Enumerates(huds, w.proxy.huds.Keys)
  }

  /** The p-th node of a block is set at the client to v, and means id to the server. */
  function SetNode(w: World, pos: Pos, p: nat, v: u16, id: u16, single: set<(Pos, nat)>): World {
    if pos !in w.client.blocks then w
    else
      var c := w.client.(blocks := w.client.blocks[pos := SetWord(w.client.blocks[pos], p, v)]);
      w.(client := c, single := single,
         sent := if pos in w.sent then w.sent[pos := SetWord(w.sent[pos], p, id)] else w.sent)
  }

  /** One step: the proxy's part is what the methods of Conn compute. */
  ghost function Step(k: Link, w: World, ev: Event): World
    requires Legal(k, w, ev)
  {
    match ev
    case RmAddFrom(rm, adds) =>
      w.(proxy := AfterRmAdd(w.proxy, k.user, rm, adds),
         server := AddAll(Remove(w.server, rm), k.user, adds),
         announced := w.announced || adds != [],
         client := Receive(k.z, k.user, w.client, RmAddPkt(ForwardedRmAdd(w.proxy, k.user, rm, adds))))
    case BlockFrom(pos, nodes) =>
      var proxy := w.proxy.(blocks := w.proxy.blocks + [pos]);
      if nodes.None? then w.(proxy := proxy)
      else
        w.(proxy := proxy, client := w.client.(blocks := w.client.blocks[pos := nodes.value.forwarded]),
           sent := w.sent[pos := nodes.value.sent], single := set x | x in w.single && x.0 != pos)
    case NodeFrom(pos, p, id) => SetNode(w, pos, p, LookupId(k.t, w.srv, id), id, w.single + {(pos, p)})
    case NodeRemoved(pos, p) => SetNode(w, pos, p, CONTENT_AIR, CONTENT_AIR, w.single - {(pos, p)})
    case HudAddFrom(hud) =>
      w.(proxy := w.proxy.(huds := w.proxy.huds[hud := true]), client := w.client.(huds := w.client.huds + {hud}))
    case HudRmFrom(hud) =>
      w.(proxy := w.proxy.(huds := w.proxy.huds[hud := false]), client := w.client.(huds := w.client.huds - {hud}))
    case Redirected(objects, huds, srv) =>
      World(w.proxy.(aoIDs := map[], blocks := [], huds := map[]), map[], false,
            ReceiveAll(k.z, k.user, w.client, Cleanup(k.z, objects, w.proxy.blocks, huds)), srv, map[], {})
  }

  ghost predicate LegalRun(k: Link, evs: seq<Event>)
    decreases |evs|, 0
  {
    evs == [] || (LegalRun(k, evs[..|evs| - 1]) && Legal(k, Exec(k, evs[..|evs| - 1]), evs[|evs| - 1]))
  }

  ghost function Exec(k: Link, evs: seq<Event>): World
    requires LegalRun(k, evs)
    decreases |evs|, 1
  {
    if evs == [] then Start(k) else Step(k, Exec(k, evs[..|evs| - 1]), evs[|evs| - 1])
  }

  // ----- the simulation -----

  /** The client's objects are the server's, seen through the swap of the two own ids. */
  ghost predicate Image(server: Objects, client: Objects, local: u16, current: u16) {
    && (forall x: u16 :: x in client <==> Swap(local, current, x) in server)
    && (forall x: u16 :: x in client ==> client[x] == server[Swap(local, current, x)])
  }

  ghost predicate Simulates(init: bool, local: u16, current: u16, server: Objects, announced: bool, client: Objects) {
    if announced then
      && init && local != 0 && current != 0
      && current in server
      && (forall id :: id in server ==> (server[id] == Player <==> id == current))
      && Image(server, client, local, current)
    else
      && server == map[]
      && (init ==> local != 0)
      && client == if init then map[local := Player] else map[]
  }

  /** The tracked ids cover everything the client holds besides its own object, and never that one. */
  ghost predicate Covers(t: Tracking, client: Client) {
    && (forall x :: x in client.objects ==> x in t.aoIDs || (t.init && x == t.local))
    && (t.init ==> t.local !in t.aoIDs)
    && (!t.init ==> t.aoIDs == map[])
    && (forall p :: p in client.blocks ==> p in t.blocks || client.blocks[p] == IgnoreNodes())
    && (forall h :: h in client.huds ==> h in t.huds)
  }

  ghost predicate Inv(w: World) {
    && Simulates(w.proxy.init, w.proxy.local, w.proxy.current, w.server, w.announced, w.client.objects)
    && Covers(w.proxy, w.client)
  }

  // ----- one packet -----

  /** The scan writes one entry per addition, except that a repeated own object is left out: this is when
      the announced count is too large. */
  lemma {:induction false} CountFieldIff(sc: Scan, user: Name, count: u16, adds: seq<AoAdd>)
    ensures |ScanAll(sc, user, count, adds).out| <= |sc.out| + |adds|
    ensures ScanAll(sc, user, count, adds).init <==> sc.init || exists k :: 0 <= k < |adds| && Own(user, adds[k])
    ensures |ScanAll(sc, user, count, adds).out| == |sc.out| + |adds|
       <==> (forall j, k :: 0 <= j < k < |adds| ==> !(Own(user, adds[j]) && Own(user, adds[k])))
            && (sc.init ==> forall k :: 0 <= k < |adds| ==> !Own(user, adds[k]))
  {
    hide AoName;
    if adds != [] {
      var front, a := adds[..|adds| - 1], adds[|adds| - 1];
      CountFieldIff(sc, user, count, front);
      assert forall k :: 0 <= k < |front| ==> front[k] == adds[k];
    }
  }

  lemma AddAllAppend(m: Objects, user: Name, adds: seq<AoAdd>, a: AoAdd)
    ensures AddAll(m, user, adds + [a]) == AddAll(m, user, adds)[a.id := ObjOf(user, a)]
  {
    assert (adds + [a])[..|adds|] == adds;
  }

  lemma {:induction false} AddAllKeys(m: Objects, user: Name, adds: seq<AoAdd>, id: u16)
    ensures id in AddAll(m, user, adds) <==> id in m || exists k :: 0 <= k < |adds| && adds[k].id == id
  {
    if adds != [] {
      var front := adds[..|adds| - 1];
      AddAllKeys(m, user, front, id);
      assert forall k :: 0 <= k < |front| ==> front[k] == adds[k];
    }
  }

  /** The first object of a session is the player's own: a new image when the client does not know it yet,
      otherwise only the server's id for it is taken note of. */
  lemma OwnAnnounced(init: bool, local: u16, current: u16, client: Objects, id: u16)
    requires Simulates(init, local, current, map[], false, client) && id != 0
    ensures if init then Simulates(true, local, id, map[id := Player], true, client)
            else Simulates(true, id, id, map[id := Player], true, client[id := Player])
  {
  }

  /** Any later object is put under the swapped id. */
  lemma OtherAdded(local: u16, current: u16, server: Objects, client: Objects, id: u16, o: Obj)
    requires Simulates(true, local, current, server, true, client) && id !in server && o != Player && id != 0
    ensures var id' := if id == local then current else id;
      && id' != 0 && id' != local && id' == Swap(local, current, id)
      && Simulates(true, local, current, server[id := o], true, client[id' := o])
  {
  }

  lemma RemovedEverywhere(t: Tracking, server: Objects, announced: bool, client: Objects, rm: seq<u16>)
    requires Simulates(t.init, t.local, t.current, server, announced, client)
    requires forall k :: 0 <= k < |rm| ==> rm[k] in server && server[rm[k]] != Player
    ensures Simulates(t.init, t.local, t.current, Remove(server, rm), announced, Remove(client, RmIds(t, rm)))
    ensures forall x :: x in RmIds(t, rm) ==> announced && x != t.local
  {
    assert rm == [] || rm[0] in server;
    if announced {
      var r := RmIds(t, rm);
      forall k | 0 <= k < |rm| ensures r[k] == Swap(t.local, t.current, rm[k]) && r[k] != t.local {
        assert rm[k] != t.current;
      }
      forall x: u16 ensures x in r <==> Swap(t.local, t.current, x) in rm {
        if x in r {
          var k :| 0 <= k < |r| && r[k] == x;
          assert Swap(t.local, t.current, x) == rm[k];
        }
        if Swap(t.local, t.current, x) in rm {
          var k :| 0 <= k < |rm| && rm[k] == Swap(t.local, t.current, x);
          assert r[k] == x;
        }
      }
    }
  }

  /** What the scan has achieved after some additions of a packet. */
  ghost predicate Scanned(sc0: Scan, sc: Scan, server: Objects, announced: bool, client0: Objects, client: Objects) {
    && Simulates(sc.init, sc.local, sc.current, server, announced, client)
    && (sc0.init ==> sc.init && sc.local == sc0.local)
    && (forall x :: x in client ==> x in client0 || x in sc.track || (sc.init && x == sc.local))
    && (forall x :: x in sc.track ==> sc.init && x != 0 && x != sc.local)
  }

  lemma ScanStep(user: Name, count: u16, sc0: Scan, sc: Scan, server: Objects, announced: bool,
                 client0: Objects, client: Objects, a: AoAdd)
    requires Scanned(sc0, sc, server, announced, client0, client)
    requires a.id != 0 && a.id !in server && (Own(user, a) <==> !announced)
    requires !announced ==> sc.out == [] && sc.track == []
    requires client == AddAll(client0, user, sc.out)
    ensures var sc' := ScanOne(sc, user, count, a);
      && Scanned(sc0, sc', server[a.id := ObjOf(user, a)], true, client0, AddAll(client0, user, sc'.out))
  {
    hide AoName, Image, AddAll, InitPacket;
    if announced {
      OtherAdded(sc.local, sc.current, server, client, a.id, ObjOf(user, a));
      var id' := if a.id == sc.local then sc.current else a.id;
      AddAllAppend(client0, user, sc.out, a.(id := id'));
      SameObj(user, a, id');
    } else {
      OwnAnnounced(sc.init, sc.local, sc.current, client, a.id);
      AddAllAppend(client0, user, sc.out, a);
    }
  }

  lemma SameObj(user: Name, a: AoAdd, id: u16)
    ensures ObjOf(user, a.(id := id)) == ObjOf(user, a)
  {
  }

  lemma {:induction false} ScanSimulates(user: Name, count: u16, sc0: Scan, server: Objects, announced: bool,
                                         client: Objects, adds: seq<AoAdd>)
    requires Simulates(sc0.init, sc0.local, sc0.current, server, announced, client)
    requires sc0.out == [] && sc0.track == [] && LegalAdds(user, server, announced, adds)
    ensures var sc := ScanAll(sc0, user, count, adds);
      Scanned(sc0, sc, AddAll(server, user, adds), announced || adds != [], client, AddAll(client, user, sc.out))
  {
    hide AoName, ScanOne, Simulates;
    if adds != [] {
      var front, a := adds[..|adds| - 1], adds[|adds| - 1];
      assert forall k :: 0 <= k < |front| ==> front[k] == adds[k];
      ScanSimulates(user, count, sc0, server, announced, client, front);
      var sc := ScanAll(sc0, user, count, front);
      AddAllKeys(server, user, front, a.id);
      ScanStep(user, count, sc0, sc, AddAll(server, user, front), announced || front != [],
               client, AddAll(client, user, sc.out), a);
    }
  }

  lemma {:induction false} MarkLiveKeys(m: map<u16, bool>, ids: seq<u16>, x: u16)
    ensures x in MarkLive(m, ids) <==> x in m || (x != 0 && x in ids)
  {
    if ids != [] {
      MarkLiveKeys(m, ids[..|ids| - 1], x);
      assert ids == ids[..|ids| - 1] + [ids[|ids| - 1]];
    }
  }

  lemma {:induction false} MarkGoneKeys(m: map<u16, bool>, ids: seq<u16>, x: u16)
    ensures x in MarkGone(m, ids) <==> x in m || x in ids
  {
    if ids != [] {
      MarkGoneKeys(m, ids[..|ids| - 1], x);
      assert ids == ids[..|ids| - 1] + [ids[|ids| - 1]];
    }
  }

  lemma {:induction false} MarkLiveValues(m: map<u16, bool>, ids: seq<u16>, x: u16)
    ensures x != 0 && x in ids ==> x in MarkLive(m, ids) && MarkLive(m, ids)[x]
    ensures (x == 0 || x !in ids) && x in m ==> x in MarkLive(m, ids) && MarkLive(m, ids)[x] == m[x]
  {
    if ids != [] {
      MarkLiveValues(m, ids[..|ids| - 1], x);
      assert ids == ids[..|ids| - 1] + [ids[|ids| - 1]];
    }
  }

  lemma {:induction false} MarkGoneValues(m: map<u16, bool>, ids: seq<u16>, x: u16)
    ensures x in ids ==> x in MarkGone(m, ids) && !MarkGone(m, ids)[x]
    ensures x !in ids && x in m ==> x in MarkGone(m, ids) && MarkGone(m, ids)[x] == m[x]
  {
    if ids != [] {
      MarkGoneValues(m, ids[..|ids| - 1], x);
      assert ids == ids[..|ids| - 1] + [ids[|ids| - 1]];
    }
  }

  /** The tracked ids after a packet: none is forgotten, removed ones are marked gone, even if the same packet
      added them, and the added ones that are not zero are marked live. */
  lemma TrackedAfter(t: Tracking, user: Name, rm: seq<u16>, adds: seq<AoAdd>, x: u16)
    ensures var added, removed := ScanOf(t, user, rm, adds).track, RmIds(t, rm);
      var ids := AfterRmAdd(t, user, rm, adds).aoIDs;
      && (x in ids <==> x in t.aoIDs || (x != 0 && x in added) || x in removed)
      && (x in ids ==> ids[x] == if x in removed then false else if x != 0 && x in added then true else t.aoIDs[x])
  {
    hide MarkLive, MarkGone, ScanAll;
    var added, removed := ScanOf(t, user, rm, adds).track, RmIds(t, rm);
    MarkLiveKeys(t.aoIDs, added, x);
    MarkLiveValues(t.aoIDs, added, x);
    MarkGoneKeys(MarkLive(t.aoIDs, added), removed, x);
    MarkGoneValues(MarkLive(t.aoIDs, added), removed, x);
  }

  lemma {:induction false} CountUnused(sc: Scan, user: Name, c: u16, c': u16, adds: seq<AoAdd>)
    requires forall k :: 0 <= k < |adds| ==> !Own(user, adds[k])
    ensures ScanAll(sc, user, c, adds) == ScanAll(sc, user, c', adds)
  {
    hide AoName, InitPacket;
    if adds != [] {
      var front := adds[..|adds| - 1];
      assert forall k :: 0 <= k < |front| ==> front[k] == adds[k];
      CountUnused(sc, user, c, c', front);
    }
  }

  /** When the own object comes again behind other additions, it is left out and the patch meant for the count
      replaces the id of the first of them by the count less one; the count stays. */
  lemma RepeatPatchesFirst(t: Tracking, user: Name, rm: seq<u16>, front: seq<AoAdd>, own: AoAdd)
    requires t.init && Own(user, own) && front != [] && |front| < 0xFFFF && |rm| < 32765
    requires forall k :: 0 <= k < |front| ==> !Own(user, front[k])
    ensures var p, q := ForwardedRmAdd(t, user, rm, front + [own]), ForwardedRmAdd(t, user, rm, front);
      && |q.adds| == |front| && p.adds == q.adds[0 := q.adds[0].(id := |front|)]
      && p.count == |front| + 1 && p.rm == q.rm == RmIds(t, rm) && p.rmCount == |rm|
  {
    hide AoName, InitPacket, ScanAll, PatchOffset;
    var sc := StartScan(t, rm);
    CountFieldIff(sc, user, |front|, front);
    CountUnused(sc, user, |front| + 1, |front|, front);
    BehindKept(sc, user, |front|, front);
    ScanAppend(sc, user, |front| + 1, front, own);
  }

  lemma {:induction false} BehindKept(sc: Scan, user: Name, count: u16, adds: seq<AoAdd>)
    ensures ScanAll(sc, user, count, adds).behind == sc.behind
  {
    hide AoName, InitPacket;
    if adds != [] {
      BehindKept(sc, user, count, adds[..|adds| - 1]);
    }
  }

  lemma ScanAppend(sc: Scan, user: Name, count: u16, front: seq<AoAdd>, a: AoAdd)
    ensures ScanAll(sc, user, count, front + [a]) == ScanOne(ScanAll(sc, user, count, front), user, count, a)
  {
    hide ScanOne;
    assert (front + [a])[..|front|] == front;
  }

  lemma AllTaken(t: Tracking, user: Name, rm: seq<u16>, adds: seq<AoAdd>)
    requires |adds| < 0x1_0000
    ensures Taken(ForwardedRmAdd(t, user, rm, adds)) == ScanOf(t, user, rm, adds).out
  {
    hide ScanAll;
    CountFieldIff(StartScan(t, rm), user, |adds|, adds);
  }

  /** The count patch never hits the removals of a legal packet: where the own object comes again, nothing
      is removed. */
  lemma IdsTaken(t: Tracking, user: Name, rm: seq<u16>, adds: seq<AoAdd>)
    requires |rm| < 0x1_0000 && (rm == [] || forall k :: 0 <= k < |adds| ==> !Own(user, adds[k]))
    ensures TakenIds(ForwardedRmAdd(t, user, rm, adds)) == RmIds(t, rm)
  {
    hide ScanAll, AoName, PatchOffset;
    SentOnlyRepeats(StartScan(t, rm), user, |adds| % 0x1_0000, adds);
  }

  lemma {:induction false} OneLeftOut(sc: Scan, user: Name, count: u16, adds: seq<AoAdd>)
    requires sc.init && adds != [] && forall k :: 0 <= k < |adds| ==> (Own(user, adds[k]) <==> k == 0)
    ensures |ScanAll(sc, user, count, adds).out| == |sc.out| + |adds| - 1
  {
    hide AoName, InitPacket;
    var front := adds[..|adds| - 1];
    if front == [] {
      assert ScanAll(sc, user, count, front) == sc;
      assert Own(user, adds[0]);
    } else {
      assert forall k :: 0 <= k < |front| ==> front[k] == adds[k];
      OneLeftOut(sc, user, count, front);
      assert !Own(user, adds[|front|]);
    }
  }

  /** The announced count of a forwarded packet is right in the first session of a connection, and in every
      packet that does not open a session; in one that opens a later session it is one too many. */
  lemma ForwardedCountIff(t: Tracking, user: Name, server: Objects, announced: bool, rm: seq<u16>, adds: seq<AoAdd>)
    requires |adds| < 0x1_0000 && LegalAdds(user, server, announced, adds)
    ensures var p := ForwardedRmAdd(t, user, rm, adds);
      p.count == |p.adds| + if t.init && !announced && adds != [] then 1 else 0
  {
    hide ScanAll, AoName;
    CountFieldIff(StartScan(t, rm), user, |adds|, adds);
    if t.init && !announced && adds != [] {
      OneLeftOut(StartScan(t, rm), user, |adds|, adds);
    }
  }

  lemma {:induction false} NothingSent(sc: Scan, user: Name, count: u16, adds: seq<AoAdd>)
    requires forall k :: 0 <= k < |adds| && Own(user, adds[k]) ==> k == 0 && !sc.init
    ensures ScanAll(sc, user, count, adds).sent == sc.sent
  {
    hide AoName, InitPacket;
    if adds != [] {
      var front := adds[..|adds| - 1];
      assert forall k :: 0 <= k < |front| ==> front[k] == adds[k];
      NothingSent(sc, user, count, front);
      CountFieldIff(sc, user, count, front);
    }
  }

  lemma {:induction false} SentByFirst(sc: Scan, user: Name, count: u16, adds: seq<AoAdd>)
    requires sc.init && sc.sent == [] && adds != [] && Own(user, adds[0])
    requires forall k :: 0 < k < |adds| ==> !Own(user, adds[k])
    ensures ScanAll(sc, user, count, adds).sent == [InitPacket(sc.local, sc.current, adds[0].initData)]
  {
    hide AoName, InitPacket;
    var front := adds[..|adds| - 1];
    if front == [] {
      assert ScanAll(sc, user, count, front) == sc;
    } else {
      assert forall k :: 0 <= k < |front| ==> front[k] == adds[k];
      SentByFirst(sc, user, count, front);
    }
  }

  /** The packet that opens a later session, and no other, has the messages of the own object sent ahead of it:
      addressed to the client's own id, and with payloads swapped for the id that the object had on the
      server before. */
  lemma SentAhead(t: Tracking, user: Name, server: Objects, announced: bool, rm: seq<u16>, adds: seq<AoAdd>)
    requires LegalAdds(user, server, announced, adds)
    ensures ScanOf(t, user, rm, adds).sent ==
      if t.init && !announced && adds != [] then [InitPacket(t.local, t.current, adds[0].initData)] else []
  {
    hide AoName, InitPacket, ScanAll;
    if t.init && !announced && adds != [] {
      SentByFirst(StartScan(t, rm), user, |adds| % 0x1_0000, adds);
    } else {
      NothingSent(StartScan(t, rm), user, |adds| % 0x1_0000, adds);
    }
  }

  lemma RmAddKeepsInv(k: Link, w: World, rm: seq<u16>, adds: seq<AoAdd>)
    requires Inv(w) && Legal(k, w, RmAddFrom(rm, adds))
    ensures Inv(Step(k, w, RmAddFrom(rm, adds)))
  {
    hide ScanAll, Simulates, AddAll, Remove, MarkLive, MarkGone, LegalAdds, IgnoreNodes;
    var t, w' := w.proxy, Step(k, w, RmAddFrom(rm, adds));
    var client1 := Remove(w.client.objects, RmIds(t, rm));
    RemovedEverywhere(t, w.server, w.announced, w.client.objects, rm);
    ScanSimulates(k.user, |adds|, StartScan(t, rm),
                  Remove(w.server, rm), w.announced, client1, adds);
    AllTaken(t, k.user, rm, adds);
    NothingToRemove(k, w, rm, adds);
    IdsTaken(t, k.user, rm, adds);
    var sc := ScanOf(t, k.user, rm, adds);
    AnnouncedIsInit(t, w.server, w.announced, w.client.objects);
    RmAddCovers(t, w.announced, w.client, client1, rm, sc, w'.client, w'.proxy);
  }

  lemma NothingToRemove(k: Link, w: World, rm: seq<u16>, adds: seq<AoAdd>)
    requires Inv(w) && Legal(k, w, RmAddFrom(rm, adds))
    ensures rm == [] || forall i :: 0 <= i < |adds| ==> !Own(k.user, adds[i])
  {
    hide AoName, Covers;
    assert rm == [] || rm[0] in w.server;
  }

  lemma AnnouncedIsInit(t: Tracking, server: Objects, announced: bool, client: Objects)
    requires Simulates(t.init, t.local, t.current, server, announced, client)
    ensures announced ==> t.init
  {
  }

  lemma RmAddCovers(t: Tracking, announced: bool, c: Client, client1: Objects, rm: seq<u16>, sc: Scan, c': Client,
                    t': Tracking)
    requires Covers(t, c) && (announced ==> t.init)
    requires forall x :: x in RmIds(t, rm) ==> announced && x != t.local
    requires client1 == Remove(c.objects, RmIds(t, rm))
    requires t.init ==> sc.init && sc.local == t.local
    requires forall x :: x in c'.objects ==> x in client1 || x in sc.track || (sc.init && x == sc.local)
    requires forall x :: x in sc.track ==> sc.init && x != 0 && x != sc.local
    requires c' == c.(objects := c'.objects)
    requires t' == t.(init := sc.init, local := sc.local, current := sc.current,
                      aoIDs := MarkGone(MarkLive(t.aoIDs, sc.track), RmIds(t, rm)))
    ensures Covers(t', c')
  {
    hide MarkGone, MarkLive, IgnoreNodes;
    var gone := RmIds(t, rm);
    forall x: u16 ensures x in t'.aoIDs <==> x in t.aoIDs || (x != 0 && x in sc.track) || x in gone {
      MarkLiveKeys(t.aoIDs, sc.track, x);
      MarkGoneKeys(MarkLive(t.aoIDs, sc.track), gone, x);
    }
  }

  // ----- the cleanup of a redirect -----

  lemma {:induction false} ReceiveConcat(z: Codec, user: Name, c: Client, a: seq<ToClient>, b: seq<ToClient>)
    ensures ReceiveAll(z, user, c, a + b) == ReceiveAll(z, user, ReceiveAll(z, user, c, a), b)
  {
    hide Receive;
    if b == [] {
      assert a + b == a;
    } else {
      ReceiveConcat(z, user, c, a, b[..|b| - 1]);
      assert (a + b)[..|a + b| - 1] == a + b[..|b| - 1];
    }
  }

  /** The block that Redirect makes up is read by the client as the same block full of ignore nodes. */
  lemma IgnoreBlockParses(z: Codec, p: Pos)
    requires Lawful(z)
    ensures ParseBlock(z, IgnoreBlock(z, p)) == Some(Block(p, [0, 0xFF, 0xFF, 2, 2], IgnoreNodes(), []))
  {
    hide PosAt, PutPos, IgnoreNodes;
    PosRoundTrip(p);
    var body := z.deflate(IgnoreNodes());
    var pkt := IgnoreBlock(z, p);
    assert pkt == ([0, 0x20] + PutPos(p) + [0, 0xFF, 0xFF, 2, 2]) + body;
    assert Tail(pkt, 13) == body;
    assert Fill(pkt, 2, 6) == PutPos(p);
    assert Fill(pkt, 8, 5) == [0, 0xFF, 0xFF, 2, 2];
    InflateDeflate(z, IgnoreNodes());
    assert Tail(body, |body|) == [];
  }

  lemma IgnoreNodesMeaning()
    ensures forall p: nat :: p < NODE_COUNT ==> WordAt(IgnoreNodes(), p) == CONTENT_IGNORE == 127
    ensures forall k :: 2 * NODE_COUNT <= k < 16384 ==> IgnoreNodes()[k] == 0
  {
    forall p: nat | p < NODE_COUNT ensures WordAt(IgnoreNodes(), p) == CONTENT_IGNORE {
      assert IgnoreNodes()[2 * p] == 0 && IgnoreNodes()[2 * p + 1] == CONTENT_IGNORE;
    }
  }

  lemma {:induction false} BlocksIgnored(z: Codec, user: Name, c: Client, ps: seq<Pos>)
    requires Lawful(z)
    ensures var c' := ReceiveAll(z, user, c, IgnoreBlocks(z, ps));
      && c'.objects == c.objects && c'.huds == c.huds
      && (forall p :: p in c'.blocks <==> p in c.blocks || p in ps)
      && (forall p :: p in c'.blocks ==> c'.blocks[p] == if p in ps then IgnoreNodes() else c.blocks[p])
  {
    hide IgnoreBlock, ParseBlock, IgnoreNodes;
    if ps != [] {
      var front, p := ps[..|ps| - 1], ps[|ps| - 1];
      BlocksIgnored(z, user, c, front);
      assert IgnoreBlocks(z, ps)[..|ps| - 1] == IgnoreBlocks(z, front);
      IgnoreBlockParses(z, p);
      assert ps == front + [p];
    }
  }

  lemma {:induction false} HudsRemoved(z: Codec, user: Name, c: Client, huds: seq<u32>)
    ensures var c' := ReceiveAll(z, user, c, HudRms(huds));
      && c'.objects == c.objects && c'.blocks == c.blocks
      && (forall h :: h in c'.huds <==> h in c.huds && h !in huds)
  {
    if huds != [] {
      var front, h := huds[..|huds| - 1], huds[|huds| - 1];
      HudsRemoved(z, user, c, front);
      assert HudRms(huds)[..|huds| - 1] == HudRms(front);
      assert huds == front + [h];
    }
  }

  /** Nothing of the old server is left: the own object alone, blocks that are all ignored, no HUD. */
  ghost predicate NoResidue(t: Tracking, c: Client) {
    && c.objects == (if t.init then map[t.local := Player] else map[])
    && (forall p :: p in c.blocks ==> c.blocks[p] == IgnoreNodes())
    && c.huds == {}
  }

  lemma OnlyOwnLeft(t: Tracking, server: Objects, announced: bool, client: Client, objects: seq<u16>)
    requires Simulates(t.init, t.local, t.current, server, announced, client.objects) && Covers(t, client)
    requires Enumerates(objects, t.aoIDs.Keys)
    ensures Remove(client.objects, objects) == if t.init then map[t.local := Player] else map[]
  {
    hide IgnoreNodes;
    var r := Remove(client.objects, objects);
    if announced {
      assert t.local in client.objects;
      assert forall x :: x in r <==> x == t.local;
    }
  }

  lemma RemovalReceived(z: Codec, user: Name, c: Client, objects: seq<u16>)
    requires |objects| < 0x1_0000
    ensures ReceiveAll(z, user, c, [RmAddPkt(Removal(objects))]) == c.(objects := Remove(c.objects, objects))
  {
    hide Remove;
    var first: seq<ToClient> := [RmAddPkt(Removal(objects))];
    assert first[..0] == [];
    assert ReceiveAll(z, user, c, []) == c;
  }

  lemma CleanupLeavesNothing(k: Link, w: World, objects: seq<u16>, huds: seq<u32>, srv: Server)
    requires Lawful(k.z) && Inv(w) && Legal(k, w, Redirected(objects, huds, srv))
    ensures NoResidue(w.proxy, ReceiveAll(k.z, k.user, w.client, Cleanup(k.z, objects, w.proxy.blocks, huds)))
    ensures forall p :: p in w.client.blocks ==>
              p in ReceiveAll(k.z, k.user, w.client, Cleanup(k.z, objects, w.proxy.blocks, huds)).blocks
  {
    hide IgnoreNodes, Simulates, ReceiveAll, Receive, IgnoreBlocks, HudRms, Removal, Lawful, Remove;
    var t, blocks := w.proxy, w.proxy.blocks;
    ObjectsFit(k, w, objects, huds, srv);
    var first: seq<ToClient> := [RmAddPkt(Removal(objects))];
    ReceiveConcat(k.z, k.user, w.client, first + IgnoreBlocks(k.z, blocks), HudRms(huds));
    ReceiveConcat(k.z, k.user, w.client, first, IgnoreBlocks(k.z, blocks));
    RemovalReceived(k.z, k.user, w.client, objects);
    var c1 := ReceiveAll(k.z, k.user, w.client, first);
    OnlyOwnLeft(t, w.server, w.announced, w.client, objects);
    BlocksIgnored(k.z, k.user, c1, blocks);
    var c2 := ReceiveAll(k.z, k.user, c1, IgnoreBlocks(k.z, blocks));
    HudsRemoved(k.z, k.user, c2, huds);
  }

  // ----- whole runs -----

  /** The step as seen from the connection. */
  lemma StepProxy(k: Link, w: World, ev: Event)
    requires Legal(k, w, ev)
    ensures Step(k, w, ev).proxy ==
      match ev
      case RmAddFrom(rm, adds) => AfterRmAdd(w.proxy, k.user, rm, adds)
      case BlockFrom(pos, _) => w.proxy.(blocks := w.proxy.blocks + [pos])
      case NodeFrom(_, _, _) => w.proxy
      case NodeRemoved(_, _) => w.proxy
      case HudAddFrom(hud) => w.proxy.(huds := w.proxy.huds[hud := true])
      case HudRmFrom(hud) => w.proxy.(huds := w.proxy.huds[hud := false])
      case Redirected(_, _, _) => w.proxy.(aoIDs := map[], blocks := [], huds := map[])
  {
    hide AfterRmAdd, ForwardedRmAdd, Receive, ReceiveAll, AddAll, Remove, LegalAdds, Cleanup, SetWord, TranslatedData;
  }

  /** A change of the client's blocks and of the tracked positions keeps the rest. */
  lemma BlocksKeepInv(w: World, w': World)
    requires Inv(w) && w'.server == w.server && w'.announced == w.announced
    requires w'.proxy == w.proxy.(blocks := w'.proxy.blocks) && w'.client == w.client.(blocks := w'.client.blocks)
    requires forall p :: p in w.proxy.blocks ==> p in w'.proxy.blocks
    requires forall p :: p in w'.client.blocks ==>
               p in w'.proxy.blocks || (p in w.client.blocks && w'.client.blocks[p] == w.client.blocks[p])
    ensures Inv(w')
  {
    hide IgnoreNodes, Simulates;
  }

  lemma BlockFromKeepsInv(k: Link, w: World, pos: Pos, nodes: Option<Nodes>)
    requires Inv(w) && Legal(k, w, BlockFrom(pos, nodes))
    ensures Inv(Step(k, w, BlockFrom(pos, nodes)))
  {
    hide Inv, TranslatedData;
    BlocksKeepInv(w, Step(k, w, BlockFrom(pos, nodes)));
  }

  lemma SetNodeKeepsInv(w: World, pos: Pos, p: nat, v: u16, id: u16, single: set<(Pos, nat)>)
    requires Inv(w) && pos in w.proxy.blocks
    ensures Inv(SetNode(w, pos, p, v, id, single))
  {
    hide Inv, SetWord;
    BlocksKeepInv(w, SetNode(w, pos, p, v, id, single));
  }

  lemma HudKeepsInv(w: World, hud: u32, live: bool)
    requires Inv(w)
    ensures Inv(w.(proxy := w.proxy.(huds := w.proxy.huds[hud := live]),
                   client := w.client.(huds := if live then w.client.huds + {hud} else w.client.huds - {hud})))
  {
    hide IgnoreNodes, Simulates;
  }

  lemma RedirectKeepsInv(k: Link, w: World, objects: seq<u16>, huds: seq<u32>, srv: Server)
    requires Lawful(k.z) && Inv(w) && Legal(k, w, Redirected(objects, huds, srv))
    ensures Inv(Step(k, w, Redirected(objects, huds, srv)))
  {
    hide IgnoreNodes, Cleanup, ReceiveAll, Lawful;
    CleanupLeavesNothing(k, w, objects, huds, srv);
  }

  lemma StepKeepsInv(k: Link, w: World, ev: Event)
    requires Lawful(k.z) && Inv(w) && Legal(k, w, ev)
    ensures Inv(Step(k, w, ev))
  {
    hide Inv, AfterRmAdd, ForwardedRmAdd, Cleanup, Receive, ReceiveAll, AddAll, Remove, LegalAdds, Lawful, SetNode,
         TranslatedData, LookupId;
    match ev
    case RmAddFrom(rm, adds) => RmAddKeepsInv(k, w, rm, adds);
    case BlockFrom(pos, nodes) => BlockFromKeepsInv(k, w, pos, nodes);
    case NodeFrom(pos, p, id) => SetNodeKeepsInv(w, pos, p, LookupId(k.t, w.srv, id), id, w.single + {(pos, p)});
    case NodeRemoved(pos, p) => SetNodeKeepsInv(w, pos, p, CONTENT_AIR, CONTENT_AIR, w.single - {(pos, p)});
    case HudAddFrom(hud) => HudKeepsInv(w, hud, true);
    case HudRmFrom(hud) => HudKeepsInv(w, hud, false);
    case Redirected(objects, huds, srv) => RedirectKeepsInv(k, w, objects, huds, srv);
  }

  /** In every reachable state the client's objects are the server's under the swap, and the tracked ids
      cover all the client holds. */
  lemma {:induction false} RunsSimulate(k: Link, evs: seq<Event>)
    requires Lawful(k.z) && LegalRun(k, evs)
    ensures Inv(Exec(k, evs))
    decreases |evs|
  {
    hide Step, Legal, Lawful;
    if evs != [] {
      RunsSimulate(k, evs[..|evs| - 1]);
      StepKeepsInv(k, Exec(k, evs[..|evs| - 1]), evs[|evs| - 1]);
    } else {
      StartInv(k);
    }
  }

  lemma StartInv(k: Link)
    ensures Inv(Start(k))
  {
  }

  /** The client keeps one id for its own object through every redirect; and once the current server has
      announced that object, the two views agree on all objects. */
  lemma ClientSeesServer(k: Link, evs: seq<Event>)
    requires Lawful(k.z) && LegalRun(k, evs) && Exec(k, evs).announced
    ensures var w := Exec(k, evs);
      && Image(w.server, w.client.objects, w.proxy.local, w.proxy.current)
      && (forall id :: id in w.server ==> (w.server[id] == Player <==> id == w.proxy.current))
      && w.proxy.local in w.client.objects && w.client.objects[w.proxy.local] == Player
  {
    hide LegalRun, Exec, Covers;
    RunsSimulate(k, evs);
    var w := Exec(k, evs);
    assert Swap(w.proxy.local, w.proxy.current, w.proxy.local) == w.proxy.current;
  }

  lemma {:induction false} ScanKeepsLocal(sc: Scan, user: Name, count: u16, adds: seq<AoAdd>)
    requires sc.init
    ensures var r := ScanAll(sc, user, count, adds); r.init && r.local == sc.local
  {
    hide AoName;
    if adds != [] {
      ScanKeepsLocal(sc, user, count, adds[..|adds| - 1]);
    }
  }

  lemma StepKeepsOwnId(k: Link, w: World, ev: Event)
    requires Legal(k, w, ev) && w.proxy.init
    ensures Step(k, w, ev).proxy.init && Step(k, w, ev).proxy.local == w.proxy.local
  {
    hide Legal, Step, ScanAll;
    StepProxy(k, w, ev);
    if ev.RmAddFrom? {
      ScanKeepsLocal(StartScan(w.proxy, ev.rm), k.user, |ev.adds| % 0x1_0000, ev.adds);
    }
  }

  lemma {:induction false} OwnIdForever(k: Link, evs: seq<Event>, n: nat)
    requires LegalRun(k, evs) && n <= |evs|
    ensures LegalRun(k, evs[..n])
    ensures Exec(k, evs[..n]).proxy.init ==>
      Exec(k, evs).proxy.init && Exec(k, evs).proxy.local == Exec(k, evs[..n]).proxy.local
    decreases |evs|
  {
    hide Legal, Step;
    if n == |evs| {
      assert evs[..n] == evs;
    } else {
      var front := evs[..|evs| - 1];
      assert front[..n] == evs[..n];
      OwnIdForever(k, front, n);
      if Exec(k, front).proxy.init {
        StepKeepsOwnId(k, Exec(k, front), evs[|evs| - 1]);
      }
    }
  }

  lemma {:induction false} SwapMsgsAt(local: u16, current: u16, ms: seq<Msg>, k: nat)
    requires WellFormedMsgs(ms) && k < |ms|
    ensures SwapMsgs(local, current, ms)[k] == SwapMsg(local, current, ms[k])
  {
    hide SwapMsg;
    if k > 0 {
      assert ms[1..][k - 1] == ms[k];
      SwapMsgsAt(local, current, ms[1..], k - 1);
    }
  }

  /** The two ids denote one object. */
  ghost predicate SameObject(w: World, onServer: u16, onClient: u16) {
    && onServer in w.server && onClient in w.client.objects
    && w.client.objects[onClient] == w.server[onServer]
  }

  lemma SwapReachesSame(w: World, id: u16)
    requires Inv(w) && w.announced && id in w.server
    ensures SameObject(w, id, Swap(w.proxy.local, w.proxy.current, id))
  {
    hide Covers;
  }

  /** Every message of a forwarded stream reaches the image of its target, and an id inside its payload
      the image of the object it named. */
  lemma MessagesReachTheirTargets(k: Link, evs: seq<Event>, ms: seq<Msg>, j: nat)
    requires Lawful(k.z) && LegalRun(k, evs) && Exec(k, evs).announced
    requires WellFormedMsgs(ms) && j < |ms|
    requires ms[j].id in Exec(k, evs).server
    requires CarriesId(ms[j].data) ==> PayloadId(ms[j].data) in Exec(k, evs).server
    ensures var w := Exec(k, evs);
      var fwd := ParseMsgs(EncodeMsgs(SwapMsgs(w.proxy.local, w.proxy.current, ms)), 0);
      && |fwd| == |ms|
      && SameObject(w, ms[j].id, fwd[j].id)
      && (CarriesId(ms[j].data) ==>
            && |fwd[j].data| == |ms[j].data|
            && fwd[j].data[0] == ms[j].data[0] && fwd[j].data[3..] == ms[j].data[3..]
            && SameObject(w, PayloadId(ms[j].data), PayloadId(fwd[j].data)))
      && (!CarriesId(ms[j].data) ==> fwd[j].data == ms[j].data)
  {
    hide LegalRun, Exec, Inv, ParseMsgs, EncodeMsgs, SwapMsgs, SameObject, Swap, Lawful;
    var w := Exec(k, evs);
    var sw := SwapMsgs(w.proxy.local, w.proxy.current, ms);
    RunsSimulate(k, evs);
    SwapMsgsTwice(w.proxy.local, w.proxy.current, ms);
    AtWhole(EncodeMsgs(sw));
    ParseEncodedMsgs(EncodeMsgs(sw), 0, sw);
    SwapMsgsAt(w.proxy.local, w.proxy.current, ms, j);
    SwapReachesSame(w, ms[j].id);
    if CarriesId(ms[j].data) {
      SwapReachesSame(w, PayloadId(ms[j].data));
      assert sw[j].data[1..3] == PutU16(Swap(w.proxy.local, w.proxy.current, PayloadId(ms[j].data)));
      assert sw[j].data[3..] == ms[j].data[3..];
    }
  }

  lemma {:induction false} IdsFit(s: set<int>, n: nat)
    requires forall x :: x in s ==> 0 <= x < n
    ensures |s| <= n
    decreases n
  {
    if n == 0 {
      assert forall x :: x !in s;
      assert s == {};
    } else {
      IdsFit(s - {n - 1}, n - 1);
    }
  }

  /** After a redirect the client holds nothing of the old server, whatever the run before was. The
      removal packet never names the player's own object, and its 16-bit count is exact. */
  lemma RedirectLeavesNoResidue(k: Link, evs: seq<Event>, objects: seq<u16>, huds: seq<u32>, srv: Server)
    requires Lawful(k.z) && LegalRun(k, evs + [Redirected(objects, huds, srv)])
    ensures var w := Exec(k, evs + [Redirected(objects, huds, srv)]);
      && NoResidue(w.proxy, w.client)
      && (w.proxy.init ==> w.proxy.local !in objects)
      && |objects| < 0x1_0000
  {
    hide Legal, Covers, Simulates, IgnoreNodes, Lawful, ReceiveAll, Cleanup;
    var all := evs + [Redirected(objects, huds, srv)];
    assert all[..|all| - 1] == evs;
    var w := Exec(k, evs);
    RunsSimulate(k, evs);
    CleanupLeavesNothing(k, w, objects, huds, srv);
    ObjectsFit(k, w, objects, huds, srv);
  }

  lemma ObjectsFit(k: Link, w: World, objects: seq<u16>, huds: seq<u32>, srv: Server)
    requires Inv(w) && Legal(k, w, Redirected(objects, huds, srv))
    ensures w.proxy.init ==> w.proxy.local !in objects
    ensures |objects| < 0x1_0000
  {
    hide Simulates;
    var s: set<u16> := set x | x in objects;
    DistinctSize(objects);
    if w.proxy.init {
      var full: set<int> := s + {w.proxy.local};
      IdsFit(full, 0x1_0000);
    }
  }

  // ----- blocks through a run -----

  lemma SetWordAt(b: seq<byte>, p: nat, v: u16, q: nat)
    requires 2 * q + 1 < |b|
    ensures WordAt(SetWord(b, p, v), q) == if q == p then v else WordAt(b, q)
  {
  }

  /** The id that the client was given for a node. */
  function Shown(k: Link, srv: Server, single: bool, id: u16): u16 {
    if single then LookupId(k.t, srv, id) else TranslateId(k.t, srv, id)
  }

  ghost predicate BlockHolds(k: Link, srv: Server, single: set<(Pos, nat)>, pos: Pos, shown: seq<byte>,
                             sent: seq<byte>)
  {
    && |shown| == |sent|
    && forall p: nat :: p < NODE_COUNT && 2 * p + 1 < |sent| ==>
         WordAt(shown, p) == Shown(k, srv, (pos, p) in single, WordAt(sent, p))
  }

  ghost predicate BlocksHold(k: Link, w: World) {
    forall pos :: pos in w.sent ==>
      pos in w.client.blocks && BlockHolds(k, w.srv, w.single, pos, w.client.blocks[pos], w.sent[pos])
  }

  /** One node of one block. */
  lemma NodeKeepsBlock(k: Link, srv: Server, single: set<(Pos, nat)>, pos: Pos, shown: seq<byte>, sent: seq<byte>,
                       p: nat, v: u16, id: u16, single': set<(Pos, nat)>)
    requires BlockHolds(k, srv, single, pos, shown, sent) && v == Shown(k, srv, (pos, p) in single', id)
    requires forall q: nat :: q != p ==> ((pos, q) in single <==> (pos, q) in single')
    ensures BlockHolds(k, srv, single', pos, SetWord(shown, p, v), SetWord(sent, p, id))
  {
    hide Shown, SetWord, WordAt;
    forall q: nat | q < NODE_COUNT && 2 * q + 1 < |sent|
      ensures WordAt(SetWord(shown, p, v), q) == Shown(k, srv, (pos, q) in single', WordAt(SetWord(sent, p, id), q))
    {
      SetWordAt(shown, p, v, q);
      SetWordAt(sent, p, id, q);
    }
  }

  lemma SetNodeHolds(k: Link, w: World, pos: Pos, p: nat, v: u16, id: u16, single: set<(Pos, nat)>)
    requires BlocksHold(k, w) && v == Shown(k, w.srv, (pos, p) in single, id)
    requires forall x :: x != (pos, p) ==> (x in single <==> x in w.single)
    ensures BlocksHold(k, SetNode(w, pos, p, v, id, single))
  {
    hide Shown, SetWord;
    var w' := SetNode(w, pos, p, v, id, single);
    forall pos' | pos' in w'.sent
      ensures pos' in w'.client.blocks && BlockHolds(k, w'.srv, w'.single, pos', w'.client.blocks[pos'], w'.sent[pos'])
    {
      if pos in w.client.blocks && pos' == pos {
        NodeKeepsBlock(k, w.srv, w.single, pos, w.client.blocks[pos], w.sent[pos], p, v, id, single);
      }
    }
  }

  lemma BlockFromHolds(k: Link, w: World, pos: Pos, n: Nodes)
    requires BlocksHold(k, w) && Legal(k, w, BlockFrom(pos, Some(n)))
    ensures BlocksHold(k, Step(k, w, BlockFrom(pos, Some(n))))
  {
    hide LookupId, TranslatedData;
    TranslatedPart(n.sent, n.forwarded, k.t, w.srv);
    var w' := Step(k, w, BlockFrom(pos, Some(n)));
    forall pos' | pos' in w'.sent
      ensures pos' in w'.client.blocks && BlockHolds(k, w'.srv, w'.single, pos', w'.client.blocks[pos'], w'.sent[pos'])
    {
      if pos' != pos {
        assert BlockHolds(k, w.srv, w.single, pos', w.client.blocks[pos'], w.sent[pos']);
      }
    }
  }

  lemma StepHolds(k: Link, w: World, ev: Event)
    requires BlocksHold(k, w) && Legal(k, w, ev)
    ensures BlocksHold(k, Step(k, w, ev))
  {
    hide AfterRmAdd, ForwardedRmAdd, Cleanup, ReceiveAll, AddAll, Remove, LegalAdds, BlockHolds, LookupId, SetNode;
    match ev
    case RmAddFrom(rm, adds) =>
    case BlockFrom(pos, nodes) =>
      if nodes.Some? {
        BlockFromHolds(k, w, pos, nodes.value);
      }
    case NodeFrom(pos, p, id) => SetNodeHolds(k, w, pos, p, LookupId(k.t, w.srv, id), id, w.single + {(pos, p)});
    case NodeRemoved(pos, p) => SetNodeHolds(k, w, pos, p, CONTENT_AIR, CONTENT_AIR, w.single - {(pos, p)});
    case HudAddFrom(hud) =>
    case HudRmFrom(hud) =>
    case Redirected(objects, huds, srv) =>
  }

  lemma {:induction false} RunHolds(k: Link, evs: seq<Event>)
    requires LegalRun(k, evs)
    ensures BlocksHold(k, Exec(k, evs))
    decreases |evs|
  {
    hide Legal, Step, BlocksHold;
    if evs != [] {
      RunHolds(k, evs[..|evs| - 1]);
      StepHolds(k, Exec(k, evs[..|evs| - 1]), evs[|evs| - 1]);
    } else {
      StartHolds(k);
    }
  }

  lemma StartHolds(k: Link)
    ensures BlocksHold(k, Start(k))
  {
  }

  /** The node is air or ignore, and was put there by a single-node packet. */
  predicate SingleEngineNode(w: World, pos: Pos, p: nat, id: u16) {
    (pos, p) in w.single && (id == CONTENT_AIR || id == CONTENT_IGNORE)
  }

  /** After every run of packets and redirects, at every position of every block that the client got in the
      current session: the client, who was sent the merged manager, reads what the current server means
      there, except exactly where a single-node packet put air or ignore. */
  lemma BlocksReadRightIff(k: Link, evs: seq<Event>, mgrs: map<Server, seq<byte>>, blob: seq<byte>,
                           names: seq<Name>, es: seq<Entry>, pos: Pos, p: nat)
    requires Lawful(k.z) && GoodManagers(k.z, mgrs) && EngineIdsSpared(k.z, mgrs)
    requires Merges(k.z, mgrs, k.t, blob, names, es) && |names| <= 65533
    requires LegalRun(k, evs) && pos in Exec(k, evs).sent
    requires p < NODE_COUNT && 2 * p + 1 < |Exec(k, evs).sent[pos]|
    ensures var w := Exec(k, evs);
      && pos in w.client.blocks && |w.client.blocks[pos]| == |w.sent[pos]|
      && (ClientMeaning(k.z, blob, WordAt(w.client.blocks[pos], p))
          == ServerMeaning(k.z, mgrs, w.srv, WordAt(w.sent[pos], p))
          <==> !SingleEngineNode(w, pos, p, WordAt(w.sent[pos], p)))
  {
    hide LegalRun, Exec, Lawful, GoodManagers, EngineIdsSpared, Merges, ClientMeaning, ServerMeaning, LookupId,
         TranslateId, WordAt;
    RunHolds(k, evs);
    var w := Exec(k, evs);
    assert BlockHolds(k, w.srv, w.single, pos, w.client.blocks[pos], w.sent[pos]);
    var id := WordAt(w.sent[pos], p);
    if (pos, p) in w.single {
      AddnodeMeaningIff(k.z, mgrs, k.t, blob, names, es, w.srv, id);
    } else {
      TranslatedMeaning(k.z, mgrs, k.t, blob, names, es, w.srv, id);
    }
  }

  // ----- the methods behind the steps -----

  /** The nodes a client finds in a forwarded block packet. */
  function NodesIn(z: Codec, out: seq<byte>): Option<seq<byte>> {
    var b := ParseBlock(z, out);
    if b.None? then None else Some(b.value.nodes)
  }

  /** The nodes a server put into a block packet. */
  function NodesSent(z: Codec, pkt: seq<byte>): seq<byte> {
    var m := z.inflate(Tail(pkt, 13));
    if m.None? then [] else m.value.data
  }

  /** The step that a packet of the server makes; object messages and single nodes leave the connection as
      it is. */
  function EventOf(z: Codec, pkt: seq<byte>, drop: bool, out: seq<byte>): Option<Event> {
    if At(pkt, 0, [0, 0x31]) then Some(RmAddFrom(ParseRmAdd(pkt, 2).0, ParseRmAdd(pkt, 2).1))
    else if At(pkt, 0, [0, 0x20]) then
      var fwd := NodesIn(z, out);
      Some(BlockFrom(PosAt(Fill(pkt, 2, 6)),
                     if drop || fwd.None? then None else Some(Nodes(NodesSent(z, pkt), fwd.value))))
    else if At(pkt, 0, [0, 0x49]) then Some(HudAddFrom(U32At(pkt, 2)))
    else if At(pkt, 0, [0, 0x4A]) then Some(HudRmFrom(U32At(pkt, 2)))
    else None
  }

  /** The step as seen from the client: it takes the packet that the method lets through. */
  lemma StepClient(k: Link, w: World, pkt: seq<byte>, drop: bool, out: seq<byte>, ev: Event)
    requires EventOf(k.z, pkt, drop, out) == Some(ev)
    ensures ev.RmAddFrom? && Legal(k, w, ev) ==>
      Step(k, w, ev).client
      == Receive(k.z, k.user, w.client, RmAddPkt(ForwardedRmAdd(w.proxy, k.user, ev.rm, ev.adds)))
    ensures ev.BlockFrom? && Lawful(k.z) && |pkt| >= 13 && !drop && |out| >= 2 && out[..2] == [0, 0x20]
            && Rewrites(k.z, k.t, w.srv, pkt, out[2..]) ==>
      Legal(k, w, ev) && Step(k, w, ev).client == Receive(k.z, k.user, w.client, BlockPkt(out))
    ensures ev.BlockFrom? && drop ==> Legal(k, w, ev)
  {
    hide ForwardedRmAdd, AfterRmAdd, Receive, NodesIn, NodesSent, LegalAdds, Remove, AddAll, Lawful, Rewrites, PosAt,
         ParseRmAdd, U16At, U32At, Fill, TranslatedData;
    if ev.BlockFrom? && Lawful(k.z) && |pkt| >= 13 && !drop && |out| >= 2 && out[..2] == [0, 0x20]
       && Rewrites(k.z, k.t, w.srv, pkt, out[2..])
    {
      BlockReceived(k.z, k.t, w.srv, k.user, w.client, pkt, out);
    }
  }

  lemma BlockReceived(z: Codec, t: Table, srv: Server, user: Name, c: Client, pkt: seq<byte>, out: seq<byte>)
    requires Lawful(z) && |pkt| >= 13 && |out| >= 2 && out[..2] == [0, 0x20] && Rewrites(z, t, srv, pkt, out[2..])
    ensures NodesIn(z, out).Some? && TranslatedData(NodesSent(z, pkt), NodesIn(z, out).value, t, srv)
    ensures Receive(z, user, c, BlockPkt(out)) ==
            c.(blocks := c.blocks[PosAt(Fill(pkt, 2, 6)) := NodesIn(z, out).value])
  {
    hide PosAt, Fill, Tail, Lawful, TranslatedData, ParseBlock;
    var m := z.inflate(Tail(pkt, 13)).value;
    var nodes: seq<byte> :|
      && TranslatedData(m.data, nodes, t, srv)
      && out[2..] == Fill(pkt, 2, 11) + z.deflate(nodes) + Tail(Tail(pkt, 13), m.used);
    ForwardedParses(z, [0, 0x20], pkt, nodes, Tail(Tail(pkt, 13), m.used));
    assert out == [0, 0x20] + out[2..];
  }

  /** The id in a forwarded single-node packet is the one that the step shows to the client. */
  lemma NodeForwarded(t: Table, srv: Server, pkt: seq<byte>, out: seq<byte>)
    requires |pkt| >= 10
    requires out == [0, 0x21] + (pkt[2..8] + PutU16(LookupId(t, srv, U16At(pkt, 8))) + pkt[10..])
    ensures U16At(out, 8) == LookupId(t, srv, U16At(pkt, 8))
  {
    var id := LookupId(t, srv, U16At(pkt, 8));
    hide LookupId, PutU16, U16At;
    assert out[8..10] == PutU16(id);
    ReadBackU16(out, 8, id);
  }

  /** The dispatch does to the connection what the step of a run says, and the packet it lets through is
      the one that the step gives to the client. A block is always a legal step. */
  method TakePacket(c: Conn, z: Codec, t: Table, pkt: seq<byte>, spare: seq<byte>, ghost k: Link, ghost w: World)
    returns (drop: bool, out: seq<byte>, sent: seq<seq<byte>>)
    requires TrackedCommand(pkt) && Acceptable(z, c.initAoReceived, c.username, pkt, spare)
    requires k.z == z && k.t == t && k.user == c.username && w.proxy == c.View() && w.srv == c.server
    modifies c
    ensures EventOf(z, pkt, drop, out).None? ==> c.View() == w.proxy
    ensures At(pkt, 0, [0, 0x21]) ==> U16At(out, 8) == LookupId(t, w.srv, U16At(pkt, 8))
    ensures At(pkt, 0, [0, 0x20]) && Lawful(z) && |pkt| >= 13 ==> Legal(k, w, EventOf(z, pkt, drop, out).value)
    ensures EventOf(z, pkt, drop, out).Some? && Legal(k, w, EventOf(z, pkt, drop, out).value) ==>
              var ev := EventOf(z, pkt, drop, out).value;
              var w' := Step(k, w, ev);
              && w'.proxy == c.View()
              && (ev.RmAddFrom? ==> exists p ::
                    && out == [0, 0x31] + EncodeRmAdd(p)
                    && w'.client == Receive(z, k.user, w.client, RmAddPkt(p)))
              && (ev.BlockFrom? && !drop && Lawful(z) && |pkt| >= 13 ==>
                    w'.client == Receive(z, k.user, w.client, BlockPkt(out)))
  {
    hide U16At, U32At, Fill, PosAt, Tail, ParseRmAdd, EncodeRmAdd, ForwardedRmAdd, AfterRmAdd, EncodeMsgs, SwapMsgs,
         ParseMsgs, Rewrites, LookupId, ScanOf, RepeatsFit, Receive, NodesIn, NodesSent, Legal, Step, Lawful, PutU16,
         Roomy;
    drop, out, sent := c.ProcessPktCommand(z, t, pkt, spare);
    ghost var ev := EventOf(z, pkt, drop, out);
    if At(pkt, 0, [0, 0x21]) {
      NodeForwarded(t, w.srv, pkt, out);
    }
    if ev.Some? {
      StepClient(k, w, pkt, drop, out, ev.value);
      if Legal(k, w, ev.value) {
        StepProxy(k, w, ev.value);
      }
    }
  }

  /** A redirect is the step of the same name. */
  method TakeRedirect(c: Conn, z: Codec, newsrv: Server, ghost k: Link, ghost w: World)
    returns (sent: seq<ToClient>, ghost ev: Event)
    requires k.z == z && k.user == c.username && w.proxy == c.View()
    modifies c
    ensures ev.Redirected? && ev.srv == newsrv && Legal(k, w, ev)
    ensures Step(k, w, ev).proxy == c.View() && Step(k, w, ev).srv == c.server
    ensures Step(k, w, ev).client == ReceiveAll(z, k.user, w.client, sent)
  {
    hide Cleanup, ReceiveAll;
    ghost var objects: seq<u16>, huds: seq<u32>;
    sent, objects, huds := c.Redirect(z, newsrv);
    ev := Redirected(objects, huds, newsrv);
  }
}
