/** A client connection (conn.go) and what the proxy does to its bookkeeping: the remove/add packets of
    active objects (active_object.go), blocks and HUD elements (blockdata.go, command.go), and the cleanup
    that Redirect sends before it switches servers (redirect.go). */
module Conns {
  import opened Collections
  import opened Wire
  import opened Zlib
  import opened NodeDefs
  import opened BlockData
  import opened ActiveObjects

  /** The fields of a connection that the translation works on. */
  datatype Tracking = Tracking(init: bool, local: u16, current: u16, aoIDs: map<u16, bool>,
                               blocks: seq<Pos>, huds: map<u32, bool>)

  const FRESH := Tracking(false, 0, 0, map[], [], map[])

  // ----- remove/add packets -----

  datatype AoAdd = AoAdd(id: u16, kind: byte, initData: seq<byte>)

  /** The packet after its command word. `rmCount` and `count` are the numbers of removals and additions it
      announces, which need not be the numbers it carries. */
  datatype RmAdd = RmAdd(rmCount: u16, rm: seq<u16>, count: u16, adds: seq<AoAdd>)

  /** The removal of some objects and nothing else. */
  function Removal(ids: seq<u16>): RmAdd {
    RmAdd(|ids| % 0x1_0000, ids, 0, [])
  }

  function AoName(a: AoAdd): Name {
    Bytes16At(a.initData, 1)
  }

  /** An object is the player's own by the name that the server puts behind the version byte. */
  lemma AoNameStands(id: u16, kind: byte, version: byte, name: Name, fixed: seq<byte>, ms: seq<seq<byte>>)
    requires |name| < 0x1_0000 && |fixed| == 30 && |ms| < 0x100 && ShortMsgs(ms)
    ensures AoName(AoAdd(id, kind, InitData(version, name, fixed, ms))) == name
  {
    hide InitData, Bytes16At;
    InitDataReadBack(version, name, fixed, ms);
  }

  /** A removed id: only one direction of the swap is applied. */
  function RmId(t: Tracking, id: u16): u16 {
    if id == t.local then t.current else id
  }

  function RmIds(t: Tracking, rm: seq<u16>): (r: seq<u16>)
    ensures |r| == |rm| && forall k :: 0 <= k < |rm| ==> r[k] == RmId(t, rm[k])
  {
    seq(|rm|, k requires 0 <= k < |rm| => RmId(t, rm[k]))
  }

  /** The state of the scan over the additions: the ids of the own object, what was written so far, the ids
      to track, and the packets sent ahead. */
  datatype Scan = Scan(behind: bool, init: bool, local: u16, current: u16, out: seq<AoAdd>, track: seq<u16>,
                       sent: seq<seq<byte>>)

  function LessOne(v: u16): u16 {
    if v == 0 then 0xFFFF else v - 1
  }

  /** The own object is written only once in a connection. When it comes again it is left out, its messages
      are sent ahead, and the original then stores count - 1 two bytes behind the count field: over the id
      of the first addition written so far, if there is one. The offset is computed in 16 bits; `behind`
      says that it lies behind the removal list at all. */
  function ScanOne(sc: Scan, user: Name, count: u16, a: AoAdd): Scan {
    if AoName(a) == user then
      if sc.init then
        sc.(out := if !sc.behind || sc.out == [] then sc.out else sc.out[0 := sc.out[0].(id := LessOne(count))],
            current := a.id, sent := sc.sent + [InitPacket(sc.local, sc.current, a.initData)])
      else
        sc.(init := true, local := a.id, current := a.id, out := sc.out + [a])
    else
      var id := if a.id == sc.local then sc.current else a.id;
      sc.(out := sc.out + [a.(id := id)], track := sc.track + [id])
  }

  function ScanAll(sc: Scan, user: Name, count: u16, adds: seq<AoAdd>): Scan {
    if adds == [] then sc
    else ScanOne(ScanAll(sc, user, count, adds[..|adds| - 1]), user, count, adds[|adds| - 1])
  }

  /** Where the count patch goes, from the start of the packet's lists. */
  function PatchOffset(countRm: u16): u16 {
    (4 + 2 * countRm) % 0x1_0000
  }

  function StartScan(t: Tracking, rm: seq<u16>): Scan {
    Scan(|rm| < 32765, t.init, t.local, t.current, [], [], [])
  }

  function ScanOf(t: Tracking, user: Name, rm: seq<u16>, adds: seq<AoAdd>): Scan {
    ScanAll(StartScan(t, rm), user, |adds| % 0x1_0000, adds)
  }

  /** The own object comes at k although the client has one. */
  ghost predicate Repeated(init: bool, user: Name, adds: seq<AoAdd>, k: nat)
    requires k < |adds|
  {
    AoName(adds[k]) == user && (init || exists j :: 0 <= j < k && AoName(adds[j]) == user)
  }

  /** What the original needs for a repeated own object: messages it can index, and no patch across the end
      of the 16-bit offsets, which would be a slice from 65534 to 0. */
  ghost predicate RepeatsFit(init: bool, user: Name, rm: seq<u16>, adds: seq<AoAdd>) {
    forall k :: 0 <= k < |adds| && Repeated(init, user, adds, k) ==>
      WellFormedInit(adds[k].initData) && PatchOffset(|rm| % 0x1_0000) != 65534
  }

  /** A removal list whose patch does not lie behind it is patched itself: its count, or one of its ids. */
  function PatchedRemoval(p: RmAdd, repeated: bool, value: u16): RmAdd {
    var o := PatchOffset(|p.rm| % 0x1_0000);
    if !repeated || |p.rm| < 32765 || o == 65534 then p
    else if o == 0 then p.(rmCount := value)
    else if o % 2 == 0 && o / 2 - 1 < |p.rm| then p.(rm := p.rm[o / 2 - 1 := value])
    else p
  }

  function MarkLive(m: map<u16, bool>, ids: seq<u16>): map<u16, bool> {
    if ids == [] then m
    else
      var r := MarkLive(m, ids[..|ids| - 1]);
      if ids[|ids| - 1] == 0 then r else r[ids[|ids| - 1] := true]
  }

  function MarkGone(m: map<u16, bool>, ids: seq<u16>): map<u16, bool> {
    if ids == [] then m else MarkGone(m, ids[..|ids| - 1])[ids[|ids| - 1] := false]
  }

  function AfterRmAdd(t: Tracking, user: Name, rm: seq<u16>, adds: seq<AoAdd>): Tracking {
    var sc := ScanOf(t, user, rm, adds);
    t.(init := sc.init, local := sc.local, current := sc.current,
       aoIDs := MarkGone(MarkLive(t.aoIDs, sc.track), RmIds(t, rm)))
  }

  function ForwardedRmAdd(t: Tracking, user: Name, rm: seq<u16>, adds: seq<AoAdd>): RmAdd {
    var sc := ScanOf(t, user, rm, adds);
    var p := RmAdd(|rm| % 0x1_0000, RmIds(t, rm), |adds| % 0x1_0000, sc.out);
    PatchedRemoval(p, sc.sent != [], LessOne(|adds| % 0x1_0000))
  }

  // ----- the packet's bytes -----

  function IdsEnd(d: seq<byte>, pos: nat, n: nat): nat {
    if n == 0 then pos else Next(d, IdsEnd(d, pos, n - 1), 2)
  }

  function ParseIds(d: seq<byte>, pos: nat, n: nat): (ids: seq<u16>)
    ensures |ids| == n
  {
    if n == 0 then [] else ParseIds(d, pos, n - 1) + [U16At(d, IdsEnd(d, pos, n - 1))]
  }

  function AddEnd(d: seq<byte>, pos: nat): nat {
    Bytes32End(d, Next(d, Next(d, pos, 2), 1))
  }

  function AddAt(d: seq<byte>, pos: nat): AoAdd {
    AoAdd(U16At(d, pos), Fill(d, Next(d, pos, 2), 1)[0], Bytes32At(d, Next(d, Next(d, pos, 2), 1)))
  }

  function AddsEnd(d: seq<byte>, pos: nat, n: nat): nat {
    if n == 0 then pos else AddEnd(d, AddsEnd(d, pos, n - 1))
  }

  function ParseAdds(d: seq<byte>, pos: nat, n: nat): (adds: seq<AoAdd>)
    ensures |adds| == n
  {
    if n == 0 then [] else ParseAdds(d, pos, n - 1) + [AddAt(d, AddsEnd(d, pos, n - 1))]
  }

  /** The removed ids and the additions of a packet whose lists start at pos. */
  function ParseRmAdd(d: seq<byte>, pos: nat): (r: (seq<u16>, seq<AoAdd>))
    ensures |r.0| < 0x1_0000 && |r.1| < 0x1_0000
  {
    var start := Next(d, pos, 2);
    var mid := IdsEnd(d, start, U16At(d, pos));
    (ParseIds(d, start, U16At(d, pos)), ParseAdds(d, Next(d, mid, 2), U16At(d, mid)))
  }

  function EncodeIds(ids: seq<u16>): seq<byte> {
    if ids == [] then [] else EncodeIds(ids[..|ids| - 1]) + PutU16(ids[|ids| - 1])
  }

  function EncodeAdd(a: AoAdd): seq<byte> {
    PutU16(a.id) + ([a.kind] + PutBytes32(a.initData))
  }

  function EncodeAdds(adds: seq<AoAdd>): seq<byte> {
    if adds == [] then [] else EncodeAdds(adds[..|adds| - 1]) + EncodeAdd(adds[|adds| - 1])
  }

  function EncodeRmAdd(p: RmAdd): seq<byte> {
    PutU16(p.rmCount) + (EncodeIds(p.rm) + (PutU16(p.count) + EncodeAdds(p.adds)))
  }

  lemma {:induction false} ParseEncodedIds(d: seq<byte>, pos: nat, ids: seq<u16>)
    requires At(d, pos, EncodeIds(ids))
    ensures ParseIds(d, pos, |ids|) == ids && IdsEnd(d, pos, |ids|) == pos + |EncodeIds(ids)|
  {
    hide U16At, Next, PutU16;
    if ids != [] {
      var front, last := ids[..|ids| - 1], ids[|ids| - 1];
      AtSplit(d, pos, EncodeIds(front), PutU16(last));
      ParseEncodedIds(d, pos, front);
      ReadBackU16(d, pos + |EncodeIds(front)|, last);
    }
  }

  lemma ParseEncodedAdd(d: seq<byte>, pos: nat, a: AoAdd)
    requires |a.initData| < 0x1_0000_0000 && At(d, pos, EncodeAdd(a))
    ensures AddAt(d, pos) == a && AddEnd(d, pos) == pos + |EncodeAdd(a)|
  {
    hide U16At, Bytes32At, Bytes32End, PutU16, PutU32;
    AtSplit(d, pos, PutU16(a.id), [a.kind] + PutBytes32(a.initData));
    AtSplit(d, pos + 2, [a.kind], PutBytes32(a.initData));
    ReadBackU16(d, pos, a.id);
    assert Fill(d, pos + 2, 1) == [a.kind];
    ReadBackBytes32(d, pos + 3, a.initData);
  }

  ghost predicate AddsFit(adds: seq<AoAdd>) {
    forall k :: 0 <= k < |adds| ==> |adds[k].initData| < 0x1_0000_0000
  }

  lemma {:induction false} ParseEncodedAdds(d: seq<byte>, pos: nat, adds: seq<AoAdd>)
    requires AddsFit(adds) && At(d, pos, EncodeAdds(adds))
    ensures ParseAdds(d, pos, |adds|) == adds && AddsEnd(d, pos, |adds|) == pos + |EncodeAdds(adds)|
  {
    hide AddAt, AddEnd, EncodeAdd;
    if adds != [] {
      var front, last := adds[..|adds| - 1], adds[|adds| - 1];
      AtSplit(d, pos, EncodeAdds(front), EncodeAdd(last));
      ParseEncodedAdds(d, pos, front);
      ParseEncodedAdd(d, pos + |EncodeAdds(front)|, last);
    }
  }

  /** A packet whose announced counts are right reads back as its lists. */
  lemma RmAddRoundTrip(d: seq<byte>, pos: nat, p: RmAdd)
    requires p.rmCount == |p.rm| && p.count == |p.adds| && AddsFit(p.adds) && At(d, pos, EncodeRmAdd(p))
    ensures ParseRmAdd(d, pos) == (p.rm, p.adds)
  {
    hide ParseIds, ParseAdds, EncodeIds, EncodeAdds, PutU16, U16At, Next, IdsEnd;
    AtSplit(d, pos, PutU16(|p.rm|), EncodeIds(p.rm) + (PutU16(p.count) + EncodeAdds(p.adds)));
    AtSplit(d, pos + 2, EncodeIds(p.rm), PutU16(p.count) + EncodeAdds(p.adds));
    var mid := pos + 2 + |EncodeIds(p.rm)|;
    AtSplit(d, mid, PutU16(p.count), EncodeAdds(p.adds));
    ReadBackU16(d, pos, |p.rm|);
    ParseEncodedIds(d, pos + 2, p.rm);
    ReadBackU16(d, mid, p.count);
    ParseEncodedAdds(d, mid + 2, p.adds);
  }

  method ReadRmAdd(r: Reader) returns (rm: seq<u16>, adds: seq<AoAdd>)
    modifies r
    ensures (rm, adds) == ParseRmAdd(r.data, old(r.pos))
  {
    hide U16At, Next, Bytes32At, Bytes32End, Fill;
    ghost var d, p0 := r.data, r.pos;
    var countRm := r.ReadUint16();
    ghost var start := r.pos;
    rm, adds := [], [];
    var i: nat := 0;
    while i < countRm
      invariant i <= countRm && r.pos == IdsEnd(d, start, i) && rm == ParseIds(d, start, i)
    {
      var id := r.ReadUint16();
      rm := rm + [id];
      i := i + 1;
    }
    var countAdd := r.ReadUint16();
    ghost var astart := r.pos;
    i := 0;
    while i < countAdd
      invariant i <= countAdd && r.pos == AddsEnd(d, astart, i) && adds == ParseAdds(d, astart, i)
    {
      var id := r.ReadUint16();
      var objType := r.ReadUint8();
      var initData := r.ReadBytes32();
      adds := adds + [AoAdd(id, objType, initData)];
      i := i + 1;
    }
  }

  method WriteRmAdd(p: RmAdd) returns (w: seq<byte>)
    ensures w == EncodeRmAdd(p)
  {
    hide PutU16;
    var ids: seq<byte>, adds: seq<byte> := [], [];
    for i := 0 to |p.rm|
      invariant ids == EncodeIds(p.rm[..i])
    {
      assert p.rm[..i + 1][..i] == p.rm[..i];
      ids := ids + PutU16(p.rm[i]);
    }
    assert p.rm[..|p.rm|] == p.rm;
    for i := 0 to |p.adds|
      invariant adds == EncodeAdds(p.adds[..i])
    {
      assert p.adds[..i + 1][..i] == p.adds[..i];
      adds := adds + EncodeAdd(p.adds[i]);
    }
    assert p.adds[..|p.adds|] == p.adds;
    w := PutU16(p.rmCount) + (ids + (PutU16(p.count) + adds));
  }

  // ----- what Redirect sends -----

  datatype ToClient = RmAddPkt(p: RmAdd) | BlockPkt(bytes: seq<byte>) | HudRmPkt(hud: u32)

  /** 4096 times ContentIgnore, then 8192 zero param bytes. */
  function IgnoreNodes(): (b: seq<byte>)
    ensures |b| == 16384
  {
    seq(16384, k => if k < 8192 && k % 2 == 1 then CONTENT_IGNORE else 0)
  }

  function IgnoreBlock(z: Codec, p: Pos): seq<byte> {
    [0, 0x20] + PutPos(p) + [0, 0xFF, 0xFF, 2, 2] + z.deflate(IgnoreNodes())
  }

  function IgnoreBlocks(z: Codec, ps: seq<Pos>): (r: seq<ToClient>)
    ensures |r| == |ps|
  {
    seq(|ps|, k requires 0 <= k < |ps| => BlockPkt(IgnoreBlock(z, ps[k])))
  }

  function HudRms(huds: seq<u32>): (r: seq<ToClient>)
    ensures |r| == |huds|
  {
    seq(|huds|, k requires 0 <= k < |huds| => HudRmPkt(huds[k]))
  }

  /** The removal of everything tracked, the keys of the two maps in the order Go visits them. */
  function Cleanup(z: Codec, objects: seq<u16>, blocks: seq<Pos>, huds: seq<u32>): seq<ToClient> {
    [RmAddPkt(Removal(objects))] + IgnoreBlocks(z, blocks) + HudRms(huds)
  }

  function PacketBytes(p: ToClient): seq<byte> {
    match p
    case RmAddPkt(ra) => [0, 0x31] + EncodeRmAdd(ra)
    case BlockPkt(bytes) => bytes
    case HudRmPkt(hud) => [0, 0x4A] + PutU32(hud)
  }

  /** What a reader finds in the cleanup packets, by their command words: exactly the objects, the block and the
      HUD element. */
  lemma CleanupReads(z: Codec, objects: seq<u16>, block: Pos, hud: u32)
    requires |objects| < 0x1_0000
    ensures var b := PacketBytes(RmAddPkt(Removal(objects)));
      At(b, 0, [0, 0x31]) && ParseRmAdd(b, 2) == (objects, []) && |b| == 6 + 2 * |objects|
    ensures At(PacketBytes(BlockPkt(IgnoreBlock(z, block))), 0, [0, 0x20])
    ensures var b := PacketBytes(HudRmPkt(hud)); At(b, 0, [0, 0x4A]) && U32At(b, 2) == hud && |b| == 6
  {
    hide ParseRmAdd, U32At, EncodeRmAdd, PutPos;
    var b, h := PacketBytes(RmAddPkt(Removal(objects))), PacketBytes(HudRmPkt(hud));
    AtWhole(b);
    AtSplit(b, 0, [0, 0x31], EncodeRmAdd(Removal(objects)));
    RmAddRoundTrip(b, 2, Removal(objects));
    RemovalSize(objects);
    AtWhole(h);
    AtSplit(h, 0, [0, 0x4A], PutU32(hud));
    ReadBackU32(h, 2, hud);
    var i := IgnoreBlock(z, block);
    assert i == [0, 0x20] + (PutPos(block) + [0, 0xFF, 0xFF, 2, 2] + z.deflate(IgnoreNodes()));
    assert i[0..2] == [0, 0x20];
  }

  lemma RemovalSize(objects: seq<u16>)
    ensures |EncodeRmAdd(Removal(objects))| == 4 + 2 * |objects|
  {
    IdsSize(objects);
  }

  lemma {:induction false} IdsSize(ids: seq<u16>)
    ensures |EncodeIds(ids)| == 2 * |ids|
  {
    if ids != [] {
      IdsSize(ids[..|ids| - 1]);
    }
  }

  const BLOCKDATA: u16 := 0x20
  const ADD_NODE: u16 := 0x21
  const AO_RM_ADD: u16 := 0x31
  const AO_MSGS: u16 := 0x32
  const HUD_ADD: u16 := 0x49
  const HUD_RM: u16 := 0x4A

  /** The packets that the dispatch translates or takes note of, by their command word. */
  predicate TrackedCommand(pkt: seq<byte>) {
    || At(pkt, 0, [0, 0x20]) || At(pkt, 0, [0, 0x21]) || At(pkt, 0, [0, 0x31])
    || At(pkt, 0, [0, 0x32]) || At(pkt, 0, [0, 0x49]) || At(pkt, 0, [0, 0x4A])
  }

  lemma CommandWords(pkt: seq<byte>)
    ensures At(pkt, 0, [0, 0x20]) <==> U16At(pkt, 0) == BLOCKDATA
    ensures At(pkt, 0, [0, 0x20]) ==> Fill(pkt, 0, 2) == [0, 0x20]
    ensures At(pkt, 0, [0, 0x21]) <==> U16At(pkt, 0) == ADD_NODE
    ensures At(pkt, 0, [0, 0x21]) ==> Fill(pkt, 0, 2) == [0, 0x21]
    ensures At(pkt, 0, [0, 0x31]) <==> U16At(pkt, 0) == AO_RM_ADD
    ensures At(pkt, 0, [0, 0x31]) ==> Fill(pkt, 0, 2) == [0, 0x31]
    ensures At(pkt, 0, [0, 0x32]) <==> U16At(pkt, 0) == AO_MSGS
    ensures At(pkt, 0, [0, 0x32]) ==> Fill(pkt, 0, 2) == [0, 0x32]
    ensures At(pkt, 0, [0, 0x49]) <==> U16At(pkt, 0) == HUD_ADD
    ensures At(pkt, 0, [0, 0x49]) ==> Fill(pkt, 0, 2) == [0, 0x49]
    ensures At(pkt, 0, [0, 0x4A]) <==> U16At(pkt, 0) == HUD_RM
    ensures At(pkt, 0, [0, 0x4A]) ==> Fill(pkt, 0, 2) == [0, 0x4A]
  {
    hide At, U16At;
    CommandWord(pkt, 0x20);
    CommandWord(pkt, 0x21);
    CommandWord(pkt, 0x31);
    CommandWord(pkt, 0x32);
    CommandWord(pkt, 0x49);
    CommandWord(pkt, 0x4A);
  }

  /** What the proxy indexes without looking. */
  ghost predicate Acceptable(z: Codec, init: bool, user: Name, pkt: seq<byte>, spare: seq<byte>) {
    && (At(pkt, 0, [0, 0x31]) ==> RepeatsFit(init, user, ParseRmAdd(pkt, 2).0, ParseRmAdd(pkt, 2).1))
    && (At(pkt, 0, [0, 0x32]) ==> WellFormedMsgs(ParseMsgs(pkt, 2)))
    && (At(pkt, 0, [0, 0x21]) ==> |pkt| >= 10)
    && (At(pkt, 0, [0, 0x20]) ==> Roomy(z, pkt, spare))
  }

  lemma OffsetInRemoval(n: nat)
    requires 32765 <= n < 0x1_0000 && PatchOffset(n) != 65534
    ensures PatchOffset(n) == (4 + 2 * n) % 0x1_0000 == if n < 65534 then 2 * (n - 32766) else 2 * (n - 65534)
  {
  }

  /** Where it lands: on the count of removals for 32766 or 65534 of them, otherwise on one of the ids. */
  lemma LongRemovalPatch(p: RmAdd, value: u16)
    requires 32766 <= |p.rm| < 0x1_0000 && |p.rm| != 65533
    ensures PatchedRemoval(p, true, value) ==
      if |p.rm| == 32766 || |p.rm| == 65534 then p.(rmCount := value)
      else p.(rm := p.rm[(if |p.rm| == 65535 then 0 else |p.rm| - 32767) := value])
  {
    NotAcross(|p.rm|);
    OffsetInRemoval(|p.rm|);
    hide PatchOffset;
  }

  lemma NotAcross(n: nat)
    requires 32766 <= n < 0x1_0000 && n != 65533
    ensures PatchOffset(n) != 65534
  {
  }

  /** The count patch when it lands in the removal list. */
  method StoreInRemoval(p: RmAdd, value: u16) returns (out: RmAdd)
    requires 32765 <= |p.rm| < 0x1_0000 && PatchOffset(|p.rm|) != 65534
    ensures out == PatchedRemoval(p, true, value)
  {
    hide PatchOffset;
    OffsetInRemoval(|p.rm|);
    var o := (4 + 2 * |p.rm|) % 0x1_0000;
    if o == 0 {
      out := p.(rmCount := value);
    } else {
      out := p.(rm := p.rm[o / 2 - 1 := value]);
    }
  }

  class Conn {
    const username: Name
    var server: Server
    var initAoReceived: bool
    var aoIDs: map<u16, bool>
    var localPlayerCao: u16
    var currentPlayerCao: u16
    var huds: map<u32, bool>
    var blocks: seq<Pos>

    constructor (username: Name, server: Server)
      ensures View() == FRESH && this.username == username && this.server == server
    {
      this.username, this.server := username, server;
      initAoReceived, localPlayerCao, currentPlayerCao := false, 0, 0;
      aoIDs, huds, blocks := map[], map[], [];
    }

    function View(): Tracking
      reads this
    {
      Tracking(initAoReceived, localPlayerCao, currentPlayerCao, aoIDs, blocks, huds)
    }

    /** processAoRmAdd on a packet already split into its lists. */
    method ProcessAoRmAdd(rm: seq<u16>, adds: seq<AoAdd>) returns (out: RmAdd, sent: seq<seq<byte>>)
      requires |rm| < 0x1_0000 && |adds| < 0x1_0000 && RepeatsFit(initAoReceived, username, rm, adds)
      modifies this
      ensures View() == AfterRmAdd(old(View()), username, rm, adds)
      ensures out == ForwardedRmAdd(old(View()), username, rm, adds)
      ensures sent == ScanOf(old(View()), username, rm, adds).sent
      ensures server == old(server)
    {
      hide MarkLive, MarkGone, AoName, RepeatsFit, ScanAll, PatchOffset;
      ghost var t := View();
      var aoRm: seq<u16> := [];
      for i := 0 to |rm|
        invariant aoRm == RmIds(t, rm[..i])
      {
        var id := rm[i];
        if id == localPlayerCao {
          id := currentPlayerCao;
        }
        aoRm := aoRm + [id];
      }
      assert rm[..|rm|] == rm;
      var w, aoAdd, pkts := ProcessAdds(adds, rm);
      TrackObjects(aoAdd, aoRm);
      out, sent := RmAdd(|rm|, aoRm, |adds|, w), pkts;
      if sent != [] && |rm| >= 32765 {
        PatchInRemoval(t, username, rm, adds);
        out := StoreInRemoval(out, LessOne(|adds|));
      }
    }

    /** The loop over the additions, up to the tracking. The patch into a long removal list is the same for
        every repetition and is left to the caller. */
    method ProcessAdds(adds: seq<AoAdd>, rm: seq<u16>)
      returns (w: seq<AoAdd>, aoAdd: seq<u16>, sent: seq<seq<byte>>)
      requires |rm| < 0x1_0000 && |adds| < 0x1_0000 && RepeatsFit(initAoReceived, username, rm, adds)
      modifies this`initAoReceived, this`localPlayerCao, this`currentPlayerCao
      ensures Scan(|rm| < 32765, initAoReceived, localPlayerCao, currentPlayerCao, w, aoAdd, sent)
           == ScanOf(old(View()), username, rm, adds)
    {
      hide ScanAll, ScanOne, RepeatsFit;
      ghost var t := View();
      w, aoAdd, sent := [], [], [];
      ScanNone(t, username, |adds|, rm);
      for i := 0 to |adds|
        invariant Scan(|rm| < 32765, initAoReceived, localPlayerCao, currentPlayerCao, w, aoAdd, sent)
               == ScanAll(StartScan(t, rm), username, |adds|, adds[..i])
      {
        ScanMore(StartScan(t, rm), username, |adds|, adds, i);
        RepeatFits(t, username, |adds|, rm, adds, i);
        w, aoAdd, sent := ProcessAdd(adds[i], |rm|, |adds|, w, aoAdd, sent);
      }
      assert adds[..|adds|] == adds;
    }

    /** One addition. */
    method ProcessAdd(a: AoAdd, countRm: u16, countAdd: u16, w0: seq<AoAdd>, aoAdd0: seq<u16>, sent0: seq<seq<byte>>)
      returns (w: seq<AoAdd>, aoAdd: seq<u16>, sent: seq<seq<byte>>)
      requires countAdd > 0 && (AoName(a) == username && initAoReceived ==> WellFormedInit(a.initData))
      modifies this`initAoReceived, this`localPlayerCao, this`currentPlayerCao
      ensures Scan(countRm < 32765, initAoReceived, localPlayerCao, currentPlayerCao, w, aoAdd, sent)
           == ScanOne(Scan(countRm < 32765, old(initAoReceived), old(localPlayerCao), old(currentPlayerCao), w0, aoAdd0,
                           sent0), username, countAdd, a)
    {
      hide Bytes16At, Bytes16End, InitPacket, WellFormedInit;
      w, aoAdd, sent := w0, aoAdd0, sent0;
      var dr := new Reader(a.initData);
      dr.Seek(1);
      var name := dr.ReadBytes16();
      var id := a.id;
      if name == username {
        if initAoReceived {
          var msgpkt := WriteInitMsgs(a.initData, localPlayerCao, currentPlayerCao);
          sent := sent + [msgpkt];
          if countRm < 32765 && |w| > 0 {
            w := w[0 := w[0].(id := countAdd - 1)];
          }
          currentPlayerCao := id;
          return;
        } else {
          initAoReceived := true;
          localPlayerCao := id;
          currentPlayerCao := id;
        }
      } else if id == localPlayerCao {
        id := currentPlayerCao;
      }
      if name != username {
        aoAdd := aoAdd + [id];
      }
      w := w + [a.(id := id)];
    }

    method TrackObjects(aoAdd: seq<u16>, aoRm: seq<u16>)
      modifies this`aoIDs
      ensures aoIDs == MarkGone(MarkLive(old(aoIDs), aoAdd), aoRm)
    {
      for i := 0 to |aoAdd|
        invariant aoIDs == MarkLive(old(aoIDs), aoAdd[..i])
      {
        assert aoAdd[..i + 1][..i] == aoAdd[..i];
        if aoAdd[i] != 0 {
          aoIDs := aoIDs[aoAdd[i] := true];
        }
      }
      assert aoAdd[..|aoAdd|] == aoAdd;
      ghost var live := aoIDs;
      for i := 0 to |aoRm|
        invariant aoIDs == MarkGone(live, aoRm[..i])
      {
        assert aoRm[..i + 1][..i] == aoRm[..i];
        aoIDs := aoIDs[aoRm[i] := false];
      }
      assert aoRm[..|aoRm|] == aoRm;
    }

    /** The position is recorded before the block is looked into, so also for a dropped block. */
    method ProcessBlockdata(z: Codec, t: Table, pkt: seq<byte>, spare: seq<byte>) returns (out: Option<seq<byte>>)
      requires Roomy(z, pkt, spare)
      modifies this`blocks
      ensures blocks == old(blocks) + [PosAt(Fill(pkt, 2, 6))]
      ensures out.None? <==> z.inflate(Tail(pkt, 13)).None?
      ensures out.Some? ==> Rewrites(z, t, server, pkt, out.value)
    {
      blocks := blocks + [PosAt(Fill(pkt, 2, 6))];
      out := RewriteBlock(z, t, server, pkt, spare);
    }

    method ProcessHudAdd(id: u32)
      modifies this`huds
      ensures huds == old(huds)[id := true]
    {
      huds := huds[id := true];
    }

    method ProcessHudRm(id: u32)
      modifies this`huds
      ensures huds == old(huds)[id := false]
    {
      huds := huds[id := false];
    }

    /** The cases of processPktCommand that translate or track; the command word is kept. */
    method ProcessPktCommand(z: Codec, t: Table, pkt: seq<byte>, spare: seq<byte>)
      returns (drop: bool, out: seq<byte>, sent: seq<seq<byte>>)
      requires TrackedCommand(pkt) && Acceptable(z, initAoReceived, username, pkt, spare)
      modifies this
      ensures server == old(server)
      ensures !At(pkt, 0, [0, 0x31]) ==> sent == []
      ensures At(pkt, 0, [0, 0x31]) ==>
        var (rm, adds) := ParseRmAdd(pkt, 2);
        && !drop && out == [0, 0x31] + EncodeRmAdd(ForwardedRmAdd(old(View()), username, rm, adds))
        && View() == AfterRmAdd(old(View()), username, rm, adds)
        && sent == ScanOf(old(View()), username, rm, adds).sent
      ensures At(pkt, 0, [0, 0x32]) ==>
        && !drop && View() == old(View())
        && out == [0, 0x32] + EncodeMsgs(SwapMsgs(localPlayerCao, currentPlayerCao, ParseMsgs(pkt, 2)))
      ensures At(pkt, 0, [0, 0x20]) ==>
        && (drop <==> z.inflate(Tail(pkt, 13)).None?)
        && (!drop ==> |out| >= 2 && out[..2] == [0, 0x20] && Rewrites(z, t, server, pkt, out[2..]))
        && View() == old(View()).(blocks := old(blocks) + [PosAt(Fill(pkt, 2, 6))])
      ensures At(pkt, 0, [0, 0x21]) ==>
        && !drop && View() == old(View())
        && out == [0, 0x21] + (pkt[2..8] + PutU16(LookupId(t, server, U16At(pkt, 8))) + pkt[10..])
      ensures At(pkt, 0, [0, 0x49]) ==>
        !drop && out == pkt && View() == old(View()).(huds := old(huds)[U32At(pkt, 2) := true])
      ensures At(pkt, 0, [0, 0x4A]) ==>
        !drop && out == pkt && View() == old(View()).(huds := old(huds)[U32At(pkt, 2) := false])
    {
      hide U16At, U32At, Fill, PosAt, Tail, ParseRmAdd, EncodeRmAdd, ForwardedRmAdd, AfterRmAdd, EncodeMsgs, SwapMsgs,
           ParseMsgs, WellFormedMsgs, Rewrites, LookupId, PutU16, Next, ScanOf, RepeatsFit, Roomy, At;
      CommandWords(pkt);
      var r := new Reader(pkt);
      var cmdBytes := Fill(pkt, 0, 2);
      var cmd := r.ReadUint16();
      r.Seek(2);
      drop, out, sent := false, pkt, [];
      if cmd == AO_RM_ADD {
        var rm, adds := ReadRmAdd(r);
        var p, pkts := ProcessAoRmAdd(rm, adds);
        var w := WriteRmAdd(p);
        sent := pkts;
        out := cmdBytes + w;
      } else if cmd == AO_MSGS {
        var w := ProcessAoMsgs(r, localPlayerCao, currentPlayerCao);
        out := cmdBytes + w;
      } else if cmd == BLOCKDATA {
        var data := ProcessBlockdata(z, t, pkt, spare);
        if data.None? {
          drop := true;
        } else {
          out := cmdBytes + data.value;
          assert out[2..] == data.value;
        }
      } else if cmd == ADD_NODE {
        var data := RewriteAddnode(t, server, pkt);
        out := cmdBytes + data;
      } else if cmd == HUD_ADD {
        var id := r.ReadUint32();
        ProcessHudAdd(id);
      } else {
        var id := r.ReadUint32();
        ProcessHudRm(id);
      }
    }

    /** The successful course of Redirect once the new server is initialised. */
    method Redirect(z: Codec, newsrv: Server)
      returns (sent: seq<ToClient>, ghost objects: seq<u16>, ghost hudOrder: seq<u32>)
      modifies this`aoIDs, this`blocks, this`huds, this`server
      ensures Enumerates(objects, old(aoIDs).Keys) && Enumerates(hudOrder, old(huds).Keys)
      ensures sent == Cleanup(z, objects, old(blocks), hudOrder)
      ensures View() == old(View()).(aoIDs := map[], blocks := [], huds := map[])
      ensures server == newsrv
    {
      var ids: seq<u16> := [];
      var rest := aoIDs.Keys;
      while rest != {}
        invariant aoIDs == old(aoIDs) && blocks == old(blocks) && huds == old(huds)
        invariant rest <= aoIDs.Keys && Enumerates(ids, aoIDs.Keys - rest)
      {
        var ao :| ao in rest;
        ids := ids + [ao];
        rest := rest - {ao};
      }
      objects := ids;
      sent := [RmAddPkt(Removal(ids))];
      aoIDs := map[];

      ghost var first := sent;
      for i := 0 to |blocks|
        invariant aoIDs == map[] && blocks == old(blocks) && huds == old(huds)
        invariant sent == first + IgnoreBlocks(z, blocks[..i])
      {
        hide IgnoreBlock;
        var nodes := FillIgnore();
        var w := [0, 0x20] + PutPos(blocks[i]) + [0, 0xFF, 0xFF, 2, 2] + z.deflate(nodes[..]);
        IsIgnoreBlock(z, blocks[i], w);
        sent := sent + [BlockPkt(w)];
        assert blocks[..i + 1] == blocks[..i] + [blocks[i]];
        assert IgnoreBlocks(z, blocks[..i + 1]) == IgnoreBlocks(z, blocks[..i]) + [BlockPkt(w)];
      }
      assert blocks[..|blocks|] == blocks;
      blocks := [];

      ghost var second := sent;
      hudOrder := [];
      var hrest := huds.Keys;
      while hrest != {}
        invariant aoIDs == map[] && blocks == [] && huds == old(huds)
        invariant hrest <= huds.Keys && Enumerates(hudOrder, huds.Keys - hrest)
        invariant sent == second + HudRms(hudOrder)
      {
        var hud :| hud in hrest;
        sent := sent + [HudRmPkt(hud)];
        hudOrder := hudOrder + [hud];
        hrest := hrest - {hud};
      }
      huds := map[];
      server := newsrv;
    }
  }

  lemma ScanMore(start: Scan, user: Name, count: u16, adds: seq<AoAdd>, i: nat)
    requires i < |adds|
    ensures ScanAll(start, user, count, adds[..i + 1])
         == ScanOne(ScanAll(start, user, count, adds[..i]), user, count, adds[i])
  {
    hide ScanOne;
    assert adds[..i + 1][..i] == adds[..i];
  }

  lemma ScanNone(t: Tracking, user: Name, count: u16, rm: seq<u16>)
    ensures ScanAll(StartScan(t, rm), user, count, []) == StartScan(t, rm)
  {
  }

  lemma {:induction false} ScanInit(sc: Scan, user: Name, count: u16, adds: seq<AoAdd>)
    ensures ScanAll(sc, user, count, adds).init <==> sc.init || exists k :: 0 <= k < |adds| && AoName(adds[k]) == user
  {
    hide AoName, InitPacket;
    if adds != [] {
      var front := adds[..|adds| - 1];
      ScanInit(sc, user, count, front);
      assert forall k :: 0 <= k < |front| ==> front[k] == adds[k];
    }
  }

  lemma {:induction false} SentOnlyRepeats(sc: Scan, user: Name, count: u16, adds: seq<AoAdd>)
    ensures |sc.sent| < |ScanAll(sc, user, count, adds).sent| ==>
              exists k :: 0 <= k < |adds| && Repeated(sc.init, user, adds, k)
    ensures |sc.sent| <= |ScanAll(sc, user, count, adds).sent|
  {
    hide AoName, InitPacket;
    if adds != [] {
      var front, n := adds[..|adds| - 1], |adds| - 1;
      SentOnlyRepeats(sc, user, count, front);
      ScanInit(sc, user, count, front);
      assert forall k :: 0 <= k < n ==> front[k] == adds[k];
      if k: int :| 0 <= k < n && Repeated(sc.init, user, front, k) {
        assert Repeated(sc.init, user, adds, k);
      }
      if AoName(adds[n]) == user && ScanAll(sc, user, count, front).init {
        assert Repeated(sc.init, user, adds, n);
      }
    }
  }

  /** A patch that does not lie behind the removal list lies in it. */
  lemma PatchInRemoval(t: Tracking, user: Name, rm: seq<u16>, adds: seq<AoAdd>)
    requires 32765 <= |rm| < 0x1_0000 && RepeatsFit(t.init, user, rm, adds) && ScanOf(t, user, rm, adds).sent != []
    ensures var o := PatchOffset(|rm|); o != 65534 && o % 2 == 0 && (o > 0 ==> 0 <= o / 2 - 1 < |rm|)
  {
    hide AoName, WellFormedInit, ScanAll;
    SentOnlyRepeats(StartScan(t, rm), user, |adds| % 0x1_0000, adds);
    var k :| 0 <= k < |adds| && Repeated(t.init, user, adds, k);
  }

  lemma RepeatFits(t: Tracking, user: Name, count: u16, rm: seq<u16>, adds: seq<AoAdd>, i: nat)
    requires i < |adds| && RepeatsFit(t.init, user, rm, adds)
    ensures AoName(adds[i]) == user && ScanAll(StartScan(t, rm), user, count, adds[..i]).init ==>
              WellFormedInit(adds[i].initData)
  {
    hide AoName, WellFormedInit;
    ScanInit(StartScan(t, rm), user, count, adds[..i]);
    if AoName(adds[i]) == user && ScanAll(StartScan(t, rm), user, count, adds[..i]).init {
      if !t.init {
        var k :| 0 <= k < |adds[..i]| && AoName(adds[..i][k]) == user;
        assert adds[k] == adds[..i][k];
      }
      assert Repeated(t.init, user, adds, i);
    }
  }

  lemma IsIgnoreBlock(z: Codec, p: Pos, w: seq<byte>)
    requires w == [0, 0x20] + PutPos(p) + [0, 0xFF, 0xFF, 2, 2] + z.deflate(IgnoreNodes())
    ensures w == IgnoreBlock(z, p)
  {
  }

  /** The buffer of an ignored block. */
  method FillIgnore() returns (nodes: array<byte>)
    ensures fresh(nodes) && nodes[..] == IgnoreNodes()
  {
    nodes := new byte[16384](_ => 0);
    for i := 0 to NODE_COUNT
      invariant forall k :: 0 <= k < 2 * i ==> nodes[k] == IgnoreNodes()[k]
      invariant forall k :: 2 * NODE_COUNT <= k < 16384 ==> nodes[k] == 0
    {
      nodes[2 * i], nodes[2 * i + 1] := CONTENT_IGNORE / 0x100, CONTENT_IGNORE % 0x100;
      nodes[2 * NODE_COUNT + i] := 0;
      nodes[3 * NODE_COUNT + i] := 0;
    }
  }
}
