/** Map blocks and single nodes on their way to a client (blockdata.go): content ids are translated in
    place, everything else is passed through. */
module BlockData {
  import opened Wire
  import opened Zlib
  import opened NodeDefs
  import opened NodeMerge

  const NODE_COUNT := 4096

  datatype Pos = Pos(x: i16, y: i16, z: i16)

  /** Block data leaves the engine's ids alone. */
  function TranslateId(t: Table, srv: Server, id: u16): u16 {
    if Reserved(id) then id else LookupId(t, srv, id)
  }

  /** Every id is translated and no other byte changes; this determines the new bytes. */
  ghost predicate Translated(before: seq<byte>, after: seq<byte>, t: Table, srv: Server) {
    && |after| == |before| >= 2 * NODE_COUNT
    && (forall p: nat :: p < NODE_COUNT ==> WordAt(after, p) == TranslateId(t, srv, WordAt(before, p)))
    && (forall k :: 2 * NODE_COUNT <= k < |before| ==> after[k] == before[k])
  }

  method TranslateNodes(nodes: array<byte>, t: Table, srv: Server)
    requires nodes.Length >= 2 * NODE_COUNT
    modifies nodes
    ensures Translated(old(nodes[..]), nodes[..], t, srv)
  {
    var i: nat := 0;
    while i < NODE_COUNT
      invariant i <= NODE_COUNT
      invariant forall p: nat :: p < i ==> WordAt(nodes[..], p) == TranslateId(t, srv, WordAt(old(nodes[..]), p))
      invariant forall k :: 2 * i <= k < nodes.Length ==> nodes[k] == old(nodes[k])
    {
      var contentID := GetU16(nodes[2 * i..2 * i + 2]);
      assert contentID == WordAt(old(nodes[..]), i);
      if !(CONTENT_UNKNOWN <= contentID <= CONTENT_IGNORE) {
        var newID := LookupId(t, srv, contentID);
        nodes[2 * i], nodes[2 * i + 1] := newID / 0x100, newID % 0x100;
      }
      i := i + 1;
    }
  }

  // ----- the packets -----

  /** A BLOCKDATA packet as its receiver takes it apart. */
  datatype Block = Block(pos: Pos, header: seq<byte>, nodes: seq<byte>, meta: seq<byte>)

  function PosAt(b: seq<byte>): Pos
    requires |b| == 6
  {
    Pos(ToI16(GetU16(b[..2])), ToI16(GetU16(b[2..4])), ToI16(GetU16(b[4..])))
  }

  function PutPos(p: Pos): seq<byte> {
    PutU16(FromI16(p.x)) + PutU16(FromI16(p.y)) + PutU16(FromI16(p.z))
  }

  lemma PosRoundTrip(p: Pos)
    ensures |PutPos(p)| == 6 && PosAt(PutPos(p)) == p
  {
    var b := PutPos(p);
    assert b[..2] == PutU16(FromI16(p.x)) && b[2..4] == PutU16(FromI16(p.y)) && b[4..] == PutU16(FromI16(p.z));
  }

  function Tail(b: seq<byte>, from: nat): seq<byte> {
    if from <= |b| then b[from..] else []
  }

  function ParseBlock(z: Codec, pkt: seq<byte>): Option<Block> {
    var m := z.inflate(Tail(pkt, 13));
    if m.None? then None
    else Some(Block(PosAt(Fill(pkt, 2, 6)), Fill(pkt, 8, 5), m.value.data, Tail(Tail(pkt, 13), m.value.used)))
  }

  /** A block packet as a server writes it: the command word, the position, five bytes of header, the compressed
      nodes, the metadata. */
  function BlockBytes(z: Codec, b: Block): seq<byte> {
    [0, 0x20] + (PutPos(b.pos) + (b.header + (z.deflate(b.nodes) + b.meta)))
  }

  lemma BlockParts(z: Codec, b: Block)
    requires |b.header| == 5
    ensures var pkt := BlockBytes(z, b);
      && |pkt| >= 13 && Fill(pkt, 2, 6) == PutPos(b.pos) && Fill(pkt, 8, 5) == b.header
      && Fill(pkt, 2, 11) == PutPos(b.pos) + b.header && Tail(pkt, 13) == z.deflate(b.nodes) + b.meta
  {
    hide PosAt, PutPos;
    PosRoundTrip(b.pos);
    var pkt := BlockBytes(z, b);
    assert pkt == [0, 0x20] + PutPos(b.pos) + b.header + (z.deflate(b.nodes) + b.meta);
  }

  lemma BlockReadBack(z: Codec, b: Block)
    requires Lawful(z) && |b.header| == 5
    ensures ParseBlock(z, BlockBytes(z, b)) == Some(b)
  {
    hide PosAt, PutPos, Lawful, BlockBytes, Fill, Tail;
    BlockParts(z, b);
    PosRoundTrip(b.pos);
    InflatePrefix(z, b.nodes, b.meta);
    TailOf(z.deflate(b.nodes), b.meta);
  }

  lemma TailOf(a: seq<byte>, b: seq<byte>)
    ensures Tail(a + b, |a|) == b
  {
  }

  /** The first |data| bytes of data + spare, translated. The translation runs over 8192 bytes; for a
      shorter block it goes on into what the buffer holds behind the inflated bytes. */
  ghost predicate TranslatedData(data: seq<byte>, nodes: seq<byte>, t: Table, srv: Server) {
    exists spare: seq<byte>, all: seq<byte> :: Translated(data + spare, all, t, srv) && nodes == all[..|data|]
  }

  /** out is the forwarded body of the block packet pkt. */
  ghost predicate Rewrites(z: Codec, t: Table, srv: Server, pkt: seq<byte>, out: seq<byte>) {
    var m := z.inflate(Tail(pkt, 13));
    && m.Some?
    && exists nodes: seq<byte> ::
         && TranslatedData(m.value.data, nodes, t, srv)
         && out == Fill(pkt, 2, 11) + z.deflate(nodes) + Tail(Tail(pkt, 13), m.value.used)
  }

  /** Nothing is sliced beyond the buffer of the inflated bytes, which has spare behind them. */
  predicate Roomy(z: Codec, pkt: seq<byte>, spare: seq<byte>) {
    z.inflate(Tail(pkt, 13)).Some? ==> |z.inflate(Tail(pkt, 13)).value.data| + |spare| >= 2 * NODE_COUNT
  }

  /** processBlockdata without its bookkeeping: a block that does not inflate is dropped. */
  method RewriteBlock(z: Codec, t: Table, srv: Server, pkt: seq<byte>, spare: seq<byte>) returns (out: Option<seq<byte>>)
    requires Roomy(z, pkt, spare)
    ensures out.None? <==> z.inflate(Tail(pkt, 13)).None?
    ensures out.Some? ==> Rewrites(z, t, srv, pkt, out.value)
  {
    var m := z.inflate(Tail(pkt, 13));
    if m.None? {
      return None;
    }
    var buf := m.value.data + spare;
    var nodes := new byte[|buf|](k requires 0 <= k < |buf| => buf[k]);
    assert nodes[..] == buf;
    TranslateNodes(nodes, t, srv);
    assert TranslatedData(m.value.data, nodes[..][..|m.value.data|], t, srv);
    assert nodes[..][..|m.value.data|] == nodes[..|m.value.data|];
    var recompNodes := z.deflate(nodes[..|m.value.data|]);
    var meta := Tail(Tail(pkt, 13), m.value.used);
    var blockMeta := Fill(pkt, 2, 11);
    out := Some(blockMeta + recompNodes + meta);
  }

  lemma ForwardedParses(z: Codec, cmd: seq<byte>, pkt: seq<byte>, nodes: seq<byte>, meta: seq<byte>)
    requires Lawful(z) && |cmd| == 2 && |pkt| >= 13
    ensures ParseBlock(z, cmd + (Fill(pkt, 2, 11) + z.deflate(nodes) + meta))
         == Some(Block(PosAt(Fill(pkt, 2, 6)), Fill(pkt, 8, 5), nodes, meta))
  {
    hide PosAt, Lawful;
    var body := z.deflate(nodes) + meta;
    var fwd := cmd + (Fill(pkt, 2, 11) + z.deflate(nodes) + meta);
    assert fwd == (cmd + pkt[2..13]) + body;
    assert Tail(fwd, 13) == body;
    assert Fill(fwd, 2, 6) == Fill(pkt, 2, 6);
    assert Fill(fwd, 8, 5) == Fill(pkt, 8, 5);
    InflatePrefix(z, nodes, meta);
    assert Tail(body, |z.deflate(nodes)|) == meta;
  }

  /** Of a block packet so written, the forwarded one is written the same way: with the same position, header and
      metadata, and with the translated nodes. */
  lemma ForwardedBytes(z: Codec, t: Table, srv: Server, b: Block, out: seq<byte>)
    requires Lawful(z) && |b.header| == 5 && Rewrites(z, t, srv, BlockBytes(z, b), out)
    ensures exists nodes: seq<byte> ::
              [0, 0x20] + out == BlockBytes(z, b.(nodes := nodes)) && TranslatedData(b.nodes, nodes, t, srv)
  {
    hide PosAt, PutPos, Lawful, BlockBytes, Fill, Tail, TranslatedData;
    var pkt := BlockBytes(z, b);
    BlockParts(z, b);
    InflatePrefix(z, b.nodes, b.meta);
    TailOf(z.deflate(b.nodes), b.meta);
    var nodes: seq<byte> :|
      && TranslatedData(b.nodes, nodes, t, srv)
      && out == Fill(pkt, 2, 11) + z.deflate(nodes) + b.meta;
    SameLayout(z, b.(nodes := nodes), out);
  }

  lemma SameLayout(z: Codec, b: Block, out: seq<byte>)
    requires out == PutPos(b.pos) + b.header + z.deflate(b.nodes) + b.meta
    ensures [0, 0x20] + out == BlockBytes(z, b)
  {
    hide PutPos;
  }

  /** The flagship: for every set of server managers merged in whatever order, and every block of any
      server, the client that was sent the merged manager reads at each of the 4096 positions what the
      server meant there, and finds position, header, param bytes and metadata untouched. */
  lemma BlocksKeepTheirMeaning(z: Codec, mgrs: map<Server, seq<byte>>, t: Table, blob: seq<byte>,
                               names: seq<Name>, es: seq<Entry>,
                               srv: Server, cmd: seq<byte>, pkt: seq<byte>, out: seq<byte>)
    requires Lawful(z) && GoodManagers(z, mgrs)
    requires Merges(z, mgrs, t, blob, names, es) && |names| <= 65533
    requires |cmd| == 2 && |pkt| >= 13 && Rewrites(z, t, srv, pkt, out)
    ensures ParseBlock(z, pkt).Some? && ParseBlock(z, cmd + out).Some?
    ensures var sent, read := ParseBlock(z, pkt).value, ParseBlock(z, cmd + out).value;
      && read.pos == sent.pos && read.header == sent.header && read.meta == sent.meta
      && |read.nodes| == |sent.nodes|
      && (forall k :: 2 * NODE_COUNT <= k < |sent.nodes| ==> read.nodes[k] == sent.nodes[k])
      && (forall p: nat :: p < NODE_COUNT && 2 * p + 1 < |sent.nodes| ==>
            ClientMeaning(z, blob, WordAt(read.nodes, p)) == ServerMeaning(z, mgrs, srv, WordAt(sent.nodes, p)))
  {
    hide Lawful, GoodManagers, Merges, ClientMeaning, ServerMeaning, LookupId, Tail, PosAt, Fill, WordAt;
    var m := z.inflate(Tail(pkt, 13)).value;
    var nodes: seq<byte> :|
      && TranslatedData(m.data, nodes, t, srv)
      && out == Fill(pkt, 2, 11) + z.deflate(nodes) + Tail(Tail(pkt, 13), m.used);
    ForwardedParses(z, cmd, pkt, nodes, Tail(Tail(pkt, 13), m.used));
    TranslatedPart(m.data, nodes, t, srv);
    forall p: nat | p < NODE_COUNT && 2 * p + 1 < |m.data|
      ensures ClientMeaning(z, blob, WordAt(nodes, p)) == ServerMeaning(z, mgrs, srv, WordAt(m.data, p))
    {
      TranslatedMeaning(z, mgrs, t, blob, names, es, srv, WordAt(m.data, p));
    }
  }

  lemma TranslatedPart(data: seq<byte>, nodes: seq<byte>, t: Table, srv: Server)
    requires TranslatedData(data, nodes, t, srv)
    ensures |nodes| == |data|
    ensures forall p: nat :: p < NODE_COUNT && 2 * p + 1 < |data| ==>
              WordAt(nodes, p) == TranslateId(t, srv, WordAt(data, p))
    ensures forall k :: 2 * NODE_COUNT <= k < |data| ==> nodes[k] == data[k]
  {
    hide LookupId;
    var spare: seq<byte>, all: seq<byte> :| Translated(data + spare, all, t, srv) && nodes == all[..|data|];
    forall p: nat | p < NODE_COUNT && 2 * p + 1 < |data|
      ensures WordAt(nodes, p) == TranslateId(t, srv, WordAt(data, p))
    {
      assert WordAt(all, p) == TranslateId(t, srv, WordAt(data + spare, p));
    }
  }

  lemma TranslatedMeaning(z: Codec, mgrs: map<Server, seq<byte>>, t: Table, blob: seq<byte>,
                          names: seq<Name>, es: seq<Entry>, srv: Server, id: u16)
    requires Lawful(z) && GoodManagers(z, mgrs)
    requires Merges(z, mgrs, t, blob, names, es) && |names| <= 65533
    ensures ClientMeaning(z, blob, TranslateId(t, srv, id)) == ServerMeaning(z, mgrs, srv, id)
  {
    hide Lawful, GoodManagers, Merges, LookupId, ParseManager;
    if !Reserved(id) {
      MergePreservesMeaning(z, mgrs, t, blob, names, es, srv, id);
    }
  }

  // ----- single nodes -----

  /** processAddnode: the id at bytes 8 and 9 of the packet is looked up without sparing the engine's ids. */
  method RewriteAddnode(t: Table, srv: Server, pkt: seq<byte>) returns (out: seq<byte>)
    requires |pkt| >= 10
    ensures out == pkt[2..8] + PutU16(LookupId(t, srv, U16At(pkt, 8))) + pkt[10..]
  {
    var newID := LookupId(t, srv, GetU16(Fill(pkt, 8, 2)));
    var body := pkt[2..];
    var data := new byte[|body|](k requires 0 <= k < |body| => body[k]);
    data[6], data[7] := newID / 0x100, newID % 0x100;
    assert data[..6] == pkt[2..8] && data[8..] == pkt[10..];
    assert data[..] == data[..6] + data[6..8] + data[8..];
    out := data[..];
  }

  /** No server defines one of the engine's ids. */
  ghost predicate EngineIdsSpared(z: Codec, mgrs: map<Server, seq<byte>>) {
    forall s, k :: s in Parsed(z, mgrs) && 0 <= k < |Parsed(z, mgrs)[s]| ==> !Reserved(Parsed(z, mgrs)[s][k].id)
  }

  lemma EngineIdsUndefined(z: Codec, mgrs: map<Server, seq<byte>>, t: Table, names: seq<Name>, srv: Server, id: u16)
    requires EngineIdsSpared(z, mgrs) && Multiplexes(t, Parsed(z, mgrs), names) && Reserved(id)
    ensures LookupId(t, srv, id) == CONTENT_UNKNOWN
  {
    hide Sound, ParseManager, EntryName, ResolvesEntry;
    assert srv in t && id in t[srv] ==> Defines(Parsed(z, mgrs)[srv], id);
  }

  /** A single node keeps its meaning exactly when it is neither air nor ignore: those two the client
      reads as unknown, unlike in a block. */
  lemma AddnodeMeaningIff(z: Codec, mgrs: map<Server, seq<byte>>, t: Table, blob: seq<byte>,
                          names: seq<Name>, es: seq<Entry>, srv: Server, id: u16)
    requires Lawful(z) && GoodManagers(z, mgrs)
    requires Merges(z, mgrs, t, blob, names, es) && |names| <= 65533 && EngineIdsSpared(z, mgrs)
    ensures ClientMeaning(z, blob, LookupId(t, srv, id)) == ServerMeaning(z, mgrs, srv, id)
       <==> id != CONTENT_AIR && id != CONTENT_IGNORE
  {
    hide Lawful, GoodManagers, LookupId, ParseManager, Multiplexes, Publishes;
    if Reserved(id) {
      EngineIdsUndefined(z, mgrs, t, names, srv, id);
    } else {
      MergePreservesMeaning(z, mgrs, t, blob, names, es, srv, id);
    }
  }
}
