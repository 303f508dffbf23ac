/** Media delivery (media.go): sendMedia bunches the requested files into packets, fetchMedia takes such
    packets apart; the proxy is the receiver towards its servers and the sender towards its clients. */
module Media {
  import opened Wire

  const BYTES_PER_BUNCH := 5000

  datatype File = File(digest: seq<byte>, data: seq<byte>)
  type Store = map<Name, File>

  // ----- bunching -----

  ghost predicate Known(store: Store, names: seq<Name>) {
    forall k :: 0 <= k < |names| ==> names[k] in store
  }

  /** The bytes of some files together. */
  ghost function Size(store: Store, names: seq<Name>): nat
    requires Known(store, names)
  {
    if names == [] then 0 else Size(store, names[..|names| - 1]) + |store[names[|names| - 1]].data|
  }

  /** The requests of each bunch: a new bunch is begun as soon as the last one is full. */
  ghost function Groups(store: Store, rq: seq<Name>): (gs: seq<seq<Name>>)
    requires Known(store, rq)
    ensures gs != [] && forall i :: 0 <= i < |gs| ==> Known(store, gs[i])
  {
    if rq == [] then [[]]
    else
      var gs := Groups(store, rq[..|rq| - 1]);
      var g := gs[|gs| - 1] + [rq[|rq| - 1]];
      gs[..|gs| - 1] + [g] + if Size(store, g) >= BYTES_PER_BUNCH then [[]] else []
  }

  function Flat(gs: seq<seq<Name>>): seq<Name> {
    if gs == [] then [] else Flat(gs[..|gs| - 1]) + gs[|gs| - 1]
  }

  /** A full bunch: it reached the limit with its last file. */
  ghost predicate Full(store: Store, g: seq<Name>) {
    && Known(store, g) && g != []
    && Size(store, g) >= 5000
    && Size(store, g[..|g| - 1]) < 5000
  }

  lemma FlatAppend(gs: seq<seq<Name>>, g: seq<Name>)
    ensures Flat(gs + [g]) == Flat(gs) + g
  {
    assert (gs + [g])[..|gs|] == gs;
  }

  lemma GroupsMore(store: Store, rq: seq<Name>, f: Name)
    requires Known(store, rq) && f in store
    ensures Known(store, rq + [f])
    ensures var gs := Groups(store, rq);
      var g := gs[|gs| - 1] + [f];
      && Known(store, g)
      && Groups(store, rq + [f])
         == gs[..|gs| - 1] + [g] + if Size(store, g) >= BYTES_PER_BUNCH then [[]] else []
  {
    assert (rq + [f])[..|rq|] == rq;
  }

  /** full, then last, are the bunches of rq. */
  ghost predicate Bunched(store: Store, full: seq<seq<Name>>, last: seq<Name>, rq: seq<Name>) {
    && Flat(full) + last == rq
    && (forall i :: 0 <= i < |full| ==> Full(store, full[i]))
    && Known(store, last) && Size(store, last) < BYTES_PER_BUNCH
    && |full| <= |rq|
  }

  lemma BunchedMore(store: Store, full: seq<seq<Name>>, last: seq<Name>, rq: seq<Name>, f: Name)
    requires Bunched(store, full, last, rq) && f in store
    ensures var g := last + [f];
      && Known(store, g)
      && if Size(store, g) >= BYTES_PER_BUNCH then Bunched(store, full + [g], [], rq + [f])
         else Bunched(store, full, g, rq + [f])
  {
    var g := last + [f];
    assert g[..|g| - 1] == last;
    FlatAppend(full, g);
    assert Flat(full) + g == rq + [f];
    assert Flat(full + [g]) + [] == rq + [f];
  }

  lemma {:induction false} GroupsBunched(store: Store, rq: seq<Name>)
    requires Known(store, rq)
    ensures var gs := Groups(store, rq); Bunched(store, gs[..|gs| - 1], gs[|gs| - 1], rq)
  {
    hide Bunched, Size, Full;
    if rq == [] {
      NothingBunched(store);
      assert Groups(store, rq)[..0] == [];
    } else {
      var front, f := rq[..|rq| - 1], rq[|rq| - 1];
      assert rq == front + [f];
      GroupsBunched(store, front);
      var gs := Groups(store, front);
      BunchedMore(store, gs[..|gs| - 1], gs[|gs| - 1], front, f);
      GroupsMore(store, front, f);
      var g, all := gs[|gs| - 1] + [f], Groups(store, rq);
      if Size(store, g) >= BYTES_PER_BUNCH {
        assert all[..|all| - 1] == gs[..|gs| - 1] + [g];
      } else {
        assert all[..|all| - 1] == gs[..|gs| - 1];
      }
    }
  }

  lemma NothingBunched(store: Store)
    ensures Bunched(store, [], [], [])
  {
  }

  /** The bunches cut the request list into consecutive pieces, every one but the last is full, the last is
      not, and there is at most one bunch more than there are requests. */
  lemma BunchingIsExact(store: Store, rq: seq<Name>)
    requires Known(store, rq)
    ensures var gs := Groups(store, rq);
      && Flat(gs) == rq
      && (forall i :: 0 <= i < |gs| - 1 ==> Full(store, gs[i]))
      && Size(store, gs[|gs| - 1]) < 5000
      && |gs| <= |rq| + 1
  {
    hide Full;
    var gs := Groups(store, rq);
    GroupsBunched(store, rq);
    assert gs == gs[..|gs| - 1] + [gs[|gs| - 1]];
    FlatAppend(gs[..|gs| - 1], gs[|gs| - 1]);
    forall i | 0 <= i < |gs| - 1 ensures Full(store, gs[i]) {
      assert gs[i] == gs[..|gs| - 1][i];
    }
  }

  lemma {:induction false} SizeConcat(store: Store, a: seq<Name>, b: seq<Name>)
    requires Known(store, a) && Known(store, b)
    ensures Known(store, a + b) && Size(store, a + b) == Size(store, a) + Size(store, b)
  {
    if b == [] {
      assert a + b == a;
    } else {
      SizeConcat(store, a, b[..|b| - 1]);
      assert (a + b)[..|a + b| - 1] == a + b[..|b| - 1];
    }
  }

  lemma {:induction false} FullBunchesAreLarge(store: Store, gs: seq<seq<Name>>)
    requires forall i :: 0 <= i < |gs| ==> Full(store, gs[i])
    ensures Known(store, Flat(gs)) && |gs| * 5000 <= Size(store, Flat(gs))
  {
    if gs != [] {
      var front := gs[..|gs| - 1];
      assert forall i :: 0 <= i < |front| ==> front[i] == gs[i];
      FullBunchesAreLarge(store, front);
      SizeConcat(store, Flat(front), gs[|gs| - 1]);
    }
  }

  /** The number of bunches is bounded by the bytes asked for. */
  lemma BunchCountBound(store: Store, rq: seq<Name>)
    requires Known(store, rq)
    ensures (|Groups(store, rq)| - 1) * 5000 <= Size(store, rq)
  {
    hide Groups, Size, Flat;
    var gs := Groups(store, rq);
    BunchingIsExact(store, rq);
    var full, last := gs[..|gs| - 1], gs[|gs| - 1];
    assert gs == full + [last];
    FlatAppend(full, last);
    FullBunchesAreLarge(store, full);
    SizeConcat(store, Flat(full), last);
  }

  // ----- the packets -----

  datatype Entry = Entry(name: Name, data: seq<byte>)

  function EncodeEntry(e: Entry): seq<byte> {
    PutBytes16(e.name) + PutBytes32(e.data)
  }

  function EncodeEntries(es: seq<Entry>): seq<byte> {
    if es == [] then [] else EncodeEntries(es[..|es| - 1]) + EncodeEntry(es[|es| - 1])
  }

  /** A MEDIA packet: number of bunches, number of this bunch, number of files, the files. */
  function EncodePacket(count: nat, id: nat, es: seq<Entry>): seq<byte> {
    [0, 0x38] + (PutU16(count % 0x1_0000) + (PutU16(id % 0x1_0000)
      + (PutU32(|es| % 0x1_0000_0000) + EncodeEntries(es))))
  }

  function EntryEnd(d: seq<byte>, pos: nat): nat {
    Bytes32End(d, Bytes16End(d, pos))
  }

  function EntryAt(d: seq<byte>, pos: nat): Entry {
    Entry(Bytes16At(d, pos), Bytes32At(d, Bytes16End(d, pos)))
  }

  function EntriesEnd(d: seq<byte>, pos: nat, n: nat): nat {
    if n == 0 then pos else EntryEnd(d, EntriesEnd(d, pos, n - 1))
  }

  function ParseEntries(d: seq<byte>, pos: nat, n: nat): (es: seq<Entry>)
    ensures |es| == n
  {
    if n == 0 then [] else ParseEntries(d, pos, n - 1) + [EntryAt(d, EntriesEnd(d, pos, n - 1))]
  }

  ghost predicate Fits(es: seq<Entry>) {
    && |es| < 0x1_0000_0000
    && forall k :: 0 <= k < |es| ==> |es[k].name| < 0x1_0000 && |es[k].data| < 0x1_0000_0000
  }

  lemma {:induction false} ParseEncodedEntries(d: seq<byte>, pos: nat, es: seq<Entry>)
    requires Fits(es) && At(d, pos, EncodeEntries(es))
    ensures ParseEntries(d, pos, |es|) == es && EntriesEnd(d, pos, |es|) == pos + |EncodeEntries(es)|
  {
    hide EntryAt, EntryEnd, EncodeEntry;
    if es != [] {
      var front, last := es[..|es| - 1], es[|es| - 1];
      AtSplit(d, pos, EncodeEntries(front), EncodeEntry(last));
      ParseEncodedEntries(d, pos, front);
      ParseEncodedEntry(d, pos + |EncodeEntries(front)|, last);
    }
  }

  lemma ParseEncodedEntry(d: seq<byte>, pos: nat, e: Entry)
    requires |e.name| < 0x1_0000 && |e.data| < 0x1_0000_0000 && At(d, pos, EncodeEntry(e))
    ensures EntryAt(d, pos) == e && EntryEnd(d, pos) == pos + |EncodeEntry(e)|
  {
    hide Bytes16At, Bytes16End, Bytes32At, Bytes32End;
    AtSplit(d, pos, PutBytes16(e.name), PutBytes32(e.data));
    ReadBackBytes16(d, pos, e.name);
    ReadBackBytes32(d, pos + 2 + |e.name|, e.data);
  }

  // ----- the receiver -----

  /** A file is filled in once: only where it was announced and is still empty. */
  function Deliver1(store: Store, e: Entry): Store {
    if e.name in store && store[e.name].data == [] then store[e.name := store[e.name].(data := e.data)] else store
  }

  function Deliver(store: Store, es: seq<Entry>): Store {
    if es == [] then store else Deliver1(Deliver(store, es[..|es| - 1]), es[|es| - 1])
  }

  /** `bunchID >= bunchCount-1` on 16-bit numbers. */
  predicate Stops(count: u16, id: u16) {
    id >= if count == 0 then 0xFFFF else count - 1
  }

  /** The cursor behind the number of bunches, the number of this bunch, and the number of files. */
  function Head(pkt: seq<byte>, fields: nat): nat
    requires fields <= 3
  {
    if fields == 0 then 2
    else if fields == 3 then Next(pkt, Head(pkt, 2), 4)
    else Next(pkt, Head(pkt, fields - 1), 2)
  }

  function PacketEntries(pkt: seq<byte>): seq<Entry> {
    ParseEntries(pkt, Head(pkt, 3), U32At(pkt, Head(pkt, 2)))
  }

  predicate PacketStops(pkt: seq<byte>) {
    Stops(U16At(pkt, Head(pkt, 0)), U16At(pkt, Head(pkt, 1)))
  }

  lemma PacketRoundTrip(count: nat, id: nat, es: seq<Entry>)
    requires Fits(es)
    ensures PacketEntries(EncodePacket(count, id, es)) == es
    ensures PacketStops(EncodePacket(count, id, es)) == Stops(count % 0x1_0000, id % 0x1_0000)
  {
    hide EncodeEntries, ParseEntries, PutU16, PutU32, U16At, U32At, Stops, Next;
    var d := EncodePacket(count, id, es);
    var c, i, n := PutU16(count % 0x1_0000), PutU16(id % 0x1_0000), PutU32(|es| % 0x1_0000_0000);
    assert At(d, 0, d);
    AtSplit(d, 0, [0, 0x38], c + (i + (n + EncodeEntries(es))));
    AtSplit(d, 2, c, i + (n + EncodeEntries(es)));
    AtSplit(d, 4, i, n + EncodeEntries(es));
    AtSplit(d, 6, n, EncodeEntries(es));
    ReadBackU16(d, 2, count % 0x1_0000);
    ReadBackU16(d, 4, id % 0x1_0000);
    ReadBackU32(d, 6, |es| % 0x1_0000_0000);
    ParseEncodedEntries(d, 10, es);
    assert Head(d, 0) == 2 && Head(d, 1) == 4 && Head(d, 2) == 6 && Head(d, 3) == 10;
  }

  lemma ParseEntriesMore(d: seq<byte>, pos: nat, i: nat)
    ensures ParseEntries(d, pos, i + 1) == ParseEntries(d, pos, i) + [EntryAt(d, EntriesEnd(d, pos, i))]
    ensures EntriesEnd(d, pos, i + 1) == EntryEnd(d, EntriesEnd(d, pos, i))
  {
    hide EntryAt, EntryEnd;
  }

  lemma DeliverMore(store: Store, es: seq<Entry>, e: Entry)
    ensures Deliver(store, es + [e]) == Deliver1(Deliver(store, es), e)
  {
    hide Deliver1;
    assert (es + [e])[..|es|] == es;
  }

  // ----- the counts -----

  /** With 16-bit counters the receiver stops exactly at the last of n bunches as long as n does not
      exceed 65536; the wrap to 0 at 65536 is harmless. */
  lemma StopsAtLastIff(n: nat)
    requires n >= 1
    ensures (forall i: nat :: i < n ==> (Stops(n % 0x1_0000, i % 0x1_0000) <==> i == n - 1)) <==> n <= 0x1_0000
  {
    if n <= 0x1_0000 {
      forall i: nat | i < n ensures Stops(n % 0x1_0000, i % 0x1_0000) <==> i == n - 1 {
        SmallMod(i);
        if n == 0x1_0000 {
          WholeMod();
        } else {
          SmallMod(n);
        }
      }
    } else {
      var i: nat := if n % 0x1_0000 == 0 then 0xFFFF else n % 0x1_0000 - 1;
      SmallMod(i);
      assert Stops(n % 0x1_0000, i % 0x1_0000);
    }
  }

  lemma SmallMod(i: nat)
    ensures i < 0x1_0000 ==> i % 0x1_0000 == i
  {
  }

  lemma WholeMod()
    ensures 0x1_0000 % 0x1_0000 == 0
  {
  }

  // ----- the sender -----

  type Bunch = map<Name, seq<byte>>

  ghost function BunchOf(store: Store, g: seq<Name>): Bunch
    requires Known(store, g)
  {
    map f | f in g :: store[f].data
  }

  ghost predicate BunchesOf(store: Store, bunches: seq<Bunch>, gs: seq<seq<Name>>) {
    |bunches| == |gs| && forall i :: 0 <= i < |gs| ==> Known(store, gs[i]) && bunches[i] == BunchOf(store, gs[i])
  }

  /** The files of a bunch in the order of a map iteration. */
  ghost predicate Lists(es: seq<Entry>, bunch: Bunch) {
    && (forall k :: 0 <= k < |es| ==> es[k].name in bunch && bunch[es[k].name] == es[k].data)
    && (forall n :: n in bunch ==> Entry(n, bunch[n]) in es)
    && |es| == |bunch|
  }

  method MakeBunches(store: Store, rq: seq<Name>) returns (bunches: seq<Bunch>)
    requires Known(store, rq)
    ensures BunchesOf(store, bunches, Groups(store, rq))
  {
    hide Groups, Known, BunchesOf, BunchOf, Size;
    bunches := [map[]];
    var bunchlen := 0;
    KnownPrefix(store, rq, 0);
    FirstBunch(store);
    for i := 0 to |rq|
      invariant Known(store, rq[..i]) && BunchesOf(store, bunches, Groups(store, rq[..i]))
      invariant |bunches| == |Groups(store, rq[..i])|
      invariant bunchlen == Size(store, Groups(store, rq[..i])[|bunches| - 1])
    {
      var f := rq[i];
      KnownPrefix(store, rq, i);
      assert rq[..i + 1] == rq[..i] + [f];
      GroupsMore(store, rq[..i], f);
      ghost var gs := Groups(store, rq[..i]);
      BunchesGrow(store, bunches, gs, f);
      var last := bunches[|bunches| - 1];
      bunches := bunches[|bunches| - 1 := last[f := store[f].data]];
      bunchlen := bunchlen + |store[f].data|;
      if bunchlen >= BYTES_PER_BUNCH {
        bunches := bunches + [map[]];
        bunchlen := 0;
      }
    }
    assert rq[..|rq|] == rq;
  }

  lemma FirstBunch(store: Store)
    ensures BunchesOf(store, [map[]], [[]]) && Size(store, []) == 0
  {
  }

  /** One file more in the last bunch, and possibly an empty bunch after it. */
  lemma BunchesGrow(store: Store, bunches: seq<Bunch>, gs: seq<seq<Name>>, f: Name)
    requires BunchesOf(store, bunches, gs) && gs != [] && f in store && Known(store, gs[|gs| - 1] + [f])
    ensures |bunches| == |gs|
    ensures var n := |gs| - 1;
      var g, b := gs[n] + [f], bunches[n][f := store[f].data];
      && BunchesOf(store, bunches[n := b], gs[..n] + [g] + [])
      && BunchesOf(store, bunches[n := b] + [map[]], gs[..n] + [g] + [[]])
      && Size(store, gs[n]) + |store[f].data| == Size(store, g) && Size(store, []) == 0
  {
    BunchGrows(store, gs[|gs| - 1], f);
    FirstBunch(store);
  }

  lemma KnownPrefix(store: Store, rq: seq<Name>, i: nat)
    requires Known(store, rq) && i <= |rq|
    ensures Known(store, rq[..i]) && (i < |rq| ==> rq[i] in store && Known(store, rq[..i + 1]))
    ensures Known(store, []) && Groups(store, []) == [[]]
    ensures Known(store, []) && BunchOf(store, []) == map[] && Size(store, []) == 0
  {
  }

  lemma BunchGrows(store: Store, g: seq<Name>, f: Name)
    requires Known(store, g) && f in store && Known(store, g + [f])
    ensures BunchOf(store, g + [f]) == BunchOf(store, g)[f := store[f].data]
    ensures Size(store, g + [f]) == Size(store, g) + |store[f].data|
  {
    assert (g + [f])[..|g|] == g;
  }

  /** The packet of a bunch, whatever order its files are in. */
  ghost predicate IsPacket(bunch: Bunch, count: nat, id: nat, pkt: seq<byte>) {
    exists es: seq<Entry> :: Lists(es, bunch) && pkt == EncodePacket(count, id, es)
  }

  method BunchPacket(bunch: Bunch, count: nat, id: nat) returns (pkt: seq<byte>)
    ensures IsPacket(bunch, count, id, pkt)
  {
    hide PutU16, PutU32, PutBytes16, PutBytes32;
    var files: seq<byte> := [];
    ghost var es: seq<Entry> := [];
    var rest := bunch.Keys;
    while rest != {}
      invariant rest <= bunch.Keys && files == EncodeEntries(es) && |es| + |rest| == |bunch|
      invariant forall k :: 0 <= k < |es| ==> es[k].name in bunch && bunch[es[k].name] == es[k].data
      invariant forall n :: n in bunch && n !in rest ==> Entry(n, bunch[n]) in es
    {
      var f :| f in rest;
      ghost var e := Entry(f, bunch[f]);
      assert (es + [e])[..|es|] == es;
      files := files + (PutBytes16(f) + PutBytes32(bunch[f]));
      es := es + [e];
      rest := rest - {f};
    }
    pkt := [0, 0x38] + (PutU16(count % 0x1_0000) + (PutU16(id % 0x1_0000)
      + (PutU32(|bunch| % 0x1_0000_0000) + files)));
    assert Lists(es, bunch) && pkt == EncodePacket(count, id, es);
  }

  /** The packets of a request list, one per bunch, in order. */
  ghost predicate PacketsOf(store: Store, rq: seq<Name>, pkts: seq<seq<byte>>)
    requires Known(store, rq)
  {
    var gs := Groups(store, rq);
    && |pkts| == |gs|
    && forall i :: 0 <= i < |gs| ==> IsPacket(BunchOf(store, gs[i]), |gs|, i, pkts[i])
  }

  /** sendMedia on a parsed request. A request for a file the proxy does not have crashes it: the caller
      must only ask for known ones. */
  method SendMedia(store: Store, rq: seq<Name>) returns (pkts: seq<seq<byte>>)
    requires Known(store, rq)
    ensures PacketsOf(store, rq, pkts)
  {
    hide Groups, Known, IsPacket;
    var bunches := MakeBunches(store, rq);
    pkts := [];
    for i := 0 to |bunches|
      invariant |pkts| == i
      invariant forall j :: 0 <= j < i ==> IsPacket(bunches[j], |bunches|, j, pkts[j])
    {
      var pkt := BunchPacket(bunches[i], |bunches|, i);
      pkts := pkts + [pkt];
    }
  }

  // ----- requests -----

  function NamesEnd(d: seq<byte>, pos: nat, n: nat): nat {
    if n == 0 then pos else Bytes16End(d, NamesEnd(d, pos, n - 1))
  }

  function ParseNames(d: seq<byte>, pos: nat, n: nat): (ns: seq<Name>)
    ensures |ns| == n
  {
    if n == 0 then [] else ParseNames(d, pos, n - 1) + [Bytes16At(d, NamesEnd(d, pos, n - 1))]
  }

  /** The names of a request packet: at most 65535 of them. */
  function ParseRequest(pkt: seq<byte>): (ns: seq<Name>)
    ensures |ns| < 0x1_0000
  {
    ParseNames(pkt, Next(pkt, 2, 2), U16At(pkt, 2))
  }

  method ReadRequest(pkt: seq<byte>) returns (rq: seq<Name>)
    ensures rq == ParseRequest(pkt)
  {
    hide Bytes16At, Bytes16End, U16At, Next;
    var r := new Reader(pkt);
    r.Seek(2);
    var count := r.ReadUint16();
    ghost var start := r.pos;
    rq := [];
    var i: nat := 0;
    while i < count
      invariant i <= count && r.data == pkt && fresh(r)
      invariant r.pos == NamesEnd(pkt, start, i) && rq == ParseNames(pkt, start, i)
    {
      var name := r.ReadBytes16();
      rq := rq + [name];
      i := i + 1;
    }
  }

  function EncodeNames(ns: seq<Name>): seq<byte> {
    if ns == [] then [] else EncodeNames(ns[..|ns| - 1]) + PutBytes16(ns[|ns| - 1])
  }

  function EncodeRequest(ns: seq<Name>): seq<byte> {
    [0, 0x40] + (PutU16(|ns| % 0x1_0000) + EncodeNames(ns))
  }

  ghost predicate ShortNames(ns: seq<Name>) {
    forall k :: 0 <= k < |ns| ==> |ns[k]| < 0x1_0000
  }

  lemma {:induction false} ParseEncodedNames(d: seq<byte>, pos: nat, ns: seq<Name>)
    requires ShortNames(ns) && At(d, pos, EncodeNames(ns))
    ensures ParseNames(d, pos, |ns|) == ns && NamesEnd(d, pos, |ns|) == pos + |EncodeNames(ns)|
  {
    hide Bytes16At, Bytes16End, PutU16;
    if ns != [] {
      var front, last := ns[..|ns| - 1], ns[|ns| - 1];
      AtSplit(d, pos, EncodeNames(front), PutBytes16(last));
      ParseEncodedNames(d, pos, front);
      ReadBackBytes16(d, pos + |EncodeNames(front)|, last);
    }
  }

  lemma RequestRoundTrip(ns: seq<Name>)
    requires ShortNames(ns) && |ns| < 0x1_0000
    ensures ParseRequest(EncodeRequest(ns)) == ns
  {
    hide ParseNames, EncodeNames, PutU16, U16At, Next;
    var d := EncodeRequest(ns);
    assert At(d, 0, d);
    AtSplit(d, 0, [0, 0x40], PutU16(|ns|) + EncodeNames(ns));
    AtSplit(d, 2, PutU16(|ns|), EncodeNames(ns));
    ReadBackU16(d, 2, |ns|);
    ParseEncodedNames(d, 4, ns);
  }

  // ----- the receiver's two packet handlers -----

  datatype Announced = Announced(name: Name, digest: seq<byte>)
  datatype Requested = Requested(store: Store, rq: seq<Name>)

  function Announce1(r: Requested, a: Announced, cached: Announced -> bool): Requested {
    if a.name !in r.store && !cached(a) then
      Requested(r.store[a.name := File(a.digest, [])], r.rq + [a.name])
    else r
  }

  function AnnounceAll(store: Store, ann: seq<Announced>, cached: Announced -> bool): Requested {
    if ann == [] then Requested(store, [])
    else Announce1(AnnounceAll(store, ann[..|ann| - 1], cached), ann[|ann| - 1], cached)
  }

  function AnnEnd(d: seq<byte>, pos: nat, n: nat): nat {
    if n == 0 then pos else Bytes16End(d, Bytes16End(d, AnnEnd(d, pos, n - 1)))
  }

  function AnnAt(d: seq<byte>, pos: nat): Announced {
    Announced(Bytes16At(d, pos), Bytes16At(d, Bytes16End(d, pos)))
  }

  function ParseAnns(d: seq<byte>, pos: nat, n: nat): (ann: seq<Announced>)
    ensures |ann| == n
  {
    if n == 0 then [] else ParseAnns(d, pos, n - 1) + [AnnAt(d, AnnEnd(d, pos, n - 1))]
  }

  /** The names and digests of an announcement, for any bytes. */
  function ParseAnnouncement(pkt: seq<byte>): (ann: seq<Announced>)
    ensures |ann| < 0x1_0000
  {
    ParseAnns(pkt, Next(pkt, 2, 2), U16At(pkt, 2))
  }

  /** The AnnounceMedia case of fetchMedia: the store is extended and a request packet is sent. */
  method HandleAnnounce(store0: Store, pkt: seq<byte>, cached: Announced -> bool)
    returns (store: Store, request: seq<byte>)
    ensures store == AnnounceAll(store0, ParseAnnouncement(pkt), cached).store
    ensures request == EncodeRequest(AnnounceAll(store0, ParseAnnouncement(pkt), cached).rq)
  {
    hide Bytes16At, Bytes16End, U16At, Next, PutU16, AnnounceAll, ParseAnns, AnnEnd, EncodeNames;
    var r := new Reader(pkt);
    r.Seek(2);
    var count := r.ReadUint16();
    ghost var start := r.pos;
    var rq: seq<Name> := [];
    NothingAnnounced(store0, pkt, start, cached);
    store := store0;
    var i: nat := 0;
    while i < count
      invariant i <= count && r.data == pkt && fresh(r) && r.pos == AnnEnd(pkt, start, i)
      invariant Requested(store, rq) == AnnounceAll(store0, ParseAnns(pkt, start, i), cached)
    {
      ParseAnnsMore(pkt, start, i);
      AnnounceMore(store0, ParseAnns(pkt, start, i), AnnAt(pkt, AnnEnd(pkt, start, i)), cached);
      var name := r.ReadBytes16();
      var digest := r.ReadBytes16();
      if name !in store && !cached(Announced(name, digest)) {
        rq := rq + [name];
        store := store[name := File(digest, [])];
      }
      i := i + 1;
    }
    var body := WriteNames(rq);
    request := [0, 0x40] + (PutU16(|rq| % 0x1_0000) + body);
  }

  lemma NothingAnnounced(store: Store, d: seq<byte>, pos: nat, cached: Announced -> bool)
    ensures AnnEnd(d, pos, 0) == pos && AnnounceAll(store, ParseAnns(d, pos, 0), cached) == Requested(store, [])
  {
  }

  lemma ParseAnnsMore(d: seq<byte>, pos: nat, n: nat)
    ensures ParseAnns(d, pos, n + 1) == ParseAnns(d, pos, n) + [AnnAt(d, AnnEnd(d, pos, n))]
    ensures AnnEnd(d, pos, n + 1) == Bytes16End(d, Bytes16End(d, AnnEnd(d, pos, n)))
  {
    hide AnnAt, Bytes16End;
  }

  lemma AnnounceMore(store: Store, ann: seq<Announced>, a: Announced, cached: Announced -> bool)
    ensures AnnounceAll(store, ann + [a], cached) == Announce1(AnnounceAll(store, ann, cached), a, cached)
  {
    assert (ann + [a])[..|ann|] == ann;
  }

  // ----- the announcement that announceMedia writes -----

  function EncodeAnn(a: Announced): seq<byte> {
    PutBytes16(a.name) + PutBytes16(a.digest)
  }

  function EncodeAnns(ann: seq<Announced>): seq<byte> {
    if ann == [] then [] else EncodeAnns(ann[..|ann| - 1]) + EncodeAnn(ann[|ann| - 1])
  }

  /** Number of files, name and digest of each, the address of the remote media server. */
  function EncodeAnnouncement(ann: seq<Announced>, remote: seq<byte>): seq<byte> {
    [0, 0x3C] + (PutU16(|ann| % 0x1_0000) + (EncodeAnns(ann) + PutBytes16(remote)))
  }

  /** Every file once, with its digest, in the order of a map iteration. */
  ghost predicate Offers(ann: seq<Announced>, media: Store) {
    && (forall k :: 0 <= k < |ann| ==> ann[k].name in media && media[ann[k].name].digest == ann[k].digest)
    && (forall n :: n in media ==> Announced(n, media[n].digest) in ann)
    && |ann| == |media|
  }

  ghost predicate IsAnnouncement(media: Store, remote: seq<byte>, pkt: seq<byte>) {
    exists ann: seq<Announced> :: Offers(ann, media) && pkt == EncodeAnnouncement(ann, remote)
  }

  method AnnounceMedia(media: Store, remote: seq<byte>) returns (pkt: seq<byte>)
    ensures IsAnnouncement(media, remote, pkt)
  {
    hide PutU16, PutBytes16;
    var files: seq<byte> := [];
    ghost var ann: seq<Announced> := [];
    var rest := media.Keys;
    while rest != {}
      invariant rest <= media.Keys && files == EncodeAnns(ann) && |ann| + |rest| == |media|
      invariant forall k :: 0 <= k < |ann| ==> ann[k].name in media && media[ann[k].name].digest == ann[k].digest
      invariant forall n :: n in media && n !in rest ==> Announced(n, media[n].digest) in ann
    {
      var f :| f in rest;
      ghost var a := Announced(f, media[f].digest);
      assert (ann + [a])[..|ann|] == ann;
      files := files + (PutBytes16(f) + PutBytes16(media[f].digest));
      ann := ann + [a];
      rest := rest - {f};
    }
    pkt := [0, 0x3C] + (PutU16(|media| % 0x1_0000) + (files + PutBytes16(remote)));
    assert Offers(ann, media) && pkt == EncodeAnnouncement(ann, remote);
  }

  ghost predicate AnnsFit(ann: seq<Announced>) {
    forall k :: 0 <= k < |ann| ==> |ann[k].name| < 0x1_0000 && |ann[k].digest| < 0x1_0000
  }

  lemma ParseEncodedAnn(d: seq<byte>, pos: nat, a: Announced)
    requires |a.name| < 0x1_0000 && |a.digest| < 0x1_0000 && At(d, pos, EncodeAnn(a))
    ensures AnnAt(d, pos) == a && Bytes16End(d, Bytes16End(d, pos)) == pos + |EncodeAnn(a)|
  {
    hide Bytes16At, Bytes16End;
    AtSplit(d, pos, PutBytes16(a.name), PutBytes16(a.digest));
    ReadBackBytes16(d, pos, a.name);
    ReadBackBytes16(d, pos + 2 + |a.name|, a.digest);
  }

  lemma {:induction false} ParseEncodedAnns(d: seq<byte>, pos: nat, ann: seq<Announced>)
    requires AnnsFit(ann) && At(d, pos, EncodeAnns(ann))
    ensures ParseAnns(d, pos, |ann|) == ann && AnnEnd(d, pos, |ann|) == pos + |EncodeAnns(ann)|
  {
    hide AnnAt, Bytes16End, EncodeAnn;
    if ann != [] {
      var front, last := ann[..|ann| - 1], ann[|ann| - 1];
      AtSplit(d, pos, EncodeAnns(front), EncodeAnn(last));
      ParseEncodedAnns(d, pos, front);
      ParseEncodedAnn(d, pos + |EncodeAnns(front)|, last);
    }
  }

  /** The receiver reads the names and digests that were announced. */
  lemma AnnouncementRoundTrip(ann: seq<Announced>, remote: seq<byte>)
    requires AnnsFit(ann) && |ann| < 0x1_0000
    ensures ParseAnnouncement(EncodeAnnouncement(ann, remote)) == ann
  {
    hide ParseAnns, EncodeAnns, PutU16, U16At, Next, PutBytes16;
    var d := EncodeAnnouncement(ann, remote);
    AtWhole(d);
    AtSplit(d, 0, [0, 0x3C], PutU16(|ann|) + (EncodeAnns(ann) + PutBytes16(remote)));
    AtSplit(d, 2, PutU16(|ann|), EncodeAnns(ann) + PutBytes16(remote));
    AtSplit(d, 4, EncodeAnns(ann), PutBytes16(remote));
    ReadBackU16(d, 2, |ann|);
    ParseEncodedAnns(d, 4, ann);
  }

  method WriteNames(ns: seq<Name>) returns (w: seq<byte>)
    ensures w == EncodeNames(ns)
  {
    hide PutBytes16;
    w := [];
    for f := 0 to |ns|
      invariant w == EncodeNames(ns[..f])
    {
      assert ns[..f + 1][..f] == ns[..f];
      w := w + PutBytes16(ns[f]);
    }
    assert ns[..|ns|] == ns;
  }

  lemma {:induction false} RequestFits(store: Store, ann: seq<Announced>, cached: Announced -> bool)
    requires forall k :: 0 <= k < |ann| ==> |ann[k].name| < 0x1_0000
    ensures ShortNames(AnnounceAll(store, ann, cached).rq) && |AnnounceAll(store, ann, cached).rq| <= |ann|
  {
    if ann != [] {
      var front := ann[..|ann| - 1];
      assert forall k :: 0 <= k < |front| ==> front[k] == ann[k];
      RequestFits(store, front, cached);
    }
  }

  lemma {:induction false} AnnouncedFit(d: seq<byte>, pos: nat, n: nat)
    ensures forall k :: 0 <= k < n ==> |ParseAnns(d, pos, n)[k].name| < 0x1_0000
  {
    hide AnnEnd, Bytes16End;
    if n > 0 {
      AnnouncedFit(d, pos, n - 1);
    }
  }

  /** Whatever the announcement was, the server reads in the request packet exactly the names that the
      receiver wants. */
  lemma RequestReaches(store: Store, pkt: seq<byte>, cached: Announced -> bool)
    ensures ParseRequest(EncodeRequest(AnnounceAll(store, ParseAnnouncement(pkt), cached).rq))
         == AnnounceAll(store, ParseAnnouncement(pkt), cached).rq
  {
    hide ParseAnns, ParseRequest, EncodeRequest, U16At, Next;
    AnnouncedFit(pkt, Next(pkt, 2, 2), U16At(pkt, 2));
    RequestFits(store, ParseAnnouncement(pkt), cached);
    RequestRoundTrip(AnnounceAll(store, ParseAnnouncement(pkt), cached).rq);
  }

  /** Requested are exactly the files the receiver has neither in its store nor in its cache; each is
      asked for once and entered empty, and nothing else changes. */
  lemma {:induction false} RequestsAreMissing(store: Store, ann: seq<Announced>, cached: Announced -> bool)
    ensures var r := AnnounceAll(store, ann, cached);
      && (forall n :: n in r.rq <==> n !in store && exists k :: 0 <= k < |ann| && ann[k].name == n && !cached(ann[k]))
      && (forall j, k :: 0 <= j < k < |r.rq| ==> r.rq[j] != r.rq[k])
      && (forall n :: n in r.store <==> n in store || n in r.rq)
      && (forall n :: n in r.rq ==> r.store[n].data == [])
      && (forall n :: n in store ==> r.store[n] == store[n])
  {
    if ann != [] {
      var front, a := ann[..|ann| - 1], ann[|ann| - 1];
      RequestsAreMissing(store, front, cached);
      assert forall k :: 0 <= k < |front| ==> front[k] == ann[k];
    }
  }

  /** The Media case of fetchMedia; stop: the connection is closed and fetching ends. */
  method HandleMedia(store0: Store, pkt: seq<byte>) returns (store: Store, stop: bool)
    ensures store == Deliver(store0, PacketEntries(pkt)) && stop == PacketStops(pkt)
  {
    hide Bytes16At, Bytes16End, Bytes32At, Bytes32End, U16At, U32At, Deliver, Next;
    assert Head(pkt, 0) == 2 && Head(pkt, 1) == Next(pkt, 2, 2) && Head(pkt, 2) == Next(pkt, Head(pkt, 1), 2);
    var r := new Reader(pkt);
    r.Seek(2);
    var bunchCount := r.ReadUint16();
    var bunchID := r.ReadUint16();
    var fileCount := r.ReadUint32();
    ghost var start := r.pos;
    store := store0;
    NothingDelivered(store0, pkt, start);
    var i: nat := 0;
    while i < fileCount
      invariant i <= fileCount && r.data == pkt && fresh(r) && r.pos == EntriesEnd(pkt, start, i)
      invariant store == Deliver(store0, ParseEntries(pkt, start, i))
    {
      ParseEntriesMore(pkt, start, i);
      DeliverMore(store0, ParseEntries(pkt, start, i), EntryAt(pkt, EntriesEnd(pkt, start, i)));
      var name := r.ReadBytes16();
      var data := r.ReadBytes32();
      if name in store && |store[name].data| == 0 {
        store := store[name := store[name].(data := data)];
      }
      i := i + 1;
    }
    stop := bunchID >= if bunchCount == 0 then 0xFFFF else bunchCount - 1;
  }

  lemma NothingDelivered(store: Store, pkt: seq<byte>, pos: nat)
    ensures Deliver(store, ParseEntries(pkt, pos, 0)) == store && EntriesEnd(pkt, pos, 0) == pos
  {
  }

  // ----- end to end -----

  datatype Fetch = Fetch(store: Store, done: bool, seen: nat)

  /** The receive loop over packets arriving in order. */
  function Feed(store: Store, pkts: seq<seq<byte>>): Fetch {
    if pkts == [] then Fetch(store, false, 0)
    else
      var f := Feed(store, pkts[..|pkts| - 1]);
      var pkt := pkts[|pkts| - 1];
      if f.done then f else Fetch(Deliver(f.store, PacketEntries(pkt)), PacketStops(pkt), f.seen + 1)
  }

  /** after is before with the empty ones among names filled in from the sender. */
  ghost predicate Filled(before: Store, sender: Store, names: seq<Name>, after: Store) {
    && after.Keys == before.Keys
    && forall n :: n in before ==>
         after[n] == if n in names && n in sender && before[n].data == [] then before[n].(data := sender[n].data)
                     else before[n]
  }

  function EntryNames(es: seq<Entry>): (ns: seq<Name>)
    ensures |ns| == |es| && forall k :: 0 <= k < |es| ==> ns[k] == es[k].name
  {
    seq(|es|, k requires 0 <= k < |es| => es[k].name)
  }

  lemma {:induction false} DeliverFills(before: Store, sender: Store, names: seq<Name>, cur: Store, es: seq<Entry>)
    requires Filled(before, sender, names, cur)
    requires forall k :: 0 <= k < |es| ==> es[k].name in sender && sender[es[k].name].data == es[k].data
    ensures Filled(before, sender, names + EntryNames(es), Deliver(cur, es))
  {
    if es == [] {
      assert names + EntryNames(es) == names;
    } else {
      var front, e := es[..|es| - 1], es[|es| - 1];
      DeliverFills(before, sender, names, cur, front);
      assert names + EntryNames(es) == (names + EntryNames(front)) + [e.name];
    }
  }

  lemma SameNamesFill(before: Store, sender: Store, a: seq<Name>, b: seq<Name>, after: Store)
    requires Filled(before, sender, a, after) && forall n :: n in a <==> n in b
    ensures Filled(before, sender, b, after)
  {
  }

  lemma BunchDelivered(before: Store, sender: Store, names: seq<Name>, cur: Store, g: seq<Name>, es: seq<Entry>)
    requires Filled(before, sender, names, cur) && Known(sender, g) && Lists(es, BunchOf(sender, g))
    ensures Filled(before, sender, names + g, Deliver(cur, es))
  {
    DeliverFills(before, sender, names, cur, es);
    var ns := EntryNames(es);
    forall n ensures n in ns <==> n in g {
      if n in g {
        assert Entry(n, BunchOf(sender, g)[n]) in es;
        var k :| 0 <= k < |es| && es[k] == Entry(n, sender[n].data);
        assert ns[k] == n;
      }
    }
    SameNamesFill(before, sender, names + ns, names + g, Deliver(cur, es));
  }

  ghost predicate SmallStore(store: Store) {
    forall n :: n in store ==> |n| < 0x1_0000 && |store[n].data| < 0x1_0000_0000
  }

  lemma {:induction false} FeedPrefix(before: Store, sender: Store, rq: seq<Name>, pkts: seq<seq<byte>>, i: nat)
    requires Known(sender, rq) && |rq| < 0x1_0000 && PacketsOf(sender, rq, pkts) && SmallStore(sender)
    requires i <= |pkts|
    ensures var f := Feed(before, pkts[..i]);
      && f.done == (i == |pkts|) && f.seen == i
      && Filled(before, sender, Flat(Groups(sender, rq)[..i]), f.store)
  {
    hide Groups, Known, Lists, EncodePacket, Fits, Filled, Deliver, PacketEntries, PacketStops, Stops, BunchOf,
         SmallStore;
    var gs := Groups(sender, rq);
    if i == 0 {
      NothingFilled(before, sender);
      assert gs[..0] == [] && pkts[..0] == [];
      BunchingIsExact(sender, rq);
    } else {
      FeedPrefix(before, sender, rq, pkts, i - 1);
      assert pkts[..i][..i - 1] == pkts[..i - 1];
      assert gs[..i] == gs[..i - 1] + [gs[i - 1]];
      FlatAppend(gs[..i - 1], gs[i - 1]);
      assert IsPacket(BunchOf(sender, gs[i - 1]), |gs|, i - 1, pkts[i - 1]);
      var es: seq<Entry> :| Lists(es, BunchOf(sender, gs[i - 1])) && pkts[i - 1] == EncodePacket(|gs|, i - 1, es);
      BunchFits(sender, gs, rq, es, i - 1);
      PacketRoundTrip(|gs|, i - 1, es);
      BunchingIsExact(sender, rq);
      StopsAtLastIff(|gs|);
      BunchDelivered(before, sender, Flat(gs[..i - 1]), Feed(before, pkts[..i - 1]).store, gs[i - 1], es);
    }
  }

  lemma NothingFilled(before: Store, sender: Store)
    ensures Filled(before, sender, [], before)
  {
  }

  /** End to end: whatever a client asks for among the known files, the packets fed to the receiver in
      order stop it exactly at the last one, and then every requested file that was announced to the
      receiver and still empty holds the sender's bytes, and no other file has changed. */
  lemma MediaIsDelivered(before: Store, sender: Store, request: seq<byte>, pkts: seq<seq<byte>>)
    requires Known(sender, ParseRequest(request)) && PacketsOf(sender, ParseRequest(request), pkts)
    requires SmallStore(sender)
    ensures pkts != []
    ensures Feed(before, pkts).done && Feed(before, pkts).seen == |pkts|
    ensures !Feed(before, pkts[..|pkts| - 1]).done
    ensures Filled(before, sender, ParseRequest(request), Feed(before, pkts).store)
  {
    hide Groups, EncodePacket, Filled, Deliver, PacketEntries, PacketStops, ParseRequest, SmallStore, IsPacket;
    var rq := ParseRequest(request);
    var gs := Groups(sender, rq);
    BunchingIsExact(sender, rq);
    FeedPrefix(before, sender, rq, pkts, |pkts|);
    FeedPrefix(before, sender, rq, pkts, |pkts| - 1);
    assert pkts[..|pkts|] == pkts && gs[..|gs|] == gs;
  }

  /** The receiver wants the file: the sender has it, and it is neither known nor cached. */
  predicate Wanted(store: Store, sender: Store, cached: Announced -> bool, n: Name) {
    n in sender && n !in store && !cached(Announced(n, sender[n].digest))
  }

  /** What fits the prefixes of the announcement. */
  ghost predicate Announceable(sender: Store) {
    |sender| < 0x1_0000 && forall n :: n in sender ==> |n| < 0x1_0000 && |sender[n].digest| < 0x1_0000
  }

  lemma {:induction false} DigestsEntered(store: Store, sender: Store, ann: seq<Announced>, cached: Announced -> bool)
    requires forall k :: 0 <= k < |ann| ==> ann[k].name in sender && sender[ann[k].name].digest == ann[k].digest
    ensures var r := AnnounceAll(store, ann, cached);
      forall n :: n in r.rq ==> n in sender && n in r.store && r.store[n] == File(sender[n].digest, [])
  {
    if ann != [] {
      var front, a := ann[..|ann| - 1], ann[|ann| - 1];
      assert forall k :: 0 <= k < |front| ==> front[k] == ann[k];
      DigestsEntered(store, sender, front, cached);
      RequestsAreMissing(store, front, cached);
    }
  }

  /** Asked for are exactly the files wanted, each entered empty with the sender's digest. */
  lemma RequestsAreWanted(store: Store, sender: Store, ann: seq<Announced>, cached: Announced -> bool)
    requires Offers(ann, sender)
    ensures var r := AnnounceAll(store, ann, cached);
      && Known(sender, r.rq) && (forall n :: n in r.rq <==> Wanted(store, sender, cached, n))
      && (forall n :: n in r.store <==> n in store || n in r.rq)
      && (forall n :: n in r.rq ==> r.store[n] == File(sender[n].digest, []))
      && (forall n :: n in store ==> r.store[n] == store[n])
  {
    hide AnnounceAll;
    RequestsAreMissing(store, ann, cached);
    DigestsEntered(store, sender, ann, cached);
    var r := AnnounceAll(store, ann, cached);
    forall n ensures n in r.rq <==> Wanted(store, sender, cached, n) {
      if Wanted(store, sender, cached, n) {
        var k :| 0 <= k < |ann| && ann[k] == Announced(n, sender[n].digest);
      }
    }
  }

  /** The files wanted have been added as the sender has them, and no other has changed. */
  ghost predicate Fetched(store: Store, sender: Store, cached: Announced -> bool, after: Store) {
    && (forall n :: n in after <==> n in store || Wanted(store, sender, cached, n))
    && (forall n :: n in store ==> after[n] == store[n])
    && (forall n :: Wanted(store, sender, cached, n) ==> after[n] == sender[n])
  }

  lemma FilledIsFetched(store: Store, sender: Store, cached: Announced -> bool, r: Requested, after: Store)
    requires Known(sender, r.rq) && (forall n :: n in r.rq <==> Wanted(store, sender, cached, n))
    requires forall n :: n in r.store <==> n in store || n in r.rq
    requires forall n :: n in r.rq ==> r.store[n] == File(sender[n].digest, [])
    requires forall n :: n in store ==> r.store[n] == store[n]
    requires Filled(r.store, sender, r.rq, after)
    ensures Fetched(store, sender, cached, after)
  {
    forall n ensures n in after <==> n in r.store {
      assert n in after.Keys <==> n in r.store.Keys;
    }
    forall n | n in r.rq ensures after[n] == sender[n] {
      assert n in sender && n in r.store;
    }
  }

  /** From the sender's files to the receiver's: whatever order the announcement lists them in, asked for are
      exactly the files that are neither known nor cached, and the packets that answer the request stop the
      receiver at the last one and leave it with these files, digests and bytes as the sender has them, and
      with no other changed. */
  lemma FetchGetsWanted(store: Store, sender: Store, remote: seq<byte>, announcement: seq<byte>,
                        cached: Announced -> bool, request: seq<byte>)
    requires IsAnnouncement(sender, remote, announcement) && Announceable(sender) && SmallStore(sender)
    requires request == EncodeRequest(AnnounceAll(store, ParseAnnouncement(announcement), cached).rq)
    ensures Known(sender, ParseRequest(request))
    ensures forall n :: n in ParseRequest(request) <==> Wanted(store, sender, cached, n)
    ensures forall pkts :: PacketsOf(sender, ParseRequest(request), pkts) ==>
      var f := Feed(AnnounceAll(store, ParseAnnouncement(announcement), cached).store, pkts);
      f.done && f.seen == |pkts| && Fetched(store, sender, cached, f.store)
  {
    hide ParseAnnouncement, AnnounceAll, EncodeRequest, ParseRequest, PacketsOf, SmallStore, Feed, EncodeAnnouncement,
         Wanted, Known, Filled, Fetched;
    var ann: seq<Announced> :| Offers(ann, sender) && announcement == EncodeAnnouncement(ann, remote);
    OffersFit(ann, sender);
    AnnouncementRoundTrip(ann, remote);
    var r := AnnounceAll(store, ann, cached);
    RequestReaches(store, announcement, cached);
    RequestsAreWanted(store, sender, ann, cached);
    forall pkts | PacketsOf(sender, ParseRequest(request), pkts)
      ensures var f := Feed(r.store, pkts); f.done && f.seen == |pkts| && Fetched(store, sender, cached, f.store)
    {
      MediaIsDelivered(r.store, sender, request, pkts);
      FilledIsFetched(store, sender, cached, r, Feed(r.store, pkts).store);
    }
  }

  lemma OffersFit(ann: seq<Announced>, sender: Store)
    requires Offers(ann, sender) && Announceable(sender)
    ensures AnnsFit(ann) && |ann| < 0x1_0000
  {
  }

  lemma BunchFits(sender: Store, gs: seq<seq<Name>>, rq: seq<Name>, es: seq<Entry>, k: nat)
    requires Known(sender, rq) && gs == Groups(sender, rq) && k < |gs| && |rq| < 0x1_0000
    requires Lists(es, BunchOf(sender, gs[k])) && SmallStore(sender)
    ensures Fits(es)
  {
    hide Groups;
    BunchingIsExact(sender, rq);
    PieceLength(gs, k);
    KeysBound(gs[k]);
    assert BunchOf(sender, gs[k]).Keys == set f | f in gs[k];
  }

  lemma {:induction false} PieceLength(gs: seq<seq<Name>>, k: nat)
    requires k < |gs|
    ensures |gs[k]| <= |Flat(gs)|
  {
    if k < |gs| - 1 {
      PieceLength(gs[..|gs| - 1], k);
    }
  }

  lemma {:induction false} KeysBound(g: seq<Name>)
    ensures |set f | f in g| <= |g|
  {
    if g != [] {
      var front := g[..|g| - 1];
      KeysBound(front);
      assert (set f | f in g) == (set f | f in front) + {g[|g| - 1]};
    }
  }
}
