/** Active objects (active_object.go). The client knows its own player object under one id for the whole
    connection, every server under an id of its own; the proxy swaps the two. */
module ActiveObjects {
  import opened Wire

  const AO_CMD_ATTACH_TO: byte := 8
  const AO_CMD_SPAWN_INFANT: byte := 11

  function Swap(local: u16, current: u16, id: u16): u16 {
    if id == current then local else if id == local then current else id
  }

  // ----- messages -----

  datatype Msg = Msg(id: u16, data: seq<byte>)

  /** The commands whose payload starts with an object id. */
  predicate CarriesId(data: seq<byte>) {
    |data| >= 1 && (data[0] == AO_CMD_ATTACH_TO || data[0] == AO_CMD_SPAWN_INFANT)
  }

  /** What the proxy indexes without looking: the command byte, and the id of the commands that have one. */
  predicate WellFormedMsg(data: seq<byte>) {
    1 <= |data| < 0x1_0000 && (CarriesId(data) ==> |data| >= 3)
  }

  function PayloadId(data: seq<byte>): u16
    requires |data| >= 3
  {
    GetU16(data[1..3])
  }

  /** The payload with its id swapped. */
  function SwapData(local: u16, current: u16, data: seq<byte>): (r: seq<byte>)
    ensures |r| == |data|
  {
    if CarriesId(data) && |data| >= 3 then
      data[..1] + PutU16(Swap(local, current, PayloadId(data))) + data[3..]
    else data
  }

  /** Bytes 1 and 2 of an attachment (command 8) or of an infant (command 11) are the id; any other payload is
      left alone. */
  lemma PayloadBytes(local: u16, current: u16, data: seq<byte>)
    requires |data| >= 3
    ensures var id := (data[1] as int) * 0x100 + data[2];
      var newId := if id == current then local else if id == local then current else id;
      SwapData(local, current, data) ==
        if data[0] == 8 || data[0] == 11 then [data[0], newId / 0x100, newId % 0x100] + data[3..] else data
  {
    assert data[1..3] == [data[1], data[2]] && data[..1] == [data[0]];
  }

  lemma SwapDataTwice(local: u16, current: u16, data: seq<byte>)
    requires WellFormedMsg(data)
    ensures var r := SwapData(local, current, data);
      |r| == |data| && WellFormedMsg(r) && SwapData(local, current, r) == data
  {
    if CarriesId(data) {
      var r := SwapData(local, current, data);
      assert r[1..3] == PutU16(Swap(local, current, PayloadId(data)));
      assert data[1..3] == PutU16(PayloadId(data));
      assert data == data[..1] + data[1..3] + data[3..];
    }
  }

  /** aoMsgReplaceIDs, in place. */
  method ReplaceIDs(data: array<byte>, local: u16, current: u16)
    requires WellFormedMsg(data[..])
    modifies data
    ensures data[..] == SwapData(local, current, old(data[..]))
  {
    if data[0] == AO_CMD_ATTACH_TO || data[0] == AO_CMD_SPAWN_INFANT {
      assert data[1..3] == data[..][1..3];
      var id := GetU16(data[1..3]);
      if id == current {
        id := local;
      } else if id == local {
        id := current;
      }
      data[1], data[2] := id / 0x100, id % 0x100;
      assert data[..] == data[..1] + data[1..3] + data[3..];
    }
  }

  function MsgAt(d: seq<byte>, pos: nat): Msg {
    Msg(U16At(d, pos), Bytes16At(d, Next(d, pos, 2)))
  }

  function MsgEnd(d: seq<byte>, pos: nat): nat {
    Bytes16End(d, Next(d, pos, 2))
  }

  /** The messages of a stream: another one as long as four bytes are left. */
  function ParseMsgs(d: seq<byte>, pos: nat): seq<Msg>
    decreases |d| - pos
  {
    if |d| < pos + 4 then [] else [MsgAt(d, pos)] + ParseMsgs(d, MsgEnd(d, pos))
  }

  function EncodeMsg(m: Msg): seq<byte> {
    PutU16(m.id) + PutBytes16(m.data)
  }

  function EncodeMsgs(ms: seq<Msg>): seq<byte> {
    if ms == [] then [] else EncodeMsg(ms[0]) + EncodeMsgs(ms[1..])
  }

  ghost predicate WellFormedMsgs(ms: seq<Msg>) {
    forall k :: 0 <= k < |ms| ==> WellFormedMsg(ms[k].data)
  }

  function SwapMsg(local: u16, current: u16, m: Msg): Msg {
    Msg(Swap(local, current, m.id), SwapData(local, current, m.data))
  }

  function SwapMsgs(local: u16, current: u16, ms: seq<Msg>): (r: seq<Msg>)
    ensures |r| == |ms|
  {
    if ms == [] then [] else [SwapMsg(local, current, ms[0])] + SwapMsgs(local, current, ms[1..])
  }

  /** One round of the loop of processAoMsgs. */
  method RewriteMsg(r: Reader, local: u16, current: u16) returns (out: seq<byte>)
    requires WellFormedMsg(MsgAt(r.data, r.pos).data)
    modifies r
    ensures r.pos == MsgEnd(r.data, old(r.pos))
    ensures out == EncodeMsg(SwapMsg(local, current, MsgAt(r.data, old(r.pos))))
  {
    var id := r.ReadUint16();
    var body := r.ReadBytes16();
    var data := new byte[|body|](k requires 0 <= k < |body| => body[k]);
    assert data[..] == body;
    ReplaceIDs(data, local, current);
    var msg := data[..];
    if id == current {
      id := local;
    } else if id == local {
      id := current;
    }
    out := PutU16(id) + PutBytes16(msg);
  }

  /** processAoMsgs over any stream; a rest of fewer than four bytes is dropped. */
  method ProcessAoMsgs(r: Reader, local: u16, current: u16) returns (w: seq<byte>)
    requires WellFormedMsgs(ParseMsgs(r.data, r.pos))
    modifies r
    ensures w == EncodeMsgs(SwapMsgs(local, current, ParseMsgs(r.data, old(r.pos))))
    ensures r.Len() < 4
  {
    hide EncodeMsg, EncodeMsgs, SwapMsg, SwapMsgs, MsgAt, MsgEnd, ParseMsgs, WellFormedMsgs, WellFormedMsg;
    w := [];
    ghost var d, all := r.data, EncodeMsgs(SwapMsgs(local, current, ParseMsgs(r.data, r.pos)));
    while r.Len() >= 4
      invariant WellFormedMsgs(ParseMsgs(d, r.pos))
      invariant w + EncodeMsgs(SwapMsgs(local, current, ParseMsgs(d, r.pos))) == all
      decreases |d| - r.pos
    {
      ghost var p, w0 := r.pos, w;
      ProcessOne(d, p, local, current);
      var out := RewriteMsg(r, local, current);
      w := w + out;
      Regroup(w0, out, EncodeMsgs(SwapMsgs(local, current, ParseMsgs(d, r.pos))));
    }
    ProcessNone(d, r.pos, local, current);
  }

  lemma Regroup(a: seq<byte>, b: seq<byte>, c: seq<byte>)
    ensures (a + b) + c == a + (b + c)
  {
  }

  lemma ProcessNone(d: seq<byte>, pos: nat, local: u16, current: u16)
    requires pos + 4 > |d|
    ensures WellFormedMsgs(ParseMsgs(d, pos)) && EncodeMsgs(SwapMsgs(local, current, ParseMsgs(d, pos))) == []
  {
  }

  lemma ProcessOne(d: seq<byte>, pos: nat, local: u16, current: u16)
    requires pos + 4 <= |d| && WellFormedMsgs(ParseMsgs(d, pos))
    ensures pos + 4 <= MsgEnd(d, pos)
    ensures var m, rest := MsgAt(d, pos), ParseMsgs(d, MsgEnd(d, pos));
      && WellFormedMsg(m.data) && WellFormedMsgs(rest)
      && EncodeMsgs(SwapMsgs(local, current, ParseMsgs(d, pos)))
         == EncodeMsg(SwapMsg(local, current, m)) + EncodeMsgs(SwapMsgs(local, current, rest))
  {
    hide MsgAt, SwapMsg, EncodeMsg;
    var m, rest := MsgAt(d, pos), ParseMsgs(d, MsgEnd(d, pos));
    var ms := ParseMsgs(d, pos);
    assert ms == [m] + rest && ms[0] == m && ms[1..] == rest;
    forall k | 0 <= k < |rest| ensures WellFormedMsg(rest[k].data) {
      assert rest[k] == ms[k + 1];
    }
    var sw := SwapMsgs(local, current, ms);
    assert sw[0] == SwapMsg(local, current, m) && sw[1..] == SwapMsgs(local, current, rest);
  }

  // ----- the stream as a whole -----

  lemma {:induction false} ParseEncodedMsgs(d: seq<byte>, pos: nat, ms: seq<Msg>)
    requires WellFormedMsgs(ms) && At(d, pos, EncodeMsgs(ms)) && pos + |EncodeMsgs(ms)| == |d|
    ensures ParseMsgs(d, pos) == ms
    decreases |ms|
  {
    hide MsgAt, MsgEnd, EncodeMsg;
    if ms != [] {
      AtSplit(d, pos, EncodeMsg(ms[0]), EncodeMsgs(ms[1..]));
      ParseEncodedMsg(d, pos, ms[0]);
      ParseEncodedMsgs(d, pos + |EncodeMsg(ms[0])|, ms[1..]);
      assert ms == [ms[0]] + ms[1..];
    }
  }

  lemma ParseEncodedMsg(d: seq<byte>, pos: nat, m: Msg)
    requires WellFormedMsg(m.data) && At(d, pos, EncodeMsg(m))
    ensures MsgAt(d, pos) == m && MsgEnd(d, pos) == pos + |EncodeMsg(m)| && pos + 4 < MsgEnd(d, pos) <= |d|
  {
    AtSplit(d, pos, PutU16(m.id), PutBytes16(m.data));
    ReadBackU16(d, pos, m.id);
    ReadBackBytes16(d, pos + 2, m.data);
  }

  lemma {:induction false} SwapMsgsTwice(local: u16, current: u16, ms: seq<Msg>)
    requires WellFormedMsgs(ms)
    ensures WellFormedMsgs(SwapMsgs(local, current, ms))
    ensures SwapMsgs(local, current, SwapMsgs(local, current, ms)) == ms
    ensures |EncodeMsgs(SwapMsgs(local, current, ms))| == |EncodeMsgs(ms)|
  {
    if ms != [] {
      SwapMsgsTwice(local, current, ms[1..]);
      SwapDataTwice(local, current, ms[0].data);
      var r := SwapMsgs(local, current, ms);
      assert r[0] == SwapMsg(local, current, ms[0]) && r[1..] == SwapMsgs(local, current, ms[1..]);
      assert SwapMsg(local, current, r[0]) == ms[0];
      assert |EncodeMsg(r[0])| == |EncodeMsg(ms[0])|;
      assert ms == [ms[0]] + ms[1..];
    }
  }

  /** The rewriting of a well-formed stream keeps its length, consumes it whole, gives a well-formed
      stream, and undoes itself; the ids inside attachment and infant payloads are part of that. */
  lemma MsgStreamInvolution(local: u16, current: u16, ms: seq<Msg>)
    requires WellFormedMsgs(ms)
    ensures ParseMsgs(EncodeMsgs(ms), 0) == ms
    ensures var out := EncodeMsgs(SwapMsgs(local, current, ParseMsgs(EncodeMsgs(ms), 0)));
      && |out| == |EncodeMsgs(ms)|
      && WellFormedMsgs(ParseMsgs(out, 0))
      && EncodeMsgs(SwapMsgs(local, current, ParseMsgs(out, 0))) == EncodeMsgs(ms)
  {
    hide EncodeMsgs, ParseMsgs, SwapMsgs;
    var sw := SwapMsgs(local, current, ms);
    SwapMsgsTwice(local, current, ms);
    ParseEncodedMsgs(EncodeMsgs(ms), 0, ms);
    ParseEncodedMsgs(EncodeMsgs(sw), 0, sw);
  }

  // ----- the messages in the initialisation data of a player -----

  function EncodeInitMsgs(ms: seq<seq<byte>>): seq<byte> {
    if ms == [] then [] else EncodeInitMsgs(ms[..|ms| - 1]) + PutBytes32(ms[|ms| - 1])
  }

  /** The data as a server writes it: version, name, 30 bytes of position and the like, the number of messages,
      and the messages behind their 32-bit lengths. */
  function InitData(version: byte, name: Name, fixed: seq<byte>, ms: seq<seq<byte>>): seq<byte>
    requires |ms| < 0x100
  {
    [version] + (PutBytes16(name) + (fixed + ([|ms|] + EncodeInitMsgs(ms))))
  }

  /** Where the count of messages stands: 30 bytes behind the name. */
  function InitPos(d: seq<byte>): nat {
    Bytes16End(d, 1) + 30
  }

  /** The cursor after n messages; the two bytes before each length are skipped. */
  function InitEnd(d: seq<byte>, pos: nat, n: nat): nat {
    if n == 0 then pos else Bytes16End(d, InitEnd(d, pos, n - 1) + 2)
  }

  function ParseInit(d: seq<byte>, pos: nat, n: nat): (ms: seq<seq<byte>>)
    ensures |ms| == n
  {
    if n == 0 then [] else ParseInit(d, pos, n - 1) + [Bytes16At(d, InitEnd(d, pos, n - 1) + 2)]
  }

  function InitMsgs(d: seq<byte>): seq<seq<byte>> {
    ParseInit(d, Next(d, InitPos(d), 1), Fill(d, InitPos(d), 1)[0])
  }

  /** The same messages, addressed to the client's own object. */
  function OwnMsgs(local: u16, current: u16, datas: seq<seq<byte>>): (ms: seq<Msg>)
    ensures |ms| == |datas|
  {
    seq(|datas|, k requires 0 <= k < |datas| => Msg(local, SwapData(local, current, datas[k])))
  }

  /** The packet that carries them to the client. */
  function InitPacket(local: u16, current: u16, initData: seq<byte>): seq<byte> {
    [0, 0x32] + EncodeMsgs(OwnMsgs(local, current, InitMsgs(initData)))
  }

  ghost predicate ShortMsgs(ms: seq<seq<byte>>) {
    forall k :: 0 <= k < |ms| ==> |ms[k]| < 0x1_0000
  }

  lemma InitMsgReadBack(d: seq<byte>, pos: nat, m: seq<byte>)
    requires |m| < 0x1_0000 && At(d, pos, PutBytes32(m))
    ensures Bytes16At(d, pos + 2) == m && Bytes16End(d, pos + 2) == pos + 4 + |m|
  {
    assert PutBytes32(m) == [0, 0] + PutBytes16(m);
    AtSplit(d, pos, [0, 0], PutBytes16(m));
    ReadBackBytes16(d, pos + 2, m);
  }

  lemma {:induction false} InitMsgsReadBack(d: seq<byte>, pos: nat, ms: seq<seq<byte>>)
    requires ShortMsgs(ms) && At(d, pos, EncodeInitMsgs(ms))
    ensures ParseInit(d, pos, |ms|) == ms && InitEnd(d, pos, |ms|) == pos + |EncodeInitMsgs(ms)|
  {
    hide Bytes16At, Bytes16End, PutBytes32;
    if ms != [] {
      var front, m := ms[..|ms| - 1], ms[|ms| - 1];
      AtSplit(d, pos, EncodeInitMsgs(front), PutBytes32(m));
      InitMsgsReadBack(d, pos, front);
      InitMsgReadBack(d, pos + |EncodeInitMsgs(front)|, m);
      PutBytes32Length(m);
    }
  }

  /** The player's name and messages are read from where the server puts them. */
  lemma InitDataReadBack(version: byte, name: Name, fixed: seq<byte>, ms: seq<seq<byte>>)
    requires |name| < 0x1_0000 && |fixed| == 30 && |ms| < 0x100 && ShortMsgs(ms)
    ensures var d := InitData(version, name, fixed, ms); Bytes16At(d, 1) == name && InitMsgs(d) == ms
  {
    hide Bytes16At, Bytes16End, PutBytes16, ParseInit, EncodeInitMsgs;
    var d, q := InitData(version, name, fixed, ms), 3 + |name|;
    var r2 := [|ms|] + EncodeInitMsgs(ms);
    var r1 := fixed + r2;
    AtWhole(d);
    AtSplit(d, 0, [version], PutBytes16(name) + r1);
    ReadBackBytes16(d, 1, name);
    PutBytes16Length(name);
    AtSplit(d, 1, PutBytes16(name), r1);
    AtSplit(d, q, fixed, r2);
    AtSplit(d, q + 30, [|ms|], EncodeInitMsgs(ms));
    assert Fill(d, q + 30, 1) == [|ms|];
    InitMsgsReadBack(d, q + 31, ms);
  }

  ghost predicate WellFormedInit(initData: seq<byte>) {
    forall k :: 0 <= k < |InitMsgs(initData)| ==> WellFormedMsg(InitMsgs(initData)[k])
  }

  method ReadInitMsgs(initData: seq<byte>) returns (msgs: seq<seq<byte>>)
    ensures msgs == InitMsgs(initData)
  {
    hide U16At, Fill, Next, Bytes16At, Bytes16End;
    var dr := new Reader(initData);
    dr.Seek(1);
    var name := dr.ReadBytes16();
    dr.Seek(dr.pos + 30);
    var msgcount := dr.ReadUint8();
    ghost var start := dr.pos;
    msgs := [];
    var j: nat := 0;
    while j < msgcount
      invariant j <= msgcount && dr.data == initData && fresh(dr)
      invariant dr.pos == InitEnd(initData, start, j) && msgs == ParseInit(initData, start, j)
    {
      dr.Seek(dr.pos + 2);
      var msg := dr.ReadBytes16();
      msgs := msgs + [msg];
      j := j + 1;
    }
  }

  lemma {:induction false} EncodeMsgsMore(ms: seq<Msg>, m: Msg)
    ensures EncodeMsgs(ms + [m]) == EncodeMsgs(ms) + EncodeMsg(m)
  {
    hide EncodeMsg;
    if ms == [] {
      assert [m][1..] == [];
    } else {
      assert (ms + [m])[1..] == ms[1..] + [m];
      EncodeMsgsMore(ms[1..], m);
    }
  }

  /** The messages of a player who comes again are sent on before anything else. */
  method WriteInitMsgs(initData: seq<byte>, local: u16, current: u16) returns (pkt: seq<byte>)
    requires WellFormedInit(initData)
    ensures pkt == InitPacket(local, current, initData)
  {
    hide InitMsgs, EncodeMsgs, SwapData, PutU16;
    var msgs := ReadInitMsgs(initData);
    ghost var all := OwnMsgs(local, current, msgs);
    var body: seq<byte> := [];
    assert EncodeMsgs(all[..0]) == [] by {
      NoMsgs();
    }
    for k := 0 to |msgs|
      invariant body == EncodeMsgs(all[..k])
    {
      var data := new byte[|msgs[k]|](i requires 0 <= i < |msgs[k]| => msgs[k][i]);
      assert data[..] == msgs[k];
      ReplaceIDs(data, local, current);
      var msgdata := PutU16(local) + PutU16(|msgs[k]| % 0x1_0000) + data[..];
      assert msgdata == EncodeMsg(all[k]);
      EncodeMsgsMore(all[..k], all[k]);
      assert all[..k + 1] == all[..k] + [all[k]];
      body := body + msgdata;
    }
    assert all[..|msgs|] == all;
    pkt := [0, 0x32] + body;
  }

  lemma NoMsgs()
    ensures EncodeMsgs([]) == []
  {
  }

  /** What the client reads in that packet: every message reaches its own object. */
  lemma InitPacketParses(local: u16, current: u16, initData: seq<byte>)
    requires WellFormedInit(initData)
    ensures At(InitPacket(local, current, initData), 0, [0, 0x32])
    ensures ParseMsgs(InitPacket(local, current, initData), 2) == OwnMsgs(local, current, InitMsgs(initData))
  {
    hide InitMsgs, EncodeMsgs, ParseMsgs, SwapData, WellFormedMsg;
    var datas, ms := InitMsgs(initData), OwnMsgs(local, current, InitMsgs(initData));
    forall k | 0 <= k < |ms| ensures WellFormedMsg(ms[k].data) {
      assert WellFormedMsg(datas[k]);
      SwapDataTwice(local, current, datas[k]);
    }
    var pkt := InitPacket(local, current, initData);
    assert At(pkt, 0, [0, 0x32] + EncodeMsgs(ms));
    AtSplit(pkt, 0, [0, 0x32], EncodeMsgs(ms));
    ParseEncodedMsgs(pkt, 2, ms);
  }

  /** The own object had the id `before` on the last server and has the id `now` on this one, but the ids
      in these messages are still swapped for `before`. That is right if and only if the two are the same,
      or the message names none of the three objects concerned. */
  lemma InitPayloadIff(local: u16, before: u16, now: u16, initData: seq<byte>, k: nat)
    requires WellFormedInit(initData) && k < |InitMsgs(initData)| && CarriesId(InitMsgs(initData)[k])
    ensures var fwd := ParseMsgs(InitPacket(local, before, initData), 2);
      var id := PayloadId(InitMsgs(initData)[k]);
      && |fwd| == |InitMsgs(initData)| && fwd[k].id == local && |fwd[k].data| >= 3
      && (PayloadId(fwd[k].data) == Swap(local, now, id)
          <==> before == now || (id != before && id != now && id != local))
  {
    hide InitMsgs, InitPacket, ParseMsgs;
    InitPacketParses(local, before, initData);
    var data := InitMsgs(initData)[k];
    assert WellFormedMsg(data);
    assert SwapData(local, before, data)[1..3] == PutU16(Swap(local, before, PayloadId(data)));
  }
}
