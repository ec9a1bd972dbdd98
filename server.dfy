/**
 * The gateway's packet handler (server/server.py): one round of
 * `eink_server.serve` receives a request from a price tag, records the
 * client in the `clients` table and, unless the tag already has the whole
 * image, answers with the next 32-byte chunk of it.
 */
module GatewayServer {
  import opened Wrappers
  import opened Bytes
  import opened Sequences
  import opened A7106

  /** A tag's request: `struct.unpack('<IIH', data[0:10])`. */
  datatype Request = Request(clientId: uint32, imgId: uint32, offset: uint16)

  /** An entry of the `clients` dictionary. */
  datatype Client = Client(rxCount: nat, imgId: uint32, offset: uint16)

  function Min(a: int, b: int): int
  {
    if a < b then a else b
  }

  // ---------------------------------------------------------------------------
  // Requests

  /** The ten little-endian bytes of a request. */
  function RequestBytes(req: Request): (r: seq<byte>)
    ensures |r| == 10
  {
    LE(req.clientId, 4) + LE(req.imgId, 4) + LE(req.offset, 2)
  }

  /**
   * `l = payload[0]`, `data = payload[1:l+1]`, then the three fields from
   * `data[0:10]`; an empty payload or fewer than ten data bytes raise, and
   * the round ends with `None`.
   */
  function DecodeRequest(payload: seq<byte>): (r: Option<Request>)
    ensures r.Some? <==> |payload| >= 11 && payload[0] >= 10
    ensures r.Some? ==> payload[1..11] == RequestBytes(r.value)
  {
    if |payload| == 0 then None
    else
      var data := Slice(payload, 1, payload[0] as int + 1);
      if |data| < 10 then None
      else
        assert Pow256(4) == 0x1_0000_0000 && Pow256(2) == 0x1_0000;
        var req := Request(FromLE(data[0..4]), FromLE(data[4..8]), FromLE(data[8..10]));
        LEOfFromLE(data[0..4]);
        LEOfFromLE(data[4..8]);
        LEOfFromLE(data[8..10]);
        assert data[0..10] == payload[1..11];
        assert data[0..10] == data[0..4] + data[4..8] + data[8..10];
        Some(req)
  }

  /** A request sent with length byte `l` and any padding after it decodes to itself. */
  lemma DecodeRequestBytes(req: Request, l: byte, pad: seq<byte>)
    requires l >= 10
    ensures DecodeRequest([l] + RequestBytes(req) + pad) == Some(req)
  {
    var payload := [l] + RequestBytes(req) + pad;
    var r := DecodeRequest(payload);
    assert payload[1..11] == RequestBytes(req);
    assert Pow256(4) == 0x1_0000_0000 && Pow256(2) == 0x1_0000;
    FromLEOfLE(req.clientId, 4);
    FromLEOfLE(req.imgId, 4);
    FromLEOfLE(req.offset, 2);
    RequestBytesInjective(r.value, req);
  }

  lemma RequestBytesInjective(a: Request, b: Request)
    requires RequestBytes(a) == RequestBytes(b)
    ensures a == b
  {
    var bs := RequestBytes(a);
    assert bs[0..4] == LE(a.clientId, 4) == LE(b.clientId, 4);
    assert bs[4..8] == LE(a.imgId, 4) == LE(b.imgId, 4);
    assert bs[8..10] == LE(a.offset, 2) == LE(b.offset, 2);
    assert Pow256(4) == 0x1_0000_0000 && Pow256(2) == 0x1_0000;
    FromLEOfLE(a.clientId, 4);
    FromLEOfLE(b.clientId, 4);
    FromLEOfLE(a.imgId, 4);
    FromLEOfLE(b.imgId, 4);
    FromLEOfLE(a.offset, 2);
    FromLEOfLE(b.offset, 2);
  }

  // ---------------------------------------------------------------------------
  // The clients table

  /**
   * A decoded request: an unseen client is entered with its first `img_id`
   * and `offset`; then its `rx_count` goes up by one.
   */
  function Register(clients: map<uint32, Client>, req: Request): (r: map<uint32, Client>)
    ensures r.Keys == clients.Keys + {req.clientId}
    ensures forall c :: c in clients && c != req.clientId ==> r[c] == clients[c]
    ensures r[req.clientId].rxCount == (if req.clientId in clients then clients[req.clientId].rxCount else 0) + 1
    ensures req.clientId in clients ==>
      r[req.clientId].imgId == clients[req.clientId].imgId && r[req.clientId].offset == clients[req.clientId].offset
    ensures req.clientId !in clients ==> r[req.clientId].imgId == req.imgId && r[req.clientId].offset == req.offset
  {
    var entry := if req.clientId in clients then clients[req.clientId] else Client(0, req.imgId, req.offset);
    clients[req.clientId := entry.(rxCount := entry.rxCount + 1)]
  }

  /** The table after the requests `reqs`, in order. */
  function RegisterAll(clients: map<uint32, Client>, reqs: seq<Request>): map<uint32, Client>
  {
    if |reqs| == 0 then clients else Register(RegisterAll(clients, reqs[..|reqs| - 1]), reqs[|reqs| - 1])
  }

  /** How many of `reqs` come from client `c`. */
  function Count(reqs: seq<Request>, c: uint32): nat
  {
    if |reqs| == 0 then 0 else (if reqs[0].clientId == c then 1 else 0) + Count(reqs[1..], c)
  }

  /** The first of `reqs` from client `c`. */
  function FirstFrom(reqs: seq<Request>, c: uint32): Option<Request>
  {
    if |reqs| == 0 then None else if reqs[0].clientId == c then Some(reqs[0]) else FirstFrom(reqs[1..], c)
  }

  lemma {:induction false} CountSnoc(reqs: seq<Request>, r: Request, c: uint32)
    ensures Count(reqs + [r], c) == Count(reqs, c) + (if r.clientId == c then 1 else 0)
  {
    if |reqs| == 0 {
      assert (reqs + [r])[1..] == [];
    } else {
      assert (reqs + [r])[1..] == reqs[1..] + [r];
      CountSnoc(reqs[1..], r, c);
    }
  }

  lemma {:induction false} FirstFromSnoc(reqs: seq<Request>, r: Request, c: uint32)
    ensures FirstFrom(reqs + [r], c) == if FirstFrom(reqs, c).Some? then FirstFrom(reqs, c)
                                        else if r.clientId == c then Some(r) else None
  {
    if |reqs| == 0 {
      assert (reqs + [r])[1..] == [];
    } else {
      assert (reqs + [r])[1..] == reqs[1..] + [r];
      FirstFromSnoc(reqs[1..], r, c);
    }
  }

  lemma {:induction false} CountZeroFirst(reqs: seq<Request>, c: uint32)
    ensures Count(reqs, c) == 0 <==> FirstFrom(reqs, c).None?
  {
    if |reqs| > 0 {
      CountZeroFirst(reqs[1..], c);
    }
  }

  /**
   * Starting from the empty table, a client has an entry exactly when it
   * sent a request, its `rx_count` is the number of its requests, and the
   * stored `img_id` and `offset` are those of its first request.
   */
  lemma {:induction false} TableSummary(reqs: seq<Request>, c: uint32)
    ensures var t := RegisterAll(map[], reqs);
      && (c in t <==> Count(reqs, c) > 0)
      && (c in t ==> FirstFrom(reqs, c).Some? && t[c].rxCount == Count(reqs, c)
                     && t[c].imgId == FirstFrom(reqs, c).value.imgId
                     && t[c].offset == FirstFrom(reqs, c).value.offset)
  {
    CountZeroFirst(reqs, c);
    if |reqs| > 0 {
      var init := reqs[..|reqs| - 1];
      var r := reqs[|reqs| - 1];
      assert init + [r] == reqs;
      TableSummary(init, c);
      CountSnoc(init, r, c);
      FirstFromSnoc(init, r, c);
      CountZeroFirst(init, c);
    }
  }

  // ---------------------------------------------------------------------------
  // Replies

  /** A tag showing another image starts again at offset 0; otherwise its own offset is used. */
  function OffsetInUse(req: Request, imgId: uint32): (r: uint16)
    ensures req.imgId == imgId ==> r == req.offset
    ensures req.imgId != imgId ==> r == 0
  {
    if req.imgId != imgId then 0 else req.offset
  }

  /**
   * Nothing once the offset reaches the end of the image; otherwise the
   * server's `img_id` (`<I`), the offset (`<H`) and up to 32 image bytes.
   */
  function Reply(imgId: uint32, offset: uint16, image: seq<byte>): (r: Option<seq<byte>>)
    ensures r.Some? <==> offset < |image|
    ensures r.Some? ==> |r.value| == 6 + Min(32, |image| - offset) && 7 <= |r.value| <= 38
    ensures r.Some? ==> FromLE(r.value[..4]) == imgId && FromLE(r.value[4..6]) == offset
    ensures r.Some? ==> r.value[6..] == image[offset..offset + Min(32, |image| - offset)]
  {
    if offset >= |image| then None
    else
      var out := LE(imgId, 4) + LE(offset, 2) + Slice(image, offset, offset + 32);
      assert Pow256(4) == 0x1_0000_0000 && Pow256(2) == 0x1_0000;
      FromLEOfLE(imgId, 4);
      FromLEOfLE(offset, 2);
      assert out[..4] == LE(imgId, 4) && out[4..6] == LE(offset, 2);
      assert out[6..] == Slice(image, offset, offset + 32) == image[offset..offset + Min(32, |image| - offset)];
      Some(out)
  }

  /** Every reply fits the 64-byte packet length the radio is opened with, so `transmit` never refuses one. */
  lemma ReplyFitsPacket(imgId: uint32, offset: uint16, image: seq<byte>)
    requires Reply(imgId, offset, image).Some?
    ensures |Reply(imgId, offset, image).value| <= 64
  {
  }

  // ---------------------------------------------------------------------------
  // One round on the wire

  /**
   * What `set_id(gateway_id)` and `blocking_receive` of a round deliver,
   * when the IO1 samples from `s` on are `line`: nothing when the ID reads
   * back wrong or the packet has a CRC or FEC error, else the payload.
   */
  function Received(line: nat -> bool, s: nat, gatewayId: uint32, packetLength: nat): Option<seq<byte>>
  {
    if FromBE(LineBytes(line, s, 4)) != gatewayId then None else PacketPayload(line, s + 32, packetLength)
  }

  /** The frames of `set_id(gateway_id)` and `blocking_receive`, as far as they get. */
  function ReceiveFrames(line: nat -> bool, s: nat, gatewayId: uint32, packetLength: nat): seq<Frame>
  {
    [WriteFrame(0x06, BE(gatewayId, 4)), ReadFrame(0x06, LineBytes(line, s, 4))]
    + if FromBE(LineBytes(line, s, 4)) != gatewayId then [] else PacketFrames(line, s + 32, packetLength)
  }

  /** The IO1 samples `set_id(gateway_id)` and `blocking_receive` take. */
  function ReceiveSamples(line: nat -> bool, s: nat, gatewayId: uint32, packetLength: nat): nat
  {
    32 + if FromBE(LineBytes(line, s, 4)) != gatewayId then 0 else PacketSamples(line, s + 32, packetLength)
  }

  /** What `blocking_receive` delivers when its mode read starts at sample `t`: nothing on a CRC or FEC error. */
  function PacketPayload(line: nat -> bool, t: nat, packetLength: nat): Option<seq<byte>>
  {
    var mode := LineBytes(line, t, 1)[0];
    if Bit(mode, 5) || Bit(mode, 6) then None else Some(LineBytes(line, t + 8, packetLength))
  }

  function PacketFrames(line: nat -> bool, t: nat, packetLength: nat): seq<Frame>
  {
    var mode := LineBytes(line, t, 1)[0];
    [StrobeFrame(0xC), ReadFrame(0x00, [mode])]
    + if Bit(mode, 5) || Bit(mode, 6) then [] else [StrobeFrame(0xF), ReadFrame(0x05, LineBytes(line, t + 8, packetLength))]
  }

  function PacketSamples(line: nat -> bool, t: nat, packetLength: nat): nat
  {
    var mode := LineBytes(line, t, 1)[0];
    if Bit(mode, 5) || Bit(mode, 6) then 8 else 8 + 8 * packetLength
  }

  /**
   * The frames of the reply half of a round, when the IO1 samples from `s`
   * on are `line`: none when there is no reply; otherwise `set_id` of the
   * client and, when the ID reads back right, the transmission of the reply.
   */
  function RespondFrames(line: nat -> bool, s: nat, req: Request, imgId: uint32, image: seq<byte>): seq<Frame>
  {
    var reply := Reply(imgId, OffsetInUse(req, imgId), image);
    if reply.None? then []
    else
      [WriteFrame(0x06, BE(req.clientId, 4)), ReadFrame(0x06, LineBytes(line, s, 4))]
      + if FromBE(LineBytes(line, s, 4)) == req.clientId then TransmitFrames(reply.value, 64) else []
  }

  /** The IO1 samples of the reply half of a round: the ID read-back, if any. */
  function RespondSamples(req: Request, imgId: uint32, image: seq<byte>): nat
  {
    if Reply(imgId, OffsetInUse(req, imgId), image).None? then 0 else 32
  }

  /** Each round starts by setting the radio ID back to the gateway's. */
  lemma RoundStartsWithGatewayId(line: nat -> bool, s: nat, gatewayId: uint32, packetLength: nat)
    ensures var fs := ReceiveFrames(line, s, gatewayId, packetLength);
      |fs| >= 2 && fs[0] == WriteFrame(0x06, BE(gatewayId, 4)) && fs[1].tx == [ReadCommand(0x06)]
  {
  }

  /** The gateway: its radio, its ID, the image it serves and the image's ID. */
  class EinkServer {
    const radio: Radio
    const gatewayId: uint32
    const image: seq<byte>
    const imgId: uint32
    /** `serve`'s `clients` dictionary. */
    var clients: map<uint32, Client>
    /** The requests decoded since `serve` started. */
    ghost var requests: seq<Request>

    ghost predicate Valid()
      reads this, radio
    {
      radio.Ready() && radio.packetLength == 64
    }

    constructor (radio: Radio, gatewayId: uint32, image: seq<byte>, imgId: uint32)
      requires radio.Ready() && radio.packetLength == 64
      ensures Valid()
      ensures this.radio == radio && this.gatewayId == gatewayId && this.image == image && this.imgId == imgId
      ensures clients == map[] && requests == []
    {
      this.radio := radio;
      this.gatewayId := gatewayId;
      this.image := image;
      this.imgId := imgId;
      clients := map[];
      requests := [];
    }

    /**
     * `eink_server.__init__` with the image and its ID, which the script
     * assigns right after: the radio is opened on `channel` with the
     * gateway ID (`packet_len=40` is passed and ignored).
     */
    static method Start(io1: nat -> bool, gatewayId: uint32, channel: int, image: seq<byte>, imgId: uint32)
      returns (r: Result<EinkServer, Error>)
      ensures r.Failure? <==> InitOutcome(channel, FromBE(LineBytes(io1, 32, 4)), gatewayId).Fail?
      ensures r.Success? ==>
        && fresh(r.value) && fresh(r.value.radio) && r.value.Valid()
        && r.value.gatewayId == gatewayId && r.value.image == image && r.value.imgId == imgId
        && r.value.radio.io1 == io1 && r.value.radio.frames == OpenFrames(io1, gatewayId, channel)
    {
      var opening, report := Radio.Open(io1, gatewayId, channel, 40);
      if opening.Failure? {
        return Failure(opening.error);
      }
      var server := new EinkServer(opening.value, gatewayId, image, imgId);
      r := Success(server);
    }

    /** `set_id(gateway_id)`, `blocking_receive` and the decoding of the payload; any exception gives `None`. */
    method Receive() returns (req: Option<Request>)
      requires Valid()
      modifies radio
      ensures Valid()
      ensures var got := Received(radio.io1, old(radio.samples), gatewayId, radio.packetLength);
        req == if got.Some? then DecodeRequest(got.value) else None
      ensures radio.frames == old(radio.frames) + ReceiveFrames(radio.io1, old(radio.samples), gatewayId, radio.packetLength)
      ensures radio.samples == old(radio.samples) + ReceiveSamples(radio.io1, old(radio.samples), gatewayId, radio.packetLength)
    {
      ghost var f0 := radio.frames;
      var o := radio.SetId(gatewayId);
      if o.Fail? {
        return None;
      }
      ghost var f1 := radio.frames;
      var payload := ReceivePacket();
      AppendAssoc(f0, f1[|f0|..], radio.frames[|f1|..]);
      if payload.None? {
        return None;
      }
      req := DecodeRequest(payload.value);
    }

    /** `blocking_receive`, with a raised error as `None`. */
    method ReceivePacket() returns (payload: Option<seq<byte>>)
      requires Valid()
      modifies radio
      ensures Valid()
      ensures payload == PacketPayload(radio.io1, old(radio.samples), radio.packetLength)
      ensures radio.frames == old(radio.frames) + PacketFrames(radio.io1, old(radio.samples), radio.packetLength)
      ensures radio.samples == old(radio.samples) + PacketSamples(radio.io1, old(radio.samples), radio.packetLength)
    {
      var r := radio.BlockingReceive();
      payload := if r.Success? then Some(r.value) else None;
    }

    /**
     * The rest of a round once a request is decoded: record it, pick the
     * offset, and unless the image is complete set the radio ID to the
     * client's and transmit the reply.  `sent` is the reply transmitted.
     */
    method Respond(req: Request) returns (sent: Option<seq<byte>>)
      requires Valid()
      modifies this, radio
      ensures Valid()
      ensures clients == Register(old(clients), req) && requests == old(requests) + [req]
      ensures var reply := Reply(imgId, OffsetInUse(req, imgId), image);
        var back := LineBytes(radio.io1, old(radio.samples), 4);
        && (sent.Some? <==> reply.Some? && FromBE(back) == req.clientId)
        && (sent.Some? ==> sent == reply)
      ensures radio.frames == old(radio.frames) + RespondFrames(radio.io1, old(radio.samples), req, imgId, image)
      ensures radio.samples == old(radio.samples) + RespondSamples(req, imgId, image)
    {
      clients := Register(clients, req);
      requests := requests + [req];
      var offset := OffsetInUse(req, imgId);
      var reply := Reply(imgId, offset, image);
      if reply.None? {
        return None;
      }
      var o := radio.SetId(req.clientId);
      if o.Fail? {
        return None;
      }
      var t := radio.Transmit(reply.value);
      sent := reply;
    }

    /** One iteration of `serve`'s loop; an exception ends the iteration and is swallowed. */
    method Step() returns (sent: Option<seq<byte>>, req: Option<Request>)
      requires Valid()
      modifies this, radio
      ensures Valid()
      ensures req == (var got := Received(radio.io1, old(radio.samples), gatewayId, 64);
                      if got.Some? then DecodeRequest(got.value) else None)
      ensures req.None? ==> clients == old(clients) && requests == old(requests) && sent.None?
      ensures req.Some? ==> clients == Register(old(clients), req.value) && requests == old(requests) + [req.value]
      ensures var s1 := old(radio.samples) + ReceiveSamples(radio.io1, old(radio.samples), gatewayId, 64);
        && (sent.Some? <==> req.Some? && Reply(imgId, OffsetInUse(req.value, imgId), image).Some?
                            && FromBE(LineBytes(radio.io1, s1, 4)) == req.value.clientId)
        && (sent.Some? ==> sent == Reply(imgId, OffsetInUse(req.value, imgId), image))
        && radio.frames == old(radio.frames) + ReceiveFrames(radio.io1, old(radio.samples), gatewayId, 64)
                           + (if req.Some? then RespondFrames(radio.io1, s1, req.value, imgId, image) else [])
        && radio.samples == s1 + (if req.Some? then RespondSamples(req.value, imgId, image) else 0)
    {
      ghost var s0, f0 := radio.samples, radio.frames;
      req := Receive();
      ghost var s1, f1 := radio.samples, radio.frames;
      assert s1 == s0 + ReceiveSamples(radio.io1, s0, gatewayId, 64);
      assert f1 == f0 + ReceiveFrames(radio.io1, s0, gatewayId, 64);
      if req.None? {
        return None, req;
      }
      sent := Respond(req.value);
    }

    /**
     * `serve`, for `rounds` iterations of its loop: the table starts empty
     * and every decoded request is recorded; `replies` are the replies
     * transmitted, in order.
     */
    method Serve(rounds: nat) returns (replies: seq<seq<byte>>)
      requires Valid()
      modifies this, radio
      ensures Valid()
      ensures clients == RegisterAll(map[], requests)
      ensures forall i :: 0 <= i < |replies| ==> 7 <= |replies[i]| <= 38
    {
      clients := map[];
      requests := [];
      replies := [];
      var k := 0;
      while k < rounds
        invariant Valid()
        invariant clients == RegisterAll(map[], requests)
        invariant forall i :: 0 <= i < |replies| ==> 7 <= |replies[i]| <= 38
      {
        ghost var before := requests;
        var sent, req := Step();
        if req.Some? {
          assert requests[..|requests| - 1] == before;
        }
        if sent.Some? {
          replies := replies + [sent.value];
        }
        k := k + 1;
      }
    }
  }
}
