/** Block-wise answers (core/packet.c): which part of a response is sent for a Block2 option, and that the parts add up. */
module Blockwise {
  import opened Bytes
  import opened CoapPacket
  import opened CoapRoundTrip
  import opened CoapFidelity
  import opened CoapSize
  import opened CoapSetters
  import opened Uri
  import opened RegistrationTrip
  import opened ObserveTrip

  /** "BlockOutOfScope" */
  const BLOCK_OUT_OF_SCOPE: seq<byte> := [66, 108, 111, 99, 107, 79, 117, 116, 79, 102, 83, 99, 111, 112, 101]

  /** The response that is sent, or the refusal of a Block1 option. */
  datatype Served = Served(message: Packet) | NoBlock1Support

  /** The part of lwm2m_handle_packet behind a request that succeeded. No handler here slices its answer itself. */
  function Serve(request: Packet, response: Packet): Served {
    if BLOCK1 in request.options && response.code < BAD_REQUEST_4_00 && BLOCK1 !in response.options then NoBlock1Support
    else if BLOCK2 !in request.options then Served(response)
    else
      var at, size := request.block2.offset, Min(request.block2.size, REST_MAX_CHUNK_SIZE);
      if at >= |response.payload| then
        Served(WithPayload(response.(code := BAD_OPTION_4_02), BLOCK_OUT_OF_SCOPE))
      else
        var left := |response.payload| - at;
        Served(WithPayload(WithBlock2(response, request.block2.num, left > size, size),
                           response.payload[at..at + Min(left, size)]))
  }

  // ----- one block -----

  /** The request asks for a block as a client's Block2 option with this number and size is parsed. */
  predicate AsksBlock(request: Packet, num: nat, size: u16) {
    && BLOCK2 in request.options && BLOCK1 !in request.options && num <= 0xF_FFFF
    && request.block2 == BlockOf(BlockValue(Block(num, 0, size, 0)))
  }

  /**
   * Block num of the response: the bytes from num times the size on, as many as the size and the chunk size allow, with
   * the number and the size that go with them, marked exactly when more follow; or 4.02 when there are none.
   */
  predicate IsBlock(m: Packet, response: Packet, num: nat, size: u16) {
    var s, at := Min(size, REST_MAX_CHUNK_SIZE), num * size;
    if at < |response.payload| then
      && m.payload == response.payload[at..Min(at + s, |response.payload|)]
      && m.options == response.options + {BLOCK2} && m.code == response.code
      && m.block2.num == num && m.block2.size == s && BlockFits(m.block2)
      && (m.block2.more != 0 <==> at + s < |response.payload|)
    else
      m == response.(code := BAD_OPTION_4_02, payload := BLOCK_OUT_OF_SCOPE)
  }

  /** A client that asks for a block is served it, or told that there is none. */
  lemma ServeExact(request: Packet, response: Packet, num: nat, size: u16)
    requires BlockSizeCode(size) && AsksBlock(request, num, size)
    requires |response.payload| <= REST_MAX_CHUNK_SIZE
    ensures Serve(request, response).Served? && IsBlock(Serve(request, response).message, response, num, size)
  {
    var b := Block(num, 0, size, 0);
    BlockOffset(b);
    BlockSurvives(b);
    hide BlockOf, BlockValue;
  }

  /** The branches behind a successful request. */
  method ServeBlock(request: Packet, response: Packet, ghost num: nat, ghost size: u16) returns (r: Served)
    requires |response.payload| <= REST_MAX_CHUNK_SIZE
    ensures r == Serve(request, response)
    ensures r.NoBlock1Support? <==>
              BLOCK1 in request.options && BLOCK1 !in response.options && response.code < BAD_REQUEST_4_00
    ensures BLOCK2 !in request.options && r.Served? ==> r.message == response
    ensures BlockSizeCode(size) && AsksBlock(request, num, size) ==> r.Served? && IsBlock(r.message, response, num, size)
  {
    var block_num: u32, block_size: u16, block_offset: u32 := 0, REST_MAX_CHUNK_SIZE, 0;
    var new_offset: u32 := 0;
    if BLOCK2 in request.options {
      block_num, block_size, block_offset := request.block2.num, request.block2.size, request.block2.offset;
      block_size := Min(block_size, REST_MAX_CHUNK_SIZE);
      new_offset := block_offset;
    }
    var sent := response;
    hide AsksBlock, IsBlock, BlockSizeCode;
    if BLOCK1 in request.options && response.code < BAD_REQUEST_4_00 && BLOCK1 !in response.options {
      r := NoBlock1Support;
    } else {
      if BLOCK2 in request.options {
        assert new_offset == block_offset;
        if block_offset >= |response.payload| {
          sent := WithPayload(sent.(code := BAD_OPTION_4_02), BLOCK_OUT_OF_SCOPE);
        } else {
          var left := |response.payload| - block_offset;
          sent := WithBlock2(sent, block_num, left > block_size, block_size);
          sent := WithPayload(sent, sent.payload[block_offset..block_offset + Min(left, block_size)]);
        }
      }
      r := Served(sent);
    }
    assert r == Serve(request, response);
    hide Serve;
    ServeWhole(request, response);
    ServedBlock(request, response, num, size);
  }

  lemma ServedBlock(request: Packet, response: Packet, num: nat, size: u16)
    requires |response.payload| <= REST_MAX_CHUNK_SIZE
    ensures BlockSizeCode(size) && AsksBlock(request, num, size) ==>
              Serve(request, response).Served? && IsBlock(Serve(request, response).message, response, num, size)
  {
    hide Serve, IsBlock, AsksBlock, BlockSizeCode;
    if BlockSizeCode(size) && AsksBlock(request, num, size) {
      ServeExact(request, response, num, size);
    }
  }

  // ----- no block -----

  /**
   * A request without a Block2 option is answered with the response as its handler left it, unless it has a Block1 option
   * that a successful response does not answer; the latter is refused, whatever else the request asks for.
   */
  lemma ServeWhole(request: Packet, response: Packet)
    ensures Serve(request, response).NoBlock1Support? <==>
              BLOCK1 in request.options && BLOCK1 !in response.options && response.code < BAD_REQUEST_4_00
    ensures BLOCK2 !in request.options && Serve(request, response).Served? ==> Serve(request, response).message == response
  {
  }

  /**
   * The answer to an ordinary request, one without a block option: the datagram parses to the code and the payload the
   * handler gave, with the token of the request, and to an acknowledgement of its id for a confirmable one.
   */
  lemma WholeTrip(request: Packet, mid: u16, status: byte, payload: seq<byte>)
    requires BLOCK2 !in request.options && BLOCK1 !in request.options
    requires |request.token| <= COAP_TOKEN_LEN && |payload| <= REST_MAX_CHUNK_SIZE
    ensures var answer := Reply(request, mid, status, None).(payload := payload);
            && Serve(request, answer).Served?
            && var m := Serve(request, answer).message;
               var q := Received(m);
               && Delivers(m, q)
               && q.code == status && q.payload == payload && q.token == request.token && q.options <= {TOKEN}
               && (if request.kind == Con then q.kind == Ack && q.mid == request.mid else q.kind == Non && q.mid == mid)
  {
    var answer := Reply(request, mid, status, None).(payload := payload);
    ServeWhole(request, answer);
    PlainReply(request, mid, status, payload);
    hide Serve, Reply, EncodeFrom, Received, Serialized, Parse, WellFormed;
    NoOptions(answer);
    Arrives(answer);
  }

  lemma PlainReply(request: Packet, mid: u16, status: byte, payload: seq<byte>)
    requires |request.token| <= COAP_TOKEN_LEN && |payload| <= REST_MAX_CHUNK_SIZE
    ensures var m := Reply(request, mid, status, None).(payload := payload);
            && WellFormed(m) && OnlyOptions(m, {}) && m.options <= {TOKEN}
            && m.code == status && m.payload == payload && m.token == request.token
            && (if request.kind == Con then m.kind == Ack && m.mid == request.mid else m.kind == Non && m.mid == mid)
  {
    assert request.token[..|request.token|] == request.token;
  }

  // ----- all blocks -----

  function Payloads(messages: seq<Packet>): seq<byte> {
    if messages == [] then [] else Payloads(messages[..|messages| - 1]) + messages[|messages| - 1].payload
  }

  /** How many blocks a payload has. */
  function BlockCount(length: nat, size: u16): nat
    requires size > 0
  {
    (length + size - 1) / size
  }

  lemma Counted(length: nat, size: u16, k: nat)
    requires BlockSizeCode(size)
    ensures k < BlockCount(length, size) <==> k * size < length
  {
  }

  /** The answers to the requests for the blocks 0, 1, 2, … of one response. */
  ghost predicate ServedInTurn(requests: seq<Packet>, messages: seq<Packet>, response: Packet, size: u16) {
    && |messages| == |requests|
    && forall k :: 0 <= k < |requests| ==> AsksBlock(requests[k], k, size) && Serve(requests[k], response) == Served(messages[k])
  }

  lemma {:induction false} PayloadsPrefix(requests: seq<Packet>, messages: seq<Packet>, response: Packet, size: u16)
    requires BlockSizeCode(size) && |response.payload| <= REST_MAX_CHUNK_SIZE
    requires ServedInTurn(requests, messages, response, size)
    requires |messages| <= BlockCount(|response.payload|, size)
    ensures Payloads(messages) == response.payload[..Min(|messages| * size, |response.payload|)]
    decreases |messages|
  {
    hide Serve, AsksBlock, BlockCount;
    if messages != [] {
      var k := |messages| - 1;
      PayloadsPrefix(requests[..k], messages[..k], response, size);
      Counted(|response.payload|, size, k);
      ServeExact(requests[k], response, k, size);
      BlockJoins(response.payload, size, k);
    }
  }

  lemma BlockJoins(payload: seq<byte>, size: u16, k: nat)
    requires BlockSizeCode(size) && k * size < |payload| <= REST_MAX_CHUNK_SIZE
    ensures var s := Min(size, REST_MAX_CHUNK_SIZE);
            payload[..k * size] + payload[k * size..Min(k * size + s, |payload|)] == payload[..Min((k + 1) * size, |payload|)]
  {
    assert (k + 1) * size == k * size + size;
  }

  /**
   * The blocks of a response add up to its payload, all but the last are marked as followed by more, and the next
   * one is out of scope.
   */
  lemma Reassembly(requests: seq<Packet>, messages: seq<Packet>, response: Packet, size: u16)
    requires BlockSizeCode(size) && 1 <= |response.payload| <= REST_MAX_CHUNK_SIZE
    requires ServedInTurn(requests, messages, response, size)
    requires |messages| == BlockCount(|response.payload|, size) + 1
    ensures var last := |messages| - 2;
            && 0 <= last
            && Payloads(messages[..last + 1]) == response.payload
            && (forall k :: 0 <= k <= last ==> BLOCK2 in messages[k].options && (messages[k].block2.more != 0 <==> k < last))
            && messages[last + 1].code == BAD_OPTION_4_02 && messages[last + 1].payload == BLOCK_OUT_OF_SCOPE
  {
    hide Serve, AsksBlock, BlockCount, BlockFits, Payloads;
    var n := |messages| - 1;
    Counted(|response.payload|, size, 0);
    Counted(|response.payload|, size, n);
    PayloadsPrefix(requests[..n], messages[..n], response, size);
    forall k | 0 <= k < n
      ensures BLOCK2 in messages[k].options && (messages[k].block2.more != 0 <==> k < n - 1)
    {
      Counted(|response.payload|, size, k);
      Counted(|response.payload|, size, k + 1);
      ServeExact(requests[k], response, k, size);
      MoreMeansNext(|response.payload|, size, k);
    }
    ServeExact(requests[n], response, n, size);
    assert response.payload[..|response.payload|] == response.payload;
  }

  lemma MoreMeansNext(length: nat, size: u16, k: nat)
    requires BlockSizeCode(size) && k * size < length <= REST_MAX_CHUNK_SIZE
    ensures k * size + Min(size, REST_MAX_CHUNK_SIZE) < length <==> (k + 1) * size < length
  {
    assert (k + 1) * size == k * size + size;
  }

  // ----- on the wire -----

  /** A request for a block arrives as one. */
  lemma BlockRequestTrip(uri: Uri, mid: u16, num: nat, size: u16)
    requires num <= 0xF_FFFF && BlockSizeCode(size)
    ensures var p := WithBlock2(ManagementRequest(COAP_GET, uri, mid), num, false, size);
            Delivers(p, Received(p)) && AsksBlock(Received(p), num, size)
  {
    var p := WithBlock2(ManagementRequest(COAP_GET, uri, mid), num, false, size);
    BlockRequestShape(uri, mid, num, size);
    assert Received(p).block2 == BlockOf(BlockValue(Block(num, 0, size, 0))) by {
      hide BlockOf, BlockValue, Segments;
    }
    hide Segments, WithBlock2, ManagementRequest, WellFormed, Values, EncodeFrom, EncodeValues, Received, Serialized, Parse,
         BlockOf, BlockValue, Minimal;
    TwoOptions(p, URI_PATH, BLOCK2);
    SegmentsEncoded(URI_PATH, uri);
    MinimalLength(BlockValue(p.block2));
    ShortValues(BLOCK2 - URI_PATH, [Minimal(BlockValue(p.block2))]);
    WeightBound([Minimal(BlockValue(p.block2))], 4);
    hide Weight;
    Arrives(p);
  }

  lemma BlockRequestShape(uri: Uri, mid: u16, num: nat, size: u16)
    requires num <= 0xF_FFFF && BlockSizeCode(size)
    ensures var p := WithBlock2(ManagementRequest(COAP_GET, uri, mid), num, false, size);
            && WellFormed(p) && OnlyOptions(p, {URI_PATH, BLOCK2}) && p.token == []
            && p.block2 == Block(num, 0, size, 0)
            && Values(p, URI_PATH) == Segments(uri) && Values(p, BLOCK2) == [Minimal(BlockValue(p.block2))]
  {
    SegmentsShort(uri);
    hide Segments, BlockValue, Minimal;
  }

  lemma BlockShape(request: Packet, response: Packet, num: nat, size: u16)
    requires BlockSizeCode(size) && AsksBlock(request, num, size)
    requires WellFormed(response) && OnlyOptions(response, {}) && num * size < |response.payload|
    ensures Serve(request, response).Served?
    ensures var m := Serve(request, response).message;
            WellFormed(m) && OnlyOptions(m, {BLOCK2}) && BlockFits(m.block2) && m.token == response.token
  {
    ServeExact(request, response, num, size);
    hide BlockOf, BlockValue;
  }

  lemma BlockEncoded(m: Packet)
    requires OnlyOptions(m, {BLOCK2})
    ensures |EncodeFrom(m, 1, 0)| <= 6
  {
    OneOption(m, BLOCK2);
    BlockLength(m);
    hide EncodeFrom, EncodeValues, BlockValue, Minimal;
  }

  /** A block arrives with its number, its more bit and its bytes. */
  lemma BlockArrives(request: Packet, response: Packet, num: nat, size: u16)
    requires BlockSizeCode(size) && AsksBlock(request, num, size)
    requires WellFormed(response) && OnlyOptions(response, {}) && num * size < |response.payload|
    ensures Serve(request, response).Served?
    ensures var m := Serve(request, response).message; Delivers(m, Received(m))
  {
    BlockShape(request, response, num, size);
    var m := Serve(request, response).message;
    hide Serve, AsksBlock, EncodeFrom, Received, Serialized, Parse, BlockFits;
    BlockEncoded(m);
    assert |m.token| <= COAP_TOKEN_LEN;
    hide WellFormed;
    Arrives(m);
  }

  lemma BlockLength(m: Packet)
    ensures |EncodeValues(BLOCK2, [Minimal(BlockValue(m.block2))])| <= 6
  {
    hide BlockValue, Minimal;
    MinimalLength(BlockValue(m.block2));
    EncodeOne(BLOCK2, Minimal(BlockValue(m.block2)));
  }
}
