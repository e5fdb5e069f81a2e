/**
 * CoAP messages as values: what coap_serialize_message puts on the wire for one, and what
 * coap_parse_message makes of a datagram.
 */
module CoapPacket {
  import opened Bytes
  import opened CoapOption
  import opened CoapStrings

  datatype MessageType = Con | Non | Ack | Rst

  datatype Block = Block(num: u32, more: byte, size: u16, offset: u32)

  const IF_MATCH := 1
  const URI_HOST := 3
  const ETAG := 4
  const IF_NONE_MATCH := 5
  const OBSERVE := 6
  const URI_PORT := 7
  const LOCATION_PATH := 8
  const URI_PATH := 11
  const CONTENT_TYPE := 12
  const MAX_AGE := 14
  const URI_QUERY := 15
  const ACCEPT := 16
  const TOKEN := 19
  const LOCATION_QUERY := 20
  const BLOCK2 := 23
  const BLOCK1 := 27
  const SIZE := 28
  const PROXY_URI := 35

  const COAP_HEADER_LEN := 4
  const COAP_TOKEN_LEN := 8
  const COAP_ETAG_LEN := 8
  const COAP_MAX_ACCEPT_NUM := 2
  const COAP_MAX_HEADER_SIZE := 4 + 3 + 5 + 1 + COAP_ETAG_LEN + 3 + 1 + COAP_TOKEN_LEN + 4 + 30
  const REST_MAX_CHUNK_SIZE := 128
  const COAP_MAX_PACKET_SIZE := COAP_MAX_HEADER_SIZE + REST_MAX_CHUNK_SIZE

  const COAP_GET: byte := 1
  const COAP_POST: byte := 2
  const COAP_PUT: byte := 3
  const COAP_DELETE: byte := 4

  const CREATED_2_01: byte := 65
  const DELETED_2_02: byte := 66
  const CHANGED_2_04: byte := 68
  const CONTENT_2_05: byte := 69
  const BAD_REQUEST_4_00: byte := 128
  const UNAUTHORIZED_4_01: byte := 129
  const BAD_OPTION_4_02: byte := 130
  const NOT_FOUND_4_04: byte := 132
  const METHOD_NOT_ALLOWED_4_05: byte := 133
  const INTERNAL_SERVER_ERROR_5_00: byte := 160
  const NOT_IMPLEMENTED_5_01: byte := 161
  const SERVICE_UNAVAILABLE_5_03: byte := 163
  const PROXYING_NOT_SUPPORTED_5_05: byte := 165

  /** coap_packet_t. The bitmap of set options is the set of their numbers. */
  datatype Packet = Packet(
    kind: MessageType, code: byte, mid: u16, token: seq<byte>, options: set<nat>,
    ifMatch: seq<byte>, uriHost: seq<byte>, etag: seq<byte>, ifNoneMatch: bool,
    observe: u32, uriPort: u16, locationPath: seq<byte>, uriPath: seq<seq<byte>>,
    contentType: u32, maxAge: u32, uriQuery: seq<seq<byte>>, accept: seq<u16>,
    locationQuery: seq<byte>, block2: Block, block1: Block, size: u32, proxyUri: seq<byte>,
    payload: seq<byte>)

  const NO_BLOCK := Block(0, 0, 0, 0)

  /** coap_init_message */
  function Init(kind: MessageType, code: byte, mid: u16): Packet {
    Packet(kind, code, mid, [], {}, [], [], [], false, 0, 0, [], [], 0, 0, [], [], [], NO_BLOCK, NO_BLOCK, 0, [], [])
  }

  /** A message whose token fits its field. */
  type Message = p: Packet | |p.token| <= COAP_TOKEN_LEN witness Init(Con, 0, 0)

  function TypeBits(t: MessageType): nat {
    match t case Con => 0 case Non => 1 case Ack => 2 case Rst => 3
  }

  function TypeOf(bits: nat): MessageType {
    if bits == 0 then Con else if bits == 1 then Non else if bits == 2 then Ack else Rst
  }

  // ----- serializing -----

  /** coap_log_2, the position of the highest set bit, with 0 for 0. */
  function Log2(v: u16): nat {
    if v < 2 then 0 else 1 + Log2(v / 2)
  }

  /** The number a block option carries: num shifted by 4, the more flag as 8, the size exponent below. */
  function BlockValue(b: Block): u32 {
    var szx := Log2(b.size / 16) % 16;
    (b.num * 16) % 0x1_0000_0000 + (if b.more != 0 && szx < 8 then szx + 8 else szx)
  }

  function Shorts(s: seq<u16>): (r: seq<seq<byte>>)
    ensures |r| == |s| && forall i :: 0 <= i < |s| ==> r[i] == Minimal(s[i])
  {
    seq(|s|, i requires 0 <= i < |s| => Minimal(s[i]))
  }

  /** The options the serializer knows how to write, in the order it writes them. */
  predicate Writable(number: nat) {
    number in {IF_MATCH, URI_HOST, ETAG, IF_NONE_MATCH, OBSERVE, URI_PORT, LOCATION_PATH, URI_PATH, CONTENT_TYPE,
               MAX_AGE, URI_QUERY, ACCEPT, LOCATION_QUERY, BLOCK2, BLOCK1, SIZE, PROXY_URI}
  }

  /** The values written under one option number, one option each. */
  function Values(p: Packet, number: nat): seq<seq<byte>> {
    if number == IF_MATCH then [p.ifMatch]
    else if number == URI_HOST then [p.uriHost]
    else if number == ETAG then [p.etag]
    else if number == IF_NONE_MATCH then [[]]
    else if number == OBSERVE then [Minimal(p.observe)]
    else if number == URI_PORT then [Minimal(p.uriPort)]
    else if number == LOCATION_PATH then Split(p.locationPath, SLASH)
    else if number == URI_PATH then p.uriPath
    else if number == CONTENT_TYPE then [Minimal(p.contentType)]
    else if number == MAX_AGE then [Minimal(p.maxAge)]
    else if number == URI_QUERY then p.uriQuery
    else if number == ACCEPT then Shorts(p.accept)
    else if number == LOCATION_QUERY then Split(p.locationQuery, AMPERSAND)
    else if number == BLOCK2 then [Minimal(BlockValue(p.block2))]
    else if number == BLOCK1 then [Minimal(BlockValue(p.block1))]
    else if number == SIZE then [Minimal(p.size)]
    else if number == PROXY_URI then [p.proxyUri]
    else []
  }

  /** Equal-numbered options in a row: the first carries the delta, the others a delta of 0. */
  function EncodeValues(delta: nat, values: seq<seq<byte>>): seq<byte> {
    if values == [] then []
    else Header(delta, |values[0]|) + values[0] + EncodeValues(0, values[1..])
  }

  lemma EncodeNone(delta: nat)
    ensures EncodeValues(delta, []) == []
  {
    var none: seq<seq<byte>> := [];
    assert EncodeValues(delta, none) == [];
  }

  lemma EncodeCons(delta: nat, first: seq<byte>, rest: seq<seq<byte>>)
    ensures EncodeValues(delta, [first] + rest) == Header(delta, |first|) + first + EncodeValues(0, rest)
  {
    assert ([first] + rest)[1..] == rest;
  }

  lemma EncodeOne(delta: nat, value: seq<byte>)
    ensures EncodeValues(delta, [value]) == Header(delta, |value|) + value
  {
    assert [value][1..] == [];
  }

  /** current_number after the options numbered n: the Accept macro sets it only inside its loop. */
  function NumberAfter(p: Packet, n: nat, current: nat): nat {
    if n == ACCEPT && p.accept == [] then current else n
  }

  /** The options numbered n and above, current being the number the next delta counts from. */
  function EncodeFrom(p: Packet, n: nat, current: nat): seq<byte>
    requires current <= n
    decreases PROXY_URI + 1 - n
  {
    if n > PROXY_URI then []
    else if Writable(n) && n in p.options then
      EncodeValues(n - current, Values(p, n)) + EncodeFrom(p, n + 1, NumberAfter(p, n, current))
    else EncodeFrom(p, n + 1, current)
  }

  lemma EncodeFromHere(p: Packet, n: nat, current: nat)
    requires current <= n && Writable(n) && n in p.options
    ensures EncodeFrom(p, n, current) ==
            EncodeValues(n - current, Values(p, n)) + EncodeFrom(p, n + 1, NumberAfter(p, n, current))
  {
    hide EncodeValues, Values;
  }

  lemma {:induction false} EncodeSkips(p: Packet, n: nat, m: nat, current: nat)
    requires current <= n <= m
    requires forall k :: n <= k < m ==> !Writable(k) || k !in p.options
    ensures EncodeFrom(p, n, current) == EncodeFrom(p, m, current)
    decreases m - n
  {
    if n < m {
      EncodeSkips(p, n + 1, m, current);
    }
  }

  function FixedHeader(p: Packet): (h: seq<byte>)
    requires |p.token| <= COAP_TOKEN_LEN
    ensures |h| == COAP_HEADER_LEN
  {
    [0x40 + TypeBits(p.kind) * 16 + |p.token|, p.code, p.mid / 0x100, p.mid % 0x100]
  }

  function Head(p: Packet): seq<byte>
    requires |p.token| <= COAP_TOKEN_LEN
  {
    FixedHeader(p) + p.token + EncodeFrom(p, 1, 0)
  }

  function Trailer(p: Packet): seq<byte> {
    if p.payload == [] then [] else [0xFF] + p.payload
  }

  /** The datagram for p; empty when the header is too long, which the source reports as length 0. */
  function Serialized(p: Packet): (wire: seq<byte>)
    requires |p.token| <= COAP_TOKEN_LEN
  {
    if |Head(p)| <= COAP_MAX_HEADER_SIZE then Head(p) + Trailer(p) else []
  }

  // ----- parsing -----

  /** The bitmap of set options has a bit for each number below this. */
  const OPTION_LIMIT := (PROXY_URI / 8 + 1) * 8

  /**
   * Overrun marks a datagram whose option runs past its end, so that the source reads on beyond the
   * buffer, or has a number beyond the bitmap of set options, which the source then writes past. There
   * is no check for either, and C leaves both undefined.
   */
  datatype Parsed = Accepted(packet: Packet) | Rejected(status: byte) | Overrun

  /** coap_parse_int_option: bits shifted out of the 32-bit result are lost. */
  function IntOption(value: seq<byte>): u32 {
    BigEndian(value) % 0x1_0000_0000
  }

  function BlockSize(szx: nat): u16
    requires szx < 8
  {
    assert Shl(16, 7) == 2048;
    ShlMonotone(16, szx, 7);
    Shl(16, szx)
  }

  lemma {:induction false} ShlMonotone(v: nat, m: nat, n: nat)
    requires m <= n
    ensures Shl(v, m) <= Shl(v, n)
    decreases n
  {
    if m < n {
      ShlMonotone(v, m, n - 1);
    }
  }

  function BlockOf(v: u32): Block {
    Block(v / 16, (v / 8) % 2, BlockSize(v % 8), Shl(v / 16 * 16, v % 8) % 0x1_0000_0000)
  }

  /** How many bytes of an option's value the parser looks at or points to, accepts being the Accept options so far. */
  function Touched(accepts: nat, number: nat, length: nat): (t: nat)
    ensures t <= length
  {
    if number == ETAG || number == IF_MATCH then Min(COAP_ETAG_LEN, length)
    else if number == ACCEPT then if accepts < COAP_MAX_ACCEPT_NUM then length else 0
    else if number == IF_NONE_MATCH || number == PROXY_URI || !Writable(number) then 0
    else length
  }

  /** One round of the switch in coap_parse_message. */
  function Absorb(q: Packet, number: nat, value: seq<byte>): Parsed {
    var p := q.(options := q.options + {number});
    if number == CONTENT_TYPE then Accepted(p.(contentType := IntOption(value)))
    else if number == MAX_AGE then Accepted(p.(maxAge := IntOption(value)))
    else if number == ETAG then Accepted(p.(etag := value))
    else if number == ACCEPT then
      if |p.accept| < COAP_MAX_ACCEPT_NUM
      then Accepted(p.(accept := p.accept + [IntOption(value) % 0x1_0000]))
      else Accepted(p)
    else if number == IF_MATCH then Accepted(p.(ifMatch := value))
    else if number == IF_NONE_MATCH then Accepted(p.(ifNoneMatch := true))
    else if number == URI_HOST then Accepted(p.(uriHost := value))
    else if number == URI_PORT then Accepted(p.(uriPort := IntOption(value) % 0x1_0000))
    else if number == URI_PATH then Accepted(p.(uriPath := p.uriPath + [value]))
    else if number == URI_QUERY then Accepted(p.(uriQuery := p.uriQuery + [value]))
    else if number == LOCATION_PATH then Accepted(p.(locationPath := Merged(p.locationPath, value, SLASH)))
    else if number == LOCATION_QUERY then Accepted(p.(locationQuery := Merged(p.locationQuery, value, AMPERSAND)))
    else if number == PROXY_URI then Rejected(PROXYING_NOT_SUPPORTED_5_05)
    else if number == OBSERVE then Accepted(p.(observe := IntOption(value)))
    else if number == BLOCK2 then Accepted(p.(block2 := BlockOf(IntOption(value))))
    else if number == BLOCK1 then Accepted(p.(block1 := BlockOf(IntOption(value))))
    else if number == SIZE then Accepted(p.(size := IntOption(value)))
    else if number % 2 == 1 then Rejected(BAD_OPTION_4_02)
    else Accepted(p)
  }

  /** One round of the parse loop: it ends the parse, or goes on with what is left of the datagram. */
  datatype Round = Stop(result: Parsed) | Go(rest: seq<byte>, number: nat, packet: Packet)

  function OptionRound(d: seq<byte>, number: nat, p: Packet, h: Fields): (r: Round)
    requires 1 <= h.size <= |d|
    ensures r.Go? ==> |r.rest| < |d|
  {
    var n := number + h.delta;
    var touched := Touched(|p.accept|, n, h.length);
    if n >= OPTION_LIMIT || h.size + touched > |d| then Stop(Overrun)
    else
      match Absorb(p, n, d[h.size..h.size + touched])
      case Accepted(next) => Go(d[Min(|d|, h.size + h.length)..], n, next)
      case stop => Stop(stop)
  }

  function ParseRound(d: seq<byte>, number: nat, p: Packet): (r: Round)
    requires d != []
    ensures r.Go? ==> |r.rest| < |d|
  {
    if d[0] >= 0xF0 then Stop(Accepted(p.(payload := d[1..][..Min(REST_MAX_CHUNK_SIZE, |d| - 1)])))
    else
      match ReadHeader(d)
      case None => Stop(Overrun)
      case Some(h) => OptionRound(d, number, p, h)
  }

  /** The parse loop: d is what is left of the datagram, number the last option number. */
  function ParseOptions(d: seq<byte>, number: nat, p: Packet): Parsed
    decreases |d|
  {
    if d == [] then Accepted(p)
    else
      match ParseRound(d, number, p)
      case Stop(r) => r
      case Go(rest, n, next) => ParseOptions(rest, n, next)
  }

  /** coap_parse_message */
  function Parse(d: seq<byte>): Parsed {
    if |d| < COAP_HEADER_LEN then Overrun
    else if d[0] / 64 != 1 then Rejected(BAD_REQUEST_4_00)
    else
      var tkl := Min(COAP_TOKEN_LEN, d[0] % 16);
      if |d| < COAP_HEADER_LEN + tkl then Overrun
      else
        var init := Init(TypeOf(d[0] / 16 % 4), d[1], (d[2] as int) * 0x100 + d[3]);
        var token := d[COAP_HEADER_LEN..COAP_HEADER_LEN + tkl];
        ParseOptions(d[COAP_HEADER_LEN + tkl..], 0,
          if tkl == 0 then init else init.(token := token, options := {TOKEN}))
  }
}
