/** What the parser makes of datagrams nobody serialized: any bytes at all. */
module CoapReceive {
  import opened Bytes
  import opened CoapOption
  import opened CoapPacket
  import opened CoapRoundTrip
  import opened CoapFidelity

  /** The fields fit the room coap_packet_t has for them, and blocks have a size with a code. */
  predicate Shaped(p: Packet) {
    && (forall k :: k in p.options ==> k < OPTION_LIMIT)
    && |p.token| <= COAP_TOKEN_LEN && |p.etag| <= COAP_ETAG_LEN && |p.ifMatch| <= COAP_ETAG_LEN
    && |p.accept| <= COAP_MAX_ACCEPT_NUM && |p.payload| <= REST_MAX_CHUNK_SIZE
    && (BLOCK2 in p.options ==> BlockSizeCode(p.block2.size)) && (BLOCK1 in p.options ==> BlockSizeCode(p.block1.size))
  }

  lemma BlockShaped(v: u32)
    ensures BlockSizeCode(BlockOf(v).size)
  {
    SizeCodes();
  }

  lemma AbsorbShaped(p: Packet, number: nat, value: seq<byte>)
    requires Shaped(p) && number < OPTION_LIMIT && (number == ETAG || number == IF_MATCH ==> |value| <= COAP_ETAG_LEN)
    ensures Absorb(p, number, value).Accepted? ==> Shaped(Absorb(p, number, value).packet)
    ensures Absorb(p, number, value).Rejected? ==>
              Absorb(p, number, value).status in {BAD_OPTION_4_02, PROXYING_NOT_SUPPORTED_5_05}
  {
    BlockShaped(IntOption(value));
    hide BlockOf, BlockSizeCode, IntOption;
  }

  /** What a parse may end in: a message that fits, a refused option, or an access outside the datagram or the packet. */
  predicate Acceptable(r: Parsed) {
    match r
    case Accepted(p) => Shaped(p)
    case Rejected(status) => status in {BAD_OPTION_4_02, PROXYING_NOT_SUPPORTED_5_05}
    case Overrun => true
  }

  lemma RoundShaped(d: seq<byte>, number: nat, p: Packet)
    requires d != [] && Shaped(p)
    ensures match ParseRound(d, number, p) case Stop(r) => Acceptable(r) case Go(_, _, next) => Shaped(next)
  {
    hide Absorb, ReadHeader, BlockSizeCode;
    if d[0] < 0xF0 {
      match ReadHeader(d)
      case None =>
      case Some(h) =>
        var n := number + h.delta;
        var touched := Touched(|p.accept|, n, h.length);
        if n < OPTION_LIMIT && h.size + touched <= |d| {
          AbsorbShaped(p, n, d[h.size..h.size + touched]);
        }
    }
  }

  lemma {:induction false} OptionsShaped(d: seq<byte>, number: nat, p: Packet)
    requires Shaped(p)
    ensures Acceptable(ParseOptions(d, number, p))
    decreases |d|
  {
    hide ParseRound, Shaped;
    if d != [] {
      RoundShaped(d, number, p);
      match ParseRound(d, number, p)
      case Stop(_) =>
      case Go(rest, n, next) => OptionsShaped(rest, n, next);
    }
  }

  // ----- which datagrams are parsed within bounds -----

  /** A number the parser stops at. */
  predicate Refused(number: nat) {
    number == PROXY_URI || (!Writable(number) && number % 2 == 1)
  }

  /**
   * Read option by option, from the last number and the Accept options so far: a header is cut off, a number is
   * beyond the bitmap, or a value that is looked at runs past the end, with no refused option in front.
   */
  predicate Strays(d: seq<byte>, number: nat, accepts: nat)
    decreases |d|
  {
    && d != [] && d[0] < 0xF0
    && match ReadHeader(d)
       case None => true
       case Some(h) =>
         var n := number + h.delta;
         || n >= OPTION_LIMIT
         || h.size + Touched(accepts, n, h.length) > |d|
         || (!Refused(n) && Strays(d[Min(|d|, h.size + h.length)..], n, if n == ACCEPT then accepts + 1 else accepts))
  }

  /** The whole datagram: a fixed header or a token that is cut off, or an option that strays. */
  predicate Leaves(d: seq<byte>) {
    |d| < COAP_HEADER_LEN
    || (d[0] / 64 == 1
        && var tkl := Min(COAP_TOKEN_LEN, d[0] % 16);
           |d| < COAP_HEADER_LEN + tkl || Strays(d[COAP_HEADER_LEN + tkl..], 0, 0))
  }

  /** Beyond two, the number of Accept options makes no difference. */
  lemma {:induction false} MoreAccepts(d: seq<byte>, number: nat, a: nat, b: nat)
    requires a == b || (a >= COAP_MAX_ACCEPT_NUM && b >= COAP_MAX_ACCEPT_NUM)
    ensures Strays(d, number, a) == Strays(d, number, b)
    decreases |d|
  {
    hide ReadHeader, Refused;
    if d != [] && d[0] < 0xF0 {
      match ReadHeader(d)
      case None =>
      case Some(h) =>
        var n := number + h.delta;
        var more := if n == ACCEPT then 1 else 0;
        MoreAccepts(d[Min(|d|, h.size + h.length)..], n, a + more, b + more);
    }
  }

  lemma AbsorbRefuses(p: Packet, number: nat, value: seq<byte>)
    ensures Absorb(p, number, value).Rejected? <==> Refused(number)
    ensures !Refused(number) ==>
              Absorb(p, number, value).Accepted?
              && |Absorb(p, number, value).packet.accept| ==
                 if number == ACCEPT && |p.accept| < COAP_MAX_ACCEPT_NUM then |p.accept| + 1 else |p.accept|
  {
    hide BlockOf, IntOption;
  }

  lemma {:induction false} OptionsStray(d: seq<byte>, number: nat, p: Packet)
    ensures ParseOptions(d, number, p) == Overrun <==> Strays(d, number, |p.accept|)
    decreases |d|
  {
    hide ReadHeader, Refused, Absorb, Touched;
    if d != [] && d[0] < 0xF0 && ReadHeader(d).Some? {
      var h := ReadHeader(d).value;
      var n := number + h.delta;
      var touched := Touched(|p.accept|, n, h.length);
      if n < OPTION_LIMIT && h.size + touched <= |d| {
        var r := Absorb(p, n, d[h.size..h.size + touched]);
        AbsorbRefuses(p, n, d[h.size..h.size + touched]);
        if r.Accepted? {
          var rest := d[Min(|d|, h.size + h.length)..];
          OptionsStray(rest, n, r.packet);
          MoreAccepts(rest, n, |r.packet.accept|, if n == ACCEPT then |p.accept| + 1 else |p.accept|);
        }
      }
    }
  }

  /**
   * Whatever arrives: a message the parser accepts fits the fields it is kept in; it is refused with 4.00 exactly
   * when its version is not 1; and the parser leaves the datagram or the packet exactly when the datagram strays.
   */
  lemma AnyDatagram(d: seq<byte>)
    ensures Parse(d).Accepted? ==> Shaped(Parse(d).packet)
    ensures Parse(d) == Rejected(BAD_REQUEST_4_00) <==> |d| >= COAP_HEADER_LEN && d[0] / 64 != 1
    ensures Parse(d).Rejected? ==> Parse(d).status in {BAD_REQUEST_4_00, BAD_OPTION_4_02, PROXYING_NOT_SUPPORTED_5_05}
    ensures Parse(d) == Overrun <==> Leaves(d)
  {
    hide ParseOptions, Strays;
    if |d| >= COAP_HEADER_LEN && d[0] / 64 == 1 {
      var tkl := Min(COAP_TOKEN_LEN, d[0] % 16);
      if |d| >= COAP_HEADER_LEN + tkl {
        var init := Init(TypeOf(d[0] / 16 % 4), d[1], (d[2] as int) * 0x100 + d[3]);
        var token := d[COAP_HEADER_LEN..COAP_HEADER_LEN + tkl];
        var p := if tkl == 0 then init else init.(token := token, options := {TOKEN});
        OptionsShaped(d[COAP_HEADER_LEN + tkl..], 0, p);
        OptionsStray(d[COAP_HEADER_LEN + tkl..], 0, p);
      }
    }
  }

  /**
   * An option the parser does not know ends the parse with 4.02 when its number is odd, and is passed over when
   * even, as long as the number is below 40; a larger one, odd or even, is marked outside the bitmap of the packet.
   */
  lemma UnknownOption(q: Packet, number: nat, delta: nat, value: seq<byte>, rest: seq<byte>)
    requires delta <= MAX_FIELD && |value| <= MAX_FIELD && !Writable(number + delta)
    ensures ParseOptions(Header(delta, |value|) + (value + rest), number, q) ==
            if number + delta >= OPTION_LIMIT then Overrun
            else if (number + delta) % 2 == 1 then Rejected(BAD_OPTION_4_02)
            else ParseOptions(rest, number + delta, q.(options := q.options + {number + delta}))
  {
    hide Header, ReadHeader;
    if number + delta < OPTION_LIMIT {
      hide ParseOptions;
      ParseOne(q, number, delta, value, rest);
    } else {
      HeaderRead(delta, |value|, value + rest);
    }
  }

  /** One elective option with such a number and nothing else is enough. */
  lemma NumberTooLarge(n: nat)
    requires OPTION_LIMIT <= n <= MAX_FIELD && n % 2 == 0
    ensures Parse([0x40, 1, 0, 0] + Header(n, 0)) == Overrun
  {
    hide Header, ParseOptions;
    var d := [0x40, 1, 0, 0] + Header(n, 0);
    assert d[4..] == Header(n, 0) + ([] + []);
    UnknownOption(Init(Con, 1, 0), 0, n, [], []);
    assert d[0] / 64 == 1 && d[0] % 16 == 0 && d[0] / 16 % 4 == 0;
    assert TypeOf(0) == Con && d[1] == 1 && d[2] == 0 && d[3] == 0;
  }
}
