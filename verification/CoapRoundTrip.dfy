/** Parsing what was serialized: what comes back, for every message, and when that is the message itself. */
module CoapRoundTrip {
  import opened Bytes
  import opened CoapOption
  import opened CoapPacket
  import opened CoapStrings

  /** What the option setters leave in a message that coap_init_message started. */
  ghost predicate WellFormed(p: Packet) {
    && |p.token| <= COAP_TOKEN_LEN && |p.etag| <= COAP_ETAG_LEN && |p.ifMatch| <= COAP_ETAG_LEN
    && |p.payload| <= REST_MAX_CHUNK_SIZE
    && (TOKEN in p.options <==> p.token != [])
    && (URI_PATH in p.options ==> p.uriPath != [])
    && (URI_QUERY in p.options ==> p.uriQuery != [])
    && (ACCEPT in p.options ==> 1 <= |p.accept| <= COAP_MAX_ACCEPT_NUM)
    && (forall k :: k in p.options ==> Writable(k) || k == TOKEN)
  }

  // ----- reading back a run of equal-numbered options -----

  function AbsorbAll(q: Packet, number: nat, values: seq<seq<byte>>): Parsed
    decreases |values|
  {
    if values == [] then Accepted(q)
    else
      match Absorb(q, number, values[0])
      case Accepted(next) => AbsorbAll(next, number, values[1..])
      case stop => stop
  }

  function Then(r: Parsed, rest: seq<byte>, number: nat): Parsed {
    match r case Accepted(q) => ParseOptions(rest, number, q) case stop => stop
  }

  ghost predicate Readable(number: nat, value: seq<byte>) {
    number < OPTION_LIMIT && |value| <= MAX_FIELD && (number == ETAG || number == IF_MATCH ==> |value| <= COAP_ETAG_LEN)
  }

  lemma AbsorbTouched(q: Packet, number: nat, value: seq<byte>)
    requires Readable(number, value)
    ensures Absorb(q, number, value[..Touched(|q.accept|, number, |value|)]) == Absorb(q, number, value)
  {
    if Touched(|q.accept|, number, |value|) == |value| {
      assert value[..|value|] == value;
    }
  }

  lemma ParseOne(q: Packet, number: nat, delta: nat, value: seq<byte>, rest: seq<byte>)
    requires delta <= MAX_FIELD && Readable(number + delta, value)
    ensures ParseOptions(Header(delta, |value|) + (value + rest), number, q) ==
            Then(Absorb(q, number + delta, value), rest, number + delta)
  {
    hide Header, ReadHeader, ParseOptions, Absorb;
    var h := Header(delta, |value|);
    HeaderRead(delta, |value|, value + rest);
    ParseHeaded(q, number, h + (value + rest), Fields(delta, |value|, |h|), value, rest);
  }

  lemma ParseHeaded(q: Packet, number: nat, d: seq<byte>, f: Fields, value: seq<byte>, rest: seq<byte>)
    requires 1 <= f.size <= |d| && d[f.size..] == value + rest && f.length == |value|
    requires d[0] < 0xF0 && ReadHeader(d) == Some(f)
    requires Readable(number + f.delta, value)
    ensures ParseOptions(d, number, q) == Then(Absorb(q, number + f.delta, value), rest, number + f.delta)
  {
    hide ReadHeader, OptionRound, Absorb;
    RoundOne(q, number, d, f, value, rest);
    assert ParseRound(d, number, q) == OptionRound(d, number, q, f);
  }

  lemma RoundOne(q: Packet, number: nat, d: seq<byte>, f: Fields, value: seq<byte>, rest: seq<byte>)
    requires 1 <= f.size <= |d| && d[f.size..] == value + rest && f.length == |value|
    requires Readable(number + f.delta, value)
    ensures OptionRound(d, number, q, f) ==
            match Absorb(q, number + f.delta, value)
            case Accepted(next) => Go(rest, number + f.delta, next)
            case stop => Stop(stop)
  {
    hide Absorb;
    var t := Touched(|q.accept|, number + f.delta, |value|);
    AbsorbTouched(q, number + f.delta, value);
    assert |d| == f.size + |value| + |rest|;
    assert d[f.size..f.size + t] == d[f.size..][..t] == value[..t];
    assert d[f.size + |value|..] == d[f.size..][|value|..] == rest;
  }

  lemma {:induction false} ParseValues(q: Packet, number: nat, delta: nat, values: seq<seq<byte>>, rest: seq<byte>)
    requires delta <= MAX_FIELD
    requires forall v :: v in values ==> Readable(number + delta, v)
    requires values != []
    ensures ParseOptions(EncodeValues(delta, values) + rest, number, q) ==
            Then(AbsorbAll(q, number + delta, values), rest, number + delta)
    decreases |values|
  {
    hide Absorb, ParseOptions, Header, EncodeValues, Readable;
    assert forall v :: v in values[1..] ==> v in values;
    assert values == [values[0]] + values[1..];
    EncodeCons(delta, values[0], values[1..]);
    EncodeNone(0);
    var tail := EncodeValues(0, values[1..]);
    assert EncodeValues(delta, values) + rest == Header(delta, |values[0]|) + (values[0] + (tail + rest));
    assert values[0] in values;
    ParseOne(q, number, delta, values[0], tail + rest);
    var r := Absorb(q, number + delta, values[0]);
    if r.Accepted? {
      if |values| == 1 {
        assert tail + rest == rest;
      } else {
        ParseValues(r.packet, number + delta, 0, values[1..], rest);
      }
    }
  }

  // ----- what the receiver has built when the options below n are read -----

  ghost function OptionsBelow(p: Packet, n: nat): set<nat> {
    (set k | k in p.options && k < n && Writable(k)) + (if p.token == [] then {} else {TOKEN})
  }

  predicate On(p: Packet, n: nat, k: nat) {
    k < n && k in p.options
  }

  ghost function Partial(p: Packet, n: nat): Packet {
    Packet(p.kind, p.code, p.mid, p.token, OptionsBelow(p, n),
      if On(p, n, IF_MATCH) then p.ifMatch else [],
      if On(p, n, URI_HOST) then p.uriHost else [],
      if On(p, n, ETAG) then p.etag else [],
      On(p, n, IF_NONE_MATCH),
      if On(p, n, OBSERVE) then p.observe else 0,
      if On(p, n, URI_PORT) then p.uriPort else 0,
      if On(p, n, LOCATION_PATH) then Joined(Split(p.locationPath, SLASH), SLASH) else [],
      if On(p, n, URI_PATH) then p.uriPath else [],
      if On(p, n, CONTENT_TYPE) then p.contentType else 0,
      if On(p, n, MAX_AGE) then p.maxAge else 0,
      if On(p, n, URI_QUERY) then p.uriQuery else [],
      if On(p, n, ACCEPT) then p.accept else [],
      if On(p, n, LOCATION_QUERY) then Joined(Split(p.locationQuery, AMPERSAND), AMPERSAND) else [],
      if On(p, n, BLOCK2) then BlockOf(BlockValue(p.block2)) else NO_BLOCK,
      if On(p, n, BLOCK1) then BlockOf(BlockValue(p.block1)) else NO_BLOCK,
      if On(p, n, SIZE) then p.size else 0,
      [], [])
  }

  /** The message the other side gets. */
  ghost function Received(p: Packet): Packet {
    Partial(p, PROXY_URI + 1).(payload := p.payload)
  }

  lemma OptionsStep(p: Packet, n: nat)
    ensures OptionsBelow(p, n + 1) == OptionsBelow(p, n) + (if n in p.options && Writable(n) then {n} else {})
  {
  }

  lemma PartialSkips(p: Packet, n: nat)
    requires n !in p.options || !Writable(n)
    ensures Partial(p, n + 1) == Partial(p, n)
  {
    OptionsStep(p, n);
  }

  lemma IntSurvives(v: u32)
    ensures IntOption(Minimal(v)) == v
  {
    MinimalInverse(v);
  }

  lemma {:induction false} AbsorbSegments(q: Packet, number: nat, segments: seq<seq<byte>>)
    requires number == URI_PATH || number == URI_QUERY || number == LOCATION_PATH || number == LOCATION_QUERY
    requires segments != []
    ensures AbsorbAll(q, number, segments) == Accepted(
      var p := q.(options := q.options + {number});
      if number == URI_PATH then p.(uriPath := q.uriPath + segments)
      else if number == URI_QUERY then p.(uriQuery := q.uriQuery + segments)
      else if number == LOCATION_PATH then p.(locationPath := JoinedOnto(q.locationPath, segments, SLASH))
      else p.(locationQuery := JoinedOnto(q.locationQuery, segments, AMPERSAND)))
    decreases |segments|
  {
    var next := Absorb(q, number, segments[0]).packet;
    assert next.options + {number} == q.options + {number};
    if |segments| == 1 {
      assert segments[1..] == [];
    } else {
      AbsorbSegments(next, number, segments[1..]);
      assert [segments[0]] + segments[1..] == segments;
    }
    assert q.uriPath + [segments[0]] + segments[1..] == q.uriPath + segments;
    assert q.uriQuery + [segments[0]] + segments[1..] == q.uriQuery + segments;
  }

  lemma AbsorbSegmented(p: Packet, n: nat)
    requires WellFormed(p) && n in p.options
    requires n == URI_PATH || n == URI_QUERY || n == LOCATION_PATH || n == LOCATION_QUERY
    ensures AbsorbAll(Partial(p, n), n, Values(p, n)) == Accepted(Partial(p, n + 1))
  {
    hide SplitFrom, AbsorbAll, BlockOf, BlockValue;
    OptionsStep(p, n);
    SplitNonempty(p.locationPath, SLASH, 0, 0);
    SplitNonempty(p.locationQuery, AMPERSAND, 0, 0);
    AbsorbSegments(Partial(p, n), n, Values(p, n));
    assert [] + p.uriPath == p.uriPath && [] + p.uriQuery == p.uriQuery;
  }

  lemma AbsorbOneAccept(q: Packet, value: seq<byte>, v: u16)
    requires |q.accept| < COAP_MAX_ACCEPT_NUM && IntOption(value) == v
    ensures Absorb(q, ACCEPT, value) ==
            Accepted(q.(options := q.options + {ACCEPT}, accept := q.accept + [v]))
  {
  }

  lemma AbsorbTwo(q: Packet, number: nat, values: seq<seq<byte>>)
    requires |values| == 2 && Absorb(q, number, values[0]).Accepted?
    ensures AbsorbAll(q, number, values) == Absorb(Absorb(q, number, values[0]).packet, number, values[1])
  {
    assert values[1..] == [values[1]];
    assert AbsorbAll(q, number, values) == AbsorbAll(Absorb(q, number, values[0]).packet, number, [values[1]]);
  }

  lemma AbsorbAccept(p: Packet)
    requires WellFormed(p) && ACCEPT in p.options
    ensures AbsorbAll(Partial(p, ACCEPT), ACCEPT, Values(p, ACCEPT)) == Accepted(Partial(p, ACCEPT + 1))
  {
    OptionsStep(p, ACCEPT);
    var q := Partial(p, ACCEPT);
    IntSurvives(p.accept[0]);
    AbsorbOneAccept(q, Shorts(p.accept)[0], p.accept[0]);
    var q1 := q.(options := q.options + {ACCEPT}, accept := [p.accept[0]]);
    assert [] + [p.accept[0]] == [p.accept[0]];
    if |p.accept| == 2 {
      IntSurvives(p.accept[1]);
      AbsorbOneAccept(q1, Shorts(p.accept)[1], p.accept[1]);
      AbsorbTwo(q, ACCEPT, Shorts(p.accept));
      assert q1.options + {ACCEPT} == q1.options;
      assert q1.accept + [p.accept[1]] == p.accept;
    } else {
      assert Shorts(p.accept) == [Minimal(p.accept[0])] && p.accept == [p.accept[0]];
    }
  }

  lemma AbsorbSingle(p: Packet, n: nat)
    requires WellFormed(p) && n in p.options && Writable(n) && n != PROXY_URI && n != ACCEPT
    requires n != URI_PATH && n != URI_QUERY && n != LOCATION_PATH && n != LOCATION_QUERY
    ensures |Values(p, n)| == 1
    ensures Absorb(Partial(p, n), n, Values(p, n)[0]) == Accepted(Partial(p, n + 1))
  {
    hide Minimal, BigEndian, BlockValue, BlockOf, Split;
    OptionsStep(p, n);
    if n == OBSERVE { IntSurvives(p.observe); }
    if n == URI_PORT { IntSurvives(p.uriPort); }
    if n == CONTENT_TYPE { IntSurvives(p.contentType); }
    if n == MAX_AGE { IntSurvives(p.maxAge); }
    if n == BLOCK2 { IntSurvives(BlockValue(p.block2)); }
    if n == BLOCK1 { IntSurvives(BlockValue(p.block1)); }
    if n == SIZE { IntSurvives(p.size); }
  }

  lemma AbsorbValues(p: Packet, n: nat)
    requires WellFormed(p) && n in p.options && Writable(n) && n != PROXY_URI
    ensures Values(p, n) != []
    ensures AbsorbAll(Partial(p, n), n, Values(p, n)) == Accepted(Partial(p, n + 1))
  {
    if n == URI_PATH || n == URI_QUERY || n == LOCATION_PATH || n == LOCATION_QUERY {
      AbsorbSegmented(p, n);
      SplitNonempty(p.locationPath, SLASH, 0, 0);
      SplitNonempty(p.locationQuery, AMPERSAND, 0, 0);
    } else if n == ACCEPT {
      AbsorbAccept(p);
    } else {
      AbsorbSingle(p, n);
      assert Values(p, n)[1..] == [];
    }
  }

  // ----- the whole message -----

  lemma {:induction false} EncodeValuesBound(delta: nat, values: seq<seq<byte>>)
    ensures forall v :: v in values ==> |v| <= |EncodeValues(delta, values)|
  {
    if values == [] {
    } else {
      EncodeValuesBound(0, values[1..]);
      assert forall v :: v in values ==> v == values[0] || v in values[1..];
    }
  }

  ghost predicate EndsOptions(tail: seq<byte>) {
    tail == [] || tail[0] >= 0xF0
  }

  lemma NumberIs(p: Packet, n: nat, current: nat)
    requires WellFormed(p) && n in p.options
    ensures NumberAfter(p, n, current) == n
  {
  }

  lemma ParseStep(p: Packet, n: nat, current: nat, tail: seq<byte>)
    requires WellFormed(p) && current <= n && Writable(n) && n in p.options
    requires |EncodeFrom(p, n, current)| <= COAP_MAX_HEADER_SIZE
    ensures |EncodeFrom(p, n + 1, n)| <= |EncodeFrom(p, n, current)|
    ensures ParseOptions(EncodeFrom(p, n, current) + tail, current, Partial(p, n)) ==
            if n == PROXY_URI then Rejected(PROXYING_NOT_SUPPORTED_5_05)
            else ParseOptions(EncodeFrom(p, n + 1, n) + tail, n, Partial(p, n + 1))
  {
    hide ParseOptions, Partial, EncodeValues, Values, WellFormed, EncodeFrom, NumberAfter, Writable;
    NumberIs(p, n, current);
    EncodeFromHere(p, n, current);
    var vs, rest := EncodeValues(n - current, Values(p, n)), EncodeFrom(p, n + 1, n);
    ParseFromHere(p, n, current, rest + tail);
    assert vs + rest + tail == vs + (rest + tail);
  }

  lemma {:induction false} ParseFrom(p: Packet, n: nat, current: nat, tail: seq<byte>)
    requires WellFormed(p) && current <= n <= PROXY_URI + 1
    requires |EncodeFrom(p, n, current)| <= COAP_MAX_HEADER_SIZE
    requires EndsOptions(tail)
    ensures ParseOptions(EncodeFrom(p, n, current) + tail, current, Partial(p, n)) ==
            if n <= PROXY_URI && PROXY_URI in p.options then Rejected(PROXYING_NOT_SUPPORTED_5_05)
            else ParseOptions(tail, 0, Partial(p, PROXY_URI + 1))
    decreases PROXY_URI + 1 - n
  {
    hide ParseOptions, Partial, EncodeValues, Values, WellFormed, EndsOptions, NumberAfter;
    if n == PROXY_URI + 1 {
      assert EncodeFrom(p, n, current) + tail == tail;
      EndIgnoresNumber(tail, current, Partial(p, n));
    } else if Writable(n) && n in p.options {
      hide EncodeFrom;
      ParseStep(p, n, current, tail);
      if n != PROXY_URI {
        ParseFrom(p, n + 1, n, tail);
      }
    } else {
      assert EncodeFrom(p, n, current) == EncodeFrom(p, n + 1, current);
      hide EncodeFrom;
      PartialSkips(p, n);
      ParseFrom(p, n + 1, current, tail);
    }
  }

  lemma EndIgnoresNumber(tail: seq<byte>, number: nat, q: Packet)
    requires EndsOptions(tail)
    ensures ParseOptions(tail, number, q) == ParseOptions(tail, 0, q)
  {
  }

  lemma ParseFromHere(p: Packet, n: nat, current: nat, rest: seq<byte>)
    requires WellFormed(p) && current <= n && Writable(n) && n in p.options
    requires |EncodeValues(n - current, Values(p, n))| <= COAP_MAX_HEADER_SIZE
    ensures ParseOptions(EncodeValues(n - current, Values(p, n)) + rest, current, Partial(p, n)) ==
            if n == PROXY_URI then Rejected(PROXYING_NOT_SUPPORTED_5_05)
            else ParseOptions(rest, n, Partial(p, n + 1))
  {
    hide ParseOptions, Partial, EncodeValues, Split, Minimal, BlockValue;
    EncodeValuesBound(n - current, Values(p, n));
    if n == PROXY_URI {
      ParseValues(Partial(p, n), current, n - current, Values(p, n), rest);
    } else {
      AbsorbValues(p, n);
      ParseValues(Partial(p, n), current, n - current, Values(p, n), rest);
    }
  }

  lemma FixedHeaderRead(p: Packet, rest: seq<byte>)
    requires |p.token| <= COAP_TOKEN_LEN
    ensures Parse(FixedHeader(p) + p.token + rest) ==
            var init := Init(p.kind, p.code, p.mid);
            ParseOptions(rest, 0, if p.token == [] then init else init.(token := p.token, options := {TOKEN}))
  {
    hide ParseOptions;
    var d := FixedHeader(p) + p.token + rest;
    var t := |p.token|;
    assert d[..4] == FixedHeader(p);
    assert (p.mid / 0x100) * 0x100 + p.mid % 0x100 == p.mid;
    assert d[0] == 0x40 + TypeBits(p.kind) * 16 + t;
    assert d[0] / 64 == 1 && d[0] % 16 == t && d[0] / 16 % 4 == TypeBits(p.kind);
    assert d[COAP_HEADER_LEN..COAP_HEADER_LEN + t] == p.token;
    assert d[COAP_HEADER_LEN + t..] == rest;
  }

  lemma PartialStart(p: Packet)
    ensures Partial(p, 1) ==
            var init := Init(p.kind, p.code, p.mid);
            if p.token == [] then init else init.(token := p.token, options := {TOKEN})
  {
    assert OptionsBelow(p, 1) == if p.token == [] then {} else {TOKEN};
  }

  lemma PartialHasNoPayload(p: Packet, n: nat)
    ensures Partial(p, n).payload == []
  {
  }

  lemma TrailerRead(p: Packet, q: Packet)
    requires |p.payload| <= REST_MAX_CHUNK_SIZE && q.payload == []
    ensures EndsOptions(Trailer(p))
    ensures ParseOptions(Trailer(p), 0, q) == Accepted(q.(payload := p.payload))
  {
    if p.payload != [] {
      assert Trailer(p)[1..][..|p.payload|] == p.payload;
    }
  }

  /**
   * What the parser makes of any message the setters can build, whenever it serializes at all:
   * never an error, never a read past the end, except that a Proxy-Uri is refused. The datagram
   * fits the buffers it is built in.
   */
  lemma Delivered(p: Packet)
    requires WellFormed(p) && Serialized(p) != []
    ensures Parse(Serialized(p)) ==
            if PROXY_URI in p.options then Rejected(PROXYING_NOT_SUPPORTED_5_05) else Accepted(Received(p))
    ensures |Serialized(p)| <= COAP_MAX_PACKET_SIZE + 1
  {
    hide ParseOptions, Parse, Partial, EncodeFrom;
    var options, tail := EncodeFrom(p, 1, 0), Trailer(p);
    assert FixedHeader(p) + p.token + options + tail == FixedHeader(p) + p.token + (options + tail);
    FixedHeaderRead(p, options + tail);
    PartialStart(p);
    PartialHasNoPayload(p, PROXY_URI + 1);
    TrailerRead(p, Partial(p, PROXY_URI + 1));
    ParseFrom(p, 1, 0, tail);
  }
}
