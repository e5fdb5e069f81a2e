/** What is on the wire, byte by byte: the fixed header of every message, and some whole datagrams. */
module CoapWire {
  import opened Bytes
  import opened CoapOption
  import opened CoapPacket
  import opened CoapSize
  import opened Uri
  import Registry

  /**
   * Every datagram begins with the version 1, the type, the length of the token, the code and the id (section 3 of
   * RFC 7252), then the token; a payload ends it, behind the marker.
   */
  lemma HeaderOnWire(p: Packet)
    requires |p.token| <= COAP_TOKEN_LEN && Serialized(p) != []
    ensures var w := Serialized(p);
            && |w| >= 4 + |p.token| + (if p.payload == [] then 0 else 1 + |p.payload|)
            && w[0] / 0x40 == 1 && w[0] % 0x10 == |p.token|
            && w[0] / 0x10 % 4 == (match p.kind case Con => 0 case Non => 1 case Ack => 2 case Rst => 3)
            && w[1] == p.code && (w[2] as int) * 0x100 + w[3] == p.mid && w[4..4 + |p.token|] == p.token
            && (p.payload != [] ==> w[|w| - |p.payload| - 1] == 0xFF && w[|w| - |p.payload|..] == p.payload)
  {
    hide EncodeFrom;
    var w := Serialized(p);
    assert w[4..4 + |p.token|] == p.token;
  }

  const TEMPERATURE: seq<byte> := [0x74, 0x65, 0x6D, 0x70, 0x65, 0x72, 0x61, 0x74, 0x75, 0x72, 0x65]
  const DEGREES: seq<byte> := [0x32, 0x32, 0x2E, 0x33, 0x20, 0x43]

  lemma ShortOption(delta: nat, value: seq<byte>)
    requires delta < 13 && |value| < 13
    ensures EncodeValues(delta, [value]) == [(delta * 16 + |value|) as byte] + value
  {
    EncodeOne(delta, value);
  }

  /** The datagram of a message whose options are written as these bytes. */
  lemma Assembled(p: Packet, options: seq<byte>)
    requires |p.token| <= COAP_TOKEN_LEN && EncodeFrom(p, 1, 0) == options
    requires COAP_HEADER_LEN + |p.token| + |options| <= COAP_MAX_HEADER_SIZE
    ensures Serialized(p) ==
            [0x40 + TypeBits(p.kind) * 16 + |p.token|, p.code, p.mid / 0x100, p.mid % 0x100] + p.token + options
            + (if p.payload == [] then [] else [0xFF] + p.payload)
  {
    hide EncodeFrom;
  }

  function GetTemperature(): Packet {
    Init(Con, COAP_GET, 0x7D35).(token := [0x20], uriPath := [TEMPERATURE], options := {TOKEN, URI_PATH})
  }

  function Temperature(): Packet {
    Init(Ack, CONTENT_2_05, 0x7D35).(token := [0x20], options := {TOKEN}, payload := DEGREES)
  }

  lemma RequestParts()
    ensures var p := GetTemperature();
            && p.token == [0x20] && p.payload == [] && p.kind == Con && p.code == 1 && p.mid == 0x7D35
            && OnlyOptions(p, {URI_PATH}) && Values(p, URI_PATH) == [TEMPERATURE] && |TEMPERATURE| == 11
  {
  }

  /** A GET of /temperature with token 20, as in appendix A of RFC 7252. */
  lemma RequestOnWire()
    ensures Serialized(GetTemperature()) == [0x41, 0x01, 0x7D, 0x35, 0x20, 0xBB] + TEMPERATURE
  {
    var p := GetTemperature();
    RequestParts();
    hide GetTemperature, EncodeFrom, EncodeValues, Values, Serialized, OnlyOptions, TEMPERATURE;
    ShortOption(URI_PATH, TEMPERATURE);
    OneOption(p, URI_PATH);
    Assembled(p, [0xBB] + TEMPERATURE);
  }

  /** And its answer. */
  lemma AnswerOnWire()
    ensures Serialized(Temperature()) == [0x61, 0x45, 0x7D, 0x35, 0x20, 0xFF] + DEGREES
  {
    var p := Temperature();
    assert p.token == [0x20] && p.payload == DEGREES && p.kind == Ack && p.code == 0x45 && p.mid == 0x7D35;
    assert OnlyOptions(p, {});
    hide Temperature, EncodeFrom, Serialized;
    NoOptions(p);
    Assembled(p, []);
  }

  const RESOURCE := Uri(Management, true, true, true, 3, 0, 13)

  lemma ResourceSegments()
    ensures Segments(RESOURCE) == [[0x33], [0x30], [0x31, 0x33]]
  {
    assert Decimal(3) == [0x33] && Decimal(0) == [0x30] && Decimal(1) == [0x31];
    assert Decimal(13) == Decimal(1) + [0x33] == [0x31, 0x33];
    hide Decimal;
    assert Segments(RESOURCE) == [Decimal(3)] + [Decimal(0)] + [Decimal(13)];
  }

  lemma SegmentsOnWire()
    ensures EncodeValues(5, [[0x33], [0x30], [0x31, 0x33]]) == [0x51, 0x33, 0x01, 0x30, 0x02, 0x31, 0x33]
  {
    EncodeCons(5, [0x33], [[0x30], [0x31, 0x33]]);
    EncodeCons(0, [0x30], [[0x31, 0x33]]);
    ShortOption(0, [0x31, 0x33]);
    hide EncodeValues;
    assert [[0x33]] + [[0x30], [0x31, 0x33]] == [[0x33], [0x30], [0x31, 0x33]];
    assert [[0x30]] + [[0x31, 0x33]] == [[0x30], [0x31, 0x33]];
  }

  lemma ObserveParts()
    ensures var p := Registry.ObserveRequest(RESOURCE, 0x0102, Registry.Token(1, 2));
            && p.token == [0x00, 0x01, 0x00, 0x02] && p.payload == [] && p.kind == Con && p.code == 1 && p.mid == 0x0102
            && OnlyOptions(p, {OBSERVE, URI_PATH}) && Values(p, OBSERVE) == [[]] && Values(p, URI_PATH) == Segments(RESOURCE)
  {
    hide Segments;
  }

  /** The request to observe /3/0/13 of client 1 as observation 2: Observe, then the path, by deltas. */
  lemma ObserveOnWire()
    ensures Serialized(Registry.ObserveRequest(RESOURCE, 0x0102, Registry.Token(1, 2))) ==
            [0x44, 0x01, 0x01, 0x02, 0x00, 0x01, 0x00, 0x02, 0x60, 0x51, 0x33, 0x01, 0x30, 0x02, 0x31, 0x33]
  {
    hide Registry.ObserveRequest, Registry.Token, EncodeFrom, EncodeValues, Values, Serialized, Segments, OnlyOptions;
    var p := Registry.ObserveRequest(RESOURCE, 0x0102, Registry.Token(1, 2));
    var options: seq<byte> := [0x60, 0x51, 0x33, 0x01, 0x30, 0x02, 0x31, 0x33];
    ObserveParts();
    ResourceSegments();
    ShortOption(OBSERVE, []);
    SegmentsOnWire();
    TwoOptions(p, OBSERVE, URI_PATH);
    assert [(OBSERVE * 16) as byte] + [] + [0x51, 0x33, 0x01, 0x30, 0x02, 0x31, 0x33] == options;
    Assembled(p, options);
  }

  /** A Proxy-Uri is written as it is, which no peer reads. */
  lemma ProxyOnWire(p: Packet)
    requires OnlyOptions(p, {PROXY_URI})
    ensures EncodeFrom(p, 1, 0) == Header(PROXY_URI, |p.proxyUri|) + p.proxyUri
  {
    hide EncodeFrom, EncodeValues;
    OneOption(p, PROXY_URI);
    EncodeOne(PROXY_URI, p.proxyUri);
  }

  lemma AcceptSkipped(p: Packet)
    requires ACCEPT in p.options && p.accept == []
    ensures EncodeFrom(p, ACCEPT, 0) == EncodeFrom(p, ACCEPT + 1, 0)
  {
    assert Values(p, ACCEPT) == [];
    EncodeFromHere(p, ACCEPT, 0);
    EncodeNone(ACCEPT);
    hide EncodeFrom, EncodeValues, Values;
  }

  /** An Accept option that is set without a value is not written, and the next delta counts as if it were not there. */
  lemma NothingAccepted(p: Packet, a: nat)
    requires ACCEPT < a && Writable(a) && p.options == {ACCEPT, a} && p.accept == []
    ensures EncodeFrom(p, 1, 0) == EncodeValues(a, Values(p, a))
  {
    hide EncodeFrom, EncodeValues, Values, Writable;
    AcceptSkipped(p);
    assert ACCEPT in p.options && forall k :: k in p.options ==> k == ACCEPT || k == a;
    EncodeSkips(p, 1, ACCEPT, 0);
    LastOption(p, ACCEPT + 1, a, 0);
  }
}
