/** How long the options of small messages get, and that such messages arrive. */
module CoapSize {
  import opened Bytes
  import opened CoapStrings
  import opened CoapPacket
  import opened CoapRoundTrip
  import opened CoapFidelity

  lemma EncodeEnd(p: Packet, current: nat)
    requires current <= PROXY_URI + 1
    ensures EncodeFrom(p, PROXY_URI + 1, current) == []
  {
  }

  /** The options that are set, but for the token, which is none on the wire. */
  predicate OnlyOptions(p: Packet, numbers: set<nat>) {
    p.options == numbers + (if p.token != [] then {TOKEN} else {})
  }

  lemma NoOptions(p: Packet)
    requires OnlyOptions(p, {})
    ensures EncodeFrom(p, 1, 0) == []
  {
    hide EncodeFrom;
    EncodeSkips(p, 1, PROXY_URI + 1, 0);
    EncodeEnd(p, 0);
  }

  lemma LastOption(p: Packet, n: nat, a: nat, current: nat)
    requires current <= n <= a && Writable(a) && a != ACCEPT && a in p.options
    requires forall k :: n <= k && Writable(k) && k in p.options ==> k == a
    ensures EncodeFrom(p, n, current) == EncodeValues(a - current, Values(p, a))
  {
    hide EncodeFrom, EncodeValues, Values;
    EncodeSkips(p, n, a, current);
    EncodeFromHere(p, a, current);
    EncodeSkips(p, a + 1, PROXY_URI + 1, a);
    EncodeEnd(p, a);
  }

  lemma OneOption(p: Packet, a: nat)
    requires Writable(a) && a != ACCEPT && OnlyOptions(p, {a})
    ensures EncodeFrom(p, 1, 0) == EncodeValues(a, Values(p, a))
  {
    hide EncodeFrom, EncodeValues, Values;
    LastOption(p, 1, a, 0);
  }

  lemma TwoOptions(p: Packet, a: nat, b: nat)
    requires Writable(a) && Writable(b) && a < b && a != ACCEPT && b != ACCEPT && OnlyOptions(p, {a, b})
    ensures EncodeFrom(p, 1, 0) == EncodeValues(a, Values(p, a)) + EncodeValues(b - a, Values(p, b))
  {
    assert !Writable(TOKEN);
    hide EncodeFrom, EncodeValues, Values, Writable;
    assert forall k :: k in p.options ==> k == a || k == b || k == TOKEN;
    EncodeSkips(p, 1, a, 0);
    EncodeFromHere(p, a, 0);
    LastOption(p, a + 1, b, a);
  }

  /** The bytes of short values under one number, each with a header of one byte. */
  function Weight(values: seq<seq<byte>>): nat {
    if values == [] then 0 else 1 + |values[0]| + Weight(values[1..])
  }

  lemma {:induction false} ShortValues(delta: nat, values: seq<seq<byte>>)
    requires delta < 13 && forall k :: 0 <= k < |values| ==> |values[k]| < 13
    ensures |EncodeValues(delta, values)| == Weight(values)
    decreases |values|
  {
    if values != [] {
      ShortValues(0, values[1..]);
      assert |values[0]| < 13;
    }
  }

  /** A message built with the setters whose header is short enough arrives as it was sent. */
  lemma Arrives(p: Packet)
    requires WellFormed(p) && PROXY_URI !in p.options
    requires COAP_HEADER_LEN + |p.token| + |EncodeFrom(p, 1, 0)| <= COAP_MAX_HEADER_SIZE
    requires LOCATION_PATH in p.options ==> Joinable(p.locationPath, SLASH)
    requires LOCATION_QUERY in p.options ==> Joinable(p.locationQuery, AMPERSAND)
    requires BLOCK2 in p.options ==> BlockFits(p.block2)
    requires BLOCK1 in p.options ==> BlockFits(p.block1)
    ensures Serialized(p) != []
    ensures Parse(Serialized(p)) == Accepted(Received(p)) && SameMessage(Received(p), p)
  {
    assert Serialized(p) != [] by {
      hide EncodeFrom, Trailer;
    }
    hide EncodeFrom, Serialized, SameMessage, Received, WellFormed, Joinable, BlockFits, Parse;
    Faithful(p);
  }
}
