/** coap_serialize_message: the fixed header, the token, and one macro per option in ascending order. */
module CoapMessage {
  import opened Bytes
  import opened CoapOption
  import opened CoapStrings
  import opened CoapPacket
  import opened CoapSerialize

  /** w is what is written of p's options; the ones numbered n and above are still to come. */
  ghost predicate Progress(p: Packet, n: nat, current: nat, w: seq<byte>) {
    current <= n && w + EncodeFrom(p, n, current) == EncodeFrom(p, 1, 0)
  }

  lemma ProgressSkips(p: Packet, n: nat, m: nat, current: nat, w: seq<byte>)
    requires Progress(p, n, current, w) && n <= m
    requires forall k :: n <= k < m ==> !Writable(k) || k !in p.options
    ensures Progress(p, m, current, w)
  {
    EncodeSkips(p, n, m, current);
  }

  lemma ProgressWrites(p: Packet, n: nat, current: nat, w: seq<byte>, values: seq<byte>)
    requires Progress(p, n, current, w) && Writable(n) && n in p.options
    requires values == EncodeValues(n - current, Values(p, n))
    ensures Progress(p, n + 1, NumberAfter(p, n, current), w + values)
    ensures |w| + |values| <= |EncodeFrom(p, 1, 0)|
  {
    hide EncodeFrom, EncodeValues, Values;
    EncodeFromHere(p, n, current);
    var rest := EncodeFrom(p, n + 1, NumberAfter(p, n, current));
    assert w + (values + rest) == w + values + rest;
  }

  /** Where the serializer stands: what it wrote from start on, and room for what is still to come. */
  ghost predicate Standing(p: Packet, n: nat, current: nat, buffer: array<byte>, start: nat, at: nat)
    reads buffer
  {
    && start <= at <= buffer.Length && start + |EncodeFrom(p, 1, 0)| <= buffer.Length
    && Progress(p, n, current, buffer[start..at])
  }

  /** What every macro starts from: the numbers between the last option and this one have no macro. */
  ghost predicate Reached(p: Packet, n: nat, current: nat, buffer: array<byte>, start: nat, at: nat, last: nat)
    reads buffer
  {
    && Standing(p, last + 1, current, buffer, start, at) && last < n && Writable(n)
    && (forall k :: last < k < n ==> !Writable(k))
  }

  lemma Room(p: Packet, n: nat, current: nat, buffer: array<byte>, start: nat, at: nat, last: nat)
    requires Reached(p, n, current, buffer, start, at, last)
    ensures Standing(p, n, current, buffer, start, at) && current <= n
    ensures n !in p.options ==> Standing(p, n + 1, current, buffer, start, at)
    ensures n in p.options ==> at + |EncodeValues(n - current, Values(p, n))| <= buffer.Length
  {
    hide EncodeFrom, EncodeValues, Values;
    ProgressSkips(p, last + 1, n, current, buffer[start..at]);
    if n in p.options {
      ProgressWrites(p, n, current, buffer[start..at], EncodeValues(n - current, Values(p, n)));
    } else {
      ProgressSkips(p, n, n + 1, current, buffer[start..at]);
    }
  }

  /** The state after the values of option n have been written at at, the bytes before it left alone. */
  lemma Moved(p: Packet, n: nat, current: nat, before: seq<byte>, buffer: array<byte>, start: nat, at: nat, i: nat)
    requires start <= at && at + i <= buffer.Length && start + |EncodeFrom(p, 1, 0)| <= buffer.Length
    requires before == buffer[..at] && Progress(p, n, current, before[start..])
    requires Writable(n) && n in p.options
    requires buffer[at..at + i] == EncodeValues(n - current, Values(p, n))
    ensures Standing(p, n + 1, NumberAfter(p, n, current), buffer, start, at + i)
  {
    hide EncodeFrom, EncodeValues, Values;
    ProgressWrites(p, n, current, before[start..], buffer[at..at + i]);
    assert before[start..] + buffer[at..at + i] == buffer[start..at + i];
  }

  /** COAP_SERIALIZE_INT_OPTION, and the block macro, which computes the integer first. */
  method IntOptionMacro(p: Packet, n: nat, value: u32, buffer: array<byte>, option: nat, current: nat,
                        ghost start: nat, ghost last: nat)
    returns (option': nat, current': nat)
    requires Reached(p, n, current, buffer, start, option, last)
    requires Values(p, n) == [Minimal(value)] && n != ACCEPT
    modifies buffer
    ensures buffer[..start] == old(buffer[..start])
    ensures Standing(p, n + 1, current', buffer, start, option')
  {
    hide EncodeFrom, EncodeValues, Values, Minimal, Progress;
    option', current' := option, current;
    Room(p, n, current, buffer, start, option, last);
    if n in p.options {
      ghost var before := buffer[..option];
      assert before[start..] == buffer[start..option];
      var i := SerializeInt(n - current, buffer, option, value);
      assert buffer[..start] == buffer[..option][..start] == before[..start];
      Moved(p, n, current, before, buffer, start, option, i);
      option', current' := option + i, n;
    }
  }

  /** COAP_SERIALIZE_BYTE_OPTION, and the string macro without a split character. */
  method BytesOptionMacro(p: Packet, n: nat, value: seq<byte>, buffer: array<byte>, option: nat, current: nat,
                          ghost start: nat, ghost last: nat)
    returns (option': nat, current': nat)
    requires Reached(p, n, current, buffer, start, option, last)
    requires Values(p, n) == [value] && n != ACCEPT
    modifies buffer
    ensures buffer[..start] == old(buffer[..start])
    ensures Standing(p, n + 1, current', buffer, start, option')
  {
    hide EncodeFrom, EncodeValues, Values, Progress;
    option', current' := option, current;
    Room(p, n, current, buffer, start, option, last);
    if n in p.options {
      ghost var before := buffer[..option];
      assert before[start..] == buffer[start..option];
      EncodeOne(n - current, value);
      var i := PutOption(n - current, buffer, option, 0, value);
      assert buffer[..start] == buffer[..option][..start] == before[..start];
      Moved(p, n, current, before, buffer, start, option, i);
      option', current' := option + i, n;
    }
  }

  /** COAP_SERIALIZE_STRING_OPTION with a split character. */
  method SplitOptionMacro(p: Packet, n: nat, s: seq<byte>, sep: byte, buffer: array<byte>, option: nat, current: nat,
                          ghost start: nat, ghost last: nat)
    returns (option': nat, current': nat)
    requires Reached(p, n, current, buffer, start, option, last)
    requires Values(p, n) == Split(s, sep) && n != ACCEPT
    modifies buffer
    ensures buffer[..start] == old(buffer[..start])
    ensures Standing(p, n + 1, current', buffer, start, option')
  {
    hide EncodeFrom, EncodeValues, Values, Progress, Split;
    option', current' := option, current;
    Room(p, n, current, buffer, start, option, last);
    if n in p.options {
      ghost var before := buffer[..option];
      assert before[start..] == buffer[start..option];
      var i := SerializeSplit(n - current, buffer, option, s, sep);
      assert buffer[..start] == buffer[..option][..start] == before[..start];
      Moved(p, n, current, before, buffer, start, option, i);
      option', current' := option + i, n;
    }
  }

  /** COAP_SERIALIZE_MULTI_OPTION: current_number moves on even when the list is empty. */
  method MultiOptionMacro(p: Packet, n: nat, values: seq<seq<byte>>, buffer: array<byte>, option: nat, current: nat,
                          ghost start: nat, ghost last: nat)
    returns (option': nat, current': nat)
    requires Reached(p, n, current, buffer, start, option, last)
    requires Values(p, n) == values && n != ACCEPT
    modifies buffer
    ensures buffer[..start] == old(buffer[..start])
    ensures Standing(p, n + 1, current', buffer, start, option')
  {
    hide EncodeFrom, EncodeValues, Values, Progress;
    option', current' := option, current;
    Room(p, n, current, buffer, start, option, last);
    if n in p.options {
      ghost var before := buffer[..option];
      assert before[start..] == buffer[start..option];
      var i := SerializeMulti(n - current, buffer, option, values);
      assert buffer[..start] == buffer[..option][..start] == before[..start];
      Moved(p, n, current, before, buffer, start, option, i);
      option', current' := option + i, n;
    }
  }

  /** COAP_SERIALIZE_ACCEPT_OPTION: one integer option per entry, the delta used up by the first. */
  method AcceptOptionMacro(p: Packet, buffer: array<byte>, option: nat, current: nat,
                           ghost start: nat, ghost last: nat)
    returns (option': nat, current': nat)
    requires Reached(p, ACCEPT, current, buffer, start, option, last)
    modifies buffer
    ensures buffer[..start] == old(buffer[..start])
    ensures Standing(p, ACCEPT + 1, current', buffer, start, option')
  {
    hide EncodeFrom, Minimal, Progress, Header, EncodeValues;
    option', current' := option, current;
    Room(p, ACCEPT, current, buffer, start, option, last);
    if ACCEPT in p.options {
      ghost var before := buffer[..option];
      assert before[start..] == buffer[start..option];
      ghost var all := EncodeValues(ACCEPT - current, Shorts(p.accept));
      var i := 0;
      while i < |p.accept|
        invariant 0 <= i <= |p.accept|
        invariant current' == if i == 0 then current else ACCEPT
        invariant buffer[..option] == before
        invariant option <= option' <= buffer.Length
        invariant buffer[option..option'] + EncodeValues(ACCEPT - current', Shorts(p.accept)[i..]) == all
      {
        option' := AcceptEntry(p, i, buffer, option, option', ACCEPT - current', all);
        current' := ACCEPT;
        i := i + 1;
      }
      EncodeNone(ACCEPT - current');
      assert Shorts(p.accept)[i..] == [];
      assert buffer[..start] == buffer[..option][..start] == before[..start];
      Moved(p, ACCEPT, current, before, buffer, start, option, option' - option);
    }
  }

  method AcceptEntry(p: Packet, i: nat, buffer: array<byte>, ghost begin: nat, at: nat, delta: nat, ghost all: seq<byte>)
    returns (next: nat)
    requires i < |p.accept| && begin <= at <= buffer.Length && begin + |all| <= buffer.Length
    requires buffer[begin..at] + EncodeValues(delta, Shorts(p.accept)[i..]) == all
    modifies buffer
    ensures buffer[..begin] == old(buffer[..begin])
    ensures at <= next <= buffer.Length
    ensures buffer[begin..next] + EncodeValues(0, Shorts(p.accept)[i + 1..]) == all
  {
    hide Minimal, Header, EncodeValues;
    ghost var value, rest := Minimal(p.accept[i]), Shorts(p.accept)[i + 1..];
    assert Shorts(p.accept)[i..] == [value] + rest;
    EncodeNext(buffer[begin..at], delta, value, rest, all);
    EncodeOne(delta, value);
    ghost var before := buffer[..at];
    assert before[begin..] == buffer[begin..at];
    var written := SerializeInt(delta, buffer, at, p.accept[i]);
    next := at + written;
    assert buffer[..begin] == buffer[..at][..begin];
    assert buffer[begin..next] == before[begin..] + buffer[at..next];
  }

  /** The macros up to If-None-Match, in the order of coap_serialize_message. */
  method FirstOptions(p: Packet, buffer: array<byte>, start: nat) returns (option: nat, current: nat)
    requires start + |EncodeFrom(p, 1, 0)| <= buffer.Length
    modifies buffer
    ensures buffer[..start] == old(buffer[..start])
    ensures Standing(p, IF_NONE_MATCH + 1, current, buffer, start, option)
  {
    assert Minimal(0) == [];
    hide EncodeFrom, Standing, Minimal, Split;
    option, current := start, 0;
    StartStanding(p, buffer, start);
    option, current := BytesOptionMacro(p, IF_MATCH, p.ifMatch, buffer, option, current, start, 0);
    option, current := BytesOptionMacro(p, URI_HOST, p.uriHost, buffer, option, current, start, IF_MATCH);
    option, current := BytesOptionMacro(p, ETAG, p.etag, buffer, option, current, start, URI_HOST);
    option, current := IntOptionMacro(p, IF_NONE_MATCH, 0, buffer, option, current, start, ETAG);
  }

  /** The macros from Observe to Content-Format. */
  method MiddleOptions(p: Packet, buffer: array<byte>, option0: nat, current0: nat, ghost start: nat)
    returns (option: nat, current: nat)
    requires Standing(p, IF_NONE_MATCH + 1, current0, buffer, start, option0)
    modifies buffer
    ensures buffer[..start] == old(buffer[..start])
    ensures Standing(p, CONTENT_TYPE + 1, current, buffer, start, option)
  {
    hide EncodeFrom, Standing, Minimal, Split;
    option, current := option0, current0;
    option, current := IntOptionMacro(p, OBSERVE, p.observe, buffer, option, current, start, IF_NONE_MATCH);
    option, current := IntOptionMacro(p, URI_PORT, p.uriPort, buffer, option, current, start, OBSERVE);
    option, current := SplitOptionMacro(p, LOCATION_PATH, p.locationPath, SLASH, buffer, option, current, start, URI_PORT);
    option, current := MultiOptionMacro(p, URI_PATH, p.uriPath, buffer, option, current, start, LOCATION_PATH);
    option, current := IntOptionMacro(p, CONTENT_TYPE, p.contentType, buffer, option, current, start, URI_PATH);
  }

  lemma StartStanding(p: Packet, buffer: array<byte>, start: nat)
    requires start + |EncodeFrom(p, 1, 0)| <= buffer.Length
    ensures Standing(p, 1, 0, buffer, start, start)
  {
    assert buffer[start..start] == [];
  }

  /** The macros from Max-Age on. */
  method LastOptions(p: Packet, buffer: array<byte>, option0: nat, current0: nat, ghost start: nat) returns (option: nat)
    requires Standing(p, CONTENT_TYPE + 1, current0, buffer, start, option0)
    modifies buffer
    ensures buffer[..start] == old(buffer[..start])
    ensures start <= option <= buffer.Length
    ensures buffer[start..option] == EncodeFrom(p, 1, 0)
  {
    hide EncodeFrom, Standing, Minimal, Split;
    var current;
    option, current := IntOptionMacro(p, MAX_AGE, p.maxAge, buffer, option0, current0, start, CONTENT_TYPE);
    option, current := MultiOptionMacro(p, URI_QUERY, p.uriQuery, buffer, option, current, start, MAX_AGE);
    option, current := AcceptOptionMacro(p, buffer, option, current, start, URI_QUERY);
    option, current := SplitOptionMacro(p, LOCATION_QUERY, p.locationQuery, AMPERSAND, buffer, option, current, start, ACCEPT);
    var block := BlockField(p.block2);
    option, current := IntOptionMacro(p, BLOCK2, block, buffer, option, current, start, LOCATION_QUERY);
    block := BlockField(p.block1);
    option, current := IntOptionMacro(p, BLOCK1, block, buffer, option, current, start, BLOCK2);
    option, current := IntOptionMacro(p, SIZE, p.size, buffer, option, current, start, BLOCK1);
    option, current := BytesOptionMacro(p, PROXY_URI, p.proxyUri, buffer, option, current, start, SIZE);
    AllStanding(p, current, buffer, start, option);
  }

  lemma AllStanding(p: Packet, current: nat, buffer: array<byte>, start: nat, option: nat)
    requires Standing(p, PROXY_URI + 1, current, buffer, start, option)
    ensures start <= option <= buffer.Length
    ensures buffer[start..option] == EncodeFrom(p, 1, 0)
  {
  }

  /** coap_serialize_message. The buffer must hold the whole header and, when that is short enough, the payload. */
  method SerializeMessage(p: Packet, buffer: array<byte>) returns (length: nat)
    requires |p.token| <= COAP_TOKEN_LEN
    requires |Head(p)| <= buffer.Length
    requires |Head(p)| <= COAP_MAX_HEADER_SIZE ==> |Head(p)| + |Trailer(p)| <= buffer.Length
    modifies buffer
    ensures length == |Serialized(p)|
    ensures buffer[..length] == Serialized(p)
  {
    hide EncodeFrom, Standing;
    buffer[0] := 0x40 + TypeBits(p.kind) * 16 + |p.token|;
    buffer[1] := p.code;
    buffer[2] := p.mid / 0x100;
    buffer[3] := p.mid % 0x100;
    assert buffer[..COAP_HEADER_LEN] == FixedHeader(p);
    var start := Append(buffer, 0, COAP_HEADER_LEN, p.token);
    assert buffer[..start] == buffer[0..start] == FixedHeader(p) + p.token;
    var option, current := FirstOptions(p, buffer, start);
    option, current := MiddleOptions(p, buffer, option, current, start);
    option := LastOptions(p, buffer, option, current, start);
    assert buffer[..option] == buffer[..start] + buffer[start..option] == Head(p);
    if option > COAP_MAX_HEADER_SIZE {
      return 0;
    }
    length := PackPayload(p, buffer, option);
  }

  method PackPayload(p: Packet, buffer: array<byte>, option: nat) returns (length: nat)
    requires option + |Trailer(p)| <= buffer.Length
    modifies buffer
    ensures length == option + |Trailer(p)|
    ensures buffer[..length] == old(buffer[..option]) + Trailer(p)
  {
    var at := option;
    if |p.payload| != 0 {
      buffer[at] := 0xFF;
      at := at + 1;
    }
    length := Append(buffer, 0, at, p.payload);
    assert buffer[..length] == buffer[0..length];
  }
}
