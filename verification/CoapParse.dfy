/**
 * coap_parse_message as it runs: over one buffer, with string fields pointing into it, and with
 * repeated location options joined in place while later options are still to be read.
 */
module CoapParse {
  import opened Bytes
  import opened CoapOption
  import opened CoapStrings
  import opened CoapPacket

  /** A pointer into the buffer, with the length kept beside it. */
  datatype Slice = Slice(start: nat, len: nat)

  const NOTHING := Slice(0, 0)

  /** coap_packet_t while it is being filled: base holds the fields copied out, the rest point into the buffer. */
  datatype PacketRef = PacketRef(base: Packet, uriHost: Slice, locationPath: Slice, uriPath: seq<Slice>,
                                 uriQuery: seq<Slice>, locationQuery: Slice, payload: Slice)

  ghost predicate Ends(s: Slice, limit: nat) {
    s.start + s.len <= limit
  }

  ghost predicate AllEnd(ss: seq<Slice>, limit: nat) {
    forall i :: 0 <= i < |ss| ==> Ends(ss[i], limit)
  }

  /** Every pointer but the two location strings ends at or before limit. */
  ghost predicate OthersEnd(r: PacketRef, limit: nat) {
    && Ends(r.uriHost, limit) && Ends(r.payload, limit)
    && AllEnd(r.uriPath, limit) && AllEnd(r.uriQuery, limit)
  }

  ghost predicate Within(r: PacketRef, limit: nat) {
    OthersEnd(r, limit) && Ends(r.locationPath, limit) && Ends(r.locationQuery, limit)
  }

  function Text(d: seq<byte>, s: Slice): seq<byte>
    requires Ends(s, |d|)
  {
    d[s.start..s.start + s.len]
  }

  ghost function Texts(d: seq<byte>, ss: seq<Slice>): (r: seq<seq<byte>>)
    requires AllEnd(ss, |d|)
    ensures |r| == |ss| && forall i :: 0 <= i < |ss| ==> r[i] == Text(d, ss[i])
  {
    seq(|ss|, i requires 0 <= i < |ss| => Text(d, ss[i]))
  }

  /** The message the pointers denote, given what the buffer holds. */
  ghost function Deref(r: PacketRef, d: seq<byte>): Packet
    requires Within(r, |d|)
  {
    r.base.(uriHost := Text(d, r.uriHost), locationPath := Text(d, r.locationPath), uriPath := Texts(d, r.uriPath),
            uriQuery := Texts(d, r.uriQuery), locationQuery := Text(d, r.locationQuery), payload := Text(d, r.payload))
  }

  /**
   * Where the pointers lie after an option numbered number: options come in ascending order, so that when
   * a location string grows, everything else kept so far lies before it and nothing behind it is in use.
   */
  ghost predicate Layout(r: PacketRef, number: nat) {
    && r.payload.len == 0
    && (number < LOCATION_PATH ==> r.locationPath.len == 0)
    && (number < URI_PATH ==> r.uriPath == [])
    && (number < URI_QUERY ==> r.uriQuery == [])
    && (number < LOCATION_QUERY ==> r.locationQuery.len == 0)
    && (number == LOCATION_PATH && r.locationPath.len > 0 ==> Ends(r.uriHost, r.locationPath.start))
    && (number == LOCATION_QUERY && r.locationQuery.len > 0 ==>
          OthersEnd(r, r.locationQuery.start) && Ends(r.locationPath, r.locationQuery.start))
  }

  lemma TextFrame(s: Slice, d: seq<byte>, e: seq<byte>, limit: nat)
    requires Ends(s, limit) && limit <= |d| && limit <= |e| && d[..limit] == e[..limit]
    ensures Text(d, s) == Text(e, s)
  {
    assert Text(d, s) == d[..limit][s.start..s.start + s.len];
  }

  lemma TextsFrame(ss: seq<Slice>, d: seq<byte>, e: seq<byte>, limit: nat)
    requires AllEnd(ss, limit)
    requires limit <= |d| && limit <= |e| && d[..limit] == e[..limit]
    ensures Texts(d, ss) == Texts(e, ss)
  {
    forall i | 0 <= i < |ss|
      ensures Text(d, ss[i]) == Text(e, ss[i])
    {
      TextFrame(ss[i], d, e, limit);
    }
  }

  /** coap_parse_int_option */
  method ParseInt(data: array<byte>, at: nat, length: nat) returns (v: u32)
    requires at + length <= data.Length
    ensures v == IntOption(data[at..at + length])
  {
    v := 0;
    var i := 0;
    while i < length
      invariant 0 <= i <= length
      invariant v == IntOption(data[at..at + i])
    {
      var b := data[at + i];
      ghost var soFar := data[at..at + i];
      assert data[at..at + i + 1] == soFar + [b];
      IntOptionStep(soFar, b);
      v := (v * 0x100) % 0x1_0000_0000 + b;
      i := i + 1;
    }
  }

  lemma WordModulus(x: nat, q: nat, r: u32)
    requires x == q * 0x1_0000_0000 + r
    ensures x % 0x1_0000_0000 == r
  {
  }

  lemma ShiftedWord(n: nat, b: byte)
    ensures (n * 0x100 + b) % 0x1_0000_0000 == (n % 0x1_0000_0000 * 0x100) % 0x1_0000_0000 + b
  {
    var q, m := n / 0x1_0000_0000, n % 0x1_0000_0000;
    var high, low := m / 0x100_0000, m % 0x100_0000;
    WordModulus(m * 0x100, high, low * 0x100);
    WordModulus(n * 0x100 + b, q * 0x100 + high, low * 0x100 + b);
  }

  lemma IntOptionStep(s: seq<byte>, b: byte)
    ensures IntOption(s + [b]) == (IntOption(s) * 0x100) % 0x1_0000_0000 + b
  {
    assert (s + [b])[..|s|] == s;
    ShiftedWord(BigEndian(s), b);
  }

  /** Writing the separator and moving the block over an option's header, seen as sequences. */
  lemma Shifted(d: seq<byte>, e: seq<byte>, dst: Slice, option: nat, length: nat, sep: byte)
    requires option + length <= |d| && dst.start + dst.len + 1 <= option
    requires var end := dst.start + dst.len;
             e == d[..end] + [sep] + d[option..option + length] + d[end + 1 + length..]
    ensures |e| == |d|
    ensures e[dst.start..dst.start + dst.len + 1 + length] == d[dst.start..dst.start + dst.len] + [sep] + d[option..option + length]
    ensures e[option + length..] == d[option + length..]
    ensures e[..dst.start] == d[..dst.start]
  {
  }

  method MoveBlock(data: array<byte>, end: nat, option: nat, length: nat, sep: byte)
    requires end + 1 <= option && option + length <= data.Length
    modifies data
    ensures data[..] == old(data[..end]) + [sep] + old(data[option..option + length]) + old(data[end + 1 + length..])
  {
    data[end] := sep;
    forall i | 0 <= i < length {
      data[end + 1 + i] := data[option + i];
    }
  }

  /** coap_merge_multi_option: the separator lands where the option's header was, the block moves down to it. */
  method Merge(data: array<byte>, dst: Slice, option: nat, length: nat, sep: byte) returns (dst': Slice)
    requires option + length <= data.Length
    requires dst.len > 0 ==> dst.start + dst.len + 1 <= option
    requires Ends(dst, data.Length)
    modifies data
    ensures Ends(dst', option + length)
    ensures Text(data[..], dst') == Merged(old(Text(data[..], dst)), old(data[..][option..option + length]), sep)
    ensures dst'.start == if dst.len > 0 then dst.start else option
    ensures data[..][option + length..] == old(data[..][option + length..])
    ensures if dst.len > 0 then data[..][..dst.start] == old(data[..][..dst.start]) else data[..] == old(data[..])
  {
    ghost var d := data[..];
    if dst.len > 0 {
      MoveBlock(data, dst.start + dst.len, option, length, sep);
      Shifted(d, data[..], dst, option, length, sep);
      dst' := Slice(dst.start, dst.len + 1 + length);
    } else {
      dst' := Slice(option, length);
    }
  }

  /** Options whose value stays in the buffer, pointed to. */
  predicate Pointed(number: nat) {
    number in {URI_HOST, LOCATION_PATH, URI_PATH, URI_QUERY, LOCATION_QUERY}
  }

  /** The cases of the switch that copy an integer out of the buffer. */
  method AbsorbInt(base: Packet, number: nat, v: u32) returns (base': Packet)
    requires number in {CONTENT_TYPE, MAX_AGE, URI_PORT, OBSERVE, BLOCK2, BLOCK1, SIZE}
             || (number == ACCEPT && |base.accept| < COAP_MAX_ACCEPT_NUM)
    ensures forall value :: IntOption(value) == v ==> Absorb(base, number, value) == Accepted(base')
  {
    hide BlockOf, IntOption;
    base' := base.(options := base.options + {number});
    if number == CONTENT_TYPE {
      base' := base'.(contentType := v);
    } else if number == MAX_AGE {
      base' := base'.(maxAge := v);
    } else if number == ACCEPT {
      base' := base'.(accept := base'.accept + [v % 0x1_0000]);
    } else if number == URI_PORT {
      base' := base'.(uriPort := v % 0x1_0000);
    } else if number == OBSERVE {
      base' := base'.(observe := v);
    } else if number == BLOCK2 {
      base' := base'.(block2 := BlockOf(v));
    } else if number == BLOCK1 {
      base' := base'.(block1 := BlockOf(v));
    } else {
      base' := base'.(size := v);
    }
  }

  datatype Switched = Stored(base: Packet) | Refused(status: byte)

  ghost predicate Switches(s: Switched, r: Parsed) {
    match s case Stored(base) => r == Accepted(base) case Refused(status) => r == Rejected(status)
  }

  /** The cases of the switch that leave no pointer behind. */
  method AbsorbCopied(base: Packet, data: array<byte>, at: nat, number: nat, length: nat) returns (s: Switched)
    requires !Pointed(number) && at + Touched(|base.accept|, number, length) <= data.Length
    ensures Switches(s, Absorb(base, number, data[at..at + Touched(|base.accept|, number, length)]))
  {
    hide IntOption, BlockOf;
    if number in {CONTENT_TYPE, MAX_AGE, URI_PORT, OBSERVE, BLOCK2, BLOCK1, SIZE}
       || (number == ACCEPT && |base.accept| < COAP_MAX_ACCEPT_NUM) {
      var v := ParseInt(data, at, length);
      var base' := AbsorbInt(base, number, v);
      return Stored(base');
    }
    var base' := base.(options := base.options + {number});
    if number == ETAG {
      s := Stored(base'.(etag := data[at..at + Min(COAP_ETAG_LEN, length)]));
    } else if number == IF_MATCH {
      s := Stored(base'.(ifMatch := data[at..at + Min(COAP_ETAG_LEN, length)]));
    } else if number == IF_NONE_MATCH {
      s := Stored(base'.(ifNoneMatch := true));
    } else if number == ACCEPT {
      s := Stored(base');
    } else if number == PROXY_URI {
      s := Refused(PROXYING_NOT_SUPPORTED_5_05);
    } else if number % 2 == 1 {
      s := Refused(BAD_OPTION_4_02);
    } else {
      s := Stored(base');
    }
  }

  /** Fields copied out do not depend on the pointers beside them. */
  lemma CopiedCommutes(r: PacketRef, d: seq<byte>, number: nat, value: seq<byte>)
    requires Within(r, |d|) && !Pointed(number)
    ensures match Absorb(r.base, number, value)
            case Accepted(base) => Absorb(Deref(r, d), number, value) == Accepted(Deref(r.(base := base), d))
            case stop => Absorb(Deref(r, d), number, value) == stop
  {
    hide BlockOf, IntOption, Text, Texts;
  }

  lemma EndsUp(ss: seq<Slice>, limit: nat, more: nat)
    requires AllEnd(ss, limit) && limit <= more
    ensures AllEnd(ss, more)
  {
  }

  lemma LayoutUp(r: PacketRef, last: nat, number: nat)
    requires Layout(r, last) && last <= number && number != LOCATION_PATH && number != LOCATION_QUERY
    ensures Layout(r, number)
  {
  }

  /** A pointer kept for Uri-Host, Uri-Path or Uri-Query. */
  method AbsorbPointed(r: PacketRef, ghost d: seq<byte>, at: nat, number: nat, length: nat, ghost last: nat)
    returns (r': PacketRef)
    requires number == URI_HOST || number == URI_PATH || number == URI_QUERY
    requires at + length <= |d| && Within(r, at) && Layout(r, last) && last <= number
    ensures Within(r', at + length) && Layout(r', number)
    ensures Absorb(Deref(r, d), number, d[at..at + length]) == Accepted(Deref(r', d))
  {
    hide BlockOf, IntOption;
    var s := Slice(at, length);
    var base := r.base.(options := r.base.options + {number});
    if number == URI_HOST {
      r' := r.(base := base, uriHost := s);
    } else if number == URI_PATH {
      r' := r.(base := base, uriPath := r.uriPath + [s]);
      assert Texts(d, r.uriPath + [s]) == Texts(d, r.uriPath) + [Text(d, s)];
    } else {
      r' := r.(base := base, uriQuery := r.uriQuery + [s]);
      assert Texts(d, r.uriQuery + [s]) == Texts(d, r.uriQuery) + [Text(d, s)];
    }
  }

  lemma EmptyText(s: Slice, d: seq<byte>)
    requires Ends(s, |d|) && s.len == 0
    ensures Text(d, s) == []
  {
  }

  /** Two buffers that agree below limit give the same texts to everything that ends there. */
  lemma OthersFrame(r: PacketRef, d: seq<byte>, e: seq<byte>, limit: nat)
    requires OthersEnd(r, limit) && limit <= |d| == |e| && d[..limit] == e[..limit]
    ensures AllEnd(r.uriPath, |d|) && AllEnd(r.uriQuery, |d|)
    ensures Text(d, r.uriHost) == Text(e, r.uriHost) && Text(d, r.payload) == Text(e, r.payload)
    ensures Texts(d, r.uriPath) == Texts(e, r.uriPath) && Texts(d, r.uriQuery) == Texts(e, r.uriQuery)
  {
    TextFrame(r.uriHost, d, e, limit);
    TextFrame(r.payload, d, e, limit);
    TextsFrame(r.uriPath, d, e, limit);
    TextsFrame(r.uriQuery, d, e, limit);
  }

  /** A location string grown in place leaves every other text alone. */
  method AbsorbPath(r: PacketRef, data: array<byte>, at: nat, length: nat, ghost head: nat, ghost last: nat)
    returns (r': PacketRef)
    requires head < at && at + length <= data.Length && Within(r, head) && Layout(r, last) && last <= LOCATION_PATH
    modifies data
    ensures Within(r', at + length) && Layout(r', LOCATION_PATH)
    ensures Absorb(old(Deref(r, data[..])), LOCATION_PATH, old(data[..][at..at + length])) == Accepted(Deref(r', data[..]))
    ensures data[..][at + length..] == old(data[..][at + length..])
  {
    hide BlockOf, IntOption, Merged;
    ghost var d := data[..];
    var dst := Merge(data, r.locationPath, at, length, SLASH);
    r' := r.(base := r.base.(options := r.base.options + {LOCATION_PATH}), locationPath := dst);
    ghost var e := data[..];
    EmptyText(r.locationQuery, d);
    EmptyText(r.locationQuery, e);
    EmptyText(r.payload, d);
    EmptyText(r.payload, e);
    if r.locationPath.len > 0 {
      TextFrame(r.uriHost, d, e, r.locationPath.start);
    }
    assert Texts(d, []) == Texts(e, []) == [];
  }

  method AbsorbQuery(r: PacketRef, data: array<byte>, at: nat, length: nat, ghost head: nat, ghost last: nat)
    returns (r': PacketRef)
    requires head < at && at + length <= data.Length && Within(r, head) && Layout(r, last) && last <= LOCATION_QUERY
    modifies data
    ensures Within(r', at + length) && Layout(r', LOCATION_QUERY)
    ensures Absorb(old(Deref(r, data[..])), LOCATION_QUERY, old(data[..][at..at + length])) == Accepted(Deref(r', data[..]))
    ensures data[..][at + length..] == old(data[..][at + length..])
  {
    hide BlockOf, IntOption, Merged;
    ghost var d := data[..];
    var dst := Merge(data, r.locationQuery, at, length, AMPERSAND);
    r' := r.(base := r.base.(options := r.base.options + {LOCATION_QUERY}), locationQuery := dst);
    ghost var limit := if r.locationQuery.len > 0 then r.locationQuery.start else head;
    OthersFrame(r, d, data[..], limit);
    TextFrame(r.locationPath, d, data[..], limit);
    EndsUp(r.uriPath, limit, dst.start);
    EndsUp(r.uriQuery, limit, dst.start);
    EndsUp(r.uriPath, limit, at + length);
    EndsUp(r.uriQuery, limit, at + length);
  }

  /** The switch of coap_parse_message on one option. */
  method AbsorbOption(r: PacketRef, data: array<byte>, at: nat, number: nat, length: nat, ghost head: nat, ghost last: nat)
    returns (status: Option<byte>, r': PacketRef)
    requires head < at && at + Touched(|r.base.accept|, number, length) <= data.Length
    requires Within(r, head) && Layout(r, last) && last <= number
    modifies data
    ensures var t := Touched(|r.base.accept|, number, length);
            && data[..][at + t..] == old(data[..][at + t..])
            && Within(r', at + t) && Layout(r', number)
            && match status
               case None => Absorb(old(Deref(r, data[..])), number, old(data[..][at..at + t])) == Accepted(Deref(r', data[..]))
               case Some(code) => Absorb(old(Deref(r, data[..])), number, old(data[..][at..at + t])) == Rejected(code)
  {
    hide Absorb, Deref;
    status := None;
    if number == LOCATION_PATH {
      r' := AbsorbPath(r, data, at, length, head, last);
    } else if number == LOCATION_QUERY {
      r' := AbsorbQuery(r, data, at, length, head, last);
    } else if Pointed(number) {
      WithinUp(r, head, at);
      r' := AbsorbPointed(r, data[..], at, number, length, last);
    } else {
      ghost var t := Touched(|r.base.accept|, number, length);
      var s := AbsorbCopied(r.base, data, at, number, length);
      WithinUp(r, head, at + t);
      LayoutUp(r, last, number);
      CopiedCommutes(r, data[..], number, data[at..at + t]);
      assert data[at..at + t] == data[..][at..at + t];
      r' := r;
      match s {
        case Stored(base) => r' := r.(base := base);
        case Refused(code) => status := Some(code);
      }
    }
  }

  lemma WithinUp(r: PacketRef, limit: nat, more: nat)
    requires Within(r, limit) && limit <= more
    ensures Within(r, more)
  {
  }

  /** How a parse ended: NO_ERROR, an error status, or a read or write that left its memory. */
  datatype Status = NoError | Failed(status: byte) | RanOver

  /** One field of an option header, its nibble already read. */
  method ReadExtended(data: array<byte>, at: nat, nibble: nat) returns (ok: bool, value: nat, at': nat)
    requires at <= data.Length
    ensures match ReadField(nibble, data[..][at..])
            case Some((v, used)) => ok && value == v && at' == at + used <= data.Length
            case None => !ok
  {
    ok, value, at' := true, nibble, at;
    if value == 13 {
      if at' >= data.Length {
        return false, value, at';
      }
      value := value + data[at'];
      at' := at' + 1;
    } else if value == 14 {
      if at' + 1 >= data.Length {
        return false, value, at';
      }
      value := value + 255;
      value := value + (data[at'] as int) * 0x100;
      at' := at' + 1;
      value := value + data[at'];
      at' := at' + 1;
    }
  }

  /** A whole option header at position at. */
  method ReadOptionHeader(data: array<byte>, at: nat) returns (ok: bool, delta: nat, length: nat, at': nat)
    requires at < data.Length
    ensures match ReadHeader(data[..][at..])
            case Some(h) => ok && delta == h.delta && length == h.length && at' == at + h.size <= data.Length
            case None => !ok
  {
    ghost var d := data[..][at..];
    assert d[0] == data[at];
    length := 0;
    assert d[1..] == data[..][at + 1..];
    ok, delta, at' := ReadExtended(data, at + 1, data[at] / 16);
    if ok {
      ghost var used := at' - at - 1;
      assert d[1 + used..] == data[..][at'..];
      ok, length, at' := ReadExtended(data, at', data[at] % 16);
    }
  }

  /** What is left to parse at position at of a datagram; an option may claim more than there is. */
  function RestAt(d: seq<byte>, at: nat): seq<byte> {
    d[Min(at, |d|)..]
  }

  /** The invariant of the parse loop, orig being the datagram as it arrived. */
  ghost predicate Parsing(orig: seq<byte>, d: seq<byte>, at: nat, number: nat, r: PacketRef) {
    && |d| == |orig| && RestAt(d, at) == RestAt(orig, at)
    && Within(r, Min(at, |d|)) && Layout(r, number)
    && ParseOptions(RestAt(orig, at), number, Deref(r, d)) == Parse(orig)
  }

  ghost predicate Ended(orig: seq<byte>, d: seq<byte>, status: Status, r: PacketRef) {
    match status
    case NoError => |d| == |orig| && Within(r, |d|) && Parse(orig) == Accepted(Deref(r, d))
    case Failed(code) => Parse(orig) == Rejected(code)
    case RanOver => Parse(orig) == Overrun
  }

  lemma RoundFacts(orig: seq<byte>, d: seq<byte>, at: nat, number: nat, r: PacketRef)
    requires Parsing(orig, d, at, number, r) && at < |d|
    ensures RestAt(orig, at) == d[at..] != []
    ensures match ParseRound(d[at..], number, Deref(r, d))
            case Stop(result) => Parse(orig) == result
            case Go(rest, n, next) => Parse(orig) == ParseOptions(rest, n, next)
  {
    hide ParseRound, Parse, Deref;
  }

  lemma TouchedFromBase(r: PacketRef, d: seq<byte>, number: nat, length: nat)
    requires Within(r, |d|)
    ensures Touched(|Deref(r, d).accept|, number, length) == Touched(|r.base.accept|, number, length)
  {
  }

  /** The payload marker: what follows is the payload, up to REST_MAX_CHUNK_SIZE bytes of it. */
  lemma PayloadEnds(orig: seq<byte>, d: seq<byte>, at: nat, number: nat, r: PacketRef)
    requires Parsing(orig, d, at, number, r) && at < |d| && d[at] >= 0xF0
    ensures Ended(orig, d, NoError, r.(payload := Slice(at + 1, Min(REST_MAX_CHUNK_SIZE, |d| - at - 1))))
  {
    hide Parse, Text, Texts;
    RoundFacts(orig, d, at, number, r);
    var n := Min(REST_MAX_CHUNK_SIZE, |d| - at - 1);
    assert d[at..][1..][..n] == d[at + 1..at + 1 + n];
    PayloadText(r, d, Slice(at + 1, n));
    WithinUp(r, at, |d|);
  }

  lemma PayloadText(r: PacketRef, d: seq<byte>, s: Slice)
    requires Within(r, |d|) && Ends(s, |d|)
    ensures Deref(r.(payload := s), d) == Deref(r, d).(payload := d[s.start..s.start + s.len])
  {
  }

  /** One option of the loop, from its header to the step past its value. */
  method ParseOption(data: array<byte>, at: nat, number: nat, r: PacketRef, ghost orig: seq<byte>)
    returns (status: Status, at': nat, number': nat, r': PacketRef)
    requires Parsing(orig, data[..], at, number, r) && at < data.Length && data[at] < 0xF0
    modifies data
    ensures status == NoError ==> at < at' && Parsing(orig, data[..], at', number', r')
    ensures status != NoError ==> Ended(orig, data[..], status, r')
  {
    hide Parse, Absorb, ParseOptions, Deref, ReadHeader, Within, Layout;
    ghost var d := data[..];
    RoundFacts(orig, d, at, number, r);
    assert d[at..][0] == data[at];
    var ok, delta, length, value := ReadOptionHeader(data, at);
    r', at', number' := r, at, number;
    if !ok {
      return RanOver, at, number, r;
    }
    number' := number + delta;
    var t := Touched(|r.base.accept|, number', length);
    WithinUp(r, at, |d|);
    TouchedFromBase(r, d, number', length);
    ghost var h := Fields(delta, length, value - at);
    assert ParseRound(d[at..], number, Deref(r, d)) == OptionRound(d[at..], number, Deref(r, d), h);
    if number' >= OPTION_LIMIT || value + t > data.Length {
      return RanOver, at, number, r;
    }
    assert d[at..][value - at..value - at + t] == d[value..value + t];
    var refused;
    refused, r' := AbsorbOption(r, data, value, number', length, at, number);
    if refused.Some? {
      return Failed(refused.value), at, number, r';
    }
    at' := value + length;
    NextRest(d, data[..], orig, at, value, t, length);
    WithinUp(r', value + t, Min(at', |d|));
    status := NoError;
  }

  lemma NextRest(d: seq<byte>, e: seq<byte>, orig: seq<byte>, at: nat, value: nat, t: nat, length: nat)
    requires at <= value && t <= length && value + t <= |d| == |e| == |orig|
    requires RestAt(d, at) == RestAt(orig, at) && e[value + t..] == d[value + t..]
    ensures RestAt(e, value + length) == RestAt(orig, value + length)
    ensures d[at..][Min(|d| - at, value - at + length)..] == RestAt(orig, value + length)
  {
    var n := Min(value + length, |d|);
    assert d[n..] == d[at..][n - at..] == orig[at..][n - at..] == orig[n..];
    assert e[n..] == e[value + t..][n - value - t..] == d[value + t..][n - value - t..] == d[n..];
  }

  /** coap_parse_message, on the bytes received. */
  method ParseMessage(data: array<byte>) returns (status: Status, r: PacketRef)
    modifies data
    ensures Ended(old(data[..]), data[..], status, r)
  {
    hide ParseOptions, Within, Deref;
    ghost var orig := data[..];
    r := PacketRef(Init(Con, 0, 0), NOTHING, NOTHING, [], [], NOTHING, NOTHING);
    if data.Length < COAP_HEADER_LEN {
      return RanOver, r;
    }
    var kind, tkl := TypeOf(data[0] / 16 % 4), Min(COAP_TOKEN_LEN, data[0] % 16);
    if data[0] / 64 != 1 {
      return Failed(BAD_REQUEST_4_00), r;
    }
    if data.Length < COAP_HEADER_LEN + tkl {
      return RanOver, r;
    }
    var base := Init(kind, data[1], (data[2] as int) * 0x100 + data[3]);
    if tkl != 0 {
      base := base.(token := data[COAP_HEADER_LEN..COAP_HEADER_LEN + tkl], options := {TOKEN});
    }
    r := r.(base := base);
    var at, number := COAP_HEADER_LEN + tkl, 0;
    StartParsing(orig, r);
    while at < data.Length
      invariant Parsing(orig, data[..], at, number, r)
      decreases data.Length - at
    {
      if data[at] >= 0xF0 {
        PayloadEnds(orig, data[..], at, number, r);
        return NoError, r.(payload := Slice(at + 1, Min(REST_MAX_CHUNK_SIZE, data.Length - at - 1)));
      }
      status, at, number, r := ParseOption(data, at, number, r, orig);
      if status != NoError {
        return;
      }
    }
    NothingLeft(orig, data[..], at, number, r);
    status := NoError;
  }

  lemma StartParsing(d: seq<byte>, r: PacketRef)
    requires |d| >= COAP_HEADER_LEN && d[0] / 64 == 1
    requires var tkl := Min(COAP_TOKEN_LEN, d[0] % 16);
             && COAP_HEADER_LEN + tkl <= |d|
             && var init := Init(TypeOf(d[0] / 16 % 4), d[1], (d[2] as int) * 0x100 + d[3]);
                r == PacketRef(
                  if tkl == 0 then init
                  else init.(token := d[COAP_HEADER_LEN..COAP_HEADER_LEN + tkl], options := {TOKEN}),
                  NOTHING, NOTHING, [], [], NOTHING, NOTHING)
    ensures Parsing(d, d, COAP_HEADER_LEN + Min(COAP_TOKEN_LEN, d[0] % 16), 0, r)
  {
    hide ParseOptions;
    EmptyText(NOTHING, d);
    assert Texts(d, []) == [];
    assert Deref(r, d) == r.base;
  }

  lemma NothingLeft(orig: seq<byte>, d: seq<byte>, at: nat, number: nat, r: PacketRef)
    requires Parsing(orig, d, at, number, r) && at >= |d|
    ensures Ended(orig, d, NoError, r)
  {
    hide Parse, Deref;
  }
}
