/** The setters of er-coap-13.c that cut, skip or check what they are given. */
module CoapSetters {
  import opened Bytes
  import opened CoapPacket
  import opened Uri

  /** s without its leading marks. */
  function Stripped(s: seq<byte>, mark: byte): seq<byte> {
    if s != [] && s[0] == mark then Stripped(s[1..], mark) else s
  }

  function WithLocationQuery(p: Packet, query: seq<byte>): Packet {
    p.(locationQuery := Stripped(query, QUESTION_MARK), options := p.options + {LOCATION_QUERY})
  }

  /** The path up to a question mark; what follows the mark becomes the query. */
  function WithLocation(p: Packet, path: seq<byte>): Packet {
    var s := Stripped(path, SLASH);
    var i := SegmentEnd(s, QUESTION_MARK);
    var q := if i < |s| then WithLocationQuery(p, s[i + 1..]) else p;
    q.(locationPath := s[..i], options := q.options + {LOCATION_PATH})
  }

  function WithToken(p: Packet, token: seq<byte>): Packet {
    p.(token := token[..Min(COAP_TOKEN_LEN, |token|)], options := p.options + {TOKEN})
  }

  function WithPayload(p: Packet, payload: seq<byte>): Packet {
    p.(payload := payload[..Min(REST_MAX_CHUNK_SIZE, |payload|)])
  }

  function WithBlock2(p: Packet, num: u32, more: bool, size: u16): Packet {
    if size < 16 || size > 2048 || num > 0xF_FFFF then p
    else p.(block2 := p.block2.(num := num, more := if more then 1 else 0, size := size), options := p.options + {BLOCK2})
  }

  /** A block is set when its size is one of 16..2048 and its number has at most 20 bits; otherwise nothing is. */
  lemma BlockSet(p: Packet, num: u32, more: bool, size: u16)
    ensures WithBlock2(p, num, more, size) != p ==> 16 <= size <= 2048 && num < 0x10_0000
    ensures 16 <= size <= 2048 && num < 0x10_0000 ==>
              var q := WithBlock2(p, num, more, size);
              && BLOCK2 in q.options && q.block2.num == num && q.block2.size == size
              && (q.block2.more == 1 <==> more) && (q.block2.more == 0 <==> !more)
  {
  }

  method Strip(s: seq<byte>, mark: byte) returns (rest: seq<byte>)
    ensures rest == Stripped(s, mark)
  {
    rest := s;
    while rest != [] && rest[0] == mark
      invariant Stripped(rest, mark) == Stripped(s, mark)
      decreases |rest|
    {
      rest := rest[1..];
    }
  }

  /** coap_set_header_location_path, with coap_set_header_location_query */
  method SetLocationPath(p: Packet, path: seq<byte>) returns (q: Packet)
    ensures q == WithLocation(p, path)
  {
    hide Stripped, SegmentEnd;
    q := p;
    var rest := Strip(path, SLASH);
    var i := ScanSegment(rest, QUESTION_MARK);
    if i < |rest| {
      var query := Strip(rest[i + 1..], QUESTION_MARK);
      q := q.(locationQuery := query, options := q.options + {LOCATION_QUERY});
    }
    q := q.(locationPath := rest[..i], options := q.options + {LOCATION_PATH});
  }
}
