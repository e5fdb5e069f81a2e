/** TLV records: the header of core/tlv.c, its encoder and decoder over byte buffers, and integers as record data. */
module Tlv {
  import opened Bytes

  datatype RecordType = ObjectInstance | ResourceInstance | MultipleInstance | Resource

  /** The largest data length the header has room for. */
  const MAX_DATA := 0xFF_FFFF
  const LWM2M_TLV_HEADER_MAX_LENGTH := 6

  function TypeBits(t: RecordType): nat {
    match t case ObjectInstance => 0 case ResourceInstance => 0x40 case MultipleInstance => 0x80 case Resource => 0xC0
  }

  function TypeOf(bits: nat): RecordType {
    if bits == 0 then ObjectInstance else if bits == 1 then ResourceInstance
    else if bits == 2 then MultipleInstance else Resource
  }

  /** How a length is told in the first byte: in its low bits, or by the width of the length field that follows. */
  function LengthBits(n: nat): nat {
    if n <= 7 then n else if n <= 0xFF then 0x08 else if n <= 0xFFFF then 0x10 else if n <= MAX_DATA then 0x18 else 0
  }

  function LengthField(n: nat): seq<byte> {
    if n <= 7 then []
    else if n <= 0xFF then [n]
    else if n <= 0xFFFF then [n / 0x100, n % 0x100]
    else if n <= MAX_DATA then [n / 0x1_0000, n / 0x100 % 0x100, n % 0x100]
    else []
  }

  function IdField(id: u16): seq<byte> {
    if id > 0xFF then [id / 0x100, id % 0x100] else [id]
  }

  function Header(t: RecordType, id: u16, n: nat): (h: seq<byte>)
    ensures 2 <= |h| <= LWM2M_TLV_HEADER_MAX_LENGTH
  {
    [TypeBits(t) + (if id > 0xFF then 0x20 else 0) + LengthBits(n)] + IdField(id) + LengthField(n)
  }

  function Record(t: RecordType, id: u16, data: seq<byte>): seq<byte> {
    Header(t, id, |data|) + data
  }

  /** prv_create_header */
  method CreateHeader(header: array<byte>, t: RecordType, id: u16, n: nat) returns (headerLen: nat)
    requires header.Length == LWM2M_TLV_HEADER_MAX_LENGTH
    modifies header
    ensures headerLen == |Header(t, id, n)|
    ensures header[..headerLen] == Header(t, id, n)
  {
    headerLen := 2;
    header[0] := 0;
    match t {
      case ObjectInstance =>
      case ResourceInstance => header[0] := header[0] + 0x40;
      case MultipleInstance => header[0] := header[0] + 0x80;
      case Resource => header[0] := header[0] + 0xC0;
    }
    if id > 0xFF {
      header[0] := header[0] + 0x20;
      header[1] := id / 0x100;
      header[2] := id % 0x100;
      headerLen := headerLen + 1;
    } else {
      header[1] := id;
    }
    assert header[..headerLen] == [header[0]] + IdField(id);
    headerLen := PutLength(header, headerLen, n);
  }

  /** The length bits go into the first byte, the length field behind what is written. */
  method PutLength(header: array<byte>, at: nat, n: nat) returns (end: nat)
    requires 1 <= at && at + |LengthField(n)| <= header.Length && header[0] + LengthBits(n) < 0x100
    modifies header
    ensures end == at + |LengthField(n)|
    ensures header[..end] == [old(header[0]) + LengthBits(n)] + old(header[1..at]) + LengthField(n)
  {
    end := at;
    if n <= 7 {
      header[0] := header[0] + n;
    } else if n <= 0xFF {
      header[0] := header[0] + 0x08;
      header[at] := n;
      end := at + 1;
    } else if n <= 0xFFFF {
      header[0] := header[0] + 0x10;
      header[at] := n / 0x100;
      header[at + 1] := n % 0x100;
      end := at + 2;
    } else if n <= MAX_DATA {
      header[0] := header[0] + 0x18;
      header[at] := n / 0x1_0000;
      header[at + 1] := n / 0x100 % 0x100;
      header[at + 2] := n % 0x100;
      end := at + 3;
    }
  }

  /** lwm2m_opaqueToTLV: 0, and nothing written, when the buffer is too small. */
  method OpaqueToTlv(t: RecordType, data: seq<byte>, id: u16, buffer: array<byte>) returns (size: nat)
    modifies buffer
    ensures size == if buffer.Length < |Record(t, id, data)| then 0 else |Record(t, id, data)|
    ensures size > 0 ==> buffer[..size] == Record(t, id, data) && buffer[size..] == old(buffer[size..])
    ensures size == 0 ==> buffer[..] == old(buffer[..])
  {
    var header := new byte[LWM2M_TLV_HEADER_MAX_LENGTH];
    var headerLen := CreateHeader(header, t, id, |data|);
    hide Header;
    if buffer.Length < |data| + headerLen {
      return 0;
    }
    forall i | 0 <= i < headerLen {
      buffer[i] := header[i];
    }
    forall i | 0 <= i < |data| {
      buffer[headerLen + i] := data[i];
    }
    assert buffer[..headerLen] == header[..headerLen];
    size := headerLen + |data|;
  }

  // ----- decoding one record -----

  /** Where the data of a record is; the record ends with it. */
  datatype Found = Found(t: RecordType, id: u16, index: nat, length: nat)

  /** lwm2m_decodeTLV; None stands for the result 0. */
  function Decoded(d: seq<byte>): (r: Option<Found>)
    ensures r.Some? ==> 2 <= r.value.index && r.value.index + r.value.length <= |d|
  {
    if |d| < 2 then None
    else
      var wide := d[0] / 0x20 % 2 == 1;
      var at := if wide then 3 else 2;
      var width := d[0] / 8 % 4;
      if |d| < at + width then None
      else
        var id := if wide then (d[1] as int) * 0x100 + d[2] else d[1];
        var length := if width == 0 then d[0] % 8 else BigEndian(d[at..at + width]);
        if at + width + length > |d| then None
        else Some(Found(TypeOf(d[0] / 0x40), id, at + width, length))
  }

  lemma WordBytes(a: byte, b: byte, c: byte)
    ensures BigEndian([a]) == a && BigEndian([a, b]) == (a as int) * 0x100 + b
    ensures BigEndian([a, b, c]) == (a as int) * 0x1_0000 + (b as int) * 0x100 + c
  {
    assert [a][..0] == [] && [a, b][..1] == [a] && [a, b, c][..2] == [a, b];
  }

  /** lwm2m_decodeTLV on a stretch of a buffer. */
  method DecodeTlv(buffer: array<byte>, from: nat, len: nat) returns (r: Option<Found>)
    requires from + len <= buffer.Length
    ensures r == Decoded(buffer[from..from + len])
  {
    hide BigEndian;
    ghost var d := buffer[..][from..from + len];
    assert d == buffer[from..from + len];
    if len < 2 {
      return None;
    }
    var index := 2;
    var first := buffer[from];
    assert first == d[0];
    var t := TypeOf(first / 0x40);
    var id: u16;
    if first / 0x20 % 2 == 1 {
      if len < 3 {
        return None;
      }
      index := index + 1;
      id := (buffer[from + 1] as int) * 0x100 + buffer[from + 2];
    } else {
      id := buffer[from + 1];
    }
    var length: nat;
    var width := first / 8 % 4;
    if len < index + width {
      return None;
    }
    length := DecodeLength(buffer, from + index, width, first);
    SliceOfSlice(buffer[..], from, from + len, index, index + width);
    assert buffer[from + index..from + index + width] == buffer[..][from + index..from + index + width];
    index := index + width;
    if index + length > len {
      return None;
    }
    return Some(Found(t, id, index, length));
  }

  method DecodeLength(buffer: array<byte>, at: nat, width: nat, first: byte) returns (length: nat)
    requires width < 4 && at + width <= buffer.Length
    ensures length == if width == 0 then first % 8 else BigEndian(buffer[at..at + width])
  {
    if width == 0 {
      length := first % 8;
    } else if width == 1 {
      length := buffer[at];
      assert buffer[at..at + 1] == [buffer[at]];
      WordBytes(buffer[at], 0, 0);
    } else if width == 2 {
      length := (buffer[at] as int) * 0x100 + buffer[at + 1];
      assert buffer[at..at + 2] == [buffer[at], buffer[at + 1]];
      WordBytes(buffer[at], buffer[at + 1], 0);
    } else {
      length := (buffer[at] as int) * 0x1_0000 + (buffer[at + 1] as int) * 0x100 + buffer[at + 2];
      assert buffer[at..at + 3] == [buffer[at], buffer[at + 1], buffer[at + 2]];
      WordBytes(buffer[at], buffer[at + 1], buffer[at + 2]);
    }
  }

  lemma LengthFieldRead(n: nat)
    requires n <= MAX_DATA
    ensures |LengthField(n)| == LengthBits(n) / 8
    ensures |LengthField(n)| > 0 ==> BigEndian(LengthField(n)) == n
    ensures |LengthField(n)| == 0 ==> LengthBits(n) == n
  {
    if 7 < n <= 0xFF {
      WordBytes(n, 0, 0);
    } else if 0xFF < n <= 0xFFFF {
      WordBytes(n / 0x100, n % 0x100, 0);
    } else if 0xFFFF < n {
      WordBytes(n / 0x1_0000, n / 0x100 % 0x100, n % 0x100);
      assert n / 0x100 / 0x100 == n / 0x1_0000;
    }
  }

  lemma FirstByte(t: RecordType, wide: bool, bits: nat)
    requires bits < 0x20
    ensures var first := TypeBits(t) + (if wide then 0x20 else 0) + bits;
            TypeOf(first / 0x40) == t && (first / 0x20 % 2 == 1 <==> wide) && first / 8 % 4 == bits / 8 && first % 8 == bits % 8
  {
    var k := TypeBits(t) / 0x20 + (if wide then 1 else 0);
    var first := k * 0x20 + bits;
    assert first / 0x20 == k && first / 0x40 == k / 2;
    assert first / 8 == 4 * k + bits / 8;
  }

  /** The decoder's view of a header whose parts are known. */
  lemma PartsRead(first: byte, id: u16, field: seq<byte>, rest: seq<byte>, n: nat)
    requires |field| == first / 8 % 4 && (first / 0x20 % 2 == 1 <==> id > 0xFF)
    requires n == if field == [] then first % 8 else BigEndian(field)
    ensures var h := [first] + IdField(id) + field;
            Decoded(h + rest) == if |rest| < n then None else Some(Found(TypeOf(first / 0x40), id, |h|, n))
  {
    hide BigEndian, TypeOf;
    var h := [first] + IdField(id) + field;
    var d, at := h + rest, 1 + |IdField(id)|;
    assert d[0] == first && d[1] == IdField(id)[0];
    assert id > 0xFF ==> d[2] == IdField(id)[1];
    assert d[at..at + |field|] == field;
  }

  lemma HeaderRead(t: RecordType, id: u16, n: nat, rest: seq<byte>)
    requires n <= MAX_DATA
    ensures Decoded(Header(t, id, n) + rest) ==
            if |rest| < n then None else Some(Found(t, id, |Header(t, id, n)|, n))
  {
    assert LengthBits(n) < 0x20;
    hide BigEndian, TypeBits, TypeOf, Decoded, IdField, LengthField, LengthBits;
    FirstByte(t, id > 0xFF, LengthBits(n));
    LengthFieldRead(n);
    PartsRead(TypeBits(t) + (if id > 0xFF then 0x20 else 0) + LengthBits(n), id, LengthField(n), rest, n);
  }

  /**
   * A record decodes to its type, its id and its data, whatever follows it, exactly when the data is
   * short enough for a length field.
   */
  lemma RecordInverse(t: RecordType, id: u16, data: seq<byte>, rest: seq<byte>)
    ensures Decoded(Record(t, id, data) + rest) == Some(Found(t, id, |Header(t, id, |data|)|, |data|))
            <==> |data| <= MAX_DATA
    ensures (Record(t, id, data) + rest)[|Header(t, id, |data|)|..][..|data|] == data
  {
    var n := |data|;
    assert Record(t, id, data) + rest == Header(t, id, n) + (data + rest);
    if n <= MAX_DATA {
      HeaderRead(t, id, n, data + rest);
    } else {
      assert Header(t, id, n) == Header(t, id, 0);
      HeaderRead(t, id, 0, data + rest);
    }
  }
}
