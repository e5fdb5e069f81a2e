/** coap_serialize_message and the helpers that write options at an advancing position of a buffer. */
module CoapSerialize {
  import opened Bytes
  import opened CoapOption
  import opened CoapStrings
  import opened CoapPacket

  /** memcpy behind the i bytes already written at at. Every writer below appends in this way. */
  method Append(buffer: array<byte>, at: nat, i: nat, bytes: seq<byte>) returns (i': nat)
    requires at + i + |bytes| <= buffer.Length
    modifies buffer
    ensures i' == i + |bytes|
    ensures buffer[..at] == old(buffer[..at])
    ensures buffer[at..at + i'] == old(buffer[at..at + i]) + bytes
  {
    forall k | 0 <= k < |bytes| {
      buffer[at + i + k] := bytes[k];
    }
    i' := i + |bytes|;
  }

  method PutExtension(x: nat, buffer: array<byte>, at: nat, i: nat) returns (i': nat)
    requires at + i + |Extension(x)| <= buffer.Length
    modifies buffer
    ensures i' == i + |Extension(x)|
    ensures buffer[..at] == old(buffer[..at])
    ensures buffer[at..at + i'] == old(buffer[at..at + i]) + Extension(x)
  {
    i' := i;
    if x > 268 {
      buffer[at + i] := ((x - 269) / 0x100) % 0x100;
      buffer[at + i + 1] := (x - 269) % 0x100;
      i' := i + 2;
    } else if x > 12 {
      buffer[at + i] := x - 13;
      i' := i + 1;
    }
  }

  /** coap_set_option_header: the nibbles first, then the extension of each field in turn. */
  method SetOptionHeader(delta: nat, length: nat, buffer: array<byte>, at: nat, i: nat) returns (i': nat)
    requires at + i + |Header(delta, length)| <= buffer.Length
    modifies buffer
    ensures i' == i + |Header(delta, length)|
    ensures buffer[..at] == old(buffer[..at])
    ensures buffer[at..at + i'] == old(buffer[at..at + i]) + Header(delta, length)
  {
    hide Extension;
    i' := Append(buffer, at, i, [Nibble(delta) * 16 + Nibble(length)]);
    ghost var front := buffer[at..at + i'];
    var x, field := delta, 0;
    while field < 2
      invariant 0 <= field <= 2
      invariant field < 2 ==> x == if field == 0 then delta else length
      invariant buffer[..at] == old(buffer[..at])
      invariant i' == |front| + (if field > 0 then |Extension(delta)| else 0) + (if field > 1 then |Extension(length)| else 0)
      invariant at + i' <= buffer.Length
      invariant buffer[at..at + i'] ==
                front + (if field > 0 then Extension(delta) else []) + (if field > 1 then Extension(length) else [])
    {
      i' := PutExtension(x, buffer, at, i');
      field := field + 1;
      x := length;
    }
  }

  /** The four tests on the value in coap_serialize_int_option count exactly the bytes of the minimal form. */
  lemma MinimalByCases(v: u32)
    ensures Minimal(v) ==
            (if v / 0x100_0000 != 0 then [v / 0x100_0000] else [])
            + (if v / 0x1_0000 != 0 then [v / 0x1_0000 % 0x100] else [])
            + (if v / 0x100 != 0 then [v / 0x100 % 0x100] else [])
            + (if v != 0 then [v % 0x100] else [])
  {
    assert v / 0x100 / 0x100 == v / 0x1_0000 && v / 0x1_0000 / 0x100 == v / 0x100_0000;
    assert Minimal(v / 0x100_0000) == if v / 0x100_0000 == 0 then [] else [v / 0x100_0000];
    assert Minimal(v / 0x1_0000) ==
           if v / 0x1_0000 == 0 then [] else Minimal(v / 0x100_0000) + [v / 0x1_0000 % 0x100];
    assert Minimal(v / 0x100) == if v / 0x100 == 0 then [] else Minimal(v / 0x1_0000) + [v / 0x100 % 0x100];
  }

  /** The value bytes of an integer option, each behind its own test on the value. */
  method PutInt(buffer: array<byte>, at: nat, i: nat, value: u32) returns (i': nat)
    requires at + i + |Minimal(value)| <= buffer.Length
    modifies buffer
    ensures i' == i + |Minimal(value)|
    ensures buffer[..at] == old(buffer[..at])
    ensures buffer[at..at + i'] == old(buffer[at..at + i]) + Minimal(value)
  {
    hide Minimal;
    MinimalByCases(value);
    i' := PutByte(buffer, at, i, value / 0x100_0000 != 0, value / 0x100_0000 % 0x100);
    i' := PutByte(buffer, at, i', value / 0x1_0000 != 0, value / 0x1_0000 % 0x100);
    i' := PutByte(buffer, at, i', value / 0x100 != 0, value / 0x100 % 0x100);
    i' := PutByte(buffer, at, i', value != 0, value % 0x100);
  }

  method CountBytes(value: u32) returns (i: nat)
    ensures i == |Minimal(value)|
  {
    MinimalByCases(value);
    hide Minimal;
    i := 0;
    if value / 0x100_0000 != 0 { i := i + 1; }
    if value / 0x1_0000 != 0 { i := i + 1; }
    if value / 0x100 != 0 { i := i + 1; }
    if value != 0 { i := i + 1; }
  }

  /** coap_serialize_int_option */
  method SerializeInt(delta: nat, buffer: array<byte>, at: nat, value: u32) returns (i: nat)
    requires at + |EncodeValues(delta, [Minimal(value)])| <= buffer.Length
    modifies buffer
    ensures i == |EncodeValues(delta, [Minimal(value)])|
    ensures buffer[..at] == old(buffer[..at])
    ensures buffer[at..at + i] == EncodeValues(delta, [Minimal(value)])
  {
    hide Header, Minimal, EncodeValues;
    EncodeOne(delta, Minimal(value));
    i := CountBytes(value);
    i := SetOptionHeader(delta, i, buffer, at, 0);
    i := PutInt(buffer, at, i, value);
  }

  method PutByte(buffer: array<byte>, at: nat, i: nat, present: bool, b: byte) returns (i': nat)
    requires at + i + (if present then 1 else 0) <= buffer.Length
    modifies buffer
    ensures i' == i + (if present then 1 else 0)
    ensures buffer[..at] == old(buffer[..at])
    ensures buffer[at..at + i'] == old(buffer[at..at + i]) + (if present then [b] else [])
  {
    i' := i;
    if present {
      buffer[at + i] := b;
      i' := i + 1;
    }
  }

  /** One option: its header, then its bytes. */
  method PutOption(delta: nat, buffer: array<byte>, at: nat, i: nat, value: seq<byte>) returns (i': nat)
    requires at + i + |Header(delta, |value|)| + |value| <= buffer.Length
    modifies buffer
    ensures i' == i + |Header(delta, |value|)| + |value|
    ensures buffer[..at] == old(buffer[..at])
    ensures buffer[at..at + i'] == old(buffer[at..at + i]) + (Header(delta, |value|) + value)
  {
    hide Header;
    i' := SetOptionHeader(delta, |value|, buffer, at, i);
    i' := Append(buffer, at, i', value);
  }

  /** Writing the first value of a run leaves the rest of the run to be written with a delta of 0. */
  lemma EncodeNext(w: seq<byte>, delta: nat, first: seq<byte>, rest: seq<seq<byte>>, all: seq<byte>)
    requires w + EncodeValues(delta, [first] + rest) == all
    ensures w + (Header(delta, |first|) + first) + EncodeValues(0, rest) == all
    ensures |w| + |Header(delta, |first|)| + |first| <= |all|
  {
    hide Header;
    EncodeCons(delta, first, rest);
    assert w + (Header(delta, |first|) + first) + EncodeValues(0, rest) ==
           w + (Header(delta, |first|) + first + EncodeValues(0, rest));
  }

  /** coap_serialize_array_option with a split character: a cut skips the separator and the test of what follows. */
  method SerializeSplit(delta: nat, buffer: array<byte>, at: nat, s: seq<byte>, sep: byte) returns (i: nat)
    requires at + |EncodeValues(delta, Split(s, sep))| <= buffer.Length
    modifies buffer
    ensures i == |EncodeValues(delta, Split(s, sep))|
    ensures buffer[..at] == old(buffer[..at])
    ensures buffer[at..at + i] == EncodeValues(delta, Split(s, sep))
  {
    hide Header, EncodeValues;
    ghost var all := EncodeValues(delta, Split(s, sep));
    i := 0;
    var partStart, j, step := 0, 0, delta;
    while j <= |s|
      invariant partStart <= j
      invariant buffer[..at] == old(buffer[..at])
      invariant at + i <= buffer.Length
      invariant buffer[at..at + i] + EncodeValues(step, SplitFrom(s, sep, partStart, j)) == all
      decreases |s| + 2 - j
    {
      if j == |s| || s[j] == sep {
        EncodeNext(buffer[at..at + i], step, s[partStart..j], SplitFrom(s, sep, j + 1, j + 2), all);
        i := PutOption(step, buffer, at, i, s[partStart..j]);
        j := j + 1;
        step := 0;
        partStart := j;
      }
      j := j + 1;
    }
    EncodeNone(step);
  }

  /** coap_serialize_multi_option */
  method SerializeMulti(delta: nat, buffer: array<byte>, at: nat, values: seq<seq<byte>>) returns (i: nat)
    requires at + |EncodeValues(delta, values)| <= buffer.Length
    modifies buffer
    ensures i == |EncodeValues(delta, values)|
    ensures buffer[..at] == old(buffer[..at])
    ensures buffer[at..at + i] == EncodeValues(delta, values)
  {
    hide Header, EncodeValues;
    i := 0;
    var j, step := 0, delta;
    while j < |values|
      invariant 0 <= j <= |values|
      invariant buffer[..at] == old(buffer[..at])
      invariant at + i <= buffer.Length
      invariant buffer[at..at + i] + EncodeValues(step, values[j..]) == EncodeValues(delta, values)
    {
      assert values[j..] == [values[j]] + values[j + 1..];
      EncodeNext(buffer[at..at + i], step, values[j], values[j + 1..], EncodeValues(delta, values));
      i := PutOption(step, buffer, at, i, values[j]);
      step := 0;
      j := j + 1;
    }
    EncodeNone(step);
    assert values[j..] == [];
  }

  /** coap_log_2 */
  method LogTwo(value: u16) returns (result: nat)
    ensures result == Log2(value)
  {
    var v: u16 := value / 2;
    result := 1;
    while v != 0
      invariant if v == 0 then result - 1 == Log2(value) else result + Log2(v) == Log2(value)
      decreases v
    {
      v := v / 2;
      result := result + 1;
    }
    result := result - 1;
  }

  /** The number a block macro builds: num shifted by 4, the more bit, the logarithm of the size masked by 0xF. */
  method BlockField(b: Block) returns (block: u32)
    ensures block == BlockValue(b)
  {
    block := (b.num * 16) % 0x1_0000_0000;
    assert block % 16 == 0;
    var log := LogTwo(b.size / 16);
    var szx := log % 16;
    if b.more != 0 && szx < 8 {
      block := block + 8;
    }
    block := block + szx;
  }
}
