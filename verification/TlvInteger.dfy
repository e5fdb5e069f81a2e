/** Integers as record data: sign and magnitude, in the fewest bytes that leave the top bit for the sign. */
module TlvInteger {
  import opened Bytes
  import opened Tlv

  const INT64_MIN := -0x8000_0000_0000_0000
  const INT64_MAX := 0x7FFF_FFFF_FFFF_FFFF
  const BUFFER_SIZE := 8

  /** The first magnitude that does not fit n bytes with a bit to spare: 2 to the power 8n-1. */
  function Limit(n: nat): nat
    requires n >= 1
  {
    if n == 1 then 0x80 else 0x100 * Limit(n - 1)
  }

  /** v >> 8n */
  function ShrBytes(v: nat, n: nat): nat {
    if n == 0 then v else ShrBytes(v / 0x100, n - 1)
  }

  /** The low n bytes of v, most significant first. */
  function LowBytes(v: nat, n: nat): (s: seq<byte>)
    ensures |s| == n
  {
    if n == 0 then [] else LowBytes(v / 0x100, n - 1) + [v % 0x100]
  }

  lemma {:induction false} LowBytesGrow(v: nat, n: nat)
    ensures LowBytes(v, n + 1) == [ShrBytes(v, n) % 0x100] + LowBytes(v, n)
  {
    if n > 0 {
      LowBytesGrow(v / 0x100, n - 1);
    }
  }

  lemma {:induction false} LowBytesWhole(v: nat, n: nat)
    requires n >= 1 && v < Limit(n)
    ensures BigEndian(LowBytes(v, n)) == v && LowBytes(v, n)[0] < 0x80
  {
    var s := LowBytes(v, n);
    if n == 1 {
      assert s[..0] == [];
    } else {
      LowBytesWhole(v / 0x100, n - 1);
      assert s[..|s| - 1] == LowBytes(v / 0x100, n - 1);
    }
  }

  function Magnitude(x: int): nat {
    if x < 0 then -x else x
  }

  /** s with the sign bit set on its first byte for a negative number. */
  function Signed(s: seq<byte>, negative: bool): seq<byte>
    requires s != [] && s[0] < 0x80
  {
    if negative then [s[0] + 0x80] + s[1..] else s
  }

  /** A length that fits the magnitude and leaves the sign bit free. */
  predicate FitsIn(x: int, n: nat) {
    1 <= n && Magnitude(x) < Limit(n)
  }

  /** s with the sign bit taken off its first byte. */
  function WithoutSign(s: seq<byte>): seq<byte>
    requires s != []
  {
    [s[0] % 0x80] + s[1..]
  }

  /** The number record data stands for; None for the result 0. */
  function IntOf(s: seq<byte>): Option<int> {
    if |s| == 0 || |s| > 8 then None
    else
      var v: int := BigEndian(WithoutSign(s));
      Some(if s[0] >= 0x80 then -v else v)
  }

  /** lwm2m_opaqueToInt */
  method OpaqueToInt(buffer: array<byte>, from: nat, len: nat) returns (r: Option<int>)
    requires from + len <= buffer.Length
    ensures r == IntOf(buffer[from..from + len])
  {
    if len == 0 || len > 8 {
      return None;
    }
    var data: int := buffer[from] % 0x80;
    var i := 1;
    ghost var s := buffer[from..from + len];
    ghost var digits := WithoutSign(s);
    assert digits[..1] == [s[0] % 0x80];
    WordBytes(s[0] % 0x80, 0, 0);
    hide BigEndian;
    while i < len
      invariant 1 <= i <= len
      invariant data == BigEndian(digits[..i])
    {
      BigEndianStep(digits, i);
      assert digits[i] == s[i] == buffer[from + i];
      data := data * 0x100 + buffer[from + i];
      i := i + 1;
    }
    assert digits[..len] == digits;
    if buffer[from] >= 0x80 {
      data := 0 - data;
    }
    return Some(data);
  }

  lemma SignedInverse(s: seq<byte>, negative: bool)
    requires 1 <= |s| <= 8 && s[0] < 0x80
    ensures IntOf(Signed(s, negative)) == Some(if negative then -(BigEndian(s) as int) else BigEndian(s))
  {
    hide BigEndian, Signed, WithoutSign;
    StrippedSigned(s, negative);
    var t := Signed(s, negative);
    assert BigEndian(WithoutSign(t)) == BigEndian(s);
  }

  lemma StrippedSigned(s: seq<byte>, negative: bool)
    requires s != [] && s[0] < 0x80
    ensures var t := Signed(s, negative); |t| == |s| && (t[0] >= 0x80 <==> negative) && WithoutSign(t) == s
  {
    var t := Signed(s, negative);
    assert t[1..] == s[1..];
  }

  lemma {:induction false} BigEndianBelow(s: seq<byte>)
    requires s != [] && s[0] < 0x80
    ensures BigEndian(s) < Limit(|s|)
  {
    if |s| > 1 {
      BigEndianBelow(s[..|s| - 1]);
    } else {
      assert s[..0] == [];
    }
  }

  /** Data of 1 to 8 bytes stands for an integer, one that fits as many bytes with its sign; no other data does. */
  lemma IntOfExact(s: seq<byte>)
    ensures IntOf(s).Some? <==> 1 <= |s| <= 8
    ensures IntOf(s).Some? ==> FitsIn(IntOf(s).value, |s|) && (s[0] < 0x80 ==> IntOf(s).value == BigEndian(s))
  {
    hide BigEndian;
    if s != [] {
      BigEndianBelow(WithoutSign(s));
      assert s[0] < 0x80 ==> WithoutSign(s) == s;
    }
  }

  lemma {:induction false} LimitGrows(m: nat, n: nat)
    requires 1 <= m <= n
    ensures Limit(m) <= Limit(n)
  {
    if m < n {
      LimitGrows(m, n - 1);
    }
  }

  lemma LimitOfEight()
    ensures Limit(8) == INT64_MAX + 1
  {
    assert Limit(2) == 0x8000 && Limit(4) == 0x8000_0000 && Limit(6) == 0x8000_0000_0000;
  }

  /** The one int64 whose magnitude no length of up to 8 bytes fits is the smallest. */
  lemma OnlyMinDoesNotFit(x: int)
    requires INT64_MIN <= x <= INT64_MAX
    ensures (exists n :: 1 <= n <= 8 && FitsIn(x, n)) <==> x != INT64_MIN
  {
    LimitOfEight();
    if x != INT64_MIN {
      assert FitsIn(x, 8);
    }
    forall n | 1 <= n <= 8
      ensures Limit(n) <= Limit(8)
    {
      LimitGrows(n, 8);
    }
  }

  /**
   * The loop of lwm2m_intToTLV: the bytes of the magnitude, from the right end of the buffer, until the
   * sign bit is free. A magnitude of 2 to the 63 would make the source run past the buffer.
   */
  method FillMagnitude(buffer: array<byte>, value: nat) returns (length: nat)
    requires buffer.Length == BUFFER_SIZE && value <= INT64_MAX
    modifies buffer
    ensures 1 <= length <= BUFFER_SIZE && value < Limit(length)
    ensures forall m :: 1 <= m < length ==> value >= Limit(m)
    ensures buffer[BUFFER_SIZE - length..] == LowBytes(value, length)
  {
    LimitOfEight();
    length := 0;
    var more := true;
    while more
      invariant 0 <= length <= BUFFER_SIZE
      invariant more ==> length < BUFFER_SIZE
      invariant more <==> length == 0 || value >= Limit(length)
      invariant forall m :: 1 <= m < length ==> value >= Limit(m)
      invariant buffer[BUFFER_SIZE - length..] == LowBytes(value, length)
      decreases BUFFER_SIZE - length
    {
      LowBytesGrow(value, length);
      ghost var before := buffer[BUFFER_SIZE - length..];
      length := length + 1;
      buffer[BUFFER_SIZE - length] := ShrBytes(value, length - 1) % 0x100;
      assert buffer[BUFFER_SIZE - length..] == [ShrBytes(value, length - 1) % 0x100] + before;
      more := value >= Limit(length);
    }
  }

  /** The least length from n on that leaves the sign bit of a magnitude free. */
  function LeastFrom(v: nat, n: nat): (r: nat)
    requires 1 <= n <= BUFFER_SIZE && v < Limit(BUFFER_SIZE)
    ensures n <= r <= BUFFER_SIZE && v < Limit(r) && forall m :: n <= m < r ==> v >= Limit(m)
    decreases BUFFER_SIZE - n
  {
    if v < Limit(n) then n else LeastFrom(v, n + 1)
  }

  /** The data of the record for an integer. */
  function IntBytes(x: int): seq<byte>
    requires INT64_MIN < x <= INT64_MAX
  {
    LimitOfEight();
    var n := LeastFrom(Magnitude(x), 1);
    LowBytesWhole(Magnitude(x), n);
    Signed(LowBytes(Magnitude(x), n), x < 0)
  }

  lemma LeastUnique(v: nat, n: nat)
    requires 1 <= n <= BUFFER_SIZE && v < Limit(n) && v < Limit(BUFFER_SIZE)
    requires forall m :: 1 <= m < n ==> v >= Limit(m)
    ensures LeastFrom(v, 1) == n
  {
    var r := LeastFrom(v, 1);
    assert !(r < n) && !(n < r);
  }

  /** The bytes denote the integer, and no shorter length fits it. */
  lemma IntBytesExact(x: int)
    requires INT64_MIN < x <= INT64_MAX
    ensures 1 <= |IntBytes(x)| <= BUFFER_SIZE && FitsIn(x, |IntBytes(x)|)
    ensures forall m :: 1 <= m < |IntBytes(x)| ==> !FitsIn(x, m)
    ensures IntOf(IntBytes(x)) == Some(x) && (IntBytes(x)[0] >= 0x80 <==> x < 0)
  {
    LimitOfEight();
    var n := LeastFrom(Magnitude(x), 1);
    hide Limit, LowBytes, BigEndian, IntOf;
    LowBytesWhole(Magnitude(x), n);
    SignedInverse(LowBytes(Magnitude(x), n), x < 0);
    StrippedSigned(LowBytes(Magnitude(x), n), x < 0);
  }

  /** The data bytes of an integer record, built from the right end of a buffer. */
  method IntData(data: int) returns (bytes: seq<byte>)
    requires INT64_MIN < data <= INT64_MAX
    ensures bytes == IntBytes(data)
  {
    LimitOfEight();
    hide Limit, LowBytes;
    var buffer := new byte[BUFFER_SIZE];
    var negative := data < 0;
    var value := if negative then 0 - data else data;
    var length := FillMagnitude(buffer, value);
    LowBytesWhole(value, length);
    LeastUnique(value, length);
    ghost var magnitude := buffer[BUFFER_SIZE - length..];
    if negative {
      buffer[BUFFER_SIZE - length] := buffer[BUFFER_SIZE - length] + 0x80;
    }
    bytes := buffer[BUFFER_SIZE - length..];
    assert bytes == Signed(magnitude, negative);
  }

  /** The bytes are a record of this type and id, whatever follows it, with data that stands for the integer. */
  ghost predicate HoldsInt(d: seq<byte>, t: RecordType, id: u16, x: int) {
    match Decoded(d)
    case None => false
    case Some(f) =>
      && f.t == t && f.id == id && f.index + f.length <= |d|
      && IntOf(d[f.index..f.index + f.length]) == Some(x)
      && FitsIn(x, f.length) && forall m :: 1 <= m < f.length ==> !FitsIn(x, m)
  }

  /**
   * lwm2m_intToTLV: for a type that holds a value and a buffer that is large enough, a record that decodes to the
   * integer, with the fewest data bytes that leave the sign bit free.
   */
  method IntToTlv(t: RecordType, data: int, id: u16, buffer: array<byte>) returns (size: nat)
    requires INT64_MIN < data <= INT64_MAX
    modifies buffer
    ensures size == if (t == ResourceInstance || t == Resource) && |Record(t, id, IntBytes(data))| <= buffer.Length
                    then |Record(t, id, IntBytes(data))| else 0
    ensures size > 0 ==> buffer[..size] == Record(t, id, IntBytes(data)) && HoldsInt(buffer[..size], t, id, data)
    ensures buffer[size..] == old(buffer[size..])
  {
    if t != ResourceInstance && t != Resource {
      return 0;
    }
    hide IntBytes, HoldsInt, Header;
    var payload := IntData(data);
    size := OpaqueToTlv(t, payload, id, buffer);
    IntegerRoundTrip(t, data, id, []);
    assert Record(t, id, payload) + [] == Record(t, id, payload);
  }

  /** The record written for an integer decodes to it, whatever follows. */
  lemma IntegerRoundTrip(t: RecordType, x: int, id: u16, rest: seq<byte>)
    requires INT64_MIN < x <= INT64_MAX
    ensures HoldsInt(Record(t, id, IntBytes(x)) + rest, t, id, x)
  {
    hide IntOf, Decoded, Header, IntBytes, FitsIn;
    IntBytesExact(x);
    var bytes := IntBytes(x);
    RecordInverse(t, id, bytes, rest);
    var d, k := Record(t, id, bytes) + rest, |Header(t, id, |bytes|)|;
    assert d[k..k + |bytes|] == d[k..][..|bytes|];
  }
}
