/** The option header of a CoAP message: a nibble each for delta and length, and up to two more bytes each. */
module CoapOption {
  import opened Bytes

  /** The largest delta or length the two extension bytes can carry. */
  const MAX_FIELD := 269 + 0xFFFF

  function Nibble(v: nat): nat {
    if v < 13 then v else if v <= 0xFF + 13 then 13 else 14
  }

  function Extension(v: nat): seq<byte> {
    if v > 268 then [((v - 269) / 0x100) % 0x100, (v - 269) % 0x100]
    else if v > 12 then [v - 13]
    else []
  }

  function Header(delta: nat, length: nat): (h: seq<byte>)
    ensures 1 <= |h| <= 5 && h[0] < 0xF0
  {
    [Nibble(delta) * 16 + Nibble(length)] + Extension(delta) + Extension(length)
  }

  /** A field read back: its value and how many extension bytes it took; None when they run off the end. */
  function ReadField(nibble: nat, d: seq<byte>): (r: Option<(nat, nat)>)
    ensures r.Some? ==> r.value.1 <= |d|
  {
    if nibble == 13 then
      if |d| < 1 then None else Some((13 + (d[0] as int), 1))
    else if nibble == 14 then
      if |d| < 2 then None else Some((14 + 255 + (d[0] as int) * 0x100 + d[1], 2))
    else Some((nibble, 0))
  }

  /** delta, length, and the size of the header itself. */
  datatype Fields = Fields(delta: nat, length: nat, size: nat)

  function ReadHeader(d: seq<byte>): (r: Option<Fields>)
    requires d != []
    ensures r.Some? ==> 1 <= r.value.size <= |d|
  {
    match ReadField(d[0] / 16, d[1..])
    case None => None
    case Some(delta) =>
      match ReadField(d[0] % 16, d[1 + delta.1..])
      case None => None
      case Some(length) => Some(Fields(delta.0, length.0, 1 + delta.1 + length.1))
  }

  /** What survives of a field: its extension keeps 16 bits. */
  function Kept(v: nat): nat {
    if v <= 268 then v else 269 + (v - 269) % 0x1_0000
  }

  lemma FieldInverse(v: nat, rest: seq<byte>)
    ensures ReadField(Nibble(v), Extension(v) + rest) == Some((Kept(v), |Extension(v)|))
  {
    if v > 268 {
      var w := v - 269;
      var hi := (w / 0x100) % 0x100;
      assert (hi * 0x100 + w % 0x100) == w % 0x1_0000;
    }
  }

  lemma HeaderRead(delta: nat, length: nat, rest: seq<byte>)
    ensures ReadHeader(Header(delta, length) + rest) ==
            Some(Fields(Kept(delta), Kept(length), |Header(delta, length)|))
  {
    var d := Header(delta, length) + rest;
    FieldInverse(delta, Extension(length) + rest);
    FieldInverse(length, rest);
    assert d[1..] == Extension(delta) + (Extension(length) + rest);
    assert d[1 + |Extension(delta)|..] == Extension(length) + rest;
    assert d[0] == Nibble(delta) * 16 + Nibble(length);
    assert d[0] / 16 == Nibble(delta) && d[0] % 16 == Nibble(length);
  }

  /** Reading back a header gives what was written exactly when both fields fit their extensions. */
  lemma HeaderInverse(delta: nat, length: nat, rest: seq<byte>)
    ensures ReadHeader(Header(delta, length) + rest) == Some(Fields(delta, length, |Header(delta, length)|))
            <==> delta <= MAX_FIELD && length <= MAX_FIELD
  {
    HeaderRead(delta, length, rest);
  }
}
