/** Machine words, byte strings and the two integer encodings every part of the engine shares. */
module Bytes {

  datatype Option<+T> = None | Some(value: T)

  type byte = b: int | 0 <= b < 0x100
  type u16 = n: int | 0 <= n < 0x1_0000
  type u32 = n: int | 0 <= n < 0x1_0000_0000

  /** A socket address, by its bytes. */
  type Address = seq<byte>

  const SLASH: byte := '/' as int
  const AMPERSAND: byte := '&' as int

  /** The number a big-endian byte string denotes. */
  function BigEndian(s: seq<byte>): nat {
    if s == [] then 0 else BigEndian(s[..|s| - 1]) * 0x100 + s[|s| - 1]
  }

  lemma BigEndianStep(s: seq<byte>, i: nat)
    requires i < |s|
    ensures BigEndian(s[..i + 1]) == BigEndian(s[..i]) * 0x100 + s[i]
  {
    assert s[..i + 1][..i] == s[..i];
  }

  /** The shortest big-endian byte string for v: no byte at all for zero. */
  function Minimal(v: nat): seq<byte> {
    if v == 0 then [] else Minimal(v / 0x100) + [v % 0x100]
  }

  lemma {:induction false} MinimalInverse(v: nat)
    ensures BigEndian(Minimal(v)) == v
  {
    if v == 0 {
    } else {
      MinimalInverse(v / 0x100);
      assert Minimal(v)[..|Minimal(v)| - 1] == Minimal(v / 0x100);
    }
  }

  /** Minimal really is minimal: any byte string for the same number is at least as long. */
  lemma {:induction false} MinimalShortest(s: seq<byte>)
    ensures |Minimal(BigEndian(s))| <= |s|
  {
    if s == [] {
    } else {
      var init := s[..|s| - 1];
      MinimalShortest(init);
      assert BigEndian(s) / 0x100 == BigEndian(init);
    }
  }

  lemma MinimalLength(v: nat)
    ensures v < 0x100 ==> |Minimal(v)| <= 1
    ensures v < 0x1_0000 ==> |Minimal(v)| <= 2
    ensures v < 0x100_0000 ==> |Minimal(v)| <= 3
    ensures v < 0x1_0000_0000 ==> |Minimal(v)| <= 4
  {
    if v != 0 && v / 0x100 != 0 && v / 0x1_0000 != 0 {
      assert v / 0x100 / 0x100 == v / 0x1_0000;
      assert v / 0x1_0000 / 0x100 == v / 0x100_0000;
    }
  }

  /** v << n, on unbounded numbers. */
  function Shl(v: nat, n: nat): nat {
    if n == 0 then v else 2 * Shl(v, n - 1)
  }

  function Min(a: nat, b: nat): nat {
    if a < b then a else b
  }

  lemma SliceOfSlice<T>(s: seq<T>, a: nat, b: nat, i: nat, j: nat)
    requires a <= b <= |s| && i <= j <= b - a
    ensures s[a..b][i..j] == s[a + i..a + j]
  {
    forall k | 0 <= k < j - i
      ensures s[a..b][i..j][k] == s[a + i..a + j][k]
    {
      assert s[a..b][i..j][k] == s[a..b][i + k] == s[a + i + k];
    }
  }
}
