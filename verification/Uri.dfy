/** Decimal ids, and the URI paths made of them (core/uri.c, and the path setters of er-coap-13.c). */
module Uri {
  import opened Bytes

  const ZERO: byte := '0' as int
  const LWM2M_MAX_ID := 0xFFFF

  /** URI_REGISTRATION_SEGMENT and URI_BOOTSTRAP_SEGMENT. */
  const RD: seq<byte> := ['r' as int, 'd' as int]
  const BS: seq<byte> := ['b' as int, 's' as int]

  // ----- numbers -----

  /** What printf writes for %hu. */
  function Decimal(n: nat): (s: seq<byte>)
    ensures s != [] && forall b :: b in s ==> ZERO <= b <= ZERO + 9
  {
    if n < 10 then [ZERO + n] else Decimal(n / 10) + [ZERO + n % 10]
  }

  predicate Digit(b: byte) {
    ZERO <= b <= ZERO + 9
  }

  const INT_LIMIT := 0x8000_0000

  /** What an int of 32 bits keeps of a sum or a product that is too large, two's complement. */
  function Wrap(v: int): (w: int)
    ensures -INT_LIMIT <= w < INT_LIMIT
    ensures -INT_LIMIT <= v < INT_LIMIT ==> w == v
  {
    (v + INT_LIMIT) % (2 * INT_LIMIT) - INT_LIMIT
  }

  /** The number read from the digits of s, up to a slash, on top of value; None if anything else comes up. */
  function NumberOnto(s: seq<byte>, value: int): Option<int> {
    if s == [] || s[0] == SLASH then Some(value)
    else if Digit(s[0]) then NumberOnto(s[1..], Wrap(value * 10 + (s[0] - ZERO)))
    else None
  }

  /** The number a caller of prv_get_number takes: it tells no negative result from the error. */
  function Number(s: seq<byte>): Option<nat> {
    match NumberOnto(s, 0) case None => None case Some(v) => if v < 0 then None else Some(v)
  }

  lemma WrapStep(v: int, d: int)
    ensures Wrap(Wrap(v) + d) == Wrap(v + d)
    ensures Wrap(10 * Wrap(v)) == Wrap(10 * v)
  {
    WrapMultiple(v);
    var k :| Wrap(v) == v + k * (2 * INT_LIMIT);
    assert Wrap(v) + d == (v + d) + k * (2 * INT_LIMIT);
    WrapSame(v + d, k);
    assert 10 * Wrap(v) == 10 * v + 10 * k * (2 * INT_LIMIT);
    WrapSame(10 * v, 10 * k);
  }

  lemma WrapMultiple(v: int)
    ensures exists k :: Wrap(v) == v + k * (2 * INT_LIMIT)
  {
    var k := -((v + INT_LIMIT) / (2 * INT_LIMIT));
    assert Wrap(v) == v + k * (2 * INT_LIMIT);
  }

  lemma WrapSame(v: int, k: int)
    ensures Wrap(v + k * (2 * INT_LIMIT)) == Wrap(v)
  {
    var m, q, r := 2 * INT_LIMIT, (v + INT_LIMIT) / (2 * INT_LIMIT), (v + INT_LIMIT) % (2 * INT_LIMIT);
    assert v + k * m + INT_LIMIT == (q + k) * m + r;
    assert ((q + k) * m + r) % m == r;
  }

  /** prv_get_number; a negative result stands for the error. */
  method GetNumber(s: seq<byte>) returns (result: int)
    ensures Number(s) == if result < 0 then None else Some(result)
  {
    var head, mul := 0, 0;
    result := 0;
    while head < |s| && s[head] != SLASH
      invariant 0 <= head <= |s|
      invariant mul == 0 ==> result == 0
      invariant mul == 0 || mul == 10
      invariant NumberOnto(s[head..], result) == NumberOnto(s, 0)
    {
      if !Digit(s[head]) {
        return -1;
      }
      var before := result;
      if mul == 0 {
        mul := 10;
      } else {
        result := Wrap(result * mul);
      }
      WrapStep(before * 10, s[head] - ZERO);
      result := Wrap(result + (s[head] - ZERO));
      assert s[head..][1..] == s[head + 1..];
      head := head + 1;
    }
  }

  /** What the digits of s denote on top of value. */
  function ValueOnto(s: seq<byte>, value: nat): nat
    requires forall b :: b in s ==> Digit(b)
  {
    if s == [] then value
    else
      assert s[0] in s && Digit(s[0]);
      ValueOnto(s[1..], value * 10 + (s[0] - ZERO))
  }

  lemma {:induction false} NumberWraps(s: seq<byte>, value: nat)
    requires forall b :: b in s ==> Digit(b)
    ensures NumberOnto(s, Wrap(value)) == Some(Wrap(ValueOnto(s, value)))
  {
    hide Wrap;
    if s != [] {
      assert s[0] in s;
      WrapStep(value, 0);
      WrapStep(10 * Wrap(value), s[0] - ZERO);
      WrapStep(10 * value, s[0] - ZERO);
      assert Wrap(Wrap(value) * 10 + (s[0] - ZERO)) == Wrap(value * 10 + (s[0] - ZERO));
      NumberWraps(s[1..], value * 10 + (s[0] - ZERO));
    }
  }

  /** A string of digits is read as the number it denotes if and only if that fits 31 bits; else modulo two to the 32. */
  lemma DigitsExact(s: seq<byte>)
    requires forall b :: b in s ==> Digit(b)
    ensures Number(s) == (var v := Wrap(ValueOnto(s, 0)); if v < 0 then None else Some(v))
    ensures Number(s) == Some(ValueOnto(s, 0)) <==> ValueOnto(s, 0) < INT_LIMIT
  {
    NumberWraps(s, 0);
  }

  /** What stands in front of the first slash. */
  ghost predicate Heads(head: seq<byte>, s: seq<byte>) {
    head <= s && SLASH !in head && (|head| < |s| ==> s[|head|] == SLASH)
  }

  lemma {:induction false} NumberHead(s: seq<byte>, head: seq<byte>, value: int)
    requires Heads(head, s)
    ensures NumberOnto(s, value) == NumberOnto(head, value)
    ensures NumberOnto(head, value).Some? <==> forall b :: b in head ==> Digit(b)
    decreases |head|
  {
    hide Wrap;
    if head != [] {
      assert head[0] in head && head[0] != SLASH;
      assert forall b :: b in head <==> b == head[0] || b in head[1..];
      NumberHead(s[1..], head[1..], Wrap(value * 10 + (s[0] - ZERO)));
    }
  }

  /**
   * Of any string, what is in front of the first slash is read: as a number if and only if all of it is digits, which
   * may be none, and what they denote modulo two to the 32 is not negative as an int.
   */
  lemma NumberExact(s: seq<byte>, head: seq<byte>)
    requires Heads(head, s)
    ensures Number(s).Some? <==> (forall b :: b in head ==> Digit(b)) && Wrap(ValueOnto(head, 0)) >= 0
    ensures Number(s).Some? ==> Number(s).value == Wrap(ValueOnto(head, 0))
  {
    NumberHead(s, head, 0);
    if forall b :: b in head ==> Digit(b) {
      DigitsExact(head);
    }
  }

  lemma {:induction false} ValueSplits(s: seq<byte>, last: byte, value: nat)
    requires (forall b :: b in s ==> Digit(b)) && Digit(last)
    ensures ValueOnto(s + [last], value) == ValueOnto(s, value) * 10 + (last - ZERO)
  {
    if s == [] {
      assert [last][1..] == [];
    } else {
      assert s[0] in s && (s + [last])[1..] == s[1..] + [last];
      ValueSplits(s[1..], last, value * 10 + (s[0] - ZERO));
    }
  }

  lemma {:induction false} DecimalValue(n: nat)
    ensures ValueOnto(Decimal(n), 0) == n
  {
    if n < 10 {
      var d: seq<byte> := [ZERO + n];
      assert d[1..] == [] && ValueOnto(d, 0) == ValueOnto(d[1..], n);
    } else {
      DecimalValue(n / 10);
      ValueSplits(Decimal(n / 10), ZERO + n % 10, 0);
    }
  }

  /** Reading a printed number gives it back if and only if it fits 31 bits. */
  lemma DecimalInverse(n: nat)
    ensures Number(Decimal(n)) == Some(n) <==> n < INT_LIMIT
  {
    DecimalValue(n);
    DigitsExact(Decimal(n));
  }

  lemma DecimalShort(n: u16)
    ensures |Decimal(n)| <= 5
  {
    if n >= 10 {
      assert |Decimal(n)| == |Decimal(n / 10)| + 1;
      if n / 10 >= 10 {
        assert |Decimal(n / 10)| == |Decimal(n / 10 / 10)| + 1;
        if n / 100 >= 10 {
          assert |Decimal(n / 100)| == |Decimal(n / 100 / 10)| + 1;
          assert |Decimal(n / 1000)| <= 2;
        }
      }
    }
  }

  // ----- decoded URIs -----

  datatype UriType = Management | Registration | Bootstrap

  /** lwm2m_uri_t: the flag byte is kept as its type bits and one boolean per id bit; unset ids stay 0. */
  datatype Uri = Uri(kind: UriType, hasObject: bool, hasInstance: bool, hasResource: bool,
                     objectId: u16, instanceId: u16, resourceId: u16)

  const NO_URI := Uri(Management, false, false, false, 0, 0, 0)

  predicate IdBelow(segment: seq<byte>, limit: nat) {
    Number(segment).Some? && Number(segment).value < limit
  }

  /** Which paths name something, and what. A skipped instance or resource is an empty segment. */
  function UriOf(path: seq<seq<byte>>): Option<Uri> {
    if path == [] then None
    else if path[0] == RD then
      if |path| == 1 then Some(NO_URI.(kind := Registration))
      else if |path| == 2 && IdBelow(path[1], 0x1_0000) then
        Some(NO_URI.(kind := Registration, hasObject := true, objectId := Number(path[1]).value))
      else None
    else if path[0] == BS then
      if |path| == 1 then Some(NO_URI.(kind := Bootstrap)) else None
    else if |path| <= 3 && IdBelow(path[0], 0x1_0000)
         && (|path| >= 2 && path[1] != [] ==> IdBelow(path[1], LWM2M_MAX_ID))
         && (|path| >= 3 && path[2] != [] ==> IdBelow(path[2], 0x1_0000)) then
      var hasInstance := |path| >= 2 && path[1] != [];
      var hasResource := |path| >= 3 && path[2] != [];
      Some(Uri(Management, true, hasInstance, hasResource, Number(path[0]).value,
               if hasInstance then Number(path[1]).value else 0,
               if hasResource then Number(path[2]).value else 0))
    else None
  }

  /** The segment is a number n: digits in front of its end or of a slash in it, read as an int of 32 bits. */
  ghost predicate Spells(segment: seq<byte>, n: nat) {
    exists head :: Heads(head, segment) && (forall b :: b in head ==> Digit(b)) && Wrap(ValueOnto(head, 0)) == n
  }

  /**
   * The segments say what u says, ids not said being 0: /rd and /rd/id, /bs, or one to three ids of which all but the
   * first may be empty.
   */
  ghost predicate PathNames(path: seq<seq<byte>>, u: Uri) {
    && path != [] && (!u.hasObject ==> u.objectId == 0) && (!u.hasInstance ==> u.instanceId == 0) && (!u.hasResource ==> u.resourceId == 0)
    && match u.kind
       case Registration =>
         && path[0] == RD && |path| == (if u.hasObject then 2 else 1) && !u.hasInstance && !u.hasResource
         && (u.hasObject ==> Spells(path[1], u.objectId))
       case Bootstrap => path == [BS] && !u.hasObject && !u.hasInstance && !u.hasResource
       case Management =>
         && path[0] != RD && path[0] != BS && |path| <= 3 && u.hasObject && Spells(path[0], u.objectId)
         && (u.hasInstance <==> |path| > 1 && path[1] != [])
         && (u.hasInstance ==> Spells(path[1], u.instanceId) && u.instanceId != LWM2M_MAX_ID)
         && (u.hasResource <==> |path| > 2 && path[2] != [])
         && (u.hasResource ==> Spells(path[2], u.resourceId))
  }

  lemma SpelledNumber(s: seq<byte>, n: nat)
    ensures Number(s) == Some(n) <==> Spells(s, n)
  {
    var i := SegmentEnd(s, SLASH);
    NumberExact(s, s[..i]);
    if Spells(s, n) {
      var head :| Heads(head, s) && (forall b :: b in head ==> Digit(b)) && Wrap(ValueOnto(head, 0)) == n;
      NumberExact(s, head);
    } else {
      assert Heads(s[..i], s);
    }
  }

  /** The URI of a path is the one its segments name; there is none if and only if they name nothing. */
  lemma UriExact(path: seq<seq<byte>>, u: Uri)
    ensures UriOf(path) == Some(u) <==> PathNames(path, u)
  {
    hide Spells, Number;
    forall k | 0 <= k < |path|
      ensures Number(path[k]).Some? ==> Spells(path[k], Number(path[k]).value)
      ensures forall n: nat :: Spells(path[k], n) <==> Number(path[k]) == Some(n)
    {
      forall n: nat
        ensures Spells(path[k], n) <==> Number(path[k]) == Some(n)
      {
        SpelledNumber(path[k], n);
      }
    }
  }

  /** A path of one number names the object with that number modulo two to the 32, if that is an id at all. */
  lemma ObjectSegment(n: nat)
    ensures UriOf([Decimal(n)]) ==
            if 0 <= Wrap(n) <= LWM2M_MAX_ID then Some(NO_URI.(hasObject := true, objectId := Wrap(n))) else None
  {
    DecimalIsNoName(n);
    DecimalValue(n);
    DigitsExact(Decimal(n));
    hide NumberOnto, Decimal;
  }

  /** lwm2m_decode_uri */
  method DecodeUri(path: seq<seq<byte>>) returns (r: Option<Uri>)
    ensures r == UriOf(path)
  {
    hide NumberOnto;
    if path == [] {
      return None;
    }
    var uri, i := NO_URI, 0;
    if path[i] == RD {
      uri := uri.(kind := Registration);
      i := i + 1;
      if i == |path| {
        return Some(uri);
      }
    } else if path[i] == BS {
      uri := uri.(kind := Bootstrap);
      i := i + 1;
      if i != |path| {
        return None;
      }
      return Some(uri);
    }
    var number := GetNumber(path[i]);
    if number < 0 || number > LWM2M_MAX_ID {
      return None;
    }
    uri := uri.(objectId := number, hasObject := true);
    i := i + 1;
    if uri.kind == Registration {
      if i != |path| {
        return None;
      }
      return Some(uri);
    }
    if i == |path| {
      return Some(uri);
    }
    if path[i] != [] {
      number := GetNumber(path[i]);
      if number < 0 || number >= LWM2M_MAX_ID {
        return None;
      }
      uri := uri.(instanceId := number, hasInstance := true);
    }
    i := i + 1;
    if i == |path| {
      return Some(uri);
    }
    if path[i] != [] {
      number := GetNumber(path[i]);
      if number < 0 || number > LWM2M_MAX_ID {
        return None;
      }
      uri := uri.(resourceId := number, hasResource := true);
    }
    if i + 1 == |path| {
      return Some(uri);
    }
    return None;
  }

  // ----- the path of a management request -----

  /** A URI the server's API takes: always an object id, and nothing in the ids it does not set. */
  predicate RequestUri(u: Uri) {
    && u.kind == Management && u.hasObject
    && (!u.hasInstance ==> u.instanceId == 0) && (!u.hasResource ==> u.resourceId == 0)
  }

  /** The segments transaction_new adds, an empty one in place of a skipped instance. */
  function Segments(u: Uri): seq<seq<byte>> {
    [Decimal(u.objectId)]
    + (if u.hasInstance then [Decimal(u.instanceId)] else if u.hasResource then [[]] else [])
    + (if u.hasResource then [Decimal(u.resourceId)] else [])
  }

  lemma DecimalIsNoName(n: nat)
    ensures Decimal(n) != RD && Decimal(n) != BS && SLASH !in Decimal(n)
  {
    if Decimal(n) == RD || Decimal(n) == BS {
      assert Decimal(n)[0] in Decimal(n);
    }
  }

  /** The client decodes the path of a request to the URI the request was made for, unless its instance id is 65535. */
  lemma RequestUriRoundTrip(u: Uri)
    requires RequestUri(u)
    ensures UriOf(Segments(u)) == Some(u) <==> (u.hasInstance ==> u.instanceId < LWM2M_MAX_ID)
    ensures !(u.hasInstance ==> u.instanceId < LWM2M_MAX_ID) ==> UriOf(Segments(u)) == None
    ensures |Segments(u)| == if u.hasResource then 3 else if u.hasInstance then 2 else 1
  {
    hide NumberOnto, Decimal;
    DecimalInverse(u.objectId);
    DecimalInverse(u.instanceId);
    DecimalInverse(u.resourceId);
    DecimalIsNoName(u.objectId);
  }

  // ----- cutting a path or query string -----

  const QUESTION_MARK: byte := '?' as int

  /** Where the first separator is, or the end. */
  function SegmentEnd(s: seq<byte>, sep: byte): (i: nat)
    ensures i <= |s|
    ensures sep !in s[..i]
    ensures i < |s| ==> s[i] == sep
  {
    if s == [] || s[0] == sep then 0
    else
      assert s[..1 + SegmentEnd(s[1..], sep)] == [s[0]] + s[1..][..SegmentEnd(s[1..], sep)];
      1 + SegmentEnd(s[1..], sep)
  }

  function Segmented(s: seq<byte>, sep: byte): seq<seq<byte>>
    decreases |s|
  {
    var i := SegmentEnd(s, sep);
    if i + 1 >= |s| then [s[..i]] else [s[..i]] + Segmented(s[i + 1..], sep)
  }

  /** The segments of a string, one leading mark not counting. */
  function Cut(s: seq<byte>, mark: byte, sep: byte): seq<seq<byte>> {
    if s != [] && s[0] == mark then Segmented(s[1..], sep) else Segmented(s, sep)
  }

  /** What coap_set_header_uri_path makes of a string. */
  function UriPathOf(path: seq<byte>): seq<seq<byte>> {
    Cut(path, SLASH, SLASH)
  }

  /** What coap_set_header_uri_query makes of a string. */
  function UriQueryOf(query: seq<byte>): seq<seq<byte>> {
    Cut(query, QUESTION_MARK, AMPERSAND)
  }

  lemma SegmentEndUnique(s: seq<byte>, sep: byte, i: nat)
    requires i <= |s| && sep !in s[..i] && (i < |s| ==> s[i] == sep)
    ensures SegmentEnd(s, sep) == i
  {
  }

  method ScanSegment(s: seq<byte>, sep: byte) returns (i: nat)
    ensures i == SegmentEnd(s, sep)
  {
    i := 0;
    while i < |s| && s[i] != sep
      invariant i <= |s| && sep !in s[..i]
    {
      i := i + 1;
    }
    SegmentEndUnique(s, sep, i);
  }

  /** coap_set_header_uri_path and coap_set_header_uri_query, rest being what is left of the string. */
  method SetSegments(whole: seq<byte>, mark: byte, sep: byte) returns (segments: seq<seq<byte>>)
    ensures segments == Cut(whole, mark, sep)
  {
    hide Segmented, SegmentEnd;
    segments := [];
    var rest := if whole != [] && whole[0] == mark then whole[1..] else whole;
    var more := true;
    while more
      invariant if more then segments + Segmented(rest, sep) == Cut(whole, mark, sep) else segments == Cut(whole, mark, sep)
      decreases more, |rest|
    {
      var i := ScanSegment(rest, sep);
      SegmentStep(rest, sep);
      more := i + 1 < |rest|;
      segments := segments + [rest[..i]];
      rest := rest[Min(i + 1, |rest|)..];
    }
  }

  lemma SegmentStep(s: seq<byte>, sep: byte)
    ensures var i := SegmentEnd(s, sep);
            Segmented(s, sep) == if i + 1 >= |s| then [s[..i]] else [s[..i]] + Segmented(s[i + 1..], sep)
  {
  }

  /** A string without the separator is one segment. */
  lemma CutOne(a: seq<byte>, mark: byte, sep: byte)
    requires sep !in a && (a != [] ==> a[0] != mark)
    ensures Cut(a, mark, sep) == [a]
  {
    assert a[..|a|] == a;
    SegmentEndUnique(a, sep, |a|);
    SegmentStep(a, sep);
  }

  /** And one mark in front of it is left out. */
  lemma CutMarked(a: seq<byte>, mark: byte, sep: byte)
    requires sep !in a
    ensures Cut([mark] + a, mark, sep) == [a]
  {
    var s := [mark] + a;
    assert s[1..] == a && a[..|a|] == a;
    SegmentEndUnique(a, sep, |a|);
    SegmentStep(a, sep);
  }

  /** Two plain segments are cut apart at the slash between them. */
  lemma PathOfTwo(a: seq<byte>, b: seq<byte>)
    requires a != [] && b != [] && SLASH !in a && SLASH !in b
    ensures UriPathOf(a + [SLASH] + b) == [a, b]
  {
    var s := a + [SLASH] + b;
    assert s[0] == a[0] && a[0] in a;
    assert s[..|a|] == a && s[|a| + 1..] == b;
    SegmentEndUnique(s, SLASH, |a|);
    assert b[..|b|] == b;
    SegmentEndUnique(b, SLASH, |b|);
    SegmentStep(s, SLASH);
    SegmentStep(b, SLASH);
  }
}
