/**
 * Strings that travel as repeated options: coap_serialize_array_option cuts them at a separator,
 * coap_merge_multi_option joins what arrives.
 */
module CoapStrings {
  import opened Bytes

  /**
   * The segments cut from a string, from a segment that began at start, with j the next character to
   * look at. After a cut the character that follows it is not looked at.
   */
  function SplitFrom(s: seq<byte>, sep: byte, start: nat, j: nat): seq<seq<byte>>
    requires start <= j
    decreases |s| + 2 - j
  {
    if j > |s| then []
    else if j == |s| || s[j] == sep then [s[start..j]] + SplitFrom(s, sep, j + 1, j + 2)
    else SplitFrom(s, sep, start, j + 1)
  }

  function Split(s: seq<byte>, sep: byte): seq<seq<byte>> {
    SplitFrom(s, sep, 0, 0)
  }

  /** One more segment joined to what is there: no separator after an empty string. */
  function Merged(soFar: seq<byte>, segment: seq<byte>, sep: byte): seq<byte> {
    if |soFar| > 0 then soFar + [sep] + segment else segment
  }

  function JoinedOnto(soFar: seq<byte>, segments: seq<seq<byte>>, sep: byte): seq<byte>
    decreases |segments|
  {
    if segments == [] then soFar
    else JoinedOnto(Merged(soFar, segments[0], sep), segments[1..], sep)
  }

  function Joined(segments: seq<seq<byte>>, sep: byte): seq<byte> {
    JoinedOnto([], segments, sep)
  }

  /** How many separators a string ends in. */
  function TrailingRun(s: seq<byte>, sep: byte): (r: nat)
    ensures r <= |s|
    ensures forall i :: |s| - r <= i < |s| ==> s[i] == sep
    ensures r < |s| ==> s[|s| - r - 1] != sep
  {
    if s == [] || s[|s| - 1] != sep then 0 else 1 + TrailingRun(s[..|s| - 1], sep)
  }

  /** A string a caller can send and expect back: no leading separator, no odd run of trailing ones. */
  predicate Joinable(s: seq<byte>, sep: byte) {
    s == [] || (s[0] != sep && TrailingRun(s, sep) % 2 == 0)
  }

  /** The last cut falls on the last character, so that nothing is written for what follows it. */
  predicate EndsAtCut(s: seq<byte>, sep: byte, j: nat)
    decreases |s| + 2 - j
  {
    if j >= |s| then j > |s|
    else if s[j] == sep then EndsAtCut(s, sep, j + 2)
    else EndsAtCut(s, sep, j + 1)
  }

  lemma SplitNonempty(s: seq<byte>, sep: byte, start: nat, j: nat)
    requires start <= j <= |s|
    ensures SplitFrom(s, sep, start, j) != []
    decreases |s| - j
  {
  }

  lemma JoinStep(soFar: seq<byte>, first: seq<byte>, rest: seq<seq<byte>>, sep: byte)
    ensures JoinedOnto(soFar, [first] + rest, sep) == JoinedOnto(Merged(soFar, first, sep), rest, sep)
  {
    assert ([first] + rest)[1..] == rest;
  }

  lemma {:induction false} JoinRest(s: seq<byte>, sep: byte, start: nat, j: nat)
    requires 2 <= start <= |s| && start <= j <= |s| + 1 && s[start - 1] == sep
    requires j == |s| + 1 ==> start == |s|
    ensures JoinedOnto(s[..start - 1], SplitFrom(s, sep, start, j), sep) ==
            if EndsAtCut(s, sep, j) then s[..|s| - 1] else s
    decreases |s| + 1 - j
  {
    if j == |s| + 1 {
    } else if j == |s| || s[j] == sep {
      JoinStep(s[..start - 1], s[start..j], SplitFrom(s, sep, j + 1, j + 2), sep);
      assert Merged(s[..start - 1], s[start..j], sep) == s[..j];
      if j < |s| {
        JoinRest(s, sep, j + 1, j + 2);
      }
    } else {
      JoinRest(s, sep, start, j + 1);
    }
  }

  lemma {:induction false} JoinFirst(s: seq<byte>, sep: byte, j: nat)
    requires 1 <= j <= |s|
    ensures JoinedOnto([], SplitFrom(s, sep, 0, j), sep) == if EndsAtCut(s, sep, j) then s[..|s| - 1] else s
    decreases |s| - j
  {
    if j == |s| || s[j] == sep {
      JoinStep([], s[0..j], SplitFrom(s, sep, j + 1, j + 2), sep);
      assert Merged([], s[0..j], sep) == s[..j];
      if j < |s| {
        JoinRest(s, sep, j + 1, j + 2);
      }
    } else {
      JoinFirst(s, sep, j + 1);
    }
  }

  lemma {:induction false} JoinLength(s: seq<byte>, sep: byte, soFar: seq<byte>, start: nat, j: nat)
    requires start <= j
    ensures |JoinedOnto(soFar, SplitFrom(s, sep, start, j), sep)| <=
            |soFar| + (if |soFar| > 0 then 1 else 0) + (if start <= |s| then |s| - start else 0)
    decreases |s| + 2 - j
  {
    if j > |s| {
    } else if j == |s| || s[j] == sep {
      var next := Merged(soFar, s[start..j], sep);
      JoinStep(soFar, s[start..j], SplitFrom(s, sep, j + 1, j + 2), sep);
      JoinLength(s, sep, next, j + 1, j + 2);
    } else {
      JoinLength(s, sep, soFar, start, j + 1);
    }
  }

  lemma {:induction false} CutParity(s: seq<byte>, sep: byte, j: nat)
    requires j <= |s| + 1
    requires var r := TrailingRun(s, sep); r < |s|
    ensures var r := TrailingRun(s, sep);
            EndsAtCut(s, sep, j) <==> (if j <= |s| - r then r else |s| - j) % 2 != 0
    decreases |s| + 1 - j
  {
    if j < |s| {
      CutParity(s, sep, if s[j] == sep then j + 2 else j + 1);
    }
  }

  /** A string survives being cut and joined exactly when it is Joinable. */
  lemma SplitJoin(s: seq<byte>, sep: byte)
    ensures Joined(Split(s, sep), sep) == s <==> Joinable(s, sep)
  {
    if s == [] {
      assert Split(s, sep) == [s];
      JoinStep([], [], [], sep);
    } else if s[0] == sep {
      JoinStep([], [], SplitFrom(s, sep, 1, 2), sep);
      assert Split(s, sep) == [[]] + SplitFrom(s, sep, 1, 2);
      JoinLength(s, sep, [], 1, 2);
    } else {
      assert Split(s, sep) == SplitFrom(s, sep, 0, 1);
      JoinFirst(s, sep, 1);
      CutParity(s, sep, 1);
    }
  }

  lemma {:induction false} SplitPlain(s: seq<byte>, sep: byte, start: nat, j: nat)
    requires start <= j <= |s| && forall i :: j <= i < |s| ==> s[i] != sep
    ensures SplitFrom(s, sep, start, j) == [s[start..]]
    decreases |s| - j
  {
    if j < |s| {
      SplitPlain(s, sep, start, j + 1);
    } else {
      assert s[start..j] == s[start..];
    }
  }

  lemma {:induction false} SplitAtFirst(a: seq<byte>, b: seq<byte>, sep: byte, j: nat)
    requires j <= |a| && sep !in a && sep !in b && b != []
    ensures SplitFrom(a + [sep] + b, sep, 0, j) == [a, b]
    decreases |a| - j
  {
    var s := a + [sep] + b;
    if j < |a| {
      assert s[j] == a[j];
      SplitAtFirst(a, b, sep, j + 1);
    } else {
      assert s[0..j] == a && s[j + 1..] == b && s[j] == sep;
      assert forall i :: j < i < |s| ==> s[i] == b[i - j - 1];
      SplitPlain(s, sep, j + 1, j + 2);
    }
  }

  /** Two plain segments are cut apart at the separator between them. */
  lemma SplitTwo(a: seq<byte>, b: seq<byte>, sep: byte)
    requires sep !in a && sep !in b && b != []
    ensures Split(a + [sep] + b, sep) == [a, b]
  {
    SplitAtFirst(a, b, sep, 0);
  }
}
