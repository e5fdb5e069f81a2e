/** Nested TLV records, and the recursive loop of tests/TLV/decode.c that takes a buffer apart. */
module TlvForest {
  import opened Bytes
  import opened Tlv

  /** What the loop reports for one record: its data, or for the two container types the records within. */
  datatype Tree = Value(t: RecordType, id: u16, data: seq<byte>) | Container(t: RecordType, id: u16, children: seq<Tree>)

  predicate Contains(t: RecordType) {
    t == ObjectInstance || t == MultipleInstance
  }

  function TreeData(tree: Tree): seq<byte>
    decreases tree, 1
  {
    match tree case Value(_, _, data) => data case Container(_, _, children) => Encoded(children)
  }

  /** The forest as lwm2m_opaqueToTLV writes it, children first becoming the data of their container. */
  function Encoded(forest: seq<Tree>): seq<byte>
    decreases forest, 2
  {
    if forest == [] then [] else Record(forest[0].t, forest[0].id, TreeData(forest[0])) + Encoded(forest[1..])
  }

  /** Containers are of the container types, and every record's data fits the header, at every level. */
  ghost predicate Encodable(forest: seq<Tree>)
    decreases forest
  {
    forest != [] ==>
      && (Contains(forest[0].t) <==> forest[0].Container?)
      && |TreeData(forest[0])| <= MAX_DATA
      && (forest[0].Container? ==> Encodable(forest[0].children))
      && Encodable(forest[1..])
  }

  /** How many records there are, counting those within others. */
  function RecordCount(forest: seq<Tree>): nat
    decreases forest
  {
    if forest == [] then 0
    else 1 + (if forest[0].Container? then RecordCount(forest[0].children) else 0) + RecordCount(forest[1..])
  }

  datatype Dissection = Dissection(forest: seq<Tree>, used: nat)

  /** One more record in front of what was found behind it. */
  function Before(first: Tree, size: nat, rest: Dissection): Dissection {
    Dissection([first] + rest.forest, size + rest.used)
  }

  function TreeOf(f: Found, data: seq<byte>): Tree
    decreases |data|, 3
  {
    if Contains(f.t) then Container(f.t, f.id, Dissected(data).forest) else Value(f.t, f.id, data)
  }

  /** decode: records until one does not decode, and how many bytes they took. */
  function Dissected(d: seq<byte>): (r: Dissection)
    ensures r.used <= |d|
    decreases |d|, 2
  {
    match Decoded(d)
    case None => Dissection([], 0)
    case Some(f) =>
      var size := f.index + f.length;
      Before(TreeOf(f, d[f.index..size]), size, Dissected(d[size..]))
  }

  lemma DissectedNone(d: seq<byte>)
    requires Decoded(d) == None
    ensures Dissected(d) == Dissection([], 0)
  {
  }

  lemma DissectedStep(d: seq<byte>, f: Found)
    requires Decoded(d) == Some(f)
    ensures var size := f.index + f.length;
            && 2 <= size <= |d|
            && Dissected(d) == Before(TreeOf(f, d[f.index..size]), size, Dissected(d[size..]))
  {
    hide Decoded, TreeOf, Before;
  }

  /** decode on a stretch of a buffer. */
  method Decode(buffer: array<byte>, from: nat, len: nat) returns (forest: seq<Tree>, length: nat)
    requires from + len <= buffer.Length
    ensures Dissection(forest, length) == Dissected(buffer[from..from + len])
    decreases len, 1
  {
    hide Decoded, Dissected;
    ghost var whole := buffer[from..from + len];
    ghost var d := whole;
    forest, length := [], 0;
    var result := DecodeTlv(buffer, from, len);
    while result.Some?
      invariant length <= len && d == buffer[from + length..from + len]
      invariant result == Decoded(d)
      invariant forest + Dissected(d).forest == Dissected(whole).forest
      invariant length + Dissected(d).used == Dissected(whole).used
      decreases len - length
    {
      DissectedStep(d, result.value);
      var tree, size := DecodeRecord(buffer, from + length, len - length, result.value, d);
      assert forest + ([tree] + Dissected(d[size..]).forest) == forest + [tree] + Dissected(d[size..]).forest;
      d := d[size..];
      forest := forest + [tree];
      length := length + size;
      result := DecodeTlv(buffer, from + length, len - length);
    }
    DissectedNone(d);
  }

  /** One turn of the loop: the record's data, taken apart again for a container. */
  method DecodeRecord(buffer: array<byte>, from: nat, len: nat, f: Found, ghost d: seq<byte>) returns (tree: Tree, size: nat)
    requires from + len <= buffer.Length && d == buffer[from..from + len]
    requires 2 <= f.index && f.index + f.length <= len
    ensures size == f.index + f.length && tree == TreeOf(f, d[f.index..size])
    decreases len, 0
  {
    hide Dissected, Contains;
    size := f.index + f.length;
    assert d == buffer[..][from..from + len];
    SliceOfSlice(buffer[..], from, from + len, f.index, size);
    assert buffer[from + f.index..from + size] == buffer[..][from + f.index..from + size];
    if Contains(f.t) {
      var children, used := Decode(buffer, from + f.index, f.length);
      tree := Container(f.t, f.id, children);
    } else {
      tree := Value(f.t, f.id, buffer[from + f.index..from + size]);
    }
  }

  lemma DissectRecord(t: RecordType, id: u16, data: seq<byte>, rest: seq<byte>)
    requires |data| <= MAX_DATA
    ensures var tree := if Contains(t) then Container(t, id, Dissected(data).forest) else Value(t, id, data);
            Dissected(Record(t, id, data) + rest) ==
            Dissection([tree] + Dissected(rest).forest, |Record(t, id, data)| + Dissected(rest).used)
  {
    hide Decoded, Header;
    var d, k := Record(t, id, data) + rest, |Header(t, id, |data|)|;
    RecordInverse(t, id, data, rest);
    assert d[k..k + |data|] == d[k..][..|data|];
    assert d[k + |data|..] == rest;
  }

  lemma EncodedCons(first: Tree, rest: seq<Tree>)
    ensures Encoded([first] + rest) == Record(first.t, first.id, TreeData(first)) + Encoded(rest)
  {
    assert ([first] + rest)[1..] == rest;
  }

  /** Taking apart an encoded forest gives back the forest, with every byte used. */
  lemma {:induction false} ForestRoundTrip(forest: seq<Tree>)
    requires Encodable(forest)
    ensures Dissected(Encoded(forest)) == Dissection(forest, |Encoded(forest)|)
    decreases forest
  {
    if forest == [] {
      NothingEncoded();
    } else {
      ForestRoundTrip(forest[1..]);
      var first := forest[0];
      if first.Container? {
        ForestRoundTrip(first.children);
      }
      hide Dissected, Encoded, Encodable, Record;
      DissectRecord(first.t, first.id, TreeData(first), Encoded(forest[1..]));
      assert forest == [first] + forest[1..];
      EncodedCons(first, forest[1..]);
    }
  }

  lemma NothingEncoded()
    ensures Encoded([]) == [] && Dissected([]) == Dissection([], 0)
  {
    var none: seq<Tree> := [];
    assert Encoded(none) == [];
    DissectedNone([]);
  }

  /** Whatever the buffer holds, the records found take at least two bytes each, at every depth. */
  lemma {:induction false} TwoBytesEach(d: seq<byte>)
    ensures 2 * RecordCount(Dissected(d).forest) <= Dissected(d).used <= |d|
    decreases |d|
  {
    hide Decoded;
    if Decoded(d).Some? {
      var f := Decoded(d).value;
      var size := f.index + f.length;
      var first, rest := TreeOf(f, d[f.index..size]), Dissected(d[size..]).forest;
      TwoBytesEach(d[size..]);
      if Contains(f.t) {
        TwoBytesEach(d[f.index..size]);
      }
      assert ([first] + rest)[1..] == rest;
    }
  }

  /** The loop stops short of the end exactly where no further record decodes. */
  lemma {:induction false} StopsAtGarbage(d: seq<byte>)
    ensures Dissected(d).used <= |d|
    ensures Decoded(d[Dissected(d).used..]) == None
    decreases |d|
  {
    hide Decoded;
    if Decoded(d) == None {
      assert d[0..] == d;
    } else {
      var size := Decoded(d).value.index + Decoded(d).value.length;
      StopsAtGarbage(d[size..]);
      assert d[size..][Dissected(d[size..]).used..] == d[Dissected(d).used..];
    }
  }
}
