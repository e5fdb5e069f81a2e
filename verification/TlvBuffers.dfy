/** The buffers tests/TLV/decode.c takes apart, and what it finds in them. */
module TlvBuffers {
  import opened Bytes
  import opened Tlv
  import opened TlvForest

  /** The type in the two highest bits of a record. */
  function TypeField(t: RecordType): nat {
    match t case ObjectInstance => 0 case ResourceInstance => 0x40 case MultipleInstance => 0x80 case Resource => 0xC0
  }

  /** A record whose length is told in its first byte. */
  lemma ShortRecord(t: RecordType, id: byte, data: seq<byte>)
    requires |data| <= 7
    ensures Record(t, id, data) == [TypeField(t) + |data|, id] + data
  {
  }

  /** One whose length takes a byte of its own. */
  lemma LongRecord(t: RecordType, id: byte, data: seq<byte>)
    requires 7 < |data| <= 0xFF
    ensures Record(t, id, data) == [TypeField(t) + 0x08, id, |data|] + data
  {
  }

  /** One whose length takes two or three, and whose id takes two. */
  lemma WideRecord(t: RecordType, id: u16, data: seq<byte>)
    requires 0xFF < |data| <= MAX_DATA && 0xFF < id
    ensures Record(t, id, data) ==
            (if |data| <= 0xFFFF then
               [TypeField(t) + 0x30, id / 0x100, id % 0x100, |data| / 0x100, |data| % 0x100]
             else
               [TypeField(t) + 0x38, id / 0x100, id % 0x100, |data| / 0x1_0000, |data| / 0x100 % 0x100, |data| % 0x100])
            + data
  {
  }

  lemma EncodedOne(tree: Tree)
    ensures Encoded([tree]) == Record(tree.t, tree.id, TreeData(tree))
  {
    EncodedCons(tree, []);
    NothingEncoded();
  }

  /** An instance with one resource of one byte, as the first buffer has them. */
  function InstanceOf(id: byte, value: byte): Tree {
    Container(ObjectInstance, id, [Value(Resource, 1, [value])])
  }

  lemma InstanceEncoded(id: byte, value: byte)
    ensures var i := InstanceOf(id, value); Record(i.t, i.id, TreeData(i)) == [0x03, id, 0xC1, 0x01, value]
    ensures Encodable(InstanceOf(id, value).children)
  {
    var resource := Value(Resource, 1, [value]);
    EncodedOne(resource);
    ShortRecord(Resource, 1, [value]);
    assert InstanceOf(id, value).children == [resource];
    ShortRecord(ObjectInstance, id, [0xC1, 0x01, value]);
    hide Record, Encoded;
    assert [resource][1..] == [];
  }

  lemma TwoEncoded(a: Tree, b: Tree)
    ensures Encoded([a, b]) == Record(a.t, a.id, TreeData(a)) + Record(b.t, b.id, TreeData(b))
    ensures Encodable([b]) && Encodable([a]) ==> Encodable([a, b])
  {
    EncodedOne(b);
    EncodedCons(a, [b]);
    hide Record, Encoded, TreeData;
    assert [a] + [b] == [a, b] && [a, b][1..] == [b];
  }

  lemma ThreeEncoded(a: Tree, b: Tree, c: Tree)
    ensures Encoded([a, b, c]) == Record(a.t, a.id, TreeData(a)) + Record(b.t, b.id, TreeData(b)) + Record(c.t, c.id, TreeData(c))
    ensures Encodable([a]) && Encodable([b]) && Encodable([c]) ==> Encodable([a, b, c])
  {
    TwoEncoded(b, c);
    EncodedCons(a, [b, c]);
    hide Record, Encoded, TreeData;
    assert [a] + [b, c] == [a, b, c] && [a, b, c][1..] == [b, c];
  }

  lemma InstanceFits(id: byte, value: byte)
    ensures Encodable([InstanceOf(id, value)])
  {
    InstanceEncoded(id, value);
    EncodedOne(Value(Resource, 1, [value]));
    ShortRecord(Resource, 1, [value]);
    assert [InstanceOf(id, value)][1..] == [];
    hide Record, Encoded;
  }

  const FIRST_BUFFER: seq<byte> := [0x03, 0x0A, 0xC1, 0x01, 0x14, 0x03, 0x0B, 0xC1, 0x01, 0x15, 0x03, 0x0C, 0xC1, 0x01, 0x16]

  lemma FirstBytes()
    ensures [0x03, 0x0A, 0xC1, 0x01, 0x14] + [0x03, 0x0B, 0xC1, 0x01, 0x15] + [0x03, 0x0C, 0xC1, 0x01, 0x16] == FIRST_BUFFER
  {
  }

  lemma Whole(forest: seq<Tree>, bytes: seq<byte>)
    requires Encodable(forest) && Encoded(forest) == bytes
    ensures Dissected(bytes) == Dissection(forest, |bytes|)
  {
    ForestRoundTrip(forest);
  }

  /** The first buffer: three object instances, each with resource 1. */
  lemma FirstBuffer()
    ensures Dissected(FIRST_BUFFER) == Dissection([InstanceOf(10, 20), InstanceOf(11, 21), InstanceOf(12, 22)], |FIRST_BUFFER|)
  {
    hide Record, Encoded, Dissected, TreeData, Encodable, InstanceOf, FIRST_BUFFER;
    InstanceEncoded(10, 20);
    InstanceEncoded(11, 21);
    InstanceEncoded(12, 22);
    InstanceFits(10, 20);
    InstanceFits(11, 21);
    InstanceFits(12, 22);
    FirstBytes();
    ThreeEncoded(InstanceOf(10, 20), InstanceOf(11, 21), InstanceOf(12, 22));
    Whole([InstanceOf(10, 20), InstanceOf(11, 21), InstanceOf(12, 22)], FIRST_BUFFER);
  }

  const SERIAL_NUMBER: seq<byte> := [0x33, 0x34, 0x35, 0x30, 0x30, 0x30, 0x31, 0x32, 0x33]

  /** From the second: a resource of nine bytes, and a multiple resource with two instances of two bytes. */
  const NUMBER := Value(Resource, 2, SERIAL_NUMBER)
  const VOLTAGES := Container(MultipleInstance, 7, [Value(ResourceInstance, 0, [0x0E, 0xD8]), Value(ResourceInstance, 1, [0x13, 0x88])])

  lemma NumberEncoded()
    ensures Record(NUMBER.t, NUMBER.id, TreeData(NUMBER)) == [0xC8, 0x02, 0x09] + SERIAL_NUMBER && Encodable([NUMBER])
  {
    LongRecord(Resource, 2, SERIAL_NUMBER);
    hide Record, Encoded;
    assert [NUMBER][1..] == [];
  }

  lemma VoltageEncoded(id: byte, high: byte, low: byte)
    ensures var v := Value(ResourceInstance, id, [high, low]);
            Record(v.t, v.id, TreeData(v)) == [0x42, id, high, low] && Encodable([v])
  {
    ShortRecord(ResourceInstance, id, [high, low]);
    assert [Value(ResourceInstance, id, [high, low])][1..] == [];
    hide Record, Encoded;
  }

  lemma VoltagesData()
    ensures Encoded(VOLTAGES.children) == [0x42, 0x00, 0x0E, 0xD8, 0x42, 0x01, 0x13, 0x88] && Encodable(VOLTAGES.children)
  {
    VoltageEncoded(0, 0x0E, 0xD8);
    VoltageEncoded(1, 0x13, 0x88);
    hide Record, Encoded, TreeData, Encodable;
    TwoEncoded(Value(ResourceInstance, 0, [0x0E, 0xD8]), Value(ResourceInstance, 1, [0x13, 0x88]));
  }

  lemma VoltagesEncoded()
    ensures Record(VOLTAGES.t, VOLTAGES.id, TreeData(VOLTAGES)) ==
            [0x88, 0x07, 0x08, 0x42, 0x00, 0x0E, 0xD8, 0x42, 0x01, 0x13, 0x88]
    ensures Encodable([VOLTAGES])
  {
    VoltagesData();
    LongRecord(MultipleInstance, 7, [0x42, 0x00, 0x0E, 0xD8, 0x42, 0x01, 0x13, 0x88]);
    assert [VOLTAGES][1..] == [];
    hide Record, Encoded;
  }

  lemma SecondBuffer()
    ensures var buffer := [0xC8, 0x02, 0x09] + SERIAL_NUMBER + [0x88, 0x07, 0x08, 0x42, 0x00, 0x0E, 0xD8, 0x42, 0x01, 0x13, 0x88];
            Dissected(buffer) == Dissection([NUMBER, VOLTAGES], |buffer|)
  {
    hide Record, Encoded, Dissected, TreeData, Encodable, NUMBER, VOLTAGES, SERIAL_NUMBER;
    NumberEncoded();
    VoltagesEncoded();
    TwoEncoded(NUMBER, VOLTAGES);
    Whole([NUMBER, VOLTAGES], [0xC8, 0x02, 0x09] + SERIAL_NUMBER + [0x88, 0x07, 0x08, 0x42, 0x00, 0x0E, 0xD8, 0x42, 0x01, 0x13, 0x88]);
  }
}
