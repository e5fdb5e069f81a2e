/** Reading back a printed registration payload. */
module RegisterRoundTrip {
  import opened Bytes
  import opened Uri
  import opened IntrusiveList
  import opened ListLookup
  import opened RegisterPayload

  // ----- one item -----

  /** What survives of an item: prv_getId drops the ids that are not below 65535. */
  function ReadBack(item: Item): Item {
    match item
    case NoItem => NoItem
    case Object(id) => if id < LWM2M_MAX_ID then item else NoItem
    case Instance(id, instance) =>
      if id >= LWM2M_MAX_ID then NoItem else if instance < LWM2M_MAX_ID then item else Object(id)
  }

  function AllReadBack(items: seq<Item>): (r: seq<Item>)
    ensures |r| == |items|
    ensures forall k :: 0 <= k < |items| ==> r[k] == ReadBack(items[k])
  {
    seq(|items|, k requires 0 <= k < |items| => ReadBack(items[k]))
  }

  lemma DigitsOnly(n: nat)
    ensures Decimal(n) != []
    ensures forall j :: 0 <= j < |Decimal(n)| ==>
              Decimal(n)[j] != SLASH && Decimal(n)[j] != SPACE && Decimal(n)[j] != COMMA
  {
    var d := Decimal(n);
    assert forall j :: 0 <= j < |d| ==> d[j] in d;
  }

  /** A printed item reads back as itself when its ids are below 65535, and otherwise without what is not. */
  lemma NameRead(item: Item)
    requires item != NoItem
    ensures ItemOf(Name(item)) == ReadBack(item)
  {
    hide Decimal, Number, Until;
    var d := Decimal(item.id);
    DigitsOnly(item.id);
    DecimalInverse(item.id);
    match item {
      case Object(id) =>
        UntilUnique(d, SLASH, SPACE, |d|);
        assert d[..|d|] == d;
      case Instance(id, instance) =>
        var e, s := Decimal(instance), Name(item);
        DigitsOnly(instance);
        DecimalInverse(instance);
        assert s[..|d|] == d && s[|d| + 1..] == e && s[|d|] == SLASH;
        assert forall j :: 0 <= j < |d| ==> s[j] == d[j];
        UntilUnique(s, SLASH, SPACE, |d|);
        UntilUnique(e, SPACE, SPACE, |e|);
        assert e[..|e|] == e;
    }
  }

  lemma NameShape(item: Item)
    requires item != NoItem
    ensures Name(item) != [] && Name(item)[0] != SPACE
    ensures forall j :: 0 <= j < |Name(item)| ==> Name(item)[j] != COMMA
  {
    hide Decimal;
    DigitsOnly(item.id);
    if item.Instance? {
      DigitsOnly(item.instance);
    }
  }

  // ----- the whole text -----

  function Added(list: Objects, items: seq<Item>): Objects
    decreases |items|
  {
    if items == [] then list else Added(WithItem(list, items[0]), items[1..])
  }

  lemma SpaceSkipped(list: Objects, s: seq<byte>)
    ensures DecodedOnto(list, [SPACE] + s) == DecodedOnto(list, s)
  {
    hide WithItem, ItemOf;
    assert ([SPACE] + s)[1..] == s;
  }

  lemma DecodeOne(list: Objects, item: Item, rest: seq<byte>)
    requires item != NoItem
    ensures DecodedOnto(list, Name(item)) == WithItem(list, ItemOf(Name(item)))
    ensures DecodedOnto(list, Name(item) + [COMMA] + rest) == DecodedOnto(WithItem(list, ItemOf(Name(item))), rest)
  {
    hide Name, WithItem, ItemOf;
    NameShape(item);
    var s := Name(item);
    UntilUnique(s, COMMA, COMMA, |s|);
    assert s[..|s|] == s;
    var t := s + [COMMA] + rest;
    assert forall j :: 0 <= j < |s| ==> t[j] == s[j];
    UntilUnique(t, COMMA, COMMA, |s|);
    assert t[..|s|] == s && t[|s| + 1..] == rest;
    assert Trimmed(s) == s && Trimmed(t) == t;
  }

  /** What prv_getRegisterPayload leaves in the buffer: the text without its last separator. */
  lemma {:induction false} DecodeText(list: Objects, items: seq<Item>)
    requires items != [] && Real(items)
    ensures |Text(items)| >= 2
    ensures DecodedOnto(list, Text(items)[..|Text(items)| - 2]) == Added(list, AllReadBack(items))
    decreases |items|
  {
    hide Name, WithItem, ItemOf, ReadBack, DecodedOnto;
    TextEnds(items);
    var first, rest := items[0], items[1..];
    var t := Text(items);
    NameRead(first);
    var back := AllReadBack(items);
    assert back[1..] == AllReadBack(rest);
    if rest == [] {
      TextOne(first);
      assert items == [first];
      assert t[..|t| - 2] == Name(first);
      DecodeOne(list, first, []);
    } else {
      DecodeText(WithItem(list, ReadBack(first)), rest);
      var u := Text(rest)[..|Text(rest)| - 2];
      assert t[..|t| - 2] == Name(first) + [COMMA] + ([SPACE] + u);
      DecodeOne(list, first, [SPACE] + u);
      SpaceSkipped(WithItem(list, ReadBack(first)), u);
    }
  }

  // ----- what the list means -----

  /** list holds the objects and instances the items name, each once, in ascending order, and nothing else. */
  ghost predicate Denotes(list: Objects, items: seq<Item>) {
    && Ascending(list)
    && (forall k :: 0 <= k < |list| ==> Ascending(list[k].item))
    && (forall id: u16 :: Has(list, id) <==> Names(items, id))
    && (forall k, instance: u16 :: 0 <= k < |list| ==>
          (Has(list[k].item, instance) <==> Instance(list[k].id, instance) in items))
  }

  ghost predicate Names(items: seq<Item>, id: u16) {
    exists k :: 0 <= k < |items| && items[k] != NoItem && items[k].id == id
  }

  lemma InsertedHas<T>(v: seq<Entry<T>>, e: Entry<T>, id: u16)
    ensures Has(Inserted(v, e), id) <==> Has(v, id) || id == e.id
  {
    hide AddIndex;
    var k, w := AddIndex(v, e.id), Inserted(v, e);
    assert w[k] == e;
    if Has(v, id) {
      var i :| 0 <= i < |v| && v[i].id == id;
      assert w[if i < k then i else i + 1] == v[i];
    }
    if Has(w, id) {
      var i :| 0 <= i < |w| && w[i].id == id;
      assert i == k || w[i] == v[if i < k then i else i - 1];
    }
  }

  lemma WithObjectDenotes(list: Objects, items: seq<Item>, id: u16)
    requires Denotes(list, items)
    ensures Denotes(WithObject(list, id), items + [Object(id)])
  {
    hide Inserted;
    var r, more := WithObject(list, id), items + [Object(id)];
    AscendingSorted(list);
    FindExact(list, id);
    NamesMore(items, Object(id));
    assert forall k, instance: u16 :: Instance(k, instance) in more <==> Instance(k, instance) in items;
    if Find(list, id).None? {
      InsertedAscending(list, Entry(id, []));
      forall x: u16
        ensures Has(r, x) <==> Has(list, x) || x == id
      {
        InsertedHas(list, Entry(id, []), x);
      }
      WithObjectEntries(list, items, id);
    }
  }

  lemma WithObjectEntries(list: Objects, items: seq<Item>, id: u16)
    requires Denotes(list, items) && !Has(list, id)
    ensures var r := Inserted(list, Entry(id, []));
            && (forall k :: 0 <= k < |r| ==> Ascending(r[k].item))
            && (forall k, instance: u16 :: 0 <= k < |r| ==>
                  (Has(r[k].item, instance) <==> Instance(r[k].id, instance) in items))
  {
    hide AddIndex;
    var a, r := AddIndex(list, id), Inserted(list, Entry(id, []));
    forall k | 0 <= k < |r|
      ensures Ascending(r[k].item)
      ensures forall instance: u16 :: Has(r[k].item, instance) <==> Instance(r[k].id, instance) in items
    {
      if k == a {
        forall instance: u16
          ensures Instance(id, instance) !in items
        {
          InstanceNames(items, id, instance);
        }
      } else {
        assert r[k] == list[if k < a then k else k - 1];
      }
    }
  }

  lemma InstanceNames(items: seq<Item>, id: u16, instance: u16)
    ensures Instance(id, instance) in items ==> Names(items, id)
  {
    if Instance(id, instance) in items {
      var k :| 0 <= k < |items| && items[k] == Instance(id, instance);
    }
  }

  lemma NamesMore(items: seq<Item>, item: Item)
    ensures forall id: u16 :: Names(items + [item], id) <==> Names(items, id) || (item != NoItem && item.id == id)
  {
    var more := items + [item];
    forall id: u16
      ensures Names(more, id) <==> Names(items, id) || (item != NoItem && item.id == id)
    {
      if Names(items, id) {
        var k :| 0 <= k < |items| && items[k] != NoItem && items[k].id == id;
        assert more[k] == items[k];
      }
      if item != NoItem && item.id == id {
        assert more[|items|] == item;
      }
    }
  }

  lemma WithInstanceHas(v: Instances, instance: u16)
    requires Ascending(v)
    ensures Ascending(WithInstance(v, instance))
    ensures forall x: u16 :: Has(WithInstance(v, instance), x) <==> Has(v, x) || x == instance
  {
    hide Inserted;
    AscendingSorted(v);
    FindExact(v, instance);
    if Find(v, instance).None? {
      InsertedAscending(v, Entry(instance, ()));
      forall x: u16
        ensures Has(WithInstance(v, instance), x) <==> Has(v, x) || x == instance
      {
        InsertedHas(v, Entry(instance, ()), x);
      }
    }
  }

  lemma WithItemDenotes(list: Objects, items: seq<Item>, item: Item)
    requires Denotes(list, items)
    ensures Denotes(WithItem(list, item), items + [item])
  {
    hide Denotes, WithInstance, WithObject, Find;
    if item == NoItem {
      NothingDenotes(list, items);
      return;
    }
    WithObjectDenotes(list, items, item.id);
    if item.Instance? {
      var l := WithObject(list, item.id);
      ObjectFound(l, items, item.id);
      WithInstanceDenotes(l, items, item.id, item.instance, Find(l, item.id).value);
    }
  }

  lemma NothingDenotes(list: Objects, items: seq<Item>)
    requires Denotes(list, items)
    ensures Denotes(list, items + [NoItem])
  {
    NamesMore(items, NoItem);
  }

  lemma ObjectFound(l: Objects, items: seq<Item>, id: u16)
    requires Denotes(l, items + [Object(id)])
    ensures var k := Find(l, id); k.Some? && k.value < |l| && l[k.value].id == id
  {
    hide Find;
    NamesMore(items, Object(id));
    assert Has(l, id);
    AscendingSorted(l);
    FindExact(l, id);
  }

  lemma WithInstanceDenotes(l: Objects, items: seq<Item>, id: u16, instance: u16, k: nat)
    requires Denotes(l, items + [Object(id)]) && k < |l| && l[k].id == id
    ensures Denotes(l[k := l[k].(item := WithInstance(l[k].item, instance))], items + [Instance(id, instance)])
  {
    hide WithInstance;
    var r, more := l[k := l[k].(item := WithInstance(l[k].item, instance))], items + [Instance(id, instance)];
    WithInstanceHas(l[k].item, instance);
    NamesMore(items, Object(id));
    NamesMore(items, Instance(id, instance));
    forall x: u16
      ensures Has(r, x) <==> Has(l, x)
    {
      assert forall m :: 0 <= m < |l| ==> r[m].id == l[m].id;
    }
    forall m, x: u16 | 0 <= m < |r|
      ensures Has(r[m].item, x) <==> Instance(r[m].id, x) in more
    {
      assert Instance(r[m].id, x) in items + [Object(id)] <==> Instance(r[m].id, x) in items;
      assert m != k ==> l[m].id != id;
    }
  }

  lemma {:induction false} AddedDenotes(list: Objects, done: seq<Item>, items: seq<Item>)
    requires Denotes(list, done)
    ensures Denotes(Added(list, items), done + items)
    decreases |items|
  {
    hide Denotes, WithItem;
    if items == [] {
      assert done + items == done;
    } else {
      WithItemDenotes(list, done, items[0]);
      AddedDenotes(WithItem(list, items[0]), done + [items[0]], items[1..]);
      assert done + [items[0]] + items[1..] == done + items;
    }
  }

  // ----- from the client's objects to the server's -----

  predicate IdsFit(objects: seq<ClientObject>) {
    forall k :: 0 <= k < |objects| ==> ObjectFits(objects[k])
  }

  predicate ObjectFits(o: ClientObject) {
    o.id < LWM2M_MAX_ID && forall j :: 0 <= j < |o.instances| ==> o.instances[j] < LWM2M_MAX_ID
  }

  ghost predicate HasObject(objects: seq<ClientObject>, id: u16) {
    exists k :: 0 <= k < |objects| && objects[k].id == id
  }

  ghost predicate HasInstance(objects: seq<ClientObject>, id: u16, i: u16) {
    exists k :: 0 <= k < |objects| && objects[k].id == id && i in objects[k].instances
  }

  /** What the printed items name once they have been read back. */
  lemma {:induction false} ItemsExact(objects: seq<ClientObject>, id: u16)
    ensures var back := AllReadBack(AllItems(objects));
            && (Names(back, id) <==> id < LWM2M_MAX_ID && HasObject(objects, id))
            && forall i: u16 ::
              (Instance(id, i) in back <==> id < LWM2M_MAX_ID && i < LWM2M_MAX_ID && HasInstance(objects, id, i))
  {
    if objects != [] {
      var first, rest := objects[0], objects[1..];
      ItemsExact(rest, id);
      var own, more := AllReadBack(ItemsOf(first)), AllReadBack(AllItems(rest));
      assert AllReadBack(AllItems(objects)) == own + more;
      assert objects == [first] + rest;
      NamesBoth(own, more, id);
      OwnItems(first, id);
      HasObjectFirst(first, rest, id);
      forall i: u16
        ensures HasInstance(objects, id, i) <==> (first.id == id && i in first.instances) || HasInstance(rest, id, i)
      {
        HasInstanceFirst(first, rest, id, i);
      }
    }
  }

  lemma NamesBoth(a: seq<Item>, b: seq<Item>, id: u16)
    ensures Names(a + b, id) <==> Names(a, id) || Names(b, id)
  {
    if Names(a, id) {
      var k :| 0 <= k < |a| && a[k] != NoItem && a[k].id == id;
      assert (a + b)[k] == a[k];
    }
    if Names(b, id) {
      var k :| 0 <= k < |b| && b[k] != NoItem && b[k].id == id;
      assert (a + b)[|a| + k] == b[k];
    }
  }

  lemma OwnItems(o: ClientObject, id: u16)
    ensures var own := AllReadBack(ItemsOf(o));
            && (Names(own, id) <==> id < LWM2M_MAX_ID && o.id == id)
            && forall i: u16 ::
              (Instance(id, i) in own <==> id < LWM2M_MAX_ID && i < LWM2M_MAX_ID && o.id == id && i in o.instances)
  {
    var own := AllReadBack(ItemsOf(o));
    if id < LWM2M_MAX_ID && o.id == id {
      assert own[0] != NoItem && own[0].id == id;
    }
    forall i: u16 | id < LWM2M_MAX_ID && i < LWM2M_MAX_ID && o.id == id && i in o.instances
      ensures Instance(id, i) in own
    {
      var j :| 0 <= j < |o.instances| && o.instances[j] == i;
      assert own[j] == Instance(id, i);
    }
  }

  lemma HasObjectFirst(o: ClientObject, rest: seq<ClientObject>, id: u16)
    ensures HasObject([o] + rest, id) <==> o.id == id || HasObject(rest, id)
  {
    var all := [o] + rest;
    assert all[0] == o;
    if HasObject(rest, id) {
      var k :| 0 <= k < |rest| && rest[k].id == id;
      assert all[k + 1] == rest[k];
    }
  }

  lemma HasInstanceFirst(o: ClientObject, rest: seq<ClientObject>, id: u16, i: u16)
    ensures HasInstance([o] + rest, id, i) <==> (o.id == id && i in o.instances) || HasInstance(rest, id, i)
  {
    var all := [o] + rest;
    assert all[0] == o;
    if HasInstance(rest, id, i) {
      var k :| 0 <= k < |rest| && rest[k].id == id && i in rest[k].instances;
      assert all[k + 1] == rest[k];
    }
  }

  /** The map a payload stands for: the objects' ids, and for each the instances of the objects with that id. */
  ghost predicate Describes(list: Objects, objects: seq<ClientObject>) {
    && Ascending(list)
    && (forall k :: 0 <= k < |list| ==> Ascending(list[k].item))
    && (forall id: u16 :: Has(list, id) <==> HasObject(objects, id))
    && (forall m, i: u16 :: 0 <= m < |list| ==> (Has(list[m].item, i) <==> HasInstance(objects, list[m].id, i)))
  }

  /** The same without the ids that are not below 65535. */
  ghost predicate DescribesUsable(list: Objects, objects: seq<ClientObject>) {
    && Ascending(list)
    && (forall k :: 0 <= k < |list| ==> Ascending(list[k].item))
    && (forall id: u16 :: Has(list, id) <==> id < LWM2M_MAX_ID && HasObject(objects, id))
    && (forall m, i: u16 :: 0 <= m < |list| ==>
          (Has(list[m].item, i) <==> i < LWM2M_MAX_ID && HasInstance(objects, list[m].id, i)))
  }

  lemma DenotesUsable(list: Objects, objects: seq<ClientObject>)
    requires Denotes(list, AllReadBack(AllItems(objects)))
    ensures DescribesUsable(list, objects)
  {
    hide AllReadBack, AllItems, Names, Has, HasObject, HasInstance;
    forall id: u16
      ensures Has(list, id) <==> id < LWM2M_MAX_ID && HasObject(objects, id)
    {
      ItemsExact(objects, id);
    }
    forall m, i: u16 | 0 <= m < |list|
      ensures Has(list[m].item, i) <==> i < LWM2M_MAX_ID && HasInstance(objects, list[m].id, i)
    {
      ItemsExact(objects, list[m].id);
      EntryUsable(list, list[m].id, m);
    }
  }

  lemma EntryUsable(list: Objects, id: u16, m: nat)
    requires m < |list| && list[m].id == id
    ensures Has(list, id)
  {
  }

  /**
   * The server reads what the printer leaves in the buffer back as exactly the objects with exactly their instances,
   * each list strictly ascending, but for ids that are not below 65535.
   */
  lemma PayloadExact(objects: seq<ClientObject>, printed: seq<byte>)
    requires Real(AllItems(objects)) && |Text(AllItems(objects))| >= 2
    requires printed == Text(AllItems(objects))[..|Text(AllItems(objects))| - 2]
    ensures DescribesUsable(DecodedOnto([], printed), objects)
  {
    hide DecodedOnto, Text, ItemsOf, Denotes, DescribesUsable;
    var items := AllItems(objects);
    assert items != [] by {
      TextOfNothing();
    }
    DecodeText([], items);
    EmptyDenotes();
    var back := AllReadBack(items);
    AddedDenotes([], [], back);
    assert [] + back == back;
    DenotesUsable(DecodedOnto([], printed), objects);
  }

  /** Nothing is lost if and only if all ids are below 65535. */
  lemma PayloadRoundTrip(objects: seq<ClientObject>, printed: seq<byte>)
    requires Real(AllItems(objects)) && |Text(AllItems(objects))| >= 2
    requires printed == Text(AllItems(objects))[..|Text(AllItems(objects))| - 2]
    ensures Describes(DecodedOnto([], printed), objects) <==> IdsFit(objects)
  {
    hide DecodedOnto, Text, ItemsOf, Describes, DescribesUsable;
    PayloadExact(objects, printed);
    UsableDescribes(DecodedOnto([], printed), objects);
  }

  lemma UsableDescribes(list: Objects, objects: seq<ClientObject>)
    requires DescribesUsable(list, objects)
    ensures Describes(list, objects) <==> IdsFit(objects)
  {
    if !IdsFit(objects) {
      var k :| 0 <= k < |objects| && !ObjectFits(objects[k]);
      var id := objects[k].id;
      assert HasObject(objects, id);
      if id < LWM2M_MAX_ID {
        var j :| 0 <= j < |objects[k].instances| && objects[k].instances[j] >= LWM2M_MAX_ID;
        assert HasInstance(objects, id, objects[k].instances[j]);
        var m :| 0 <= m < |list| && list[m].id == id;
        assert !Has(list[m].item, objects[k].instances[j]);
      }
    }
  }

  lemma EmptyDenotes()
    ensures Denotes([], [])
  {
  }
}
