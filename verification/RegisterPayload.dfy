/**
 * The list of objects a client registers with: printed by prv_getRegisterPayload (core/objects.c), read back by
 * prv_decodeRegisterPayload (core/registration.c).
 */
module RegisterPayload {
  import opened Bytes
  import opened Uri
  import opened IntrusiveList

  const COMMA: byte := ',' as int
  const SPACE: byte := ' ' as int

  // ----- reading -----

  /** lwm2m_client_object_t: an object id with the list of its instance ids. */
  type Instances = seq<Entry<()>>
  type Objects = seq<Entry<Instances>>

  /** What prv_getId finds: nothing usable, an object, or an object with an instance. */
  datatype Item = NoItem | Object(id: u16) | Instance(id: u16, instance: u16)

  /** The length of s before the first of two characters. */
  function Until(s: seq<byte>, a: byte, b: byte): (i: nat)
    ensures i <= |s|
    ensures forall j :: 0 <= j < i ==> s[j] != a && s[j] != b
    ensures i < |s| ==> s[i] == a || s[i] == b
  {
    if s == [] || s[0] == a || s[0] == b then 0 else 1 + Until(s[1..], a, b)
  }

  lemma UntilUnique(s: seq<byte>, a: byte, b: byte, i: nat)
    requires i <= |s| && (forall j :: 0 <= j < i ==> s[j] != a && s[j] != b)
    requires i < |s| ==> s[i] == a || s[i] == b
    ensures Until(s, a, b) == i
  {
    var u := Until(s, a, b);
    assert !(u < i) && !(i < u);
  }

  predicate Usable(n: Option<nat>) {
    n.Some? && n.value < LWM2M_MAX_ID
  }

  function ItemOf(s: seq<byte>): Item {
    var limit := Until(s, SLASH, SPACE);
    var id := Number(s[..limit]);
    if !Usable(id) then NoItem
    else if limit == |s| then Object(id.value)
    else
      var rest := s[limit + 1..];
      var end := Until(rest, SPACE, SPACE);
      var instance := Number(rest[..end]);
      if end > 0 && Usable(instance) then Instance(id.value, instance.value) else Object(id.value)
  }

  /** prv_getId */
  method GetId(s: seq<byte>) returns (item: Item)
    ensures item == ItemOf(s)
  {
    hide NumberOnto;
    var limit := 0;
    while limit < |s| && s[limit] != SLASH && s[limit] != SPACE
      invariant limit <= |s| && forall j :: 0 <= j < limit ==> s[j] != SLASH && s[j] != SPACE
    {
      limit := limit + 1;
    }
    UntilUnique(s, SLASH, SPACE, limit);
    var value := GetNumber(s[..limit]);
    if value < 0 || value >= LWM2M_MAX_ID {
      return NoItem;
    }
    item := Object(value);
    if limit != |s| {
      limit := limit + 1;
      var rest := s[limit..];
      var end := 0;
      while end < |rest| && rest[end] != SPACE
        invariant end <= |rest| && forall j :: 0 <= j < end ==> rest[j] != SPACE
      {
        end := end + 1;
      }
      UntilUnique(rest, SPACE, SPACE, end);
      if end != 0 {
        value := GetNumber(rest[..end]);
        if value >= 0 && value < LWM2M_MAX_ID {
          item := Instance(item.id, value);
        }
      }
    }
  }

  function WithInstance(instances: Instances, instance: u16): Instances {
    if Find(instances, instance).Some? then instances else Inserted(instances, Entry(instance, ()))
  }

  /** The list with an object in it, empty if it was not there. */
  function WithObject(list: Objects, id: u16): Objects {
    if Find(list, id).Some? then list else Inserted(list, Entry(id, []))
  }

  function WithItem(list: Objects, item: Item): Objects {
    match item
    case NoItem => list
    case Object(id) => WithObject(list, id)
    case Instance(id, instance) =>
      var l := WithObject(list, id);
      match Find(l, id)
      case Some(k) => l[k := l[k].(item := WithInstance(l[k].item, instance))]
      case None => l
  }

  function Trimmed(s: seq<byte>): (t: seq<byte>)
    ensures |t| <= |s|
  {
    if s != [] && s[0] == SPACE then Trimmed(s[1..]) else s
  }

  /** What the loop adds to a list for what is left of the payload. */
  function DecodedOnto(list: Objects, payload: seq<byte>): Objects
    decreases |payload|
  {
    var s := Trimmed(payload);
    if s == [] then list
    else
      var end := Until(s, COMMA, COMMA);
      var next := WithItem(list, ItemOf(s[..end]));
      if end == |s| then next else DecodedOnto(next, s[end + 1..])
  }

  /** prv_decodeRegisterPayload */
  method DecodeRegisterPayload(payload: seq<byte>) returns (list: Objects)
    ensures list == DecodedOnto([], payload)
  {
    hide WithItem, ItemOf, Trimmed, Until;
    list := [];
    var start := 0;
    assert payload[0..] == payload;
    while start < |payload|
      invariant 0 <= start <= |payload| + 1
      invariant start <= |payload| ==> DecodedOnto(list, payload[start..]) == DecodedOnto([], payload)
      invariant start > |payload| ==> list == DecodedOnto([], payload)
      decreases |payload| + 1 - start
    {
      ghost var before := start;
      while start < |payload| && payload[start] == SPACE
        invariant before <= start <= |payload|
        invariant Trimmed(payload[start..]) == Trimmed(payload[before..])
      {
        TrimStep(payload, start);
        start := start + 1;
      }
      TrimEnd(payload, start);
      if start == |payload| {
        return;
      }
      var s, end := payload[start..], start;
      while end < |payload| && payload[end] != COMMA
        invariant start <= end <= |payload|
        invariant forall j :: 0 <= j < end - start ==> s[j] != COMMA
      {
        end := end + 1;
      }
      UntilUnique(s, COMMA, COMMA, end - start);
      assert payload[start..end] == s[..end - start];
      assert end < |payload| ==> payload[end + 1..] == s[end - start + 1..];
      var item := GetId(payload[start..end]);
      list := AddItem(list, item);
      start := end + 1;
    }
    DecodedNothing(list);
  }

  lemma TrimStep(s: seq<byte>, i: nat)
    requires i < |s| && s[i] == SPACE
    ensures Trimmed(s[i..]) == Trimmed(s[i + 1..])
  {
    assert s[i..][1..] == s[i + 1..];
  }

  lemma TrimEnd(s: seq<byte>, i: nat)
    requires i <= |s| && (i < |s| ==> s[i] != SPACE)
    ensures Trimmed(s[i..]) == s[i..]
  {
  }

  lemma DecodedNothing(list: Objects)
    ensures DecodedOnto(list, []) == list
  {
  }

  /** The body of the loop: the object found or added, then the instance found or added. */
  method AddItem(list: Objects, item: Item) returns (list': Objects)
    ensures list' == WithItem(list, item)
  {
    hide Inserted, Skip;
    list' := list;
    if item != NoItem {
      var objectP := Find(list', item.id);
      if objectP == None {
        list' := Inserted(list', Entry(item.id, []));
        objectP := Find(list', item.id);
      }
      if item.Instance? && objectP.Some? {
        var o := list'[objectP.value];
        if Find(o.item, item.instance) == None {
          list' := list'[objectP.value := o.(item := Inserted(o.item, Entry(item.instance, ())))];
        }
      }
    }
  }

  // ----- printing -----

  /** An object of the client: its id and the ids of its instance list. */
  datatype ClientObject = ClientObject(id: u16, instances: seq<u16>)

  function ItemsOf(o: ClientObject): seq<Item> {
    if o.instances == [] then [Object(o.id)]
    else seq(|o.instances|, i requires 0 <= i < |o.instances| => Instance(o.id, o.instances[i]))
  }

  function AllItems(objects: seq<ClientObject>): seq<Item> {
    if objects == [] then [] else ItemsOf(objects[0]) + AllItems(objects[1..])
  }

  /** An item as %hu or %hu/%hu, without the separator. */
  function Name(item: Item): seq<byte>
    requires item != NoItem
  {
    match item case Object(id) => Decimal(id) case Instance(id, instance) => Decimal(id) + [SLASH] + Decimal(instance)
  }

  const SEPARATOR: seq<byte> := [COMMA, SPACE]

  /** Each item followed by a comma and a space. */
  function Text(items: seq<Item>): seq<byte>
    requires forall k :: 0 <= k < |items| ==> items[k] != NoItem
  {
    if items == [] then [] else Name(items[0]) + SEPARATOR + Text(items[1..])
  }

  predicate Real(items: seq<Item>) {
    forall k :: 0 <= k < |items| ==> items[k] != NoItem
  }

  lemma {:induction false} TextAdds(a: seq<Item>, b: seq<Item>)
    requires Real(a) && Real(b)
    ensures Real(a + b) && Text(a + b) == Text(a) + Text(b)
  {
    hide Name;
    if a == [] {
      assert a + b == b;
    } else {
      assert (a + b)[0] == a[0] && (a + b)[1..] == a[1..] + b;
      TextAdds(a[1..], b);
      assert Name(a[0]) + SEPARATOR + (Text(a[1..]) + Text(b)) == Name(a[0]) + SEPARATOR + Text(a[1..]) + Text(b);
    }
  }

  lemma TextOne(item: Item)
    requires item != NoItem
    ensures Real([item]) && Text([item]) == Name(item) + SEPARATOR
  {
    hide Name;
    var items := [item];
    assert items[1..] == [];
    assert Name(item) + SEPARATOR + [] == Name(item) + SEPARATOR;
  }

  lemma {:induction false} AllItemsReal(objects: seq<ClientObject>)
    ensures Real(AllItems(objects))
  {
    if objects != [] {
      AllItemsReal(objects[1..]);
    }
  }

  /** snprintf: at most what fits, with a terminating 0 in the last place; the length the whole text has. */
  method Snprintf(buffer: array<byte>, at: nat, s: seq<byte>) returns (result: nat)
    requires at <= buffer.Length
    modifies buffer
    ensures result == |s|
    ensures buffer[..at] == old(buffer[..at])
    ensures |s| < buffer.Length - at ==> buffer[at..at + |s|] == s
    ensures |s| == buffer.Length - at > 0 ==> buffer[at..at + |s| - 1] == s[..|s| - 1]
  {
    result := |s|;
    if at < buffer.Length {
      var n := Min(|s|, buffer.Length - at - 1);
      forall i | 0 <= i < n {
        buffer[at + i] := s[i];
      }
      buffer[at + n] := 0;
    }
  }

  /** The buffer holds a text, but for its last byte when it is exactly full. */
  ghost predicate Holds(buffer: array<byte>, t: seq<byte>)
    reads buffer
  {
    && 0 < buffer.Length && |t| <= buffer.Length
    && (if |t| < buffer.Length then buffer[..|t|] == t else buffer[..|t| - 1] == t[..|t| - 1])
  }

  /** One snprintf of the loop; a text that does not fit ends the printing. */
  method PrintItem(buffer: array<byte>, index: nat, item: Item, ghost t: seq<byte>) returns (ok: bool, index': nat)
    requires buffer.Length > 0 && item != NoItem && index == |t| && Holds(buffer, t)
    modifies buffer
    ensures ok <==> |t| + |Name(item)| + 2 <= buffer.Length
    ensures ok ==> index' == |t| + |Name(item)| + 2 && Holds(buffer, t + (Name(item) + SEPARATOR))
  {
    hide Name;
    var s := Name(item) + SEPARATOR;
    var result := Snprintf(buffer, index, s);
    ok := result > 0 && result <= buffer.Length - index;
    index' := index + result;
    if ok {
      ghost var u := t + s;
      if |u| < buffer.Length {
        assert buffer[..|u|] == buffer[..index] + buffer[index..|u|];
      } else {
        assert buffer[..|u| - 1] == buffer[..index] + buffer[index..|u| - 1] == u[..|u| - 1];
      }
    }
  }

  lemma TextGrows(done: seq<Item>, item: Item)
    requires Real(done) && item != NoItem
    ensures Real(done + [item]) && Text(done + [item]) == Text(done) + (Name(item) + SEPARATOR)
  {
    TextOne(item);
    TextAdds(done, [item]);
  }

  /** The inner loop: the instances of one object. */
  method PrintObject(buffer: array<byte>, index: nat, o: ClientObject, ghost done: seq<Item>) returns (ok: bool, index': nat)
    requires buffer.Length > 0 && Real(done) && index == |Text(done)| && Holds(buffer, Text(done))
    modifies buffer
    ensures Real(done + ItemsOf(o))
    ensures ok <==> |Text(done + ItemsOf(o))| <= buffer.Length
    ensures ok ==> index' == |Text(done + ItemsOf(o))| && Holds(buffer, Text(done + ItemsOf(o)))
  {
    hide Text, Name;
    TextAdds(done, ItemsOf(o));
    index' := index;
    if o.instances == [] {
      TextGrows(done, Object(o.id));
      ok, index' := PrintItem(buffer, index, Object(o.id), Text(done));
      return;
    }
    ghost var items := ItemsOf(o);
    var i := 0;
    assert done + items[..0] == done;
    ok := true;
    while i < |o.instances|
      invariant 0 <= i <= |items| == |o.instances|
      invariant Real(done + items[..i])
      invariant index' == |Text(done + items[..i])| && Holds(buffer, Text(done + items[..i]))
    {
      assert done + items[..i + 1] == done + items[..i] + [items[i]];
      TextGrows(done + items[..i], items[i]);
      ok, index' := PrintItem(buffer, index', Instance(o.id, o.instances[i]), Text(done + items[..i]));
      if !ok {
        TextAdds(done + items[..i + 1], items[i + 1..]);
        assert done + items[..i + 1] + items[i + 1..] == done + items;
        return;
      }
      i := i + 1;
    }
    assert items[..i] == items;
  }

  /**
   * prv_getRegisterPayload: all items, or 0 when they do not fit. The last separator is cut off, so that the text
   * may fill the buffer to the last byte.
   */
  method GetRegisterPayload(objects: seq<ClientObject>, buffer: array<byte>) returns (n: nat)
    requires buffer.Length > 0
    modifies buffer
    ensures Real(AllItems(objects))
    ensures var t := Text(AllItems(objects));
            && n == (if t == [] || |t| > buffer.Length then 0 else |t| - 2)
            && (n > 0 ==> n < buffer.Length && buffer[..n] == t[..|t| - 2] && buffer[n] == 0)
  {
    hide Text, Name, ItemsOf;
    AllItemsReal(objects);
    var index, i := 0, 0;
    ghost var done: seq<Item> := [];
    TextOfNothing();
    assert objects[0..] == objects && [] + AllItems(objects) == AllItems(objects);
    while i < |objects|
      invariant 0 <= i <= |objects|
      invariant Real(done) && Real(AllItems(objects[i..]))
      invariant AllItems(objects) == done + AllItems(objects[i..])
      invariant index == |Text(done)| && Holds(buffer, Text(done))
    {
      assert objects[i..][1..] == objects[i + 1..];
      ghost var more := done + ItemsOf(objects[i]);
      assert done + (ItemsOf(objects[i]) + AllItems(objects[i + 1..])) == more + AllItems(objects[i + 1..]);
      AllItemsReal(objects[i + 1..]);
      var ok;
      ok, index := PrintObject(buffer, index, objects[i], done);
      TextAdds(more, AllItems(objects[i + 1..]));
      if !ok {
        return 0;
      }
      done := more;
      i := i + 1;
    }
    assert AllItems(objects) == done;
    TextEnds(done);
    if index > 0 {
      index := index - 2;
    }
    ghost var t := Text(done);
    assert t != [] ==> buffer[..index] == t[..index];
    buffer[index] := 0;
    n := index;
  }

  lemma TextOfNothing()
    ensures Text([]) == []
  {
  }

  lemma {:induction false} TextEnds(items: seq<Item>)
    requires Real(items)
    ensures items == [] ==> Text(items) == []
    ensures items != [] ==> |Text(items)| >= 2 && Text(items) == Text(items)[..|Text(items)| - 2] + SEPARATOR
  {
    hide Name;
    if items != [] {
      TextEnds(items[1..]);
      var t, rest := Text(items), Text(items[1..]);
      if rest != [] {
        assert t[..|t| - 2] + SEPARATOR == Name(items[0]) + SEPARATOR + (rest[..|rest| - 2] + SEPARATOR);
      }
    }
  }
}
