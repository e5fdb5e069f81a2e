/** What a registration payload of any bytes at all is read as, said over its bytes. */
module RegisterReading {
  import opened Bytes
  import opened Uri
  import opened IntrusiveList
  import opened RegisterPayload
  import opened RegisterRoundTrip

  // ----- one item -----

  /** The item begins with the digits of an id below 65535, modulo two to the 32; no digits stand for 0. */
  ghost predicate BeginsWith(t: seq<byte>, q: nat, id: u16) {
    && q <= |t| && (forall b :: b in t[..q] ==> Digit(b)) && (q < |t| ==> t[q] == SLASH || t[q] == SPACE)
    && Wrap(ValueOnto(t[..q], 0)) == id < LWM2M_MAX_ID
  }

  ghost predicate NamesObject(t: seq<byte>, id: u16) {
    exists q: nat :: BeginsWith(t, q, id)
  }

  /** Behind that and one character is something up to a space or the end, which is or has up to a slash such an id. */
  ghost predicate InstanceAt(t: seq<byte>, q: nat, e: nat, id: u16, instance: u16) {
    && BeginsWith(t, q, id) && q + 1 < e <= |t| && SPACE !in t[q + 1..e] && (e < |t| ==> t[e] == SPACE)
    && Spells(t[q + 1..e], instance) && instance < LWM2M_MAX_ID
  }

  ghost predicate NamesInstance(t: seq<byte>, id: u16, instance: u16) {
    exists q: nat, e: nat :: InstanceAt(t, q, e, id, instance)
  }

  lemma DigitsSpell(s: seq<byte>, n: nat)
    requires SLASH !in s
    ensures Spells(s, n) <==> (forall b :: b in s ==> Digit(b)) && Wrap(ValueOnto(s, 0)) == n
  {
    assert Heads(s, s);
    forall head | Heads(head, s)
      ensures head == s
    {
      assert forall j :: 0 <= j < |s| ==> s[j] != SLASH;
    }
  }

  lemma BeginsExact(t: seq<byte>, id: u16)
    ensures var limit := Until(t, SLASH, SPACE);
            && (Number(t[..limit]) == Some(id) && id < LWM2M_MAX_ID <==> BeginsWith(t, limit, id))
            && forall q: nat :: BeginsWith(t, q, id) ==> q == limit
  {
    hide Number, ValueOnto, Wrap;
    var limit := Until(t, SLASH, SPACE);
    assert SLASH !in t[..limit];
    DigitsSpell(t[..limit], id);
    SpelledNumber(t[..limit], id);
    forall q: nat | BeginsWith(t, q, id)
      ensures q == limit
    {
      assert forall j :: 0 <= j < q ==> t[j] in t[..q];
      UntilUnique(t, SLASH, SPACE, q);
    }
  }

  /** prv_getId finds the object, and the instance, that the item names, if any. */
  lemma ItemExact(t: seq<byte>, id: u16, instance: u16)
    ensures ItemOf(t) != NoItem && ItemOf(t).id == id <==> NamesObject(t, id)
    ensures ItemOf(t) == Instance(id, instance) <==> NamesInstance(t, id, instance)
  {
    hide Number, BeginsWith, Spells;
    var limit := Until(t, SLASH, SPACE);
    BeginsExact(t, id);
    BeginsSome(t, limit);
    if limit < |t| {
      InstanceExact(t, limit, id, instance);
    } else {
      NothingBehind(t, id, instance);
    }
  }

  lemma BeginsSome(t: seq<byte>, limit: nat)
    requires limit == Until(t, SLASH, SPACE)
    ensures Usable(Number(t[..limit])) ==> BeginsWith(t, limit, Number(t[..limit]).value)
  {
    hide Number, BeginsWith;
    if Usable(Number(t[..limit])) {
      BeginsExact(t, Number(t[..limit]).value);
    }
  }

  lemma NothingBehind(t: seq<byte>, id: u16, instance: u16)
    requires Until(t, SLASH, SPACE) == |t|
    ensures !NamesInstance(t, id, instance)
  {
    hide Number, BeginsWith, Spells;
    BeginsExact(t, id);
  }

  lemma InstanceExact(t: seq<byte>, limit: nat, id: u16, instance: u16)
    requires limit == Until(t, SLASH, SPACE) < |t|
    ensures var rest := t[limit + 1..];
            var end := Until(rest, SPACE, SPACE);
            NamesInstance(t, id, instance) <==>
            BeginsWith(t, limit, id) && end > 0 && Number(rest[..end]) == Some(instance) && instance < LWM2M_MAX_ID
  {
    hide Number, InstanceAt, Until, BeginsWith;
    var e := limit + 1 + Until(t[limit + 1..], SPACE, SPACE);
    InstanceHere(t, limit, id, instance);
    forall q: nat, f: nat | InstanceAt(t, q, f, id, instance)
      ensures q == limit && f == e
    {
      InstanceOnly(t, limit, q, f, id, instance);
    }
  }

  lemma InstanceHere(t: seq<byte>, limit: nat, id: u16, instance: u16)
    requires limit == Until(t, SLASH, SPACE) < |t|
    ensures var rest := t[limit + 1..];
            var end := Until(rest, SPACE, SPACE);
            InstanceAt(t, limit, limit + 1 + end, id, instance) <==>
            BeginsWith(t, limit, id) && end > 0 && Number(rest[..end]) == Some(instance) && instance < LWM2M_MAX_ID
  {
    hide Number, BeginsWith, Spells, Until;
    var rest := t[limit + 1..];
    var end := Until(rest, SPACE, SPACE);
    SpelledNumber(rest[..end], instance);
    Behind(t, limit + 1, end);
    hide Number, Spells;
  }

  /** What is read behind place a, of the whole and of the rest. */
  lemma Behind(t: seq<byte>, a: nat, end: nat)
    requires a <= |t| && end == Until(t[a..], SPACE, SPACE)
    ensures end <= |t| - a && t[a..][..end] == t[a..a + end] && SPACE !in t[a..a + end] && (a + end < |t| ==> t[a + end] == SPACE)
  {
    assert forall j :: 0 <= j < end ==> t[a..a + end][j] == t[a..][j];
  }

  lemma InstanceOnly(t: seq<byte>, limit: nat, q: nat, f: nat, id: u16, instance: u16)
    requires limit == Until(t, SLASH, SPACE) && InstanceAt(t, q, f, id, instance)
    ensures q == limit && f == limit + 1 + Until(t[limit + 1..], SPACE, SPACE)
  {
    hide Number, BeginsWith, Spells, Until;
    BeginsExact(t, id);
    InstanceEnds(t, limit, f);
  }

  lemma InstanceEnds(t: seq<byte>, limit: nat, f: nat)
    requires limit + 1 < f <= |t| && SPACE !in t[limit + 1..f] && (f < |t| ==> t[f] == SPACE)
    ensures f == limit + 1 + Until(t[limit + 1..], SPACE, SPACE)
  {
    var rest, s := t[limit + 1..], t[limit + 1..f];
    assert forall j :: 0 <= j < f - limit - 1 ==> rest[j] == s[j] && s[j] in s;
    UntilUnique(rest, SPACE, SPACE, f - limit - 1);
  }

  // ----- the items of a payload -----

  /** The items the loop reads, one behind the other. */
  function ItemsIn(payload: seq<byte>): seq<Item>
    decreases |payload|
  {
    var s := Trimmed(payload);
    if s == [] then []
    else
      var end := Until(s, COMMA, COMMA);
      [ItemOf(s[..end])] + if end == |s| then [] else ItemsIn(s[end + 1..])
  }

  lemma {:induction false} DecodedItems(list: Objects, payload: seq<byte>)
    ensures DecodedOnto(list, payload) == Added(list, ItemsIn(payload))
    decreases |payload|
  {
    hide WithItem, ItemOf;
    var s := Trimmed(payload);
    if s != [] {
      var end := Until(s, COMMA, COMMA);
      var items := ItemsIn(payload);
      if end < |s| {
        DecodedItems(WithItem(list, ItemOf(s[..end])), s[end + 1..]);
        assert items[1..] == ItemsIn(s[end + 1..]);
      } else {
        assert items[1..] == [];
      }
    }
  }

  /**
   * From a on, the beginning or what follows a comma, come spaces up to p and then the item, up to c: the next comma or
   * the end. Spaces up to the end of the payload are no item.
   */
  ghost predicate Bounds(payload: seq<byte>, a: nat, p: nat, c: nat) {
    && a <= p <= c <= |payload| && p < |payload| && (a > 0 ==> payload[a - 1] == COMMA)
    && (forall j :: a <= j < p ==> payload[j] == SPACE) && payload[p] != SPACE
    && (forall j :: p <= j < c ==> payload[j] != COMMA) && (c < |payload| ==> payload[c] == COMMA)
  }

  ghost predicate ItemAt(payload: seq<byte>, a: nat, t: seq<byte>) {
    exists p: nat, c: nat :: Bounds(payload, a, p, c) && t == payload[p..c]
  }

  /** The item of a payload whose text this is. */
  ghost predicate Among(payload: seq<byte>, t: seq<byte>) {
    exists a: nat :: ItemAt(payload, a, t)
  }

  lemma {:induction false} TrimmedAt(payload: seq<byte>, a: nat) returns (p: nat)
    requires a <= |payload|
    ensures a <= p <= |payload| && (forall j :: a <= j < p ==> payload[j] == SPACE) && (p < |payload| ==> payload[p] != SPACE)
    ensures Trimmed(payload[a..]) == payload[p..]
    decreases |payload| - a
  {
    p := a;
    if a < |payload| && payload[a] == SPACE {
      TrimStep(payload, a);
      p := TrimmedAt(payload, a + 1);
    }
  }

  /** Where the item behind a begins and ends is settled by a. */
  lemma BoundsUnique(payload: seq<byte>, a: nat, p: nat, c: nat, p': nat, c': nat)
    requires Bounds(payload, a, p, c) && Bounds(payload, a, p', c')
    ensures p == p' && c == c'
  {
    assert p == p';
  }

  /** No item begins between two that follow each other. */
  lemma NoneBetween(payload: seq<byte>, a: nat, p: nat, c: nat, b: nat, q: nat, d: nat)
    requires Bounds(payload, a, p, c) && Bounds(payload, b, q, d) && a < b
    ensures c < b <= |payload|
  {
    assert payload[b - 1] == COMMA;
  }

  lemma {:induction false} ItemsExact(payload: seq<byte>, a: nat, item: Item)
    requires a <= |payload| && (a > 0 ==> payload[a - 1] == COMMA)
    ensures item in ItemsIn(payload[a..]) <==> exists b: nat, t :: b >= a && ItemAt(payload, b, t) && ItemOf(t) == item
    decreases |payload| - a
  {
    hide ItemOf, Bounds, ItemAt, ItemsIn;
    var p := TrimmedAt(payload, a);
    if p == |payload| {
      NoItemBehind(payload, a);
      NothingIn(payload[a..]);
    } else {
      var c := FirstItem(payload, a, p);
      assert ItemAt(payload, a, payload[p..c]);
      if c < |payload| {
        ItemsExact(payload, c + 1, item);
      }
    }
  }

  lemma NothingIn(s: seq<byte>)
    ensures Trimmed(s) == [] ==> ItemsIn(s) == []
  {
  }

  lemma ItemsStep(payload: seq<byte>, a: nat, p: nat, c: nat)
    requires a <= p < |payload| && Trimmed(payload[a..]) == payload[p..] && c == p + Until(payload[p..], COMMA, COMMA)
    ensures ItemsIn(payload[a..]) == [ItemOf(payload[p..c])] + if c == |payload| then [] else ItemsIn(payload[c + 1..])
  {
    hide ItemOf, Until, Trimmed;
    var s, end := payload[p..], c - p;
    assert s[..end] == payload[p..c];
    assert end < |s| ==> s[end + 1..] == payload[c + 1..];
  }

  /** The item behind a: the others begin behind its comma. */
  lemma FirstItem(payload: seq<byte>, a: nat, p: nat) returns (c: nat)
    requires a <= p < |payload| && (a > 0 ==> payload[a - 1] == COMMA) && Trimmed(payload[a..]) == payload[p..]
    requires (forall j :: a <= j < p ==> payload[j] == SPACE) && payload[p] != SPACE
    ensures p <= c <= |payload| && (c < |payload| ==> payload[c] == COMMA)
    ensures ItemsIn(payload[a..]) == [ItemOf(payload[p..c])] + if c == |payload| then [] else ItemsIn(payload[c + 1..])
    ensures forall t :: ItemAt(payload, a, t) <==> t == payload[p..c]
    ensures forall b: nat, t :: b > a && ItemAt(payload, b, t) ==> c < b <= |payload|
  {
    hide ItemOf, ItemsIn, Until, Trimmed;
    c := p + Until(payload[p..], COMMA, COMMA);
    ItemsStep(payload, a, p, c);
    BoundsHere(payload, a, p, c);
    assert ItemAt(payload, a, payload[p..c]);
    forall t | ItemAt(payload, a, t)
      ensures t == payload[p..c]
    {
      OnlyItem(payload, a, p, c, t);
    }
    forall b: nat, t | b > a && ItemAt(payload, b, t)
      ensures c < b <= |payload|
    {
      LaterItem(payload, a, p, c, b, t);
    }
  }

  lemma OnlyItem(payload: seq<byte>, a: nat, p: nat, c: nat, t: seq<byte>)
    requires Bounds(payload, a, p, c) && ItemAt(payload, a, t)
    ensures t == payload[p..c]
  {
    var p': nat, c': nat :| Bounds(payload, a, p', c') && t == payload[p'..c'];
    BoundsUnique(payload, a, p, c, p', c');
  }

  lemma LaterItem(payload: seq<byte>, a: nat, p: nat, c: nat, b: nat, t: seq<byte>)
    requires Bounds(payload, a, p, c) && a < b && ItemAt(payload, b, t)
    ensures c < b <= |payload|
  {
    var q: nat, d: nat :| Bounds(payload, b, q, d) && t == payload[q..d];
    NoneBetween(payload, a, p, c, b, q, d);
  }

  lemma BoundsHere(payload: seq<byte>, a: nat, p: nat, c: nat)
    requires a <= p < |payload| && c == p + Until(payload[p..], COMMA, COMMA) && (a > 0 ==> payload[a - 1] == COMMA)
    requires (forall j :: a <= j < p ==> payload[j] == SPACE) && payload[p] != SPACE
    ensures Bounds(payload, a, p, c)
  {
    var s := payload[p..];
    assert forall j :: 0 <= j < c - p ==> payload[p..c][j] == s[j];
  }

  /** Behind nothing but spaces there is no item. */
  lemma NoItemBehind(payload: seq<byte>, a: nat)
    requires a <= |payload| && forall j :: a <= j < |payload| ==> payload[j] == SPACE
    ensures forall b: nat, t :: b >= a ==> !ItemAt(payload, b, t)
  {
  }

  // ----- the whole payload -----

  /**
   * The list read from a payload holds exactly the objects its items name, and for each of them exactly the instances
   * they name, both in strictly ascending order.
   */
  lemma PayloadReads(payload: seq<byte>)
    ensures var list := DecodedOnto([], payload);
            && Ascending(list) && (forall k :: 0 <= k < |list| ==> Ascending(list[k].item))
            && (forall id: u16 :: Has(list, id) <==> exists t :: Among(payload, t) && NamesObject(t, id))
            && forall k, instance: u16 :: 0 <= k < |list| ==>
                 (Has(list[k].item, instance) <==> exists t :: Among(payload, t) && NamesInstance(t, list[k].id, instance))
  {
    hide DecodedOnto, ItemsIn, ItemOf, NamesObject, NamesInstance, ItemAt;
    var list, items := DecodedOnto([], payload), ItemsIn(payload);
    DecodedItems([], payload);
    EmptyDenotes();
    AddedDenotes([], [], items);
    assert [] + items == items;
    forall id: u16
      ensures Names(items, id) <==> exists t :: Among(payload, t) && NamesObject(t, id)
    {
      ObjectsNamed(payload, id);
    }
    forall id: u16, instance: u16
      ensures Instance(id, instance) in items <==> exists t :: Among(payload, t) && NamesInstance(t, id, instance)
    {
      InstancesNamed(payload, id, instance);
    }
  }

  lemma ItemsAmong(payload: seq<byte>, item: Item)
    ensures item in ItemsIn(payload) <==> exists t :: Among(payload, t) && ItemOf(t) == item
  {
    hide ItemOf, ItemsIn, ItemAt;
    assert payload[0..] == payload;
    ItemsExact(payload, 0, item);
  }

  lemma ObjectsNamed(payload: seq<byte>, id: u16)
    ensures Names(ItemsIn(payload), id) <==> exists t :: Among(payload, t) && NamesObject(t, id)
  {
    hide ItemOf, ItemsIn, NamesObject, Among;
    var items := ItemsIn(payload);
    if Names(items, id) {
      var k :| 0 <= k < |items| && items[k] != NoItem && items[k].id == id;
      ItemsAmong(payload, items[k]);
      var t :| Among(payload, t) && ItemOf(t) == items[k];
      ItemExact(t, id, 0);
    }
    if t :| Among(payload, t) && NamesObject(t, id) {
      ItemExact(t, id, 0);
      ItemsAmong(payload, ItemOf(t));
      var k :| 0 <= k < |items| && items[k] == ItemOf(t);
    }
  }

  lemma InstancesNamed(payload: seq<byte>, id: u16, instance: u16)
    ensures Instance(id, instance) in ItemsIn(payload) <==> exists t :: Among(payload, t) && NamesInstance(t, id, instance)
  {
    hide ItemOf, ItemsIn, NamesInstance, Among;
    ItemsAmong(payload, Instance(id, instance));
    forall t
      ensures ItemOf(t) == Instance(id, instance) <==> NamesInstance(t, id, instance)
    {
      ItemExact(t, id, instance);
    }
  }

  /** Something is read if and only if some item names an object. */
  lemma SomethingReads(payload: seq<byte>)
    ensures DecodedOnto([], payload) != [] <==> exists t, id: u16 :: Among(payload, t) && NamesObject(t, id)
  {
    hide DecodedOnto, NamesObject, Among;
    PayloadReads(payload);
    var list := DecodedOnto([], payload);
    if list != [] {
      assert Has(list, list[0].id);
    }
    if t, id: u16 :| Among(payload, t) && NamesObject(t, id) {
      assert Has(list, id);
    }
  }
}
