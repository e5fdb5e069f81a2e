/**
 * The sorted singly linked list of core/list.c. A node carries its id, its link and
 * the record it heads; the C code reaches the same layout by casting each record to
 * a struct that starts with the link and the id.
 */
module IntrusiveList {
  import opened Bytes

  class Node<T> {
    var next: Node?<T>
    const id: u16
    var item: T

    constructor (id: u16, item: T)
      ensures this.id == id && this.item == item && next == null
    {
      this.id := id;
      this.item := item;
      next := null;
    }
  }

  /** What a list holds, front to back, without the nodes. */
  datatype Entry<+T> = Entry(id: u16, item: T)

  /** The nodes of spine, in this order, are exactly what is reached from head. */
  ghost predicate Chain<T>(head: Node?<T>, spine: seq<Node<T>>)
    reads spine`next
  {
    && head == LinkAt(spine, 0)
    && (forall i {:trigger spine[i]} :: 0 <= i < |spine| ==> spine[i].next == LinkAt(spine, i + 1))
    && (forall i, j :: 0 <= i < j < |spine| ==> spine[i] != spine[j])
  }

  ghost function LinkAt<T>(spine: seq<Node<T>>, i: nat): Node?<T> {
    if i < |spine| then spine[i] else null
  }

  ghost function View<T>(spine: seq<Node<T>>): (v: seq<Entry<T>>)
    reads spine
    ensures |v| == |spine|
    ensures forall i :: 0 <= i < |v| ==> v[i] == Entry(spine[i].id, spine[i].item)
  {
    seq(|spine|, i requires 0 <= i < |spine| reads spine => Entry(spine[i].id, spine[i].item))
  }

  // ----- what the operations compute -----

  /** How many leading entries have an id below the given one. */
  function Skip<T>(v: seq<Entry<T>>, id: u16): (k: nat)
    ensures k <= |v|
    ensures forall i :: 0 <= i < k ==> v[i].id < id
    ensures k < |v| ==> v[k].id >= id
  {
    if v == [] || v[0].id >= id then 0 else 1 + Skip(v[1..], id)
  }

  lemma {:induction false} SkipUnique<T>(v: seq<Entry<T>>, id: u16, k: nat)
    requires k <= |v|
    requires forall i :: 0 <= i < k ==> v[i].id < id
    requires k < |v| ==> v[k].id >= id
    ensures Skip(v, id) == k
  {
    assert !(Skip(v, id) < k) && !(k < Skip(v, id));
  }

  /** Where list_add links a node: in front of a larger head, else after the head and every next smaller id. */
  function AddIndex<T>(v: seq<Entry<T>>, id: u16): (k: nat)
    ensures k <= |v|
  {
    if v == [] || v[0].id > id then 0 else 1 + Skip(v[1..], id)
  }

  function Inserted<T>(v: seq<Entry<T>>, e: Entry<T>): seq<Entry<T>> {
    Spliced(v, AddIndex(v, e.id), e)
  }

  function Find<T>(v: seq<Entry<T>>, id: u16): (r: Option<nat>)
    ensures r.Some? ==> r.value < |v| && v[r.value].id == id
  {
    var k := Skip(v, id);
    if k < |v| && v[k].id == id then Some(k) else None
  }

  /** list_remove tests the head for equality only, and then scans from the second node. */
  function RemoveIndex<T>(v: seq<Entry<T>>, id: u16): (r: Option<nat>)
    ensures r.Some? ==> r.value < |v| && v[r.value].id == id
  {
    if v == [] then None
    else if v[0].id == id then Some(0)
    else
      var k := 1 + Skip(v[1..], id);
      if k < |v| && v[k].id == id then Some(k) else None
  }

  function Without<T>(v: seq<T>, k: nat): seq<T>
    requires k < |v|
  {
    v[..k] + v[k + 1..]
  }

  function NewIdFrom<T>(v: seq<Entry<T>>, id: u16): u16 {
    if v == [] || v[0].id != id then id else NewIdFrom(v[1..], (id + 1) % 0x1_0000)
  }

  function NewId<T>(v: seq<Entry<T>>): u16 {
    NewIdFrom(v, 0)
  }

  // ----- what that means -----

  ghost predicate Sorted<T>(v: seq<Entry<T>>) {
    forall i, j :: 0 <= i < j < |v| ==> v[i].id <= v[j].id
  }

  ghost predicate Ascending<T>(v: seq<Entry<T>>) {
    forall i, j :: 0 <= i < j < |v| ==> v[i].id < v[j].id
  }

  ghost predicate Has<T>(v: seq<Entry<T>>, id: u16) {
    exists i :: 0 <= i < |v| && v[i].id == id
  }

  /** s with n put in at k. */
  function Spliced<T>(s: seq<T>, k: nat, n: T): (w: seq<T>)
    requires k <= |s|
    ensures |w| == |s| + 1 && w[k] == n
    ensures forall i :: 0 <= i < k ==> w[i] == s[i]
    ensures forall i :: k < i < |w| ==> w[i] == s[i - 1]
  {
    s[..k] + [n] + s[k..]
  }

  lemma AddIndexSeparates<T>(v: seq<Entry<T>>, id: u16)
    requires Sorted(v)
    ensures forall i :: 0 <= i < AddIndex(v, id) ==> v[i].id <= id
    ensures forall i :: AddIndex(v, id) <= i < |v| ==> id <= v[i].id
  {
    var k := AddIndex(v, id);
    assert forall i :: 0 < i < |v| ==> v[i] == v[1..][i - 1];
    assert k < |v| ==> id <= v[k].id;
  }

  /** Adding to a sorted list keeps it sorted. */
  lemma InsertedSorted<T>(v: seq<Entry<T>>, e: Entry<T>)
    requires Sorted(v)
    ensures Sorted(Inserted(v, e))
  {
    AddIndexSeparates(v, e.id);
    hide AddIndex;
    var k := AddIndex(v, e.id);
    assert Inserted(v, e) == Spliced(v, k, e);
    hide Inserted, Spliced;
  }

  /**
   * When the id is taken already, the new entry is the one found under it from then on, in front of all others with the
   * id, unless one of them heads the list: that one stays in front.
   */
  lemma InsertedShadows<T>(v: seq<Entry<T>>, e: Entry<T>)
    requires Sorted(v)
    ensures var w := Inserted(v, e);
            && Find(w, e.id).Some? && Find(w, e.id).value < |w|
            && w[Find(w, e.id).value] == if v != [] && v[0].id == e.id then v[0] else e
  {
    AddIndexSeparates(v, e.id);
    var k, w := AddIndex(v, e.id), Inserted(v, e);
    assert w == Spliced(v, k, e);
    if v != [] && v[0].id == e.id {
      assert w[0] == v[0];
      SkipUnique(w, e.id, 0);
    } else {
      assert forall i :: 0 < i < |v| ==> v[i] == v[1..][i - 1];
      SkipUnique(w, e.id, k);
    }
  }

  /** Adding keeps the ids distinct exactly when the new id is not taken. */
  lemma InsertedAscending<T>(v: seq<Entry<T>>, e: Entry<T>)
    requires Ascending(v)
    ensures Ascending(Inserted(v, e)) <==> !Has(v, e.id)
  {
    AddIndexSeparates(v, e.id);
    var k, w := AddIndex(v, e.id), Inserted(v, e);
    assert w == Spliced(v, k, e);
    hide Inserted, Spliced, AddIndex;
    if Has(v, e.id) {
      var i :| 0 <= i < |v| && v[i].id == e.id;
      assert w[if i < k then i else i + 1].id == w[k].id;
    } else {
      assert forall i :: 0 <= i < k ==> v[i].id < e.id;
      assert forall i :: k <= i < |v| ==> e.id < v[i].id;
      SplicedAscending(v, k, e, w);
    }
  }

  lemma SplicedAscending<T>(v: seq<Entry<T>>, k: nat, e: Entry<T>, w: seq<Entry<T>>)
    requires Ascending(v) && k <= |v| && w == Spliced(v, k, e)
    requires forall i :: 0 <= i < k ==> v[i].id < e.id
    requires forall i :: k <= i < |v| ==> e.id < v[i].id
    ensures Ascending(w)
  {
    hide Spliced;
    forall i, j | 0 <= i < j < |w|
      ensures w[i].id < w[j].id
    {
    }
  }

  /** On a sorted list the early-exit search finds the first entry with the id, and misses none. */
  lemma FindExact<T>(v: seq<Entry<T>>, id: u16)
    requires Sorted(v)
    ensures Find(v, id).Some? <==> Has(v, id)
    ensures Find(v, id).Some? ==>
              var k := Find(v, id).value;
              k < |v| && v[k].id == id && forall i :: 0 <= i < k ==> v[i].id != id
  {
    var k := Skip(v, id);
    if Has(v, id) {
      var i :| 0 <= i < |v| && v[i].id == id;
      assert k <= i;
      assert v[k].id <= v[i].id;
    }
  }

  /** On a sorted list remove takes the entry find reports, and takes one whenever there is one. */
  lemma RemoveIsFind<T>(v: seq<Entry<T>>, id: u16)
    requires Sorted(v)
    ensures RemoveIndex(v, id) == Find(v, id)
  {
    if v != [] && v[0].id != id {
      if v[0].id < id {
        var k := Skip(v[1..], id);
        assert forall i :: 0 < i < 1 + k ==> v[i] == v[1..][i - 1];
        SkipUnique(v, id, 1 + k);
      } else {
        assert Skip(v, id) == 0;
        var k := 1 + Skip(v[1..], id);
        assert k < |v| ==> v[0].id <= v[k].id;
      }
    }
  }

  lemma {:induction false} NewIdFromLeast<T>(v: seq<Entry<T>>, id: u16)
    requires Ascending(v)
    requires forall i :: 0 <= i < |v| ==> v[i].id >= id
    requires |v| + id < 0x1_0000
    ensures id <= NewIdFrom(v, id)
    ensures !Has(v, NewIdFrom(v, id))
    ensures forall m: u16 :: id <= m < NewIdFrom(v, id) ==> Has(v, m)
  {
    if v == [] {
    } else if v[0].id != id {
    } else {
      var rest := v[1..];
      NewIdFromLeast(rest, id + 1);
      var r := NewIdFrom(rest, id + 1);
      assert forall i :: 0 < i < |v| ==> v[i] == rest[i - 1];
      forall m: u16 | id <= m < r
        ensures Has(v, m)
      {
        if m == id {
          assert v[0].id == m;
        } else {
          assert Has(rest, m);
          var i :| 0 <= i < |rest| && rest[i].id == m;
          assert v[i + 1].id == m;
        }
      }
    }
  }

  lemma {:induction false} NewIdFromDense<T>(v: seq<Entry<T>>, id: u16)
    requires Ascending(v)
    requires forall i :: 0 <= i < |v| ==> v[i].id >= id
    requires |v| + id == 0x1_0000
    ensures forall i :: 0 <= i < |v| ==> v[i].id == id + i
    ensures NewIdFrom(v, id) == 0
    decreases |v|
  {
    AscendingGap(v, 0, |v| - 1);
    assert v[0].id == id;
    if |v| == 1 {
      assert v[1..] == [];
    } else {
      NewIdFromDense(v[1..], id + 1);
      assert forall i :: 0 < i < |v| ==> v[i] == v[1..][i - 1];
    }
  }

  lemma {:induction false} AscendingGap<T>(v: seq<Entry<T>>, i: nat, j: nat)
    requires Ascending(v)
    requires i <= j < |v|
    ensures v[j].id - v[i].id >= j - i
    decreases j
  {
    if i < j {
      AscendingGap(v, i, j - 1);
      assert v[j - 1].id < v[j].id;
    }
  }

  /** newId is the lowest unused id; only the full list of all 65536 ids makes it return one in use. */
  lemma NewIdLeastUnused<T>(v: seq<Entry<T>>)
    requires Ascending(v)
    ensures |v| <= 0x1_0000
    ensures !Has(v, NewId(v)) <==> |v| < 0x1_0000
    ensures |v| < 0x1_0000 ==> forall m: u16 :: m < NewId(v) ==> Has(v, m)
  {
    if |v| > 0 {
      AscendingGap(v, 0, |v| - 1);
    }
    if |v| < 0x1_0000 {
      NewIdFromLeast(v, 0);
    } else {
      NewIdFromDense(v, 0);
      assert v[0].id == 0;
    }
  }

  // ----- the operations on linked nodes -----

  /** The scan add and remove share: the last node, from head on, whose successors' ids still were too small. */
  method Scan<T>(head: Node<T>, id: u16, ghost spine: seq<Node<T>>) returns (target: Node<T>, ghost k: nat)
    requires Chain(head, spine)
    ensures spine != [] && k == Skip(View(spine)[1..], id) < |spine| && target == spine[k]
  {
    ghost var v := View(spine);
    target, k := head, 0;
    while target.next != null && target.next.id < id
      invariant 0 <= k < |spine| && target == spine[k]
      invariant forall i :: 0 < i <= k ==> v[i].id < id
      decreases |spine| - k
    {
      target := target.next;
      k := k + 1;
    }
    SkipUnique(v[1..], id, k);
  }

  lemma SplicedDistinct<T>(s: seq<T>, k: nat, n: T)
    requires k <= |s| && n !in s
    requires forall i, j :: 0 <= i < j < |s| ==> s[i] != s[j]
    ensures forall i, j :: 0 <= i < j < |s| + 1 ==> Spliced(s, k, n)[i] != Spliced(s, k, n)[j]
  {
    var w := Spliced(s, k, n);
    hide Spliced;
    forall i, j | 0 <= i < j < |s| + 1
      ensures w[i] != w[j]
    {
      assert i == k || w[i] in s;
      assert j == k || w[j] in s;
    }
  }

  method LinkAfter<T>(ghost head: Node?<T>, target: Node<T>, node: Node<T>, ghost spine: seq<Node<T>>, ghost k: nat)
    returns (ghost after: seq<Node<T>>)
    requires Chain(head, spine) && k < |spine| && target == spine[k]
    requires node !in spine
    modifies target`next, node`next
    ensures after == Spliced(spine, k + 1, node)
    ensures Chain(head, after)
  {
    after := Spliced(spine, k + 1, node);
    hide Spliced;
    SplicedDistinct(spine, k + 1, node);
    node.next := target.next;
    target.next := node;
    forall i {:trigger after[i]} | 0 <= i < |after|
      ensures after[i].next == LinkAt(after, i + 1)
    {
      if i <= k {
        assert after[i] == spine[i];
      } else if i > k + 1 {
        assert after[i] == spine[i - 1];
      }
    }
  }

  method Unlink<T>(ghost head: Node?<T>, target: Node<T>, ghost spine: seq<Node<T>>, ghost k: nat)
    returns (ghost after: seq<Node<T>>)
    requires Chain(head, spine) && k + 1 < |spine| && target == spine[k]
    modifies target`next
    ensures after == Without(spine, k + 1)
    ensures Chain(head, after)
  {
    assert target.next == spine[k + 1] && spine[k + 1].next == LinkAt(spine, k + 2);
    target.next := target.next.next;
    after := Without(spine, k + 1);
  }

  /** Splicing a node in where AddIndex says shows up in the view as Inserted. */
  lemma ViewSpliced<T>(v: seq<Entry<T>>, node: Node<T>, spine: seq<Node<T>>)
    requires |v| == |spine|
    requires forall i :: 0 <= i < |v| ==> v[i] == Entry(spine[i].id, spine[i].item)
    ensures View(Spliced(spine, AddIndex(v, node.id), node)) == Inserted(v, Entry(node.id, node.item))
  {
    hide Spliced, AddIndex;
  }

  method LinkSorted<T>(head: Node?<T>, node: Node<T>, ghost spine: seq<Node<T>>)
    returns (first: Node<T>, ghost after: seq<Node<T>>)
    requires Chain(head, spine)
    requires node !in spine && node.next == null
    modifies spine`next, node`next
    ensures Chain(first, after)
    ensures after == Spliced(spine, AddIndex(View(spine), node.id), node)
  {
    if head == null {
      return node, [node];
    }
    if head.id > node.id {
      node.next := head;
      first, after := node, [node] + spine;
      assert after == Spliced(spine, 0, node);
      return;
    }
    ghost var k;
    var target;
    target, k := Scan(head, node.id, spine);
    first := head;
    after := LinkAfter(head, target, node, spine, k);
  }

  /** lwm2m_list_add */
  method Add<T>(head: Node?<T>, node: Node<T>, ghost spine: seq<Node<T>>)
    returns (first: Node<T>, ghost after: seq<Node<T>>)
    requires Chain(head, spine)
    requires node !in spine && node.next == null
    modifies spine`next, node`next
    ensures Chain(first, after)
    ensures after == Spliced(spine, AddIndex(View(spine), node.id), node)
    ensures View(after) == Inserted(old(View(spine)), Entry(node.id, node.item))
  {
    hide Chain, AddIndex, Inserted, Spliced;
    ghost var v := View(spine);
    first, after := LinkSorted(head, node, spine);
    assert View(spine) == v;
    ViewSpliced(v, node, spine);
  }

  /** lwm2m_list_find */
  method FindNode<T>(head: Node?<T>, id: u16, ghost spine: seq<Node<T>>) returns (found: Node?<T>)
    requires Chain(head, spine)
    ensures found == match Find(View(spine), id) case Some(k) => spine[k] case None => null
  {
    ghost var v, k := View(spine), 0;
    found := head;
    while found != null && found.id < id
      invariant 0 <= k <= |spine| && found == LinkAt(spine, k)
      invariant forall i :: 0 <= i < k ==> v[i].id < id
      decreases |spine| - k
    {
      found := found.next;
      k := k + 1;
    }
    SkipUnique(v, id, k);
    if found != null && found.id == id {
      return;
    }
    found := null;
  }

  /** lwm2m_list_remove: the new head, and the node taken out, if any. */
  method Remove<T>(head: Node?<T>, id: u16, ghost spine: seq<Node<T>>)
    returns (first: Node?<T>, removed: Node?<T>, ghost after: seq<Node<T>>)
    requires Chain(head, spine)
    modifies spine`next
    ensures Chain(first, after)
    ensures match RemoveIndex(old(View(spine)), id)
            case Some(k) => removed == spine[k] && after == Without(spine, k)
            case None => removed == null && after == spine
  {
    if head == null {
      return null, null, spine;
    }
    if head.id == id {
      return head.next, head, Without(spine, 0);
    }
    ghost var k;
    var target;
    target, k := Scan(head, id, spine);
    first, removed, after := head, null, spine;
    if target.next != null && target.next.id == id {
      removed := target.next;
      after := Unlink(head, target, spine, k);
    }
  }

  /** lwm2m_list_newId, on 16-bit ids. */
  method NewIdOf<T>(head: Node?<T>, ghost spine: seq<Node<T>>) returns (id: u16)
    requires Chain(head, spine)
    ensures id == NewId(View(spine))
  {
    ghost var v, k := View(spine), 0;
    id := 0;
    var target := head;
    while target != null && id == target.id
      invariant 0 <= k <= |spine| && target == LinkAt(spine, k)
      invariant NewIdFrom(v[k..], id) == NewId(v)
      decreases |spine| - k
    {
      id := (target.id + 1) % 0x1_0000;
      target := target.next;
      assert v[k..][1..] == v[k + 1..];
      k := k + 1;
    }
  }
}
