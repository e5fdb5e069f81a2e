/**
 * The observed table as core/observe.c keeps it: a linked list of records, each with its own linked list of watchers.
 * The nodes are those of the other lists; the ids these lists do without stay 0.
 */
module ObserveNodes {
  import opened Bytes
  import opened Uri
  import opened IntrusiveList
  import opened Observe

  /** lwm2m_observed_t without its link. */
  class Record {
    const uri: Uri
    var watcherList: Node?<Watcher>
    ghost var spine: seq<Node<Watcher>>

    constructor (uri: Uri)
      ensures this.uri == uri && watcherList == null && spine == []
    {
      this.uri := uri;
      watcherList, spine := null, [];
    }
  }

  ghost function Items(spine: seq<Node<Watcher>>): (ws: seq<Watcher>)
    reads spine
    ensures |ws| == |spine| && forall j :: 0 <= j < |ws| ==> ws[j] == spine[j].item
  {
    seq(|spine|, j requires 0 <= j < |spine| reads spine => spine[j].item)
  }

  /** Whose watcher a node is. */
  type Homes = map<Node<Watcher>, Record>

  /** The watcher nodes of a record are linked, and its own. */
  ghost predicate RowOk(r: Record, homes: Homes)
    reads r, homes.Keys
  {
    (forall j :: 0 <= j < |r.spine| ==> r.spine[j] in homes && homes[r.spine[j]] == r) && Chain(r.watcherList, r.spine)
  }

  ghost predicate RowsOk(rows: seq<Record>, homes: Homes)
    reads rows, homes.Keys
  {
    && (forall i :: 0 <= i < |rows| ==> RowOk(rows[i], homes))
    && (forall i, k :: 0 <= i < k < |rows| ==> rows[i] != rows[k])
  }

  ghost function EntryOf(r: Record, homes: Homes): (e: Observed)
    requires RowOk(r, homes)
    reads r, homes.Keys
  {
    Observed(r.uri, Items(r.spine))
  }

  ghost function TableOf(rows: seq<Record>, homes: Homes): (t: Table)
    requires RowsOk(rows, homes)
    reads rows, homes.Keys
    ensures |t| == |rows|
    ensures forall i :: 0 <= i < |t| ==> t[i] == EntryOf(rows[i], homes)
  {
    seq(|rows|, i requires 0 <= i < |rows| && RowOk(rows[i], homes) reads rows, homes.Keys => EntryOf(rows[i], homes))
  }

  lemma ChainPushed<T>(n: Node<T>, spine: seq<Node<T>>)
    requires Chain(n.next, spine) && n !in spine
    ensures Chain(n, [n] + spine)
  {
    var w := [n] + spine;
    assert forall i :: 0 < i < |w| ==> w[i] == spine[i - 1];
  }

  /** A record with no watchers, linked in front of a list. */
  method NewRecord(uri: Uri, head: Node?<Record>, ghost spine: seq<Node<Record>>) returns (r: Record, n: Node<Record>)
    requires Chain(head, spine)
    ensures fresh(r) && fresh(n) && n.item == r && r.uri == uri && r.watcherList == null && r.spine == []
    ensures Chain(n, [n] + spine)
  {
    hide Chain;
    r := new Record(uri);
    n := new Node(0, r);
    n.next := head;
    ChainPushed(n, spine);
  }

  lemma EmptyRow(r: Record, homes: Homes)
    requires r.watcherList == null && r.spine == []
    ensures RowOk(r, homes) && EntryOf(r, homes) == Observed(r.uri, [])
  {
  }

  // ----- one row -----

  /** prv_findWatcher */
  method FindWatcher(r: Record, server: nat) returns (found: Node?<Watcher>, ghost j: nat)
    requires Chain(r.watcherList, r.spine)
    ensures found == LinkAt(r.spine, FirstWatcher(Items(r.spine), server))
    ensures j == FirstWatcher(Items(r.spine), server)
  {
    ghost var ws := Items(r.spine);
    found, j := r.watcherList, 0;
    while found != null && found.item.server != server
      invariant 0 <= j <= |ws| && found == LinkAt(r.spine, j)
      invariant j + FirstWatcher(ws[j..], server) == FirstWatcher(ws, server)
      decreases |ws| - j
    {
      assert ws[j..][1..] == ws[j + 1..];
      found := found.next;
      j := j + 1;
    }
  }

  /** A watcher in front of the others. */
  method PushWatcher(r: Record, w: Watcher) returns (n: Node<Watcher>)
    requires Chain(r.watcherList, r.spine)
    modifies r
    ensures fresh(n) && r.spine == [n] + old(r.spine) && Chain(r.watcherList, r.spine)
    ensures Items(r.spine) == [w] + old(Items(r.spine))
  {
    hide Chain;
    n := new Node(0, w);
    n.next := r.watcherList;
    ChainPushed(n, r.spine);
    r.watcherList := n;
    r.spine := [n] + r.spine;
  }

  lemma FirstHitUnique(servers: seq<Server>, ws: seq<Watcher>, mid: u16, from: Address, j: nat)
    requires j <= |ws| && (j < |ws| ==> Hit(servers, ws[j], mid, from))
    requires forall k :: 0 <= k < j ==> !Hit(servers, ws[k], mid, from)
    ensures FirstHit(servers, ws, mid, from) == j
  {
    hide Hit;
    var h := FirstHit(servers, ws, mid, from);
    assert !(h < j) && !(j < h);
  }

  /** The last node in front of the first hit, or the last of all, when the head is no hit. */
  method ParentOfHit(head: Node<Watcher>, servers: seq<Server>, mid: u16, from: Address, ghost spine: seq<Node<Watcher>>)
    returns (parentP: Node<Watcher>, ghost j: nat)
    requires Chain(head, spine) && !Hit(servers, head.item, mid, from)
    ensures 1 <= FirstHit(servers, Items(spine), mid, from) <= |spine|
    ensures parentP == spine[FirstHit(servers, Items(spine), mid, from) - 1]
    ensures j == FirstHit(servers, Items(spine), mid, from) - 1
  {
    hide Hit;
    ghost var ws := Items(spine);
    parentP, j := head, 0;
    while parentP.next != null && !Hit(servers, parentP.next.item, mid, from)
      invariant 0 <= j < |spine| && parentP == spine[j]
      invariant forall k :: 0 <= k <= j ==> !Hit(servers, ws[k], mid, from)
      decreases |spine| - j
    {
      parentP := parentP.next;
      j := j + 1;
    }
    FirstHitUnique(servers, ws, mid, from, j + 1);
  }

  /** Taking the node at j out of a list, by the head or by the node in front of it. */
  method Detach<T>(head: Node<T>, parentP: Node?<T>, ghost spine: seq<Node<T>>, ghost j: nat)
    returns (first: Node?<T>, ghost after: seq<Node<T>>)
    requires Chain(head, spine) && j < |spine| && parentP == if j == 0 then null else spine[j - 1]
    modifies spine`next
    ensures after == Without(spine, j) && Chain(first, after)
  {
    first := head;
    if parentP == null {
      first := head.next;
      after := Without(spine, 0);
    } else {
      after := Unlink(head, parentP, spine, j - 1);
    }
  }

  lemma WithoutItems(spine: seq<Node<Watcher>>, ws: seq<Watcher>, j: nat)
    requires j < |spine| == |ws| && forall k :: 0 <= k < |ws| ==> ws[k] == spine[k].item
    ensures Items(Without(spine, j)) == Without(ws, j)
  {
  }

  method TakeAt(r: Record, ghost j: nat, parentP: Node?<Watcher>)
    requires Chain(r.watcherList, r.spine) && j < |r.spine| && parentP == if j == 0 then null else r.spine[j - 1]
    modifies r, r.spine`next
    ensures Chain(r.watcherList, r.spine) && r.spine == Without(old(r.spine), j)
  {
    assert r.watcherList == r.spine[0];
    hide Chain, Without;
    ghost var before := r.spine;
    var first;
    ghost var after;
    first, after := Detach(r.watcherList, parentP, before, j);
    r.watcherList := first;
    r.spine := after;
  }

  /** The search and the unlinking of cancel_observe in one list of watchers. */
  method TakeHit(r: Record, servers: seq<Server>, mid: u16, from: Address) returns (taken: bool)
    requires Chain(r.watcherList, r.spine) && r.spine != []
    modifies r, r.spine`next
    ensures Chain(r.watcherList, r.spine)
    ensures var j := FirstHit(servers, old(Items(r.spine)), mid, from);
            && taken == (j < |old(r.spine)|)
            && r.spine == if taken then Without(old(r.spine), j) else old(r.spine)
  {
    hide Hit, Without;
    ghost var ws := Items(r.spine);
    ghost var j := 0;
    var parentP: Node?<Watcher> := null;
    if Hit(servers, r.watcherList.item, mid, from) {
      FirstHitUnique(servers, ws, mid, from, 0);
      taken := true;
    } else {
      ghost var p;
      parentP, p := ParentOfHit(r.watcherList, servers, mid, from, r.spine);
      j := p + 1;
      taken := parentP.next != null;
    }
    if taken {
      TakeAt(r, j, parentP);
    }
  }

  // ----- one row among the others -----

  lemma OtherRow(rows: seq<Record>, homes: Homes, i: nat, k: nat, n: Node<Watcher>)
    requires RowsOk(rows, homes) && i < |rows| && k < |rows| && i != k && n in homes && homes[n] == rows[i]
    ensures n !in rows[k].spine
  {
    hide Chain;
    assert RowOk(rows[k], homes);
  }

  lemma ApartInRow(r: Record, j: nat)
    requires Chain(r.watcherList, r.spine) && j < |r.spine|
    ensures forall k :: 0 <= k < |r.spine| && k != j ==> r.spine[k] != r.spine[j]
  {
  }

  /** Assigning one watcher leaves all others. */
  method SetItem(n: Node<Watcher>, w: Watcher, ghost rows: seq<Record>, ghost homes: Homes, ghost i: nat, ghost j: nat)
    requires RowsOk(rows, homes) && i < |rows| && j < |rows[i].spine| && rows[i].spine[j] == n
    modifies n`item
    ensures RowsOk(rows, homes)
    ensures var e := old(TableOf(rows, homes)[i]);
            TableOf(rows, homes) == old(TableOf(rows, homes))[i := e.(watchers := e.watchers[j := w])]
  {
    hide Chain;
    ghost var t := TableOf(rows, homes);
    assert RowOk(rows[i], homes);
    ApartInRow(rows[i], j);
    forall k | 0 <= k < |rows| && k != i
      ensures n !in rows[k].spine
    {
      OtherRow(rows, homes, i, k, n);
    }
    n.item := w;
    assert forall k :: 0 <= k < |rows| ==> RowOk(rows[k], homes);
    forall k | 0 <= k < |rows|
      ensures EntryOf(rows[k], homes) == if k == i then t[i].(watchers := t[i].watchers[j := w]) else t[k]
    {
      if k != i {
        assert Items(rows[k].spine) == t[k].watchers;
      }
    }
  }

  /** A watcher in front of an entry's others. */
  method AddItem(r: Record, w: Watcher, ghost rows: seq<Record>, ghost homes: Homes, ghost i: nat) returns (ghost after: Homes)
    requires RowsOk(rows, homes) && i < |rows| && rows[i] == r
    modifies r
    ensures RowsOk(rows, after) && fresh(after.Keys - homes.Keys) && homes.Keys <= after.Keys
    ensures var e := old(TableOf(rows, homes)[i]);
            TableOf(rows, after) == old(TableOf(rows, homes))[i := e.(watchers := [w] + e.watchers)]
  {
    hide Chain;
    ghost var t := TableOf(rows, homes);
    assert RowOk(r, homes);
    var n := PushWatcher(r, w);
    after := homes[n := r];
    forall k | 0 <= k < |rows|
      ensures RowOk(rows[k], after)
      ensures EntryOf(rows[k], after) == if k == i then t[i].(watchers := [w] + t[i].watchers) else t[k]
    {
      if k != i {
        assert RowOk(rows[k], homes) && EntryOf(rows[k], homes) == t[k];
      }
    }
  }

  /** The first hit of one entry, if there is one, is taken out. */
  method TakeItem(r: Record, servers: seq<Server>, mid: u16, from: Address, ghost rows: seq<Record>, ghost homes: Homes, ghost i: nat)
    returns (taken: bool)
    requires RowsOk(rows, homes) && i < |rows| && rows[i] == r && r.spine != []
    modifies r, r.spine`next
    ensures RowsOk(rows, homes)
    ensures var e := old(TableOf(rows, homes)[i]);
            var j := FirstHit(servers, e.watchers, mid, from);
            && taken == (j < |e.watchers|)
            && TableOf(rows, homes) ==
               if taken then old(TableOf(rows, homes))[i := e.(watchers := Without(e.watchers, j))] else old(TableOf(rows, homes))
  {
    hide Chain, Without;
    ghost var t, before := TableOf(rows, homes), r.spine;
    assert RowOk(r, homes);
    forall k, a | 0 <= k < |rows| && k != i && 0 <= a < |before|
      ensures before[a] !in rows[k].spine
    {
      OtherRow(rows, homes, i, k, before[a]);
    }
    taken := TakeHit(r, servers, mid, from);
    ghost var j := FirstHit(servers, t[i].watchers, mid, from);
    if taken {
      WithoutIn(before, j);
      WithoutItems(before, t[i].watchers, j);
    }
    forall k | 0 <= k < |rows|
      ensures RowOk(rows[k], homes)
      ensures EntryOf(rows[k], homes) ==
              if k == i && taken then t[i].(watchers := Without(t[i].watchers, j)) else t[k]
    {
      if k != i {
        assert Items(rows[k].spine) == t[k].watchers;
      }
    }
  }

  lemma WithoutIn(spine: seq<Node<Watcher>>, j: nat)
    requires j < |spine|
    ensures forall a :: 0 <= a < |Without(spine, j)| ==> Without(spine, j)[a] in spine
  {
  }

  lemma KindsApart(spine: seq<Node<Record>>, homes: Homes)
    ensures forall k, n: Node<Watcher> :: 0 <= k < |spine| && n in homes ==> spine[k] as object != n as object
  {
  }

  /** Taking a record out of the list of records changes none of them. */
  method DetachRecord(head: Node<Record>, parentP: Node?<Record>, ghost spine: seq<Node<Record>>, ghost j: nat,
                      ghost rows: seq<Record>, ghost homes: Homes)
    returns (first: Node?<Record>, ghost after: seq<Node<Record>>)
    requires Chain(head, spine) && j < |spine| && parentP == if j == 0 then null else spine[j - 1]
    requires RowsOk(rows, homes)
    modifies spine`next
    ensures after == Without(spine, j) && Chain(first, after)
    ensures RowsOk(rows, homes) && TableOf(rows, homes) == old(TableOf(rows, homes))
  {
    hide Chain, Without;
    ghost var t := TableOf(rows, homes);
    KindsApart(spine, homes);
    assert forall k :: 0 <= k < |rows| ==> RowOk(rows[k], homes) && EntryOf(rows[k], homes) == t[k];
    first, after := Detach(head, parentP, spine, j);
    hide RowOk, EntryOf;
    assert forall k :: 0 <= k < |rows| ==> RowOk(rows[k], homes) && EntryOf(rows[k], homes) == t[k];
  }

  lemma RowsWithout(rows: seq<Record>, homes: Homes, i: nat)
    requires RowsOk(rows, homes) && i < |rows|
    ensures RowsOk(Without(rows, i), homes) && TableOf(Without(rows, i), homes) == Without(TableOf(rows, homes), i)
  {
    hide RowOk, EntryOf;
    var w := Without(rows, i);
    assert forall k :: 0 <= k < |w| ==> w[k] == rows[if k < i then k else k + 1];
  }

  lemma RowAt(rows: seq<Record>, homes: Homes, i: nat)
    requires RowsOk(rows, homes) && i < |rows|
    ensures Chain(rows[i].watcherList, rows[i].spine)
    ensures forall j :: 0 <= j < |rows[i].spine| ==> rows[i].spine[j] in homes
    ensures TableOf(rows, homes)[i] == Observed(rows[i].uri, Items(rows[i].spine))
  {
    hide Chain;
    assert RowOk(rows[i], homes);
  }

  lemma HeadAt(r: Record)
    requires Chain(r.watcherList, r.spine)
    ensures r.watcherList == LinkAt(r.spine, 0)
  {
  }
}
