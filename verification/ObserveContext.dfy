/** The observe handlers of the client as they run: loops over the linked table and its linked lists of watchers. */
module ObserveContext {
  import opened Bytes
  import opened CoapPacket
  import opened Uri
  import opened IntrusiveList
  import opened Observe
  import opened ObserveNodes

  class Observations {
    var serverList: seq<Server>
    var observedList: Node?<Record>
    var nextMID: u16
    var created: nat
    var log: seq<Event>
    ghost var spine: seq<Node<Record>>
    ghost var rows: seq<Record>
    ghost var homes: Homes

    ghost predicate Valid()
      reads this`observedList, this`spine, this`rows, this`homes, spine, rows, homes.Keys
    {
      && Chain(observedList, spine) && |rows| == |spine| && RowsOk(rows, homes)
      && forall i :: 0 <= i < |spine| ==> spine[i].item == rows[i]
    }

    ghost function Listed(): (t: Table)
      requires Valid()
      reads this`observedList, this`spine, this`rows, this`homes, spine, rows, homes.Keys
      ensures |t| == |rows| == |spine|
    {
      TableOf(rows, homes)
    }

    ghost function Now(): State
      requires Valid()
      reads this, spine, rows, homes.Keys
    {
      State(serverList, Listed(), nextMID, created, log)
    }

    constructor (servers: seq<Server>, mid: u16)
      ensures Valid() && Now() == Start(servers, mid)
    {
      serverList, observedList, nextMID, created, log := servers, null, mid, 0, [];
      spine, rows, homes := [], [], map[];
    }

    /** prv_findObserved */
    method FindObserved(uri: Uri) returns (found: Node?<Record>, ghost i: nat)
      requires Valid()
      ensures found == LinkAt(spine, FirstObserved(Listed(), uri))
      ensures i == FirstObserved(Listed(), uri)
    {
      ghost var t := Listed();
      found, i := observedList, 0;
      while found != null && !SameUri(found.item.uri, uri)
        invariant 0 <= i <= |t| && found == LinkAt(spine, i)
        invariant i + FirstObserved(t[i..], uri) == FirstObserved(t, uri)
        decreases |t| - i
      {
        assert t[i..][1..] == t[i + 1..];
        found := found.next;
        i := i + 1;
      }
    }

    /** prv_findServer */
    method FindServer(from: Address) returns (i: nat)
      ensures i == FirstServer(serverList, from)
    {
      i := 0;
      while i < |serverList| && |serverList[i].addr| != |from| && !(from <= serverList[i].addr)
        invariant i <= |serverList|
        invariant i + FirstServer(serverList[i..], from) == FirstServer(serverList, from)
      {
        assert serverList[i..][1..] == serverList[i + 1..];
        i := i + 1;
      }
    }

    /** An entry for a URI in front of the table. */
    method PushObserved(uri: Uri) returns (r: Record)
      requires Valid()
      modifies this`observedList, this`spine, this`rows
      ensures Valid() && fresh(r) && rows == [r] + old(rows)
      ensures Listed() == [Observed(uri, [])] + old(Listed())
    {
      hide EntryOf, RowOk, Chain;
      ghost var t, others := Listed(), rows;
      var n;
      r, n := NewRecord(uri, observedList, spine);
      EmptyRow(r, homes);
      assert forall i :: 0 <= i < |others| ==> RowOk(others[i], homes) && EntryOf(others[i], homes) == t[i];
      observedList, spine, rows := n, [n] + spine, [r] + rows;
    }

    /** handle_observe_request */
    method HandleObserveRequest(uri: Uri, from: Address, token: seq<byte>) returns (status: byte)
      requires Valid()
      modifies this, rows, homes.Keys
      ensures Valid() && Answer(status, Now()) == Request(old(Now()), uri, from, token)
    {
      hide Chain, RowsOk, WithObserved, WithWatcher;
      if !uri.hasInstance && uri.hasResource {
        return BAD_REQUEST_4_00;
      }
      if |token| == 0 {
        return BAD_REQUEST_4_00;
      }
      var serverP := FindServer(from);
      if serverP == |serverList| || !serverList[serverP].registered {
        return UNAUTHORIZED_4_01;
      }
      Accept(uri, serverP, token);
      return CONTENT_2_05;
    }

    /** What an accepted request changes. */
    method Accept(uri: Uri, server: nat, token: seq<byte>)
      requires Valid()
      modifies this, rows, homes.Keys
      ensures Valid() && serverList == old(serverList) && nextMID == old(nextMID) && created == old(created) + 1
      ensures var (t, i) := WithObserved(old(Listed()), uri);
              var (ws, j) := WithWatcher(t[i].watchers, server, token, old(created));
              && Listed() == t[i := t[i].(watchers := ws[j := Bumped(ws[j])])]
              && log == old(log) + [Confirmed(ws[j].serial, ObserveValue(ws[j].counter))]
    {
      hide Chain, RowsOk, WithObserved, WithWatcher, Valid, Listed;
      var observedP;
      ghost var i;
      observedP, i := EnsureObserved(uri);
      CountFor(observedP, server, token, i);
    }

    /** The server's watcher on an entry, new or not, counts one on. */
    method CountFor(r: Record, server: nat, token: seq<byte>, ghost i: nat)
      requires Valid() && i < |rows| && rows[i] == r
      modifies this`homes, this`log, this`created, r, homes.Keys
      ensures Valid() && created == old(created) + 1
      ensures var (ws, j) := WithWatcher(old(Listed()[i].watchers), server, token, old(created));
              && Listed() == old(Listed())[i := old(Listed()[i]).(watchers := ws[j := Bumped(ws[j])])]
              && log == old(log) + [Confirmed(ws[j].serial, ObserveValue(ws[j].counter))]
    {
      hide Chain, RowsOk, WithWatcher, Listed;
      var watcherP;
      ghost var j;
      watcherP, j := EnsureWatcher(r, server, token, i);
      ghost var t, w := Listed(), watcherP.item;
      var value := CountOn(watcherP, i, j);
      created := created + 1;
      assert Listed() == t[i := t[i].(watchers := t[i].watchers[j := Bumped(w)])];
    }

    /** The entry for a URI, put in front if there was none. */
    method EnsureObserved(uri: Uri) returns (r: Record, ghost i: nat)
      requires Valid()
      modifies this`observedList, this`spine, this`rows
      ensures Valid() && i < |rows| && rows[i] == r && (Listed(), i) == WithObserved(old(Listed()), uri)
      ensures forall k :: 0 <= k < |rows| ==> rows[k] in old(rows) || fresh(rows[k])
    {
      hide Chain, RowsOk;
      var found;
      found, i := FindObserved(uri);
      if found != null {
        r := found.item;
      } else {
        r := PushObserved(uri);
        i := 0;
      }
    }

    method AddWatcher(r: Record, w: Watcher, ghost i: nat)
      requires Valid() && i < |rows| && rows[i] == r
      modifies this`homes, r
      ensures Valid() && homes.Keys >= old(homes.Keys) && fresh(homes.Keys - old(homes.Keys))
      ensures var e := old(Listed()[i]); Listed() == old(Listed())[i := e.(watchers := [w] + e.watchers)]
    {
      hide Chain, RowsOk;
      homes := AddItem(r, w, rows, homes, i);
    }

    method SetWatcher(n: Node<Watcher>, w: Watcher, ghost i: nat, ghost j: nat)
      requires Valid() && i < |rows| && j < |rows[i].spine| && rows[i].spine[j] == n
      modifies n`item
      ensures Valid()
      ensures var e := old(Listed()[i]); Listed() == old(Listed())[i := e.(watchers := e.watchers[j := w])]
    {
      hide Chain, RowsOk;
      SetItem(n, w, rows, homes, i, j);
    }

    /** The server's watcher on an entry, put in front if there was none. */
    method EnsureWatcher(r: Record, server: nat, token: seq<byte>, ghost i: nat) returns (n: Node<Watcher>, ghost j: nat)
      requires Valid() && i < |rows| && rows[i] == r
      modifies this`homes, r
      ensures Valid() && j < |r.spine| && r.spine[j] == n
      ensures n in old(homes.Keys) || fresh(n)
      ensures var (ws, k) := WithWatcher(old(Listed()[i].watchers), server, token, created);
              j == k && n.item == ws[j] && Listed() == old(Listed())[i := old(Listed()[i]).(watchers := ws)]
    {
      hide Chain, RowsOk;
      RowAt(rows, homes, i);
      var found;
      found, j := FindWatcher(r, server);
      if found == null {
        AddWatcher(r, Watcher(created, server, token, 0, 0), i);
        RowAt(rows, homes, i);
        HeadAt(r);
        found, j := r.watcherList, 0;
      } else {
        HeadAt(r);
      }
      n := found;
    }

    /** The watcher's count goes into the answer and the log, and one on. */
    method CountOn(n: Node<Watcher>, ghost i: nat, ghost j: nat) returns (value: u32)
      requires Valid() && i < |rows| && j < |rows[i].spine| && rows[i].spine[j] == n
      modifies this`log, n`item
      ensures Valid() && value == ObserveValue(old(n.item).counter)
      ensures var e := old(Listed()[i]);
              && Listed() == old(Listed())[i := e.(watchers := e.watchers[j := Bumped(old(n.item))])]
              && log == old(log) + [Confirmed(old(n.item).serial, value)]
    {
      hide Chain, RowsOk;
      value := ObserveValue(n.item.counter);
      log := log + [Confirmed(n.item.serial, value)];
      SetWatcher(n, n.item.(counter := (n.item.counter + 1) % 0x1_0000_0000), i, j);
    }

    /** The parent of a node that is not the first. */
    method ParentOf(n: Node<Record>, ghost i: nat) returns (parentP: Node<Record>)
      requires Valid() && 0 < i < |spine| && spine[i] == n
      ensures parentP == spine[i - 1]
    {
      hide RowsOk;
      parentP := observedList;
      ghost var k := 0;
      while parentP.next != null && parentP.next != n
        invariant 0 <= k < i && parentP == spine[k]
        decreases |spine| - k
      {
        parentP := parentP.next;
        k := k + 1;
      }
    }

    /** prv_unlinkObserved */
    method UnlinkObserved(n: Node<Record>, ghost i: nat)
      requires Valid() && i < |spine| && spine[i] == n
      modifies this`observedList, this`spine, this`rows, spine`next
      ensures Valid() && Listed() == Without(old(Listed()), i)
    {
      hide Chain, RowsOk, Without;
      IsHead(observedList, spine, i);
      var parentP: Node?<Record> := null;
      if observedList != n {
        parentP := ParentOf(n, i);
      }
      ghost var left := Without(rows, i);
      var first;
      ghost var after;
      first, after := DetachRecord(observedList, parentP, spine, i, rows, homes);
      RowsWithout(rows, homes, i);
      WithoutItem(old(spine), rows, i);
      Unlinked(first, after, left);
    }

    /** The fields after a record has been taken out. */
    method Unlinked(first: Node?<Record>, ghost after: seq<Node<Record>>, ghost left: seq<Record>)
      requires Chain(first, after) && RowsOk(left, homes) && |left| == |after|
      requires forall k :: 0 <= k < |after| ==> after[k].item == left[k]
      modifies this`observedList, this`spine, this`rows
      ensures Valid() && Listed() == old(TableOf(left, homes))
    {
      hide Chain, RowsOk;
      observedList, spine, rows := first, after, left;
    }

    /** cancel_observe: the entries in turn, each one's watchers in turn, up to the first that matches. */
    method CancelObserve(mid: u16, from: Address)
      requires Valid() && forall i :: 0 <= i < |Listed()| ==> Listed()[i].watchers != []
      modifies this`observedList, this`spine, this`rows, spine`next, rows, homes.Keys
      ensures Valid() && Now() == Apply(old(Now()), Reset(mid, from))
    {
      hide RowsOk, Chain, CancelFrom, Dropped, FirstHit, Valid, Listed;
      ghost var t := Listed();
      var observedP := observedList;
      ghost var i := 0;
      Standing(0);
      while observedP != null
        invariant Valid() && Listed() == t && 0 <= i <= |t|
        invariant spine == old(spine) && rows == old(rows) && homes == old(homes)
        invariant observedP == LinkAt(spine, i)
        invariant CancelFrom(serverList, t, i, mid, from) == CancelFrom(serverList, t, 0, mid, from)
        decreases |t| - i
      {
        CancelHere(serverList, t, i, mid, from);
        Standing(i);
        var taken := TakeFrom(observedP, mid, from, i);
        if taken {
          return;
        }
        Standing(i);
        observedP := observedP.next;
        i := i + 1;
      }
      CancelEnd(serverList, t, mid, from);
    }

    /** Where a walk over the entries stands. */
    lemma Standing(i: nat)
      requires Valid()
      ensures observedList == LinkAt(spine, 0) && |rows| == |spine|
      ensures i < |spine| ==> spine[i].next == LinkAt(spine, i + 1) && spine[i].item == rows[i]
    {
    }

    /** One turn of the loop: the first watcher that matches goes, and the entry with it if it was the last. */
    method TakeFrom(n: Node<Record>, mid: u16, from: Address, ghost i: nat) returns (taken: bool)
      requires Valid() && i < |spine| && spine[i] == n && Listed()[i].watchers != []
      modifies this`observedList, this`spine, this`rows, spine`next, n.item, homes.Keys
      ensures Valid()
      ensures var t := old(Listed());
              var j := FirstHit(serverList, t[i].watchers, mid, from);
              && taken == (j < |t[i].watchers|)
              && Listed() == (if taken then Dropped(t, i, j) else t)
      ensures !taken ==> spine == old(spine) && rows == old(rows) && observedList == old(observedList)
    {
      hide RowsOk, Chain, Without, Valid, Listed, Dropped, FirstHit;
      ghost var t := Listed();
      ghost var j := FirstHit(serverList, t[i].watchers, mid, from);
      if j < |t[i].watchers| {
        DroppedIs(t, i, j);
      }
      Standing(i);
      taken := TakeWatcher(n.item, mid, from, i);
      if taken {
        EmptyAt(i);
        if n.item.watcherList == null {
          UnlinkObserved(n, i);
        }
      }
    }

    /** The first watcher of an entry that matches goes. */
    method TakeWatcher(r: Record, mid: u16, from: Address, ghost i: nat) returns (taken: bool)
      requires Valid() && i < |rows| && rows[i] == r && Listed()[i].watchers != []
      modifies r, homes.Keys
      ensures Valid()
      ensures var t := old(Listed());
              var j := FirstHit(serverList, t[i].watchers, mid, from);
              && taken == (j < |t[i].watchers|)
              && Listed() == if taken then t[i := t[i].(watchers := Without(t[i].watchers, j))] else t
    {
      hide RowsOk, Chain, Without, FirstHit;
      RowAt(rows, homes, i);
      taken := TakeItem(r, serverList, mid, from, rows, homes, i);
    }

    lemma EmptyAt(i: nat)
      requires Valid() && i < |rows|
      ensures rows[i].watcherList == null <==> Listed()[i].watchers == []
    {
      hide RowsOk, Chain;
      RowAt(rows, homes, i);
      HeadAt(rows[i]);
    }

    // ----- value changes -----

    /** prv_getObservedList */
    method GetObservedList(uri: Uri) returns (list: seq<Node<Record>>, ghost at: seq<nat>)
      requires Valid()
      ensures at == Selected(Listed(), uri, |Listed()|)
      ensures |list| == |at| && forall k :: 0 <= k < |at| ==> list[k] == spine[at[k]]
    {
      hide RowsOk, Chain, Valid, Listed;
      ghost var t := Listed();
      list, at := [], [];
      var targetP := observedList;
      ghost var i := 0;
      Standing(0);
      while targetP != null
        invariant 0 <= i <= |t| == |spine| && targetP == LinkAt(spine, i)
        invariant at == Selected(t, uri, i)
        invariant |list| == |at| && forall k :: 0 <= k < |at| ==> list[k] == spine[at[k]]
        decreases |t| - i
      {
        Standing(i);
        UriAt(i);
        var u := targetP.item.uri;
        if u.objectId == uri.objectId {
          if !uri.hasInstance || !u.hasInstance || uri.instanceId == u.instanceId {
            if !uri.hasResource || !u.hasResource || uri.resourceId == u.resourceId {
              list, at := [targetP] + list, [i] + at;
            }
          }
        }
        targetP := targetP.next;
        i := i + 1;
      }
    }

    lemma UriAt(i: nat)
      requires Valid() && i < |rows|
      ensures Listed()[i].uri == spine[i].item.uri
    {
      hide RowsOk, Chain;
      RowAt(rows, homes, i);
    }

    /** The message to one watcher, with the id and the counter it takes. */
    method NotifyWatcher(n: Node<Watcher>, payload: seq<byte>, ghost i: nat, ghost j: nat)
      requires Valid() && i < |rows| && j < |rows[i].spine| && rows[i].spine[j] == n
      modifies this`nextMID, this`log, n`item
      ensures Valid()
      ensures var w, e := old(n.item), old(Listed()[i]);
              && Listed() == old(Listed())[i := e.(watchers := e.watchers[j := Told(w, old(nextMID))])]
              && nextMID == MidAfter(old(nextMID), 1)
              && log == old(log) + [Notified(w.serial, WatcherAddress(serverList, w), Notification(w, old(nextMID), payload))]
    {
      hide Chain, RowsOk, Listed;
      var w := n.item;
      var lastMid := nextMID;
      nextMID := (nextMID + 1) % 0x1_0000;
      var message := Notification(w, lastMid, payload);
      log := log + [Notified(w.serial, WatcherAddress(serverList, w), message)];
      SetWatcher(n, w.(lastMid := lastMid, counter := (w.counter + 1) % 0x1_0000_0000), i, j);
    }

    /** The loop over one entry's watchers. */
    method NotifyWatchers(r: Record, payload: seq<byte>, ghost i: nat)
      requires Valid() && i < |rows| && rows[i] == r
      modifies this`nextMID, this`log, homes.Keys
      ensures Valid()
      ensures var t := old(Listed());
              && Listed() == t[i := t[i].(watchers := ToldAll(t[i].watchers, old(nextMID)))]
              && nextMID == MidAfter(old(nextMID), |t[i].watchers|)
              && log == old(log) + Notifications(serverList, t[i].watchers, old(nextMID), payload)
    {
      hide Notification, Told, Chain, RowsOk, Valid, Listed, ToldAll, Notifications, MidAfter;
      ghost var t, ws, mid := Listed(), Listed()[i].watchers, nextMID;
      ghost var told: seq<Watcher> := [];
      ghost var sent: seq<Event> := [];
      ghost var j := 0;
      WatcherAt(i, 0);
      MidStart(mid);
      var watcherP := r.watcherList;
      assert ws[0..] == ws && told + ws[0..] == ws && t[i := t[i].(watchers := ws)] == t;
      while watcherP != null
        invariant Valid() && 0 <= j <= |ws| && |told| == j
        invariant watcherP == LinkAt(r.spine, j) && |r.spine| == |ws|
        invariant Listed() == t[i := t[i].(watchers := told + ws[j..])]
        invariant nextMID == MidAfter(mid, j)
        invariant log == old(log) + sent
        invariant ToldAll(ws, mid) == told + ToldAll(ws[j..], nextMID)
        invariant Notifications(serverList, ws, mid, payload) == sent + Notifications(serverList, ws[j..], nextMID, payload)
        decreases |ws| - j
      {
        RoundStep(serverList, ws, j, nextMID, payload, told, sent);
        MidNext(mid, j);
        WatcherAt(i, j);
        ghost var w, m := ws[j], nextMID;
        NotifyWatcher(watcherP, payload, i, j);
        told := told + [Told(w, m)];
        sent := sent + [Notified(w.serial, WatcherAddress(serverList, w), Notification(w, m, payload))];
        WatcherAt(i, j);
        watcherP := watcherP.next;
        j := j + 1;
      }
      RoundEnd(serverList, ws[j..], nextMID, payload);
    }

    /** Where a walk over the watchers of one entry stands. */
    lemma WatcherAt(i: nat, j: nat)
      requires Valid() && i < |rows|
      ensures rows[i].watcherList == LinkAt(rows[i].spine, 0) && |rows[i].spine| == |Listed()[i].watchers|
      ensures j < |rows[i].spine| ==>
                && rows[i].spine[j].next == LinkAt(rows[i].spine, j + 1) && rows[i].spine[j] in homes
                && rows[i].spine[j].item == Listed()[i].watchers[j]
    {
      hide RowsOk;
      RowAt(rows, homes, i);
    }

    /** lwm2m_resource_value_changed */
    method ResourceValueChanged(uri: Uri, read: Reader)
      requires Valid()
      modifies this`nextMID, this`log, homes.Keys
      ensures Valid() && Now() == Apply(old(Now()), Change(uri, read))
    {
      hide NotifyEntry, Selected, RowsOk, Chain, Valid, Listed;
      var listP;
      ghost var at: seq<nat>;
      listP, at := GetObservedList(uri);
      ghost var size := |Listed()|;
      while listP != []
        invariant Valid() && |Listed()| == |spine| == size && |listP| == |at|
        invariant forall k :: 0 <= k < |at| ==> at[k] < size && listP[k] == spine[at[k]]
        invariant NotifyEntries(Now(), at, read) == Changed(old(Now()), uri, read)
        decreases |listP|
      {
        EntryKeepsSize(Now(), at[0], read);
        NotifyOne(listP[0], read, at[0]);
        listP, at := listP[1..], at[1..];
      }
    }

    method NotifyOne(n: Node<Record>, read: Reader, ghost i: nat)
      requires Valid() && i < |spine| && spine[i] == n
      modifies this`nextMID, this`log, homes.Keys
      ensures Valid() && Now() == NotifyEntry(old(Now()), i, read)
    {
      hide Notifications, ToldAll, RowsOk, Chain, Valid, Listed;
      Standing(i);
      UriAt(i);
      var result := read(n.item.uri);
      if result.Some? {
        NotifyWatchers(n.item, result.value, i);
      }
    }
  }

  lemma CancelHere(servers: seq<Server>, t: Table, i: nat, mid: u16, from: Address)
    requires i < |t|
    ensures var j := FirstHit(servers, t[i].watchers, mid, from);
            CancelFrom(servers, t, i, mid, from) ==
            if j < |t[i].watchers| then Dropped(t, i, j) else CancelFrom(servers, t, i + 1, mid, from)
  {
  }

  lemma CancelEnd(servers: seq<Server>, t: Table, mid: u16, from: Address)
    ensures CancelFrom(servers, t, |t|, mid, from) == t
  {
  }

  lemma DroppedIs(t: Table, i: nat, j: nat)
    requires i < |t| && j < |t[i].watchers|
    ensures var ws := Without(t[i].watchers, j);
            && Dropped(t, i, j) == (if ws == [] then Without(t, i) else t[i := t[i].(watchers := ws)])
            && Without(t[i := t[i].(watchers := ws)], i) == Without(t, i)
  {
  }

  lemma WithoutItem(spine: seq<Node<Record>>, rows: seq<Record>, i: nat)
    requires i < |spine| == |rows| && forall k :: 0 <= k < |spine| ==> spine[k].item == rows[k]
    ensures |Without(spine, i)| == |Without(rows, i)|
    ensures forall k :: 0 <= k < |Without(spine, i)| ==> Without(spine, i)[k].item == Without(rows, i)[k]
  {
  }

  lemma IsHead<T>(head: Node?<T>, spine: seq<Node<T>>, i: nat)
    requires Chain(head, spine) && i < |spine|
    ensures head != null && (head == spine[i] <==> i == 0)
  {
  }

  lemma RoundEnd(servers: seq<Server>, ws: seq<Watcher>, mid: u16, payload: seq<byte>)
    ensures ws == [] ==> ToldAll(ws, mid) == [] && Notifications(servers, ws, mid, payload) == []
  {
  }

  lemma MidStart(mid: u16)
    ensures MidAfter(mid, 0) == mid
  {
  }

  /** One watcher further in a round. */
  lemma RoundStep(servers: seq<Server>, ws: seq<Watcher>, j: nat, mid: u16, payload: seq<byte>, told: seq<Watcher>, sent: seq<Event>)
    requires j < |ws| && |told| == j
    ensures (told + ws[j..])[j := Told(ws[j], mid)] == told + [Told(ws[j], mid)] + ws[j + 1..]
    ensures told + ToldAll(ws[j..], mid) == told + [Told(ws[j], mid)] + ToldAll(ws[j + 1..], MidAfter(mid, 1))
    ensures sent + Notifications(servers, ws[j..], mid, payload) ==
            sent + [Notified(ws[j].serial, WatcherAddress(servers, ws[j]), Notification(ws[j], mid, payload))]
            + Notifications(servers, ws[j + 1..], MidAfter(mid, 1), payload)
  {
    hide Told, Notification;
    assert ws[j..][1..] == ws[j + 1..];
  }

  lemma MidNext(mid: u16, n: nat)
    ensures (MidAfter(mid, n) + 1) % 0x1_0000 == MidAfter(mid, n + 1) == MidAfter(MidAfter(mid, n), 1)
  {
  }

  lemma EntryKeepsSize(s: State, i: nat, read: Reader)
    requires i < |s.table|
    ensures |NotifyEntry(s, i, read).table| == |s.table|
  {
  }
}
