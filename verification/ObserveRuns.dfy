/** What holds of the table of observed URIs, and of the Observe values handed out, in every state of every run. */
module ObserveRuns {
  import opened Bytes
  import opened CoapPacket
  import opened Uri
  import opened Observe

  // ----- the table -----

  ghost predicate EntryOk(e: Observed, servers: seq<Server>) {
    && e.watchers != []
    && (forall j :: 0 <= j < |e.watchers| ==> e.watchers[j].server < |servers|)
    && (forall j, k :: 0 <= j < k < |e.watchers| ==> e.watchers[j].server != e.watchers[k].server)
  }

  /** No URI is listed twice, every entry has a watcher, every watcher a known server, no server twice in an entry. */
  ghost predicate TableOk(t: Table, servers: seq<Server>) {
    && (forall i :: 0 <= i < |t| ==> EntryOk(t[i], servers))
    && (forall i, j :: 0 <= i < j < |t| ==> !SameUri(t[i].uri, t[j].uri))
  }

  lemma SameUriSymmetric(u: Uri, v: Uri)
    ensures SameUri(u, v) <==> SameUri(v, u)
  {
  }

  lemma ReplacedOk(t: Table, i: nat, ws: seq<Watcher>, servers: seq<Server>)
    requires TableOk(t, servers) && i < |t| && EntryOk(Observed(t[i].uri, ws), servers)
    ensures TableOk(t[i := t[i].(watchers := ws)], servers)
  {
  }

  lemma RequestTable(s: State, uri: Uri, from: Address, token: seq<byte>)
    requires TableOk(s.table, s.servers)
    ensures var r := Request(s, uri, from, token).state; TableOk(r.table, r.servers) && r.servers == s.servers
  {
    hide TableOk, EntryOk, SameUri;
    var server := FirstServer(s.servers, from);
    if Request(s, uri, from, token).status == CONTENT_2_05 {
      var (t, i) := WithObserved(s.table, uri);
      var (ws, j) := WithWatcher(t[i].watchers, server, token, s.created);
      RequestEntry(s, uri, server, token, t, i, ws, j);
    }
  }

  lemma RequestEntry(s: State, uri: Uri, server: nat, token: seq<byte>, t: Table, i: nat, ws: seq<Watcher>, j: nat)
    requires TableOk(s.table, s.servers) && server < |s.servers|
    requires (t, i) == WithObserved(s.table, uri) && (ws, j) == WithWatcher(t[i].watchers, server, token, s.created)
    ensures TableOk(t[i := t[i].(watchers := ws[j := Bumped(ws[j])])], s.servers)
  {
    var entry := t[i].(watchers := ws[j := Bumped(ws[j])]);
    WatcherOk(t[i].watchers, s.servers, server, token, s.created);
    var k := FirstObserved(s.table, uri);
    assert EntryOk(entry, s.servers);
    if k < |s.table| {
      ReplacedOk(t, i, entry.watchers, s.servers);
    } else {
      var r := t[i := entry];
      assert forall m :: 0 < m < |r| ==> r[m] == s.table[m - 1];
      forall m | 0 < m < |r|
        ensures !SameUri(r[0].uri, r[m].uri)
      {
        SameUriSymmetric(uri, s.table[m - 1].uri);
      }
    }
  }

  /** Adding a watcher to a list, or finding it there, leaves each server in it once. */
  lemma WatcherOk(ws: seq<Watcher>, servers: seq<Server>, server: nat, token: seq<byte>, serial: nat)
    requires server < |servers|
    requires forall j :: 0 <= j < |ws| ==> ws[j].server < |servers|
    requires forall j, k :: 0 <= j < k < |ws| ==> ws[j].server != ws[k].server
    ensures var (r, j) := WithWatcher(ws, server, token, serial);
            && (forall k :: 0 <= k < |r| ==> r[k].server < |servers|)
            && (forall k, l :: 0 <= k < l < |r| ==> r[k].server != r[l].server)
            && r[j].server == server
  {
    var (r, j) := WithWatcher(ws, server, token, serial);
    if FirstWatcher(ws, server) == |ws| {
      assert forall k :: 0 < k < |r| ==> r[k] == ws[k - 1];
    }
  }

  lemma DroppedTable(t: Table, i: nat, j: nat, servers: seq<Server>)
    requires TableOk(t, servers) && i < |t| && j < |t[i].watchers|
    ensures TableOk(Dropped(t, i, j), servers)
  {
    var ws := t[i].watchers[..j] + t[i].watchers[j + 1..];
    if ws == [] {
      var r := t[..i] + t[i + 1..];
      assert forall k :: 0 <= k < |r| ==> r[k] == t[if k < i then k else k + 1];
    } else {
      assert forall k :: 0 <= k < |ws| ==> ws[k] == t[i].watchers[if k < j then k else k + 1];
      assert EntryOk(Observed(t[i].uri, ws), servers);
      ReplacedOk(t, i, ws, servers);
    }
  }

  lemma {:induction false} ToldAllAt(ws: seq<Watcher>, mid: u16)
    ensures |ToldAll(ws, mid)| == |ws|
    ensures forall j :: 0 <= j < |ws| ==> ToldAll(ws, mid)[j] == Told(ws[j], MidAfter(mid, j))
  {
    if ws != [] {
      ToldAllAt(ws[1..], MidAfter(mid, 1));
      forall j | 0 <= j < |ws|
        ensures ToldAll(ws, mid)[j] == Told(ws[j], MidAfter(mid, j))
      {
        if j > 0 {
          MidAdds(mid, j - 1);
        }
      }
    }
  }

  lemma MidAdds(mid: u16, n: nat)
    ensures MidAfter(MidAfter(mid, 1), n) == MidAfter(mid, n + 1)
  {
  }

  lemma NotifyEntryTable(s: State, i: nat, read: Reader)
    requires TableOk(s.table, s.servers) && i < |s.table|
    ensures var r := NotifyEntry(s, i, read);
            TableOk(r.table, r.servers) && |r.table| == |s.table| && r.servers == s.servers && r.created == s.created
  {
    if read(s.table[i].uri).Some? {
      var ws := s.table[i].watchers;
      ToldAllAt(ws, s.nextMid);
      assert EntryOk(s.table[i], s.servers);
      assert EntryOk(Observed(s.table[i].uri, ToldAll(ws, s.nextMid)), s.servers);
      ReplacedOk(s.table, i, ToldAll(ws, s.nextMid), s.servers);
    }
  }

  // ----- watchers by serial -----

  function Occurs(ws: seq<Watcher>, x: nat): nat {
    if ws == [] then 0 else (if ws[0].serial == x then 1 else 0) + Occurs(ws[1..], x)
  }

  /** How many watchers in the table are watcher x. */
  function Watching(t: Table, x: nat): nat {
    if t == [] then 0 else Occurs(t[0].watchers, x) + Watching(t[1..], x)
  }

  /** The Observe values watcher x has been given, in order. */
  function Issued(log: seq<Event>, x: nat): seq<u32> {
    if log == [] then [] else IssuedBy(log[0], x) + Issued(log[1..], x)
  }

  function IssuedBy(ev: Event, x: nat): seq<u32> {
    if ev.serial != x then []
    else match ev case Confirmed(_, value) => [value] case Notified(_, _, message) => [message.observe]
  }

  /** 0, 1, 2, ... modulo 2 to the 24. */
  function Counting(n: nat): (r: seq<u32>)
    ensures |r| == n
  {
    if n == 0 then [] else Counting(n - 1) + [(n - 1) % 0x100_0000]
  }

  lemma {:induction false} OccursAdds(a: seq<Watcher>, b: seq<Watcher>, x: nat)
    ensures Occurs(a + b, x) == Occurs(a, x) + Occurs(b, x)
  {
    if a == [] {
      assert a + b == b;
    } else {
      assert (a + b)[1..] == a[1..] + b;
      OccursAdds(a[1..], b, x);
    }
  }

  lemma {:induction false} WatchingAdds(a: Table, b: Table, x: nat)
    ensures Watching(a + b, x) == Watching(a, x) + Watching(b, x)
  {
    if a == [] {
      assert a + b == b;
    } else {
      assert (a + b)[1..] == a[1..] + b;
      WatchingAdds(a[1..], b, x);
    }
  }

  lemma {:induction false} IssuedAdds(a: seq<Event>, b: seq<Event>, x: nat)
    ensures Issued(a + b, x) == Issued(a, x) + Issued(b, x)
  {
    if a == [] {
      assert a + b == b;
    } else {
      assert (a + b)[1..] == a[1..] + b;
      IssuedAdds(a[1..], b, x);
    }
  }

  lemma OneOf(e: Observed, w: Watcher, ev: Event, x: nat)
    ensures Watching([e], x) == Occurs(e.watchers, x)
    ensures Occurs([w], x) == if w.serial == x then 1 else 0
    ensures Issued([ev], x) == IssuedBy(ev, x)
  {
    var t, ws, log := [e], [w], [ev];
    assert t[1..] == [] && ws[1..] == [] && log[1..] == [];
  }

  lemma WatchingAt(t: Table, i: nat, x: nat)
    requires i < |t|
    ensures Watching(t, x) == Occurs(t[i].watchers, x) + Watching(t[..i] + t[i + 1..], x)
  {
    hide Watching, Occurs;
    assert t == t[..i] + ([t[i]] + t[i + 1..]);
    WatchingAdds(t[..i], [t[i]] + t[i + 1..], x);
    WatchingAdds([t[i]], t[i + 1..], x);
    WatchingAdds(t[..i], t[i + 1..], x);
    OneOf(t[i], Watcher(0, 0, [], 0, 0), Confirmed(0, 0), x);
  }

  lemma WatchingReplaced(t: Table, i: nat, ws: seq<Watcher>, x: nat)
    requires i < |t|
    ensures Watching(t[i := t[i].(watchers := ws)], x) + Occurs(t[i].watchers, x) == Watching(t, x) + Occurs(ws, x)
  {
    hide Watching, Occurs;
    var r := t[i := t[i].(watchers := ws)];
    WatchingAt(t, i, x);
    WatchingAt(r, i, x);
    assert r[..i] + r[i + 1..] == t[..i] + t[i + 1..];
  }

  lemma OccursAt(ws: seq<Watcher>, j: nat, x: nat)
    requires j < |ws|
    ensures Occurs(ws, x) == (if ws[j].serial == x then 1 else 0) + Occurs(ws[..j] + ws[j + 1..], x)
  {
    hide Occurs;
    assert ws == ws[..j] + ([ws[j]] + ws[j + 1..]);
    OccursAdds(ws[..j], [ws[j]] + ws[j + 1..], x);
    OccursAdds([ws[j]], ws[j + 1..], x);
    OccursAdds(ws[..j], ws[j + 1..], x);
    OneOf(Observed(NO_URI, []), ws[j], Confirmed(0, 0), x);
  }

  lemma OccursReplaced(ws: seq<Watcher>, j: nat, w: Watcher, x: nat)
    requires j < |ws| && w.serial == ws[j].serial
    ensures Occurs(ws[j := w], x) == Occurs(ws, x)
  {
    hide Occurs;
    var r := ws[j := w];
    OccursAt(ws, j, x);
    OccursAt(r, j, x);
    assert r[..j] + r[j + 1..] == ws[..j] + ws[j + 1..];
  }

  lemma {:induction false} ToldAllOccurs(ws: seq<Watcher>, mid: u16, x: nat)
    ensures Occurs(ToldAll(ws, mid), x) == Occurs(ws, x)
  {
    if ws != [] {
      ToldAllOccurs(ws[1..], MidAfter(mid, 1), x);
    }
  }

  /** A notification round gives each watcher of the entry its next value once, and nobody else any. */
  lemma {:induction false} NotificationsIssue(servers: seq<Server>, ws: seq<Watcher>, mid: u16, payload: seq<byte>, x: nat)
    ensures Occurs(ws, x) == 0 ==> Issued(Notifications(servers, ws, mid, payload), x) == []
    ensures forall j :: 0 <= j < |ws| && ws[j].serial == x && Occurs(ws, x) == 1 ==>
              Issued(Notifications(servers, ws, mid, payload), x) == [ObserveValue(ws[j].counter)]
  {
    hide Notification;
    if ws != [] {
      var rest := ws[1..];
      NotificationsIssue(servers, rest, MidAfter(mid, 1), payload, x);
      NotificationObserve(ws[0], mid, payload);
      assert forall j :: 0 < j < |ws| ==> ws[j] == rest[j - 1];
      forall j | 0 <= j < |rest| && rest[j].serial == x
        ensures Occurs(rest, x) >= 1
      {
        OccursAt(rest, j, x);
      }
    }
  }

  lemma NotificationObserve(w: Watcher, mid: u16, payload: seq<byte>)
    ensures Notification(w, mid, payload).observe == ObserveValue(w.counter)
  {
  }
}
