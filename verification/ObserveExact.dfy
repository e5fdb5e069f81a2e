/** Who exactly hears of a value change, and whom exactly a reset removes. */
module ObserveExact {
  import opened Bytes
  import opened Uri
  import opened Observe
  import opened ObserveRuns
  import opened ObserveLaws
  import opened ObserveRequests

  // ----- which URIs meet -----

  /** u names object o, and instance i and resource r of it as far as it names any. */
  predicate Covers(u: Uri, o: u16, i: u16, r: u16) {
    u.objectId == o && (u.hasInstance ==> u.instanceId == i) && (u.hasResource ==> u.resourceId == r)
  }

  /** Some resource is named by both. */
  ghost predicate Meet(u: Uri, v: Uri) {
    exists o: u16, i: u16, r: u16 :: Covers(u, o, i, r) && Covers(v, o, i, r)
  }

  /** The test of the source picks the URIs that have a resource in common with the one that changed. */
  lemma OverlapsExact(u: Uri, changed: Uri)
    ensures Overlaps(u, changed) <==> Meet(u, changed)
  {
    if Overlaps(u, changed) {
      var i := if u.hasInstance then u.instanceId else changed.instanceId;
      var r := if u.hasResource then u.resourceId else changed.resourceId;
      assert Covers(u, u.objectId, i, r) && Covers(changed, u.objectId, i, r);
    }
  }

  /** What is not named is 0, as lwm2m_decode_uri leaves it. */
  predicate Decodable(u: Uri) {
    (!u.hasObject ==> u.objectId == 0) && (!u.hasInstance ==> u.instanceId == 0) && (!u.hasResource ==> u.resourceId == 0)
  }

  /** An entry of the table is found for exactly the URI it was made for. */
  lemma SameUriExact(u: Uri, asked: Uri)
    requires Decodable(u) && Decodable(asked)
    ensures SameUri(u, asked) <==> u == asked
  {
  }

  lemma DecodedDecodable(path: seq<seq<byte>>)
    ensures UriOf(path).Some? ==> Decodable(UriOf(path).value)
  {
    hide Number;
  }

  // ----- a value change -----

  /** The notifications of a change, entry by entry of the list, from the table as it was before any of them. */
  function Rounds(servers: seq<Server>, t: Table, list: seq<nat>, mid: u16, read: Reader): seq<Event>
    requires forall k :: 0 <= k < |list| ==> list[k] < |t|
  {
    if list == [] then []
    else
      match read(t[list[0]].uri)
      case None => Rounds(servers, t, list[1..], mid, read)
      case Some(payload) =>
        Notifications(servers, t[list[0]].watchers, mid, payload)
        + Rounds(servers, t, list[1..], MidAfter(mid, |t[list[0]].watchers|), read)
  }

  ghost predicate Descending(list: seq<nat>, bound: nat) {
    && (forall k :: 0 <= k < |list| ==> list[k] < bound)
    && (forall k, l :: 0 <= k < l < |list| ==> list[k] > list[l])
  }

  lemma {:induction false} SelectedDescends(t: Table, uri: Uri, n: nat)
    requires n <= |t|
    ensures Descending(Selected(t, uri, n), n)
  {
    hide Overlaps;
    if n > 0 {
      SelectedDescends(t, uri, n - 1);
    }
  }

  lemma {:induction false} SelectedFinds(t: Table, uri: Uri, n: nat, i: nat)
    requires i < n <= |t|
    ensures i in Selected(t, uri, n) <==> Overlaps(t[i].uri, uri)
  {
    hide Overlaps;
    var rest := Selected(t, uri, n - 1);
    assert i in [n - 1] + rest <==> i == n - 1 || i in rest;
    if i < n - 1 {
      SelectedFinds(t, uri, n - 1, i);
    }
  }

  lemma SelectedExact(t: Table, uri: Uri, n: nat)
    requires n <= |t|
    ensures Descending(Selected(t, uri, n), n)
    ensures forall i :: 0 <= i < n ==> (i in Selected(t, uri, n) <==> Meet(t[i].uri, uri))
  {
    hide Overlaps, Meet;
    SelectedDescends(t, uri, n);
    forall i | 0 <= i < n
      ensures i in Selected(t, uri, n) <==> Meet(t[i].uri, uri)
    {
      SelectedFinds(t, uri, n, i);
      OverlapsExact(t[i].uri, uri);
    }
  }

  lemma {:induction false} NotificationsSize(servers: seq<Server>, ws: seq<Watcher>, mid: u16, payload: seq<byte>)
    ensures |Notifications(servers, ws, mid, payload)| == |ws|
    ensures forall k :: 0 <= k < |ws| ==>
              Notifications(servers, ws, mid, payload)[k] ==
              Notified(ws[k].serial, WatcherAddress(servers, ws[k]), Notification(ws[k], MidAfter(mid, k), payload))
  {
    hide Notification;
    if ws != [] {
      NotificationsSize(servers, ws[1..], MidAfter(mid, 1), payload);
      forall k | 0 <= k < |ws|
        ensures Notifications(servers, ws, mid, payload)[k] ==
                Notified(ws[k].serial, WatcherAddress(servers, ws[k]), Notification(ws[k], MidAfter(mid, k), payload))
      {
        if k > 0 {
          MidAdds(mid, k - 1);
        }
      }
    }
  }

  lemma {:induction false} RoundsFrame(servers: seq<Server>, t: Table, u: Table, list: seq<nat>, mid: u16, read: Reader)
    requires |t| == |u| && forall k :: 0 <= k < |list| ==> list[k] < |t| && t[list[k]] == u[list[k]]
    ensures Rounds(servers, t, list, mid, read) == Rounds(servers, u, list, mid, read)
    decreases |list|
  {
    hide Notifications;
    if list != [] {
      var next := if read(t[list[0]].uri).Some? then MidAfter(mid, |t[list[0]].watchers|) else mid;
      RoundsFrame(servers, t, u, list[1..], next, read);
    }
  }

  lemma MidSum(mid: u16, m: nat, n: nat)
    ensures MidAfter(MidAfter(mid, m), n) == MidAfter(mid, m + n)
  {
  }

  /** The log grows by the rounds, and the next message id by their number. */
  lemma {:induction false} NotifyEntriesLog(s: State, list: seq<nat>, read: Reader)
    requires Descending(list, |s.table|)
    ensures var evs, r := Rounds(s.servers, s.table, list, s.nextMid, read), NotifyEntries(s, list, read);
            r.log == s.log + evs && r.nextMid == MidAfter(s.nextMid, |evs|)
    decreases |list|
  {
    hide Notifications, ToldAll;
    if list != [] {
      var i, r := list[0], NotifyEntry(s, list[0], read);
      NotifyEntriesLog(r, list[1..], read);
      RoundsFrame(s.servers, r.table, s.table, list[1..], r.nextMid, read);
      var rest := Rounds(s.servers, s.table, list[1..], r.nextMid, read);
      match read(s.table[i].uri) {
        case None =>
        case Some(payload) =>
          var first := Notifications(s.servers, s.table[i].watchers, s.nextMid, payload);
          NotificationsSize(s.servers, s.table[i].watchers, s.nextMid, payload);
          MidSum(s.nextMid, |first|, |rest|);
          assert s.log + first + rest == s.log + (first + rest);
      }
    }
  }

  /** Where the k-th notification of a change comes from. */
  ghost predicate Sent(s: State, uri: Uri, read: Reader, ev: Event, k: nat, i: nat, j: nat) {
    && i < |s.table| && Meet(s.table[i].uri, uri) && read(s.table[i].uri).Some?
    && j < |s.table[i].watchers|
    && var w := s.table[i].watchers[j];
       ev == Notified(w.serial, WatcherAddress(s.servers, w),
                      Notification(w, MidAfter(s.nextMid, k), read(s.table[i].uri).value))
  }

  lemma {:induction false} RoundsContent(servers: seq<Server>, t: Table, list: seq<nat>, mid: u16, read: Reader, k: nat)
    returns (i: nat, j: nat)
    requires (forall m :: 0 <= m < |list| ==> list[m] < |t|) && k < |Rounds(servers, t, list, mid, read)|
    ensures i in list && i < |t| && read(t[i].uri).Some? && j < |t[i].watchers|
    ensures var w := t[i].watchers[j];
            Rounds(servers, t, list, mid, read)[k] ==
            Notified(w.serial, WatcherAddress(servers, w), Notification(w, MidAfter(mid, k), read(t[i].uri).value))
    decreases |list|
  {
    hide Notification;
    match read(t[list[0]].uri) {
      case None => i, j := RoundsContent(servers, t, list[1..], mid, read, k);
      case Some(payload) =>
        var ws := t[list[0]].watchers;
        NotificationsSize(servers, ws, mid, payload);
        if k < |ws| {
          i, j := list[0], k;
        } else {
          MidSum(mid, |ws|, k - |ws|);
          i, j := RoundsContent(servers, t, list[1..], MidAfter(mid, |ws|), read, k - |ws|);
        }
    }
  }

  /** The k-th notification of a change goes to some watcher of a URI that meets the changed one and can be read. */
  ghost predicate Warranted(s: State, uri: Uri, read: Reader, ev: Event, k: nat) {
    exists i, j :: Sent(s, uri, read, ev, k, i, j)
  }

  lemma SentBySomeone(s: State, uri: Uri, read: Reader, k: nat)
    requires var evs := Rounds(s.servers, s.table, Selected(s.table, uri, |s.table|), s.nextMid, read); k < |evs|
    ensures var evs := Rounds(s.servers, s.table, Selected(s.table, uri, |s.table|), s.nextMid, read);
            Warranted(s, uri, read, evs[k], k)
  {
    hide Meet, Notification;
    var list := Selected(s.table, uri, |s.table|);
    SelectedExact(s.table, uri, |s.table|);
    var i, j := RoundsContent(s.servers, s.table, list, s.nextMid, read, k);
    assert Sent(s, uri, read, Rounds(s.servers, s.table, list, s.nextMid, read)[k], k, i, j);
  }

  /** How many of the events are for watcher x. */
  function Heard(evs: seq<Event>, x: nat): nat {
    if evs == [] then 0 else (if evs[0].serial == x then 1 else 0) + Heard(evs[1..], x)
  }

  lemma {:induction false} HeardAdds(a: seq<Event>, b: seq<Event>, x: nat)
    ensures Heard(a + b, x) == Heard(a, x) + Heard(b, x)
  {
    if a == [] {
      assert a + b == b;
    } else {
      assert (a + b)[1..] == a[1..] + b;
      HeardAdds(a[1..], b, x);
    }
  }

  lemma {:induction false} NotificationsHeard(servers: seq<Server>, ws: seq<Watcher>, mid: u16, payload: seq<byte>, x: nat)
    ensures Heard(Notifications(servers, ws, mid, payload), x) == Occurs(ws, x)
  {
    hide Notification;
    if ws != [] {
      NotificationsHeard(servers, ws[1..], MidAfter(mid, 1), payload, x);
    }
  }

  /** A watcher that only entry i holds hears as often as i is on the list and readable. */
  lemma {:induction false} RoundsHeard(servers: seq<Server>, t: Table, list: seq<nat>, mid: u16, read: Reader, x: nat, i: nat)
    requires Descending(list, |t|)
    requires forall k :: 0 <= k < |t| && k != i ==> Occurs(t[k].watchers, x) == 0
    ensures Heard(Rounds(servers, t, list, mid, read), x) ==
            if i in list && read(t[i].uri).Some? then Occurs(t[i].watchers, x) else 0
    decreases |list|
  {
    hide Notifications, Occurs;
    if list != [] {
      var ws, rest := t[list[0]].watchers, list[1..];
      assert i in list <==> i == list[0] || i in rest;
      match read(t[list[0]].uri) {
        case None => RoundsHeard(servers, t, rest, mid, read, x, i);
        case Some(payload) =>
          RoundsHeard(servers, t, rest, MidAfter(mid, |ws|), read, x, i);
          NotificationsHeard(servers, ws, mid, payload, x);
          HeardAdds(Notifications(servers, ws, mid, payload), Rounds(servers, t, rest, MidAfter(mid, |ws|), read), x);
      }
    }
  }

  /**
   * A value change: the message ids it uses follow one another, every message goes to a watcher of a
   * URI that has a resource in common with the changed one and can be read, with that watcher's token and next Observe
   * value, and each such watcher gets one.
   */
  lemma ChangeExact(s: State, uri: Uri, read: Reader) returns (evs: seq<Event>)
    requires Sound(s)
    ensures Changed(s, uri, read).log == s.log + evs
    ensures Changed(s, uri, read).nextMid == MidAfter(s.nextMid, |evs|)
    ensures forall k :: 0 <= k < |evs| ==> Warranted(s, uri, read, evs[k], k)
    ensures forall i, j :: 0 <= i < |s.table| && 0 <= j < |s.table[i].watchers| ==>
              Heard(evs, s.table[i].watchers[j].serial) ==
              if Meet(s.table[i].uri, uri) && read(s.table[i].uri).Some? then 1 else 0
    ensures forall x :: Watching(s.table, x) == 0 ==> Heard(evs, x) == 0
    ensures SameWatchers(s.table, Changed(s, uri, read).table)
  {
    ChangeKeeps(s, uri, read);
    hide Meet, Notification, Occurs, Watching, Sound, Warranted, SameWatchers;
    var list := Selected(s.table, uri, |s.table|);
    evs := Rounds(s.servers, s.table, list, s.nextMid, read);
    SelectedExact(s.table, uri, |s.table|);
    NotifyEntriesLog(s, list, read);
    forall k | 0 <= k < |evs|
      ensures Warranted(s, uri, read, evs[k], k)
    {
      SentBySomeone(s, uri, read, k);
    }
    forall i, j | 0 <= i < |s.table| && 0 <= j < |s.table[i].watchers|
      ensures Heard(evs, s.table[i].watchers[j].serial) ==
              if Meet(s.table[i].uri, uri) && read(s.table[i].uri).Some? then 1 else 0
    {
      OwnEntry(s, i, j);
      RoundsHeard(s.servers, s.table, list, s.nextMid, read, s.table[i].watchers[j].serial, i);
    }
    forall x | Watching(s.table, x) == 0
      ensures Heard(evs, x) == 0
    {
      NobodyWatches(s.table, x);
      if s.table != [] {
        RoundsHeard(s.servers, s.table, list, s.nextMid, read, x, 0);
      } else {
        assert list == [];
      }
    }
  }

  /** The same watcher, but for its count and the id it was last sent. */
  predicate SameWatcher(v: Watcher, w: Watcher) {
    v.serial == w.serial && v.server == w.server && v.token == w.token
  }

  ghost predicate SameWatchers(t: Table, u: Table) {
    && |t| == |u|
    && forall i :: 0 <= i < |t| ==>
         && u[i].uri == t[i].uri && |u[i].watchers| == |t[i].watchers|
         && forall j :: 0 <= j < |t[i].watchers| ==> SameWatcher(u[i].watchers[j], t[i].watchers[j])
  }

  lemma {:induction false} EntriesKept(s: State, list: seq<nat>, read: Reader)
    requires forall k :: 0 <= k < |list| ==> list[k] < |s.table|
    ensures SameWatchers(s.table, NotifyEntries(s, list, read).table)
    decreases |list|
  {
    hide Notifications, ToldAll;
    if list != [] {
      ToldAllAt(s.table[list[0]].watchers, s.nextMid);
      EntriesKept(NotifyEntry(s, list[0], read), list[1..], read);
    }
  }

  /** A value change leaves who watches what, for whom and with which token. */
  lemma ChangeKeeps(s: State, uri: Uri, read: Reader)
    ensures SameWatchers(s.table, Changed(s, uri, read).table)
  {
    EntriesKept(s, Selected(s.table, uri, |s.table|), read);
  }

  // ----- message ids -----

  function NotifiedIn(log: seq<Event>): nat {
    if log == [] then 0 else (if log[0].Notified? then 1 else 0) + NotifiedIn(log[1..])
  }

  function Others(inputs: seq<Input>): nat {
    if inputs == [] then 0 else (if inputs[0].OtherMessage? then 1 else 0) + Others(inputs[1..])
  }

  lemma {:induction false} NotifiedAdds(a: seq<Event>, b: seq<Event>)
    ensures NotifiedIn(a + b) == NotifiedIn(a) + NotifiedIn(b)
    decreases |a|
  {
    if a == [] {
      assert a + b == b;
    } else {
      assert (a + b)[1..] == a[1..] + b;
      NotifiedAdds(a[1..], b);
    }
  }

  lemma {:induction false} AllNotified(evs: seq<Event>)
    requires forall k :: 0 <= k < |evs| ==> evs[k].Notified?
    ensures NotifiedIn(evs) == |evs|
    decreases |evs|
  {
    if evs != [] {
      AllNotified(evs[1..]);
    }
  }

  lemma ApplyCountsIds(s: State, i: Input)
    requires Sound(s)
    ensures var t := Apply(s, i);
            && NotifiedIn(s.log) <= NotifiedIn(t.log)
            && t.nextMid == MidAfter(s.nextMid, NotifiedIn(t.log) - NotifiedIn(s.log) + if i.OtherMessage? then 1 else 0)
  {
    hide Sound, NotifiedIn, CancelFrom, Changed, WithObserved, WithWatcher, Warranted;
    match i {
      case Observation(uri, from, token) =>
        var t := Apply(s, i);
        if t.log != s.log {
          var ev := t.log[|s.log|];
          NotifiedAdds(s.log, [ev]);
          NotNotified(ev);
        }
      case Change(uri, read) =>
        var evs := ChangeExact(s, uri, read);
        forall k | 0 <= k < |evs|
          ensures evs[k].Notified?
        {
          WarrantedNotified(s, uri, read, evs[k], k);
        }
        AllNotified(evs);
        NotifiedAdds(s.log, evs);
      case _ =>
    }
  }

  lemma NotNotified(ev: Event)
    requires !ev.Notified?
    ensures NotifiedIn([ev]) == 0
  {
    assert [ev][1..] == [];
  }

  lemma WarrantedNotified(s: State, uri: Uri, read: Reader, ev: Event, k: nat)
    requires Warranted(s, uri, read, ev, k)
    ensures ev.Notified?
  {
    hide Meet, Notification;
  }

  lemma MidNone(mid: u16)
    ensures MidAfter(mid, 0) == mid
  {
  }

  /** In every run, message ids are used one after the other, one for each notification and for each thing else. */
  lemma {:induction false} EveryRunCountsIds(s: State, inputs: seq<Input>)
    requires Sound(s)
    ensures var t := Run(s, inputs);
            && NotifiedIn(s.log) <= NotifiedIn(t.log)
            && t.nextMid == MidAfter(s.nextMid, NotifiedIn(t.log) - NotifiedIn(s.log) + Others(inputs))
    decreases |inputs|
  {
    hide Sound, Apply, NotifiedIn, MidAfter;
    if inputs != [] {
      var r, t := Apply(s, inputs[0]), Run(s, inputs);
      ApplySound(s, inputs[0]);
      ApplyCountsIds(s, inputs[0]);
      EveryRunCountsIds(r, inputs[1..]);
      MidSum(s.nextMid, NotifiedIn(r.log) - NotifiedIn(s.log) + (if inputs[0].OtherMessage? then 1 else 0),
             NotifiedIn(t.log) - NotifiedIn(r.log) + Others(inputs[1..]));
    } else {
      MidNone(s.nextMid);
    }
  }

  lemma OwnEntry(s: State, i: nat, j: nat)
    requires Sound(s) && i < |s.table| && j < |s.table[i].watchers|
    ensures Occurs(s.table[i].watchers, s.table[i].watchers[j].serial) == 1
    ensures forall k :: 0 <= k < |s.table| && k != i ==> Occurs(s.table[k].watchers, s.table[i].watchers[j].serial) == 0
  {
    hide TableOk, AllAccounted, CountsUp, Occurs, Watching;
    OnceHere(s, i, j);
    forall k | 0 <= k < |s.table| && k != i
      ensures Occurs(s.table[k].watchers, s.table[i].watchers[j].serial) == 0
    {
      ElsewhereAbsent(s, i, j, k);
    }
  }

  lemma NobodyWatches(t: Table, x: nat)
    requires Watching(t, x) == 0
    ensures forall k :: 0 <= k < |t| ==> Occurs(t[k].watchers, x) == 0
  {
    forall k | 0 <= k < |t|
      ensures Occurs(t[k].watchers, x) == 0
    {
      WatchingAt(t, k, x);
    }
  }

  // ----- a reset -----

  ghost predicate HitAt(servers: seq<Server>, t: Table, mid: u16, from: Address, i: nat, j: nat) {
    i < |t| && j < |t[i].watchers| && Hit(servers, t[i].watchers[j], mid, from)
  }

  lemma {:induction false} CancelFirst(servers: seq<Server>, t: Table, n: nat, mid: u16, from: Address)
    requires n <= |t|
    ensures (forall i, j :: i >= n ==> !HitAt(servers, t, mid, from, i, j)) ==> CancelFrom(servers, t, n, mid, from) == t
    ensures forall i, j :: i >= n && HitAt(servers, t, mid, from, i, j)
              && (forall k, l :: n <= k && (k < i || (k == i && l < j)) ==> !HitAt(servers, t, mid, from, k, l))
              ==> CancelFrom(servers, t, n, mid, from) == Dropped(t, i, j)
    decreases |t| - n
  {
    hide Dropped, Hit;
    if n < |t| {
      var h := FirstHit(servers, t[n].watchers, mid, from);
      if h < |t[n].watchers| {
        assert HitAt(servers, t, mid, from, n, h);
      } else {
        CancelFirst(servers, t, n + 1, mid, from);
      }
    }
  }

  /** Watcher j of entry i was last sent this id (0 stands for nothing sent so far), and is one of a server at from. */
  ghost predicate SentLast(s: State, mid: u16, from: Address, i: nat, j: nat) {
    && i < |s.table| && j < |s.table[i].watchers|
    && var w := s.table[i].watchers[j];
       LastMid(s.log, w.serial) == mid && w.server < |s.servers| && s.servers[w.server].addr == from
  }

  ghost predicate FirstSentLast(s: State, mid: u16, from: Address, i: nat, j: nat) {
    && SentLast(s, mid, from, i, j)
    && forall k: nat, l: nat :: k < i || (k == i && l < j) ==> !SentLast(s, mid, from, k, l)
  }

  /** r is t without watcher j of entry i: nobody else watches more or less than before. */
  ghost predicate Loses(t: Table, r: Table, i: nat, j: nat) {
    && i < |t| && j < |t[i].watchers|
    && var w := t[i].watchers[j];
       && (forall x: nat :: Watching(r, x) == if x == w.serial then 0 else Watching(t, x))
       && (forall asked: Uri, k: nat ::
             WatcherOf(r, asked, k) == if SameUri(t[i].uri, asked) && k == w.server then None else WatcherOf(t, asked, k))
  }

  lemma HitSentLast(s: State, mid: u16, from: Address, i: nat, j: nat)
    requires Sound(s)
    ensures HitAt(s.servers, s.table, mid, from, i, j) <==> SentLast(s, mid, from, i, j)
  {
    hide LastMid, CountsUp, SerialsOk;
    if i < |s.table| && j < |s.table[i].watchers| {
      assert Accounted(s.table[i].watchers[j], s.log);
    }
  }

  lemma EntryDropped(t: Table, i: nat, servers: seq<Server>, asked: Uri, k: nat)
    requires TableOk(t, servers) && i < |t|
    ensures WatcherOf(t[..i] + t[i + 1..], asked, k) == if SameUri(t[i].uri, asked) then None else WatcherOf(t, asked, k)
  {
    hide SameUri, EntryOk, FirstWatcher;
    var r, m := t[..i] + t[i + 1..], FirstObserved(t, asked);
    assert forall n :: 0 <= n < |r| ==> r[n] == t[if n < i then n else n + 1];
    if SameUri(t[i].uri, asked) {
      forall n | 0 <= n < |r|
        ensures !SameUri(r[n].uri, asked)
      {
        var o := if n < i then n else n + 1;
        SameUriSymmetric(t[i].uri, asked);
        SameUriTransitive(t[o].uri, asked, t[i].uri);
        SameUriSymmetric(t[o].uri, t[i].uri);
      }
      FirstObservedUnique(r, asked, |r|);
    } else {
      FirstObservedUnique(r, asked, if m < i then m else m - 1);
    }
  }

  lemma WatcherDropped(ws: seq<Watcher>, j: nat, k: nat)
    requires j < |ws| && forall m, n :: 0 <= m < n < |ws| ==> ws[m].server != ws[n].server
    ensures WatcherIn(ws[..j] + ws[j + 1..], k) == if k == ws[j].server then None else WatcherIn(ws, k)
  {
    var r, m := ws[..j] + ws[j + 1..], FirstWatcher(ws, k);
    assert forall n :: 0 <= n < |r| ==> r[n] == ws[if n < j then n else n + 1];
    FirstWatcherUnique(r, k, if k == ws[j].server then |r| else if m < j then m else m - 1);
  }

  lemma DroppedWatcher(t: Table, i: nat, j: nat, servers: seq<Server>, asked: Uri, k: nat)
    requires TableOk(t, servers) && i < |t| && j < |t[i].watchers|
    ensures WatcherOf(Dropped(t, i, j), asked, k) ==
            if SameUri(t[i].uri, asked) && k == t[i].watchers[j].server then None else WatcherOf(t, asked, k)
  {
    hide SameUri, FirstWatcher;
    var ws := t[i].watchers[..j] + t[i].watchers[j + 1..];
    assert EntryOk(t[i], servers);
    WatcherDropped(t[i].watchers, j, k);
    if SameUri(t[i].uri, asked) {
      forall n | 0 <= n < i
        ensures !SameUri(t[n].uri, asked)
      {
        SameUriSymmetric(t[i].uri, asked);
        SameUriTransitive(t[n].uri, asked, t[i].uri);
      }
      FirstObservedUnique(t, asked, i);
    }
    if ws == [] {
      EntryDropped(t, i, servers, asked, k);
    } else {
      FirstObservedUnique(t[i := t[i].(watchers := ws)], asked, FirstObserved(t, asked));
    }
  }

  lemma DroppedLoses(s: State, i: nat, j: nat)
    requires Sound(s) && i < |s.table| && j < |s.table[i].watchers|
    ensures Loses(s.table, Dropped(s.table, i, j), i, j)
  {
    hide Dropped, Watching, WatcherOf, SameUri, AllAccounted, CountsUp;
    var w := s.table[i].watchers[j];
    forall x: nat
      ensures Watching(Dropped(s.table, i, j), x) == if x == w.serial then 0 else Watching(s.table, x)
    {
      DroppedWatching(s.table, i, j, x);
      assert Watching(s.table, x) <= if x < s.created then 1 else 0;
    }
    forall asked: Uri, k: nat
      ensures WatcherOf(Dropped(s.table, i, j), asked, k) ==
              if SameUri(s.table[i].uri, asked) && k == w.server then None else WatcherOf(s.table, asked, k)
    {
      DroppedWatcher(s.table, i, j, s.servers, asked, k);
    }
  }

  lemma LosesDiffers(s: State, r: Table, i: nat, j: nat)
    requires Sound(s) && Loses(s.table, r, i, j)
    ensures r != s.table
  {
    hide Watching, WatcherOf, SameUri, AllAccounted, CountsUp, TableOk;
    WatchingAt(s.table, i, s.table[i].watchers[j].serial);
    OccursSome(s.table[i].watchers, j);
  }

  /** There is a first of them whenever there is one. */
  lemma FirstOfThem(s: State, mid: u16, from: Address) returns (i: nat, j: nat)
    ensures FirstSentLast(s, mid, from, i, j) || forall k: nat, l: nat :: !SentLast(s, mid, from, k, l)
  {
    hide LastMid;
    i, j := 0, 0;
    while i < |s.table|
      invariant i <= |s.table| && forall k: nat, l: nat :: k < i ==> !SentLast(s, mid, from, k, l)
    {
      j := 0;
      while j < |s.table[i].watchers|
        invariant j <= |s.table[i].watchers|
        invariant forall k: nat, l: nat :: k < i || (k == i && l < j) ==> !SentLast(s, mid, from, k, l)
      {
        if SentLast(s, mid, from, i, j) {
          return;
        }
        j := j + 1;
      }
      i := i + 1;
    }
  }

  /**
   * In every reachable state, a reset changes the table if and only if some watcher of a server at the sender's address
   * was last sent the id of the reset. It removes the first such watcher, in table order: that one watches no more, and
   * every other watches what it did. Nothing but the table changes.
   */
  lemma ResetExact(s: State, mid: u16, from: Address)
    requires Sound(s)
    ensures var r := Apply(s, Reset(mid, from));
            && r == s.(table := r.table)
            && (r.table != s.table <==> exists i: nat, j: nat :: SentLast(s, mid, from, i, j))
            && forall i: nat, j: nat :: FirstSentLast(s, mid, from, i, j) ==>
                 r.table == Dropped(s.table, i, j) && Loses(s.table, r.table, i, j)
  {
    hide CancelFrom, Dropped, Sound, HitAt, Loses, LastMid;
    CancelFirst(s.servers, s.table, 0, mid, from);
    forall i: nat, j: nat
      ensures HitAt(s.servers, s.table, mid, from, i, j) <==> SentLast(s, mid, from, i, j)
    {
      HitSentLast(s, mid, from, i, j);
    }
    forall i: nat, j: nat | FirstSentLast(s, mid, from, i, j)
      ensures Apply(s, Reset(mid, from)).table == Dropped(s.table, i, j) && Loses(s.table, Dropped(s.table, i, j), i, j)
      ensures Dropped(s.table, i, j) != s.table
    {
      DroppedLoses(s, i, j);
      LosesDiffers(s, Dropped(s.table, i, j), i, j);
    }
    var i, j := FirstOfThem(s, mid, from);
  }

  /**
   * So a reset of a notification removes the watcher the notification was sent to, if no other watcher of a server at
   * that address was last sent the same id (id 0 also stands for a watcher that never got one).
   */
  lemma ResetFindsSender(s: State, mid: u16, i: nat, j: nat)
    requires Sound(s) && i < |s.table| && j < |s.table[i].watchers|
    requires var w := s.table[i].watchers[j]; LastMid(s.log, w.serial) == mid
    requires var from := WatcherAddress(s.servers, s.table[i].watchers[j]);
             forall k: nat, l: nat :: SentLast(s, mid, from, k, l) ==> k == i && l == j
    ensures var r := Apply(s, Reset(mid, WatcherAddress(s.servers, s.table[i].watchers[j]))).table;
            r == Dropped(s.table, i, j) && Loses(s.table, r, i, j)
  {
    hide CancelFrom, Dropped, CountsUp, SerialsOk, Loses;
    var w := s.table[i].watchers[j];
    var from := WatcherAddress(s.servers, w);
    assert EntryOk(s.table[i], s.servers);
    assert SentLast(s, mid, from, i, j);
    ResetExact(s, mid, from);
    assert FirstSentLast(s, mid, from, i, j);
  }
}
