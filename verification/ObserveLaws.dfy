/** The invariant every run keeps, and what exactly a value change and a reset do to a table that satisfies it. */
module ObserveLaws {
  import opened Bytes
  import opened CoapPacket
  import opened Uri
  import opened Observe
  import opened ObserveRuns

  /** The id of the last notification to watcher x, m if there was none. */
  function LastMidFrom(log: seq<Event>, x: nat, m: u16): u16 {
    if log == [] then m
    else LastMidFrom(log[1..], x, if log[0].Notified? && log[0].serial == x then log[0].message.mid else m)
  }

  function LastMid(log: seq<Event>, x: nat): u16 {
    LastMidFrom(log, x, 0)
  }

  lemma {:induction false} LastMidAdds(a: seq<Event>, b: seq<Event>, x: nat, m: u16)
    ensures LastMidFrom(a + b, x, m) == LastMidFrom(b, x, LastMidFrom(a, x, m))
  {
    if a == [] {
      assert a + b == b;
    } else {
      assert (a + b)[1..] == a[1..] + b;
      LastMidAdds(a[1..], b, x, if a[0].Notified? && a[0].serial == x then a[0].message.mid else m);
    }
  }

  /** A watcher's fields as the log accounts for them. */
  ghost predicate Accounted(w: Watcher, log: seq<Event>) {
    && w.counter == |Issued(log, w.serial)| % 0x1_0000_0000
    && w.lastMid == LastMid(log, w.serial)
  }

  ghost predicate AllAccounted(t: Table, log: seq<Event>) {
    forall i, j :: 0 <= i < |t| && 0 <= j < |t[i].watchers| ==> Accounted(t[i].watchers[j], log)
  }

  /** Serials are given to one watcher each, in order. */
  ghost predicate SerialsOk(t: Table, log: seq<Event>, created: nat) {
    && (forall x: nat {:trigger Watching(t, x)} :: Watching(t, x) <= if x < created then 1 else 0)
    && (forall x: nat {:trigger Issued(log, x)} :: x >= created ==> Issued(log, x) == [] && LastMid(log, x) == 0)
  }

  /** Whoever watches, or once did, was given 0, 1, 2, ... and nothing else. */
  ghost predicate CountsUp(log: seq<Event>) {
    forall x: nat {:trigger Issued(log, x)} :: Issued(log, x) == Counting(|Issued(log, x)|)
  }

  ghost predicate Sound(s: State) {
    TableOk(s.table, s.servers) && SerialsOk(s.table, s.log, s.created) && AllAccounted(s.table, s.log) && CountsUp(s.log)
  }

  // ----- a watcher's place in the table -----

  lemma OccursSome(ws: seq<Watcher>, j: nat)
    requires j < |ws|
    ensures Occurs(ws, ws[j].serial) >= 1
  {
    OccursAt(ws, j, ws[j].serial);
  }

  lemma {:induction false} OccursIndex(ws: seq<Watcher>, x: nat) returns (j: nat)
    requires Occurs(ws, x) > 0
    ensures j < |ws| && ws[j].serial == x
  {
    if ws[0].serial == x {
      j := 0;
    } else {
      j := OccursIndex(ws[1..], x);
      j := j + 1;
    }
  }

  /** A watcher of one entry is not in any other. */
  lemma ElsewhereAbsent(s: State, i: nat, j: nat, k: nat)
    requires SerialsOk(s.table, s.log, s.created) && i < |s.table| && j < |s.table[i].watchers| && k < |s.table| && k != i
    ensures Occurs(s.table[k].watchers, s.table[i].watchers[j].serial) == 0
    ensures Occurs(s.table[i].watchers, s.table[i].watchers[j].serial) == 1
    ensures s.table[i].watchers[j].serial < s.created
  {
    var t, x := s.table, s.table[i].watchers[j].serial;
    OccursSome(t[i].watchers, j);
    WatchingAt(t, i, x);
    var rest := t[..i] + t[i + 1..];
    var m := if k < i then k else k - 1;
    assert rest[m] == t[k];
    WatchingAt(rest, m, x);
    assert Watching(t, x) <= 1;
  }

  lemma OnceHere(s: State, i: nat, j: nat)
    requires SerialsOk(s.table, s.log, s.created) && i < |s.table| && j < |s.table[i].watchers|
    ensures Occurs(s.table[i].watchers, s.table[i].watchers[j].serial) == 1
    ensures s.table[i].watchers[j].serial < s.created
  {
    var t, x := s.table, s.table[i].watchers[j].serial;
    OccursSome(t[i].watchers, j);
    WatchingAt(t, i, x);
    assert Watching(t, x) <= if x < s.created then 1 else 0;
  }

  // ----- a notification round over one entry -----

  lemma {:induction false} NotificationsMids(servers: seq<Server>, ws: seq<Watcher>, mid: u16, payload: seq<byte>, x: nat, m: u16)
    ensures Occurs(ws, x) == 0 ==> LastMidFrom(Notifications(servers, ws, mid, payload), x, m) == m
    ensures forall j :: 0 <= j < |ws| && ws[j].serial == x && Occurs(ws, x) == 1 ==>
              LastMidFrom(Notifications(servers, ws, mid, payload), x, m) == MidAfter(mid, j)
  {
    if ws != [] {
      var rest := ws[1..];
      assert Notification(ws[0], mid, payload).mid == mid;
      NotificationsMids(servers, rest, MidAfter(mid, 1), payload, x, if ws[0].serial == x then mid else m);
      assert forall j :: 0 < j < |ws| ==> ws[j] == rest[j - 1];
      forall j | 0 <= j < |rest| && rest[j].serial == x
        ensures Occurs(rest, x) >= 1 && MidAfter(MidAfter(mid, 1), j) == MidAfter(mid, j + 1)
      {
        OccursAt(rest, j, x);
        MidAdds(mid, j);
      }
    }
  }

  lemma CounterWraps(n: nat)
    ensures (n % 0x1_0000_0000) % 0x100_0000 == n % 0x100_0000
    ensures (n % 0x1_0000_0000 + 1) % 0x1_0000_0000 == (n + 1) % 0x1_0000_0000
  {
    var q, r := n / 0x1_0000_0000, n % 0x1_0000_0000;
    assert n == q * 0x100 * 0x100_0000 + r;
  }

  lemma CountingStep(n: nat)
    ensures Counting(n + 1) == Counting(n) + [n % 0x100_0000]
  {
  }

  /** The log after a round accounts for each watcher of the entry once more, and for all others as before. */
  lemma RoundLog(s: State, i: nat, payload: seq<byte>, x: nat)
    requires Sound(s) && i < |s.table|
    ensures var ws, log := s.table[i].watchers, s.log + Notifications(s.servers, s.table[i].watchers, s.nextMid, payload);
            && (Occurs(ws, x) == 0 ==> Issued(log, x) == Issued(s.log, x) && LastMid(log, x) == LastMid(s.log, x))
            && (forall j :: 0 <= j < |ws| && ws[j].serial == x ==>
                  Accounted(Told(ws[j], MidAfter(s.nextMid, j)), log) && Issued(log, x) == Counting(|Issued(log, x)|))
  {
    hide TableOk, Counting, Notifications, Issued, LastMidFrom;
    var ws := s.table[i].watchers;
    var evs := Notifications(s.servers, ws, s.nextMid, payload);
    IssuedAdds(s.log, evs, x);
    LastMidAdds(s.log, evs, x, 0);
    NotificationsIssue(s.servers, ws, s.nextMid, payload, x);
    NotificationsMids(s.servers, ws, s.nextMid, payload, x, LastMid(s.log, x));
    assert Issued(s.log, x) + [] == Issued(s.log, x);
    forall j | 0 <= j < |ws| && ws[j].serial == x
      ensures Accounted(Told(ws[j], MidAfter(s.nextMid, j)), s.log + evs)
      ensures Issued(s.log + evs, x) == Counting(|Issued(s.log + evs, x)|)
    {
      OnceHere(s, i, j);
      assert Accounted(ws[j], s.log);
      var n := |Issued(s.log, x)|;
      CounterWraps(n);
      CountingStep(n);
    }
  }

  lemma RoundSound(s: State, i: nat, payload: seq<byte>, r: State)
    requires Sound(s) && i < |s.table|
    requires r.table == s.table[i := s.table[i].(watchers := ToldAll(s.table[i].watchers, s.nextMid))]
    requires r.log == s.log + Notifications(s.servers, s.table[i].watchers, s.nextMid, payload)
    requires r.created == s.created
    ensures SerialsOk(r.table, r.log, r.created) && AllAccounted(r.table, r.log) && CountsUp(r.log)
  {
    hide TableOk, Counting, Notifications, Issued, LastMid, Accounted, Watching, Occurs, ToldAll, Told;
    var ws := s.table[i].watchers;
    ToldAllAt(ws, s.nextMid);
    forall x: nat
      ensures Watching(r.table, x) == Watching(s.table, x)
      ensures x >= s.created ==> Issued(r.log, x) == [] && LastMid(r.log, x) == 0
      ensures Issued(r.log, x) == Counting(|Issued(r.log, x)|)
    {
      ToldAllOccurs(ws, s.nextMid, x);
      WatchingReplaced(s.table, i, ToldAll(ws, s.nextMid), x);
      RoundLog(s, i, payload, x);
      assert Issued(s.log, x) == Counting(|Issued(s.log, x)|);
      if Occurs(ws, x) > 0 {
        var j := OccursIndex(ws, x);
        OnceHere(s, i, j);
      }
    }
    forall k, j | 0 <= k < |r.table| && 0 <= j < |r.table[k].watchers|
      ensures Accounted(r.table[k].watchers[j], r.log)
    {
      var x := s.table[k].watchers[j].serial;
      RoundLog(s, i, payload, x);
      if k != i {
        ElsewhereAbsent(s, k, j, i);
        AccountedSame(s.table[k].watchers[j], s.log, r.log);
      }
    }
  }

  lemma AccountedSame(w: Watcher, log: seq<Event>, more: seq<Event>)
    requires Accounted(w, log) && Issued(more, w.serial) == Issued(log, w.serial)
    requires LastMid(more, w.serial) == LastMid(log, w.serial)
    ensures Accounted(w, more)
  {
  }

  lemma NotifyEntrySound(s: State, i: nat, read: Reader)
    requires Sound(s) && i < |s.table|
    ensures Sound(NotifyEntry(s, i, read)) && |NotifyEntry(s, i, read).table| == |s.table|
  {
    hide TableOk, SerialsOk, AllAccounted, CountsUp;
    NotifyEntryTable(s, i, read);
    match read(s.table[i].uri) {
      case None =>
      case Some(payload) => RoundSound(s, i, payload, NotifyEntry(s, i, read));
    }
  }

  lemma {:induction false} NotifyEntriesSound(s: State, list: seq<nat>, read: Reader)
    requires Sound(s) && forall k :: 0 <= k < |list| ==> list[k] < |s.table|
    ensures Sound(NotifyEntries(s, list, read))
    decreases |list|
  {
    hide Sound, NotifyEntry;
    if list != [] {
      NotifyEntrySound(s, list[0], read);
      NotifyEntriesSound(NotifyEntry(s, list[0], read), list[1..], read);
    }
  }

  // ----- a request -----

  /** The log after the answer to a request, seen from any serial. */
  lemma ConfirmedLog(s: State, w: Watcher, x: nat)
    ensures var log := s.log + [Confirmed(w.serial, ObserveValue(w.counter))];
            && Issued(log, x) == Issued(s.log, x) + (if w.serial == x then [ObserveValue(w.counter)] else [])
            && LastMid(log, x) == LastMid(s.log, x)
  {
    var ev := Confirmed(w.serial, ObserveValue(w.counter));
    IssuedAdds(s.log, [ev], x);
    LastMidAdds(s.log, [ev], x, 0);
    OneOf(Observed(NO_URI, []), w, ev, x);
    var log: seq<Event> := [ev];
    assert log[1..] == [];
  }

  lemma BumpAccounted(w: Watcher, s: State)
    requires Accounted(w, s.log) && CountsUp(s.log)
    ensures var log := s.log + [Confirmed(w.serial, ObserveValue(w.counter))];
            Accounted(Bumped(w), log) && Issued(log, w.serial) == Counting(|Issued(log, w.serial)|)
  {
    hide Counting, LastMid, Issued;
    ConfirmedLog(s, w, w.serial);
    CounterWraps(|Issued(s.log, w.serial)|);
    CountingStep(|Issued(s.log, w.serial)|);
    assert Issued(s.log, w.serial) == Counting(|Issued(s.log, w.serial)|);
  }

  /** The table with the requesting watcher in it, before its value is counted. */
  ghost predicate Prepared(s: State, uri: Uri, server: nat, token: seq<byte>, t: Table, i: nat, ws: seq<Watcher>, r: Table) {
    && t == WithObserved(s.table, uri).0 && i == WithObserved(s.table, uri).1
    && ws == WithWatcher(t[i].watchers, server, token, s.created).0
    && r == t[i := t[i].(watchers := ws)]
  }

  lemma RequestSerials(s: State, uri: Uri, server: nat, token: seq<byte>, t: Table, i: nat, ws: seq<Watcher>, r: Table)
    requires Sound(s) && Prepared(s, uri, server, token, t, i, ws, r)
    ensures SerialsOk(r, s.log, s.created + 1)
  {
    hide TableOk, CountsUp, AllAccounted, Watching, Occurs, LastMid, Issued, WithWatcher;
    forall x: nat
      ensures Watching(r, x) <= if x < s.created + 1 then 1 else 0
    {
      WatchingReplaced(t, i, ws, x);
      AddedOccurs(t[i].watchers, server, token, s.created, x);
      AddedWatching(s.table, uri, x);
      assert Watching(s.table, x) <= if x < s.created then 1 else 0;
    }
  }

  /** A watcher of the prepared table is the new one or was there before. */
  lemma PreparedOrigin(s: State, uri: Uri, server: nat, token: seq<byte>, t: Table, i: nat, ws: seq<Watcher>, r: Table,
                       k: nat, l: nat)
    requires Prepared(s, uri, server, token, t, i, ws, r) && k < |r| && l < |r[k].watchers|
    ensures r[k].watchers[l] == Watcher(s.created, server, token, 0, 0) ||
            exists a, b :: 0 <= a < |s.table| && 0 <= b < |s.table[a].watchers| && s.table[a].watchers[b] == r[k].watchers[l]
  {
    var front := FirstObserved(s.table, uri) == |s.table|;
    var added := FirstWatcher(t[i].watchers, server) == |t[i].watchers|;
    if !(k == i && added && l == 0) {
      var a := if front then k - 1 else k;
      var b := if k == i && added then l - 1 else l;
      assert s.table[a].watchers[b] == r[k].watchers[l];
    }
  }

  lemma RequestAccounted(s: State, uri: Uri, server: nat, token: seq<byte>, t: Table, i: nat, ws: seq<Watcher>, r: Table)
    requires Sound(s) && Prepared(s, uri, server, token, t, i, ws, r)
    ensures AllAccounted(r, s.log)
  {
    hide TableOk, CountsUp, Accounted, Prepared, SerialsOk;
    FreshAccounted(s, server, token);
    forall k, l | 0 <= k < |r| && 0 <= l < |r[k].watchers|
      ensures Accounted(r[k].watchers[l], s.log)
    {
      PreparedOrigin(s, uri, server, token, t, i, ws, r, k, l);
    }
  }

  lemma FreshAccounted(s: State, server: nat, token: seq<byte>)
    requires SerialsOk(s.table, s.log, s.created)
    ensures Accounted(Watcher(s.created, server, token, 0, 0), s.log)
  {
    assert Issued(s.log, s.created) == [];
  }

  lemma AddedOccurs(ws: seq<Watcher>, server: nat, token: seq<byte>, serial: nat, x: nat)
    ensures Occurs(WithWatcher(ws, server, token, serial).0, x) <= Occurs(ws, x) + (if x == serial then 1 else 0)
  {
    var w := Watcher(serial, server, token, 0, 0);
    OccursAdds([w], ws, x);
    OneOf(Observed(NO_URI, []), w, Confirmed(0, 0), x);
  }

  lemma AddedWatching(t: Table, uri: Uri, x: nat)
    ensures Watching([Observed(uri, [])] + t, x) == Watching(t, x)
  {
    WatchingAdds([Observed(uri, [])], t, x);
    OneOf(Observed(uri, []), Watcher(0, 0, [], 0, 0), Confirmed(0, 0), x);
  }

  lemma OnceInEntry(ws: seq<Watcher>, j: nat, l: nat)
    requires j < |ws| && l < |ws| && j != l
    ensures ws[j].serial == ws[l].serial ==> Occurs(ws, ws[j].serial) >= 2
  {
    var rest := ws[..j] + ws[j + 1..];
    OccursAt(ws, j, ws[j].serial);
    var m := if l < j then l else l - 1;
    assert rest[m] == ws[l];
    OccursSome(rest, m);
  }

  /** Counting one more value for watcher j of entry i, of a table that is accounted for. */
  lemma BumpSound(m: State, i: nat, j: nat, r: State)
    requires SerialsOk(m.table, m.log, m.created) && AllAccounted(m.table, m.log) && CountsUp(m.log)
    requires i < |m.table| && j < |m.table[i].watchers|
    requires var w := m.table[i].watchers[j];
             && r.table == m.table[i := m.table[i].(watchers := m.table[i].watchers[j := Bumped(w)])]
             && r.log == m.log + [Confirmed(w.serial, ObserveValue(w.counter))] && r.created == m.created
    ensures SerialsOk(r.table, r.log, r.created) && AllAccounted(r.table, r.log) && CountsUp(r.log)
  {
    hide Counting, Issued, LastMid, Accounted, Watching, Occurs;
    var w, ws := m.table[i].watchers[j], m.table[i].watchers;
    BumpAccounted(w, m);
    OnceHere(m, i, j);
    forall x: nat
      ensures Watching(r.table, x) == Watching(m.table, x)
      ensures x >= m.created ==> Issued(r.log, x) == [] && LastMid(r.log, x) == 0
      ensures Issued(r.log, x) == Counting(|Issued(r.log, x)|)
    {
      OccursReplaced(ws, j, Bumped(w), x);
      WatchingReplaced(m.table, i, ws[j := Bumped(w)], x);
      ConfirmedLog(m, w, x);
      assert Issued(m.log, x) + [] == Issued(m.log, x) == Counting(|Issued(m.log, x)|);
    }
    forall k, l | 0 <= k < |r.table| && 0 <= l < |r.table[k].watchers|
      ensures Accounted(r.table[k].watchers[l], r.log)
    {
      if k != i || l != j {
        var v := m.table[k].watchers[l];
        if k != i {
          ElsewhereAbsent(m, k, l, i);
          OccursSome(ws, j);
        } else {
          OnceInEntry(ws, j, l);
        }
        ConfirmedLog(m, w, v.serial);
        assert Issued(m.log, v.serial) + [] == Issued(m.log, v.serial);
        AccountedSame(v, m.log, r.log);
      }
    }
  }

  lemma RequestSound(s: State, uri: Uri, from: Address, token: seq<byte>)
    requires Sound(s)
    ensures Sound(Request(s, uri, from, token).state)
  {
    hide TableOk, SerialsOk, AllAccounted, CountsUp, SameUri, WithObserved, WithWatcher;
    RequestTable(s, uri, from, token);
    if Request(s, uri, from, token).status == CONTENT_2_05 {
      var server := FirstServer(s.servers, from);
      var (t, i) := WithObserved(s.table, uri);
      var (ws, j) := WithWatcher(t[i].watchers, server, token, s.created);
      var r := t[i := t[i].(watchers := ws)];
      RequestSerials(s, uri, server, token, t, i, ws, r);
      RequestAccounted(s, uri, server, token, t, i, ws, r);
      BumpSound(s.(table := r, created := s.created + 1), i, j, Request(s, uri, from, token).state);
    }
  }

  // ----- a reset -----

  lemma DroppedWatching(t: Table, i: nat, j: nat, x: nat)
    requires i < |t| && j < |t[i].watchers|
    ensures Watching(Dropped(t, i, j), x) + (if x == t[i].watchers[j].serial then 1 else 0) == Watching(t, x)
  {
    hide Watching, Occurs;
    var ws := t[i].watchers[..j] + t[i].watchers[j + 1..];
    OccursAt(t[i].watchers, j, x);
    WatchingAt(t, i, x);
    WatchingReplaced(t, i, ws, x);
    if ws == [] {
      NoneOccur(x);
    }
  }

  lemma NoneOccur(x: nat)
    ensures Occurs([], x) == 0
  {
  }

  lemma DroppedAccounted(t: Table, i: nat, j: nat, log: seq<Event>)
    requires AllAccounted(t, log) && i < |t| && j < |t[i].watchers|
    ensures AllAccounted(Dropped(t, i, j), log)
  {
    hide Accounted;
    var r := Dropped(t, i, j);
    var last := |t[i].watchers| == 1;
    forall k, l | 0 <= k < |r| && 0 <= l < |r[k].watchers|
      ensures Accounted(r[k].watchers[l], log)
    {
      var a := if last && k >= i then k + 1 else k;
      var b := if !last && k == i && l >= j then l + 1 else l;
      assert r[k].watchers[l] == t[a].watchers[b];
    }
  }

  lemma DroppedSerials(t: Table, log: seq<Event>, created: nat, i: nat, j: nat)
    requires SerialsOk(t, log, created) && i < |t| && j < |t[i].watchers|
    ensures SerialsOk(Dropped(t, i, j), log, created)
  {
    var r := Dropped(t, i, j);
    forall x: nat
      ensures Watching(r, x) <= if x < created then 1 else 0
    {
      DroppedWatching(t, i, j, x);
      assert Watching(t, x) <= if x < created then 1 else 0;
    }
  }

  lemma DroppedSound(s: State, i: nat, j: nat)
    requires Sound(s) && i < |s.table| && j < |s.table[i].watchers|
    ensures Sound(s.(table := Dropped(s.table, i, j)))
  {
    hide TableOk, CountsUp, AllAccounted, SerialsOk, Dropped;
    DroppedTable(s.table, i, j, s.servers);
    DroppedAccounted(s.table, i, j, s.log);
    DroppedSerials(s.table, s.log, s.created, i, j);
  }

  lemma {:induction false} CancelSound(s: State, i: nat, mid: u16, from: Address)
    requires Sound(s)
    ensures Sound(s.(table := CancelFrom(s.servers, s.table, i, mid, from)))
    decreases |s.table| - i
  {
    hide Sound, Dropped;
    if i < |s.table| {
      var j := FirstHit(s.servers, s.table[i].watchers, mid, from);
      if j < |s.table[i].watchers| {
        DroppedSound(s, i, j);
      } else {
        CancelSound(s, i + 1, mid, from);
      }
    }
  }

  // ----- every run -----

  lemma ServersChanged(s: State, servers: seq<Server>)
    requires Sound(s) && |servers| == |s.servers|
    ensures Sound(s.(servers := servers))
  {
    hide SerialsOk, AllAccounted, CountsUp;
    assert forall i :: 0 <= i < |s.table| ==> EntryOk(s.table[i], s.servers) ==> EntryOk(s.table[i], servers);
  }

  lemma MidChanged(s: State, mid: u16)
    requires Sound(s)
    ensures Sound(s.(nextMid := mid))
  {
    hide TableOk, SerialsOk, AllAccounted, CountsUp;
  }

  lemma ApplySound(s: State, i: Input)
    requires Sound(s)
    ensures Sound(Apply(s, i))
  {
    hide Sound, Request, Changed, CancelFrom;
    match i {
      case Observation(uri, from, token) => RequestSound(s, uri, from, token);
      case Reset(mid, from) => CancelSound(s, 0, mid, from);
      case Change(uri, read) =>
        NotifyEntriesSound(s, Selected(s.table, uri, |s.table|), read);
        ChangedApplies(s, uri, read);
      case Registering(k, r) =>
        if k < |s.servers| {
          ServersChanged(s, s.servers[k := s.servers[k].(registered := r)]);
        }
      case OtherMessage => MidChanged(s, MidAfter(s.nextMid, 1));
    }
  }

  lemma ChangedApplies(s: State, uri: Uri, read: Reader)
    ensures Changed(s, uri, read) == NotifyEntries(s, Selected(s.table, uri, |s.table|), read)
  {
  }

  /**
   * Over any run of requests, resets, value changes and registrations: no URI is listed twice, every entry
   * has a watcher, no server watches a URI twice, and whoever watches was given the Observe values
   * 0, 1, 2, ... modulo 2 to the 24, the answer to its request included.
   */
  lemma {:induction false} EveryRunSound(s: State, inputs: seq<Input>)
    requires Sound(s)
    ensures Sound(Run(s, inputs))
    decreases |inputs|
  {
    hide Sound, Apply;
    if inputs != [] {
      ApplySound(s, inputs[0]);
      EveryRunSound(Apply(s, inputs[0]), inputs[1..]);
    }
  }

  lemma StartSound(servers: seq<Server>, mid: u16)
    ensures Sound(Start(servers, mid))
  {
    hide Issued, LastMid, Counting, Watching;
    forall x: nat
      ensures Issued([], x) == [] == Counting(|Issued([], x)|) && LastMid([], x) == 0 && Watching([], x) == 0
    {
      NothingYet(x);
    }
  }

  lemma NothingYet(x: nat)
    ensures Issued([], x) == [] == Counting(0) && LastMid([], x) == 0 && Watching([], x) == 0
  {
  }
}
