/** What a request to observe changes, and what it is answered, said over the watcher each server has on each URI. */
module ObserveRequests {
  import opened Bytes
  import opened CoapPacket
  import opened Uri
  import opened Observe
  import opened ObserveRuns

  function WatcherIn(ws: seq<Watcher>, server: nat): Option<Watcher> {
    var j := FirstWatcher(ws, server);
    if j < |ws| then Some(ws[j]) else None
  }

  /** The watcher a server has on a URI. */
  function WatcherOf(t: Table, uri: Uri, server: nat): Option<Watcher> {
    var i := FirstObserved(t, uri);
    if i < |t| then WatcherIn(t[i].watchers, server) else None
  }

  lemma FirstObservedUnique(t: Table, uri: Uri, i: nat)
    requires i <= |t| && (i < |t| ==> SameUri(t[i].uri, uri)) && forall j :: 0 <= j < i ==> !SameUri(t[j].uri, uri)
    ensures FirstObserved(t, uri) == i
  {
    var k := FirstObserved(t, uri);
    assert !(k < i) && !(i < k);
  }

  lemma FirstWatcherUnique(ws: seq<Watcher>, server: nat, i: nat)
    requires i <= |ws| && (i < |ws| ==> ws[i].server == server) && forall j :: 0 <= j < i ==> ws[j].server != server
    ensures FirstWatcher(ws, server) == i
  {
    var k := FirstWatcher(ws, server);
    assert !(k < i) && !(i < k);
  }

  /** The list a request leaves: the server's own watcher has counted on or is new, every other is as it was. */
  lemma WatcherBumped(ws: seq<Watcher>, server: nat, token: seq<byte>, serial: nat, k: nat)
    ensures var (r, j) := WithWatcher(ws, server, token, serial);
            WatcherIn(r[j := Bumped(r[j])], k) ==
            if k != server then WatcherIn(ws, k)
            else if WatcherIn(ws, server).Some? then Some(Bumped(WatcherIn(ws, server).value))
            else Some(Watcher(serial, server, token, 1, 0))
  {
    var (r, j) := WithWatcher(ws, server, token, serial);
    var w, m := r[j := Bumped(r[j])], FirstWatcher(ws, k);
    if FirstWatcher(ws, server) < |ws| {
      FirstWatcherUnique(w, k, m);
    } else {
      assert forall i :: 0 < i < |w| ==> w[i] == ws[i - 1];
      FirstWatcherUnique(w, k, if k == server then 0 else m + 1);
    }
  }

  lemma SameUriTransitive(u: Uri, v: Uri, w: Uri)
    ensures SameUri(u, v) && SameUri(v, w) ==> SameUri(u, w)
    ensures SameUri(u, v) ==> (SameUri(u, w) <==> SameUri(v, w))
  {
  }

  /** Replacing the watchers of the entry for uri, put in front if there was none, changes what is asked of uri only. */
  lemma EntryReplaced(t: Table, uri: Uri, ws: seq<Watcher>, asked: Uri, server: nat)
    ensures var (r, i) := WithObserved(t, uri);
            WatcherOf(r[i := r[i].(watchers := ws)], asked, server) ==
            if SameUri(uri, asked) then WatcherIn(ws, server) else WatcherOf(t, asked, server)
  {
    hide FirstWatcher, SameUri;
    var (r, i) := WithObserved(t, uri);
    var u, m, k := r[i := r[i].(watchers := ws)], FirstObserved(t, asked), FirstObserved(t, uri);
    if k < |t| {
      FirstObservedUnique(u, asked, m);
      SameUriTransitive(t[k].uri, uri, asked);
      if SameUri(uri, asked) {
        forall j | 0 <= j < k
          ensures !SameUri(t[j].uri, asked)
        {
          SameUriSymmetric(uri, asked);
          SameUriTransitive(t[j].uri, asked, uri);
        }
        FirstObservedUnique(t, asked, k);
      }
    } else {
      assert forall j :: 0 < j < |u| ==> u[j] == t[j - 1];
      FirstObservedUnique(u, asked, if SameUri(uri, asked) then 0 else m + 1);
    }
  }

  lemma NoneYet(t: Table, uri: Uri, server: nat)
    ensures var (r, i) := WithObserved(t, uri); WatcherIn(r[i].watchers, server) == WatcherOf(t, uri, server)
  {
  }

  /**
   * A request is accepted exactly when it names no resource without an instance, has a token, and its sender is taken
   * for a registered server. That server's watcher on that URI then counts one on, or is made with the token of the
   * request; no watcher of another server or on another URI changes; the answer carries the count from before. A
   * watcher that was there keeps its old token.
   */
  lemma RequestExact(s: State, uri: Uri, from: Address, token: seq<byte>, asked: Uri, k: nat)
    ensures var r, server := Request(s, uri, from, token), FirstServer(s.servers, from);
            && (r.status == CONTENT_2_05 <==>
                  && (uri.hasResource ==> uri.hasInstance) && token != []
                  && server < |s.servers| && s.servers[server].registered)
            && (r.status != CONTENT_2_05 ==>
                  r.state == s && r.status == if (uri.hasResource ==> uri.hasInstance) && token != [] then UNAUTHORIZED_4_01
                                              else BAD_REQUEST_4_00)
            && (r.status == CONTENT_2_05 ==>
                  var before := WatcherOf(s.table, uri, server);
                  var w := if before.Some? then before.value else Watcher(s.created, server, token, 0, 0);
                  && r.state == s.(table := r.state.table, created := s.created + 1,
                                   log := s.log + [Confirmed(w.serial, ObserveValue(w.counter))])
                  && WatcherOf(r.state.table, asked, k) ==
                     if SameUri(uri, asked) && k == server then Some(Bumped(w)) else WatcherOf(s.table, asked, k))
  {
    hide SameUri, WatcherOf, WatcherIn, WithObserved, WithWatcher, ObserveValue;
    var r, server := Request(s, uri, from, token), FirstServer(s.servers, from);
    if r.status == CONTENT_2_05 {
      var (t, i) := WithObserved(s.table, uri);
      var (ws, j) := WithWatcher(t[i].watchers, server, token, s.created);
      WatcherBumped(t[i].watchers, server, token, s.created, k);
      WatcherGiven(t[i].watchers, server, token, s.created);
      EntryReplaced(s.table, uri, ws[j := Bumped(ws[j])], asked, k);
      NoneYet(s.table, uri, server);
      NoneYet(s.table, uri, k);
      SameAnswer(s.table, uri, asked, k);
    }
  }

  lemma WatcherGiven(ws: seq<Watcher>, server: nat, token: seq<byte>, serial: nat)
    ensures var (r, j) := WithWatcher(ws, server, token, serial);
            r[j] == if WatcherIn(ws, server).Some? then WatcherIn(ws, server).value else Watcher(serial, server, token, 0, 0)
  {
  }

  /** Asking for the same URI in other words finds the same watcher. */
  lemma SameAnswer(t: Table, uri: Uri, asked: Uri, k: nat)
    ensures SameUri(uri, asked) ==> WatcherOf(t, uri, k) == WatcherOf(t, asked, k)
  {
    if SameUri(uri, asked) {
      var i := FirstObserved(t, uri);
      hide SameUri;
      SameUriSymmetric(uri, asked);
      forall j | 0 <= j <= i && j < |t|
        ensures SameUri(t[j].uri, asked) <==> SameUri(t[j].uri, uri)
      {
        SameUriTransitive(t[j].uri, uri, asked);
        SameUriTransitive(t[j].uri, asked, uri);
      }
      FirstObservedUnique(t, asked, i);
    }
  }

  // ----- whose watcher that is -----

  /** Some server has the sender's address, and none in front of it is taken for the sender. */
  ghost predicate Recognized(servers: seq<Server>, from: Address) {
    exists k :: 0 <= k < |servers| && servers[k].addr == from && forall j :: 0 <= j < k ==> !TakenFor(servers[j], from)
  }

  /** The server found is the one that asked if and only if that one comes before all that are taken for it. */
  lemma ServerFound(servers: seq<Server>, from: Address)
    ensures var i := FirstServer(servers, from);
            (i < |servers| && servers[i].addr == from) <==> Recognized(servers, from)
  {
    var i := FirstServer(servers, from);
    if Recognized(servers, from) {
      var k :| 0 <= k < |servers| && servers[k].addr == from && forall j :: 0 <= j < k ==> !TakenFor(servers[j], from);
      assert TakenFor(servers[k], from);
      assert !(i < k) && !(k < i);
    }
  }

  /**
   * An accepted request leaves the sender with a watcher of its own on the URI, at whose server's address
   * notifications will reach it, if and only if the sender was recognized; otherwise the watcher that counts on is
   * that of a server at another address.
   */
  lemma AcceptedForSender(s: State, uri: Uri, from: Address, token: seq<byte>)
    requires Request(s, uri, from, token).status == CONTENT_2_05
    ensures var server, t := FirstServer(s.servers, from), Request(s, uri, from, token).state.table;
            && server < |s.servers| && WatcherOf(t, uri, server).Some?
            && WatcherOf(t, uri, server).value.server == server
            && (WatcherAddress(s.servers, WatcherOf(t, uri, server).value) == from <==> Recognized(s.servers, from))
            && forall k :: k != server ==> WatcherOf(t, uri, k) == WatcherOf(s.table, uri, k)
  {
    hide Request, WatcherOf, Recognized;
    var server := FirstServer(s.servers, from);
    RequestExact(s, uri, from, token, uri, server);
    ServerFound(s.servers, from);
    forall k | k != server
      ensures WatcherOf(Request(s, uri, from, token).state.table, uri, k) == WatcherOf(s.table, uri, k)
    {
      RequestExact(s, uri, from, token, uri, k);
    }
    SameUriReflexive(uri);
    WatcherServer(Request(s, uri, from, token).state.table, uri, server);
  }

  lemma SameUriReflexive(uri: Uri)
    ensures SameUri(uri, uri)
  {
  }

  lemma WatcherServer(t: Table, uri: Uri, server: nat)
    ensures WatcherOf(t, uri, server).Some? ==> WatcherOf(t, uri, server).value.server == server
  {
  }

  /** A URI that may be observed, at a server that is registered. */
  predicate Observable(uri: Uri, token: seq<byte>) {
    (uri.hasResource ==> uri.hasInstance) && token != []
  }

  /**
   * The lookup fails with two registered servers whose addresses have the same length, as all IPv4 addresses have:
   * what the second asks for is watched for the first, with the second's token, and goes to the first's address.
   */
  lemma WatchedForAnother(a: Address, b: Address, uri: Uri, token: seq<byte>, mid: u16, read: Reader)
    requires |a| == |b| && a != b && Observable(uri, token) && read(uri).Some?
    ensures var s := Start([Server(a, true), Server(b, true)], mid);
            var r := Request(s, uri, b, token);
            var w := Watcher(0, 0, token, 1, 0);
            && r.status == CONTENT_2_05 && r.state.table == [Observed(uri, [w])]
            && Changed(r.state, uri, read).log == r.state.log + [Notified(0, a, Notification(w, mid, read(uri).value))]
  {
    var servers := [Server(a, true), Server(b, true)];
    var s := Start(servers, mid);
    var r := Request(s, uri, b, token);
    assert TakenFor(servers[0], b) && FirstServer(servers, b) == 0;
    FirstRequest(s, uri, b, token);
    ChangeForOne(r.state, uri, Watcher(0, 0, token, 1, 0), read);
  }

  /** It fails as well with one registered server and a sender that is none but has an address of the same length. */
  lemma StrangerAccepted(a: Address, stranger: Address, uri: Uri, token: seq<byte>, mid: u16)
    requires |a| == |stranger| && a != stranger && Observable(uri, token)
    ensures var s := Start([Server(a, true)], mid);
            && Request(s, uri, stranger, token).status == CONTENT_2_05
            && Request(s, uri, stranger, token).state.table == [Observed(uri, [Watcher(0, 0, token, 1, 0)])]
  {
    var servers := [Server(a, true)];
    assert TakenFor(servers[0], stranger) && FirstServer(servers, stranger) == 0;
    FirstRequest(Start(servers, mid), uri, stranger, token);
  }

  lemma FirstRequest(s: State, uri: Uri, from: Address, token: seq<byte>)
    requires s.table == [] && s.created == 0 && Observable(uri, token)
    requires FirstServer(s.servers, from) == 0 < |s.servers| && s.servers[0].registered
    ensures var r := Request(s, uri, from, token);
            && r.status == CONTENT_2_05 && r.state.servers == s.servers && r.state.nextMid == s.nextMid
            && r.state.table == [Observed(uri, [Watcher(0, 0, token, 1, 0)])]
  {
    var t, ws := [Observed(uri, [])], [Watcher(0, 0, token, 0, 0)];
    var none: seq<Watcher> := [];
    assert t + s.table == t && ws + none == ws;
    assert WithObserved(s.table, uri) == (t, 0);
    assert WithWatcher(none, 0, token, 0) == (ws, 0);
    assert ws[0 := Bumped(ws[0])] == [Watcher(0, 0, token, 1, 0)];
    assert t[0 := Observed(uri, [Watcher(0, 0, token, 1, 0)])] == [Observed(uri, [Watcher(0, 0, token, 1, 0)])];
  }

  lemma ChangeForOne(s: State, uri: Uri, w: Watcher, read: Reader)
    requires s.table == [Observed(uri, [w])] && read(uri).Some?
    ensures Changed(s, uri, read).log ==
            s.log + [Notified(w.serial, WatcherAddress(s.servers, w), Notification(w, s.nextMid, read(uri).value))]
  {
    hide Notification;
    assert Overlaps(uri, uri);
    assert Selected(s.table, uri, 0) == [] && Selected(s.table, uri, 1) == [0];
    var t := NotifyEntry(s, 0, read);
    var none: seq<Watcher> := [w][1..];
    assert none == [] && Notifications(s.servers, none, MidAfter(s.nextMid, 1), read(uri).value) == [];
    var ev := Notified(w.serial, WatcherAddress(s.servers, w), Notification(w, s.nextMid, read(uri).value));
    assert Notifications(s.servers, [w], s.nextMid, read(uri).value) == [ev];
    assert t.log == s.log + [ev];
    assert [0][1..] == [];
    assert NotifyEntries(s, [0], read) == NotifyEntries(t, [0][1..], read) == t;
  }
}
