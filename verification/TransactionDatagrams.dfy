/** What is sent: every attempt of a transaction is the same bytes, to where its peer is at the time. */
module TransactionDatagrams {
  import opened Bytes
  import opened CoapPacket
  import opened IntrusiveList
  import opened Transactions
  import opened TransactionRuns
  import opened TransactionSchedule

  /** The message a transaction was created with, serialized, if its peer is one that is sent to. */
  function Target(t: Transaction): Option<seq<byte>> {
    if t.peer.Client? || t.peer.Server? then Some(Serialized(t.message)) else None
  }

  function Carried(d: Option<Datagram>): Option<seq<byte>> {
    match d case None => None case Some(x) => Some(x.bytes)
  }

  predicate WireOk(t: Transaction) {
    t.wire == None || t.wire == Some(Serialized(t.message))
  }

  predicate AttemptOf(ev: Event, t: Transaction) {
    ev.serial == t.serial && (ev.Attempt? ==> Carried(ev.datagram) == Target(t))
  }

  /** An attempt made while the records hold these addresses. */
  predicate AttemptNow(ev: Event, t: Transaction, book: Book) {
    AttemptOf(ev, t) && (ev.Attempt? && ev.datagram.Some? ==> ev.datagram.value.to == book(t.peer))
  }

  ghost predicate OnlyTarget(log: seq<Event>, t: Transaction) {
    forall m :: 0 <= m < |log| && log[m].serial == t.serial ==> AttemptOf(log[m], t)
  }

  /** Two attempts of one transaction carry the same. */
  ghost predicate Repeats(log: seq<Event>) {
    forall m, n :: 0 <= m < |log| && 0 <= n < |log| && log[m].Attempt? && log[n].Attempt? && log[m].serial == log[n].serial
      ==> Carried(log[m].datagram) == Carried(log[n].datagram)
  }

  ghost predicate OneContent(e: Engine) {
    && (forall k :: 0 <= k < |e.pending| ==> WireOk(e.pending[k].item) && OnlyTarget(e.log, e.pending[k].item))
    && Repeats(e.log)
    && (forall m :: 0 <= m < |e.log| ==> e.log[m].serial < e.created)
  }

  /** One send attempts the target only, at the peer's address of the moment, and keeps the transaction's target. */
  lemma SendTarget(t: Transaction, now: int, clock: bool, book: Book)
    requires WireOk(t)
    ensures var r := Send(t, now, clock, book);
            && (forall m :: 0 <= m < |r.events| ==> AttemptNow(r.events[m], t, book))
            && (r.kept.Some? ==> Same(r.kept.value, t))
  {
    hide Serialized;
  }

  predicate Same(u: Transaction, t: Transaction) {
    u.serial == t.serial && WireOk(u) && u.message == t.message && u.peer == t.peer && u.hasCallback == t.hasCallback
  }

  lemma {:induction false} StepEvent(v: Pending, now: int, clock: bool, book: Book, wait: int, m: nat) returns (k: nat)
    requires m < |StepAll(v, now, clock, book, wait).events|
    requires forall i :: 0 <= i < |v| ==> WireOk(v[i].item)
    ensures k < |v| && AttemptNow(StepAll(v, now, clock, book, wait).events[m], v[k].item, book)
    decreases |v|
  {
    hide Send, WireOk, AttemptNow;
    var first := StepOne(v[0], now, clock, book, wait);
    SendTarget(v[0].item, now, clock, book);
    if m < |first.events| {
      k := 0;
    } else {
      k := StepEvent(v[1..], now, clock, book, first.wait, m - |first.events|);
      k := k + 1;
    }
  }

  lemma StepKept(v: Pending, now: int, clock: bool, book: Book, wait: int, m: nat) returns (k: nat)
    requires m < |StepAll(v, now, clock, book, wait).pending|
    requires forall i :: 0 <= i < |v| ==> WireOk(v[i].item)
    ensures k < |v| && Same(StepAll(v, now, clock, book, wait).pending[m].item, v[k].item)
  {
    k := StepOrigin(v, now, clock, book, wait, m);
    hide Send, StepAll, WireOk;
    SendTarget(v[k].item, now, clock, book);
    assert WireOk(v[k].item);
  }

  ghost predicate SerialsDiffer(v: Pending) {
    forall i, j :: 0 <= i < j < |v| ==> v[i].item.serial != v[j].item.serial
  }

  lemma HeldOnce(v: Pending)
    requires forall s: nat :: Holding(v, s) <= 1
    ensures SerialsDiffer(v)
  {
    hide Holding;
    forall i, j | 0 <= i < j < |v|
      ensures v[i].item.serial != v[j].item.serial
    {
      var s, rest := v[i].item.serial, Without(v, i);
      HoldingAt(v, i, s);
      assert rest[j - 1] == v[j];
      HoldingAt(rest, j - 1, s);
      assert Holding(v, s) <= 1;
    }
  }

  ghost predicate FromSome(v: Pending, ev: Event) {
    exists k :: 0 <= k < |v| && AttemptOf(ev, v[k].item)
  }

  ghost predicate KeptFromSome(v: Pending, u: Transaction) {
    exists k :: 0 <= k < |v| && Same(u, v[k].item)
  }

  /** v is what there was to send, events what was sent of it, w what remains. */
  lemma Extended(v: Pending, log: seq<Event>, events: seq<Event>, w: Pending)
    requires SerialsDiffer(v) && Repeats(log)
    requires forall k :: 0 <= k < |v| ==> OnlyTarget(log, v[k].item)
    requires forall m :: 0 <= m < |events| ==> FromSome(v, events[m])
    requires forall j :: 0 <= j < |w| ==> KeptFromSome(v, w[j].item)
    ensures Repeats(log + events)
    ensures forall j :: 0 <= j < |w| ==> WireOk(w[j].item) && OnlyTarget(log + events, w[j].item)
  {
    hide Target, WireOk;
    var more := log + events;
    forall k | 0 <= k < |v|
      ensures OnlyTarget(more, v[k].item)
    {
      ExtendedOne(v, log, events, k);
    }
    forall m, n | 0 <= m < |more| && 0 <= n < |more| && more[m].Attempt? && more[n].Attempt? && more[m].serial == more[n].serial
      ensures Carried(more[m].datagram) == Carried(more[n].datagram)
    {
      if m >= |log| || n >= |log| {
        assert FromSome(v, if m >= |log| then events[m - |log|] else events[n - |log|]);
        var k :| 0 <= k < |v| && AttemptOf(if m >= |log| then events[m - |log|] else events[n - |log|], v[k].item);
        assert OnlyTarget(more, v[k].item);
        assert AttemptOf(more[m], v[k].item) && AttemptOf(more[n], v[k].item);
      }
    }
    forall j | 0 <= j < |w|
      ensures WireOk(w[j].item) && OnlyTarget(more, w[j].item)
    {
      assert KeptFromSome(v, w[j].item);
      var k :| 0 <= k < |v| && Same(w[j].item, v[k].item);
      SameTarget(w[j].item, v[k].item, more);
    }
  }

  lemma ExtendedOne(v: Pending, log: seq<Event>, events: seq<Event>, k: nat)
    requires SerialsDiffer(v) && k < |v| && OnlyTarget(log, v[k].item)
    requires forall m :: 0 <= m < |events| ==> FromSome(v, events[m])
    ensures OnlyTarget(log + events, v[k].item)
  {
    hide Target;
    forall m | 0 <= m < |events| && events[m].serial == v[k].item.serial
      ensures AttemptOf(events[m], v[k].item)
    {
      assert FromSome(v, events[m]);
      var i :| 0 <= i < |v| && AttemptOf(events[m], v[i].item);
      assert i == k;
    }
  }

  lemma SameTarget(u: Transaction, t: Transaction, log: seq<Event>)
    requires Same(u, t) && OnlyTarget(log, t)
    ensures WireOk(u) && OnlyTarget(log, u)
  {
    hide Serialized;
    assert Target(u) == Target(t);
  }

  // ----- every run -----

  lemma TickDatagrams(e: Engine, now: int, clock: bool, book: Book)
    requires ExactlyOnce(e) && OneContent(e)
    ensures OneContent(Apply(e, Tick(Some(now), clock, book)))
  {
    hide Holding, Repeats, OnlyTarget, WireOk, StepAll, Same, AttemptOf;
    var v, p := e.pending, StepAll(e.pending, now, clock, book, 0);
    HeldOnce(v);
    forall m | 0 <= m < |p.events|
      ensures FromSome(v, p.events[m]) && p.events[m].serial < e.created
    {
      var k := StepEvent(v, now, clock, book, 0, m);
      PendingOld(e, k, p.events[m]);
    }
    forall j | 0 <= j < |p.pending|
      ensures KeptFromSome(v, p.pending[j].item)
    {
      var k := StepKept(v, now, clock, book, 0, j);
    }
    Extended(v, e.log, p.events, p.pending);
  }

  lemma PendingOld(e: Engine, k: nat, ev: Event)
    requires ExactlyOnce(e) && k < |e.pending| && AttemptOf(ev, e.pending[k].item)
    ensures ev.serial < e.created
  {
    PendingOnce(e, k);
  }

  lemma CreateDatagrams(e: Engine, i: Input)
    requires i.Create? && ExactlyOnce(e) && OneContent(e)
    ensures OneContent(Apply(e, i))
  {
    hide Holding, Repeats, WireOk, Same, AttemptOf, Send, AddIndex;
    var t := Fresh(e, i);
    var v, r := Inserted(e.pending, Entry(i.mid, t)), Send(t, i.now, i.clock, i.book);
    var a := AddIndex(e.pending, i.mid);
    FreshOk(e, i);
    SendTarget(t, i.now, i.clock, i.book);
    assert forall k :: 0 <= k < |v| && k != a ==> v[k] == e.pending[if k < a then k else k - 1];
    forall s: nat
      ensures Holding(v, s) <= 1
    {
      HoldingInserted(e.pending, Entry(i.mid, t), s);
      assert Completions(e.log, s) + Holding(e.pending, s) == if s < e.created then 1 else 0;
    }
    HeldOnce(v);
    forall k | 0 <= k < |v|
      ensures OnlyTarget(e.log, v[k].item)
    {
    }
    assert forall m :: 0 <= m < |r.events| ==> AttemptOf(r.events[m], v[a].item);
    CreateKept(e, i, v, a);
    Extended(v, e.log, r.events, Settled(v, a, r.kept));
    CreateSerials(e, i);
  }

  lemma CreateSerials(e: Engine, i: Input)
    requires i.Create?
    ensures var r := Send(Fresh(e, i), i.now, i.clock, i.book);
            forall m :: 0 <= m < |r.events| ==> r.events[m].serial == e.created
  {
    hide Serialized;
  }

  lemma FreshOk(e: Engine, i: Input)
    requires i.Create? && OneContent(e)
    ensures WireOk(Fresh(e, i)) && OnlyTarget(e.log, Fresh(e, i))
  {
    hide Serialized, Target;
  }

  lemma CreateKept(e: Engine, i: Input, v: Pending, a: nat)
    requires i.Create? && v == Inserted(e.pending, Entry(i.mid, Fresh(e, i))) && a == AddIndex(e.pending, i.mid)
    requires forall k :: 0 <= k < |e.pending| ==> WireOk(e.pending[k].item)
    ensures var w := Settled(v, a, Send(Fresh(e, i), i.now, i.clock, i.book).kept);
            forall j :: 0 <= j < |w| ==> KeptFromSome(v, w[j].item)
  {
    hide Send, WireOk, AddIndex, AttemptOf;
    var t := Fresh(e, i);
    var r := Send(t, i.now, i.clock, i.book);
    assert WireOk(t) by {
      FreshWire(e, i);
    }
    SendTarget(t, i.now, i.clock, i.book);
    var w := Settled(v, a, r.kept);
    forall j | 0 <= j < |w|
      ensures KeptFromSome(v, w[j].item)
    {
      var k := if j < a || r.kept.Some? then j else j + 1;
      if k != a {
        assert v[k] == e.pending[if k < a then k else k - 1];
        assert w[j] == v[k];
      }
      assert Same(w[j].item, v[k].item);
    }
  }

  lemma FreshWire(e: Engine, i: Input)
    requires i.Create?
    ensures WireOk(Fresh(e, i))
  {
  }

  lemma ReceiveDatagrams(e: Engine, i: Input)
    requires i.Receive? && ExactlyOnce(e) && OneContent(e)
    ensures OneContent(Apply(e, i))
  {
    hide Target, WireOk, Holding, Skip;
    if Find(e.pending, i.mid).Some? {
      var k := Find(e.pending, i.mid).value;
      PendingOnce(e, k);
      assert forall j :: 0 <= j < |e.pending| - 1 ==> Without(e.pending, k)[j] == e.pending[if j < k then j else j + 1];
    }
  }

  lemma OneContentKept(e: Engine, i: Input)
    requires ExactlyOnce(e) && OneContent(e)
    ensures OneContent(Apply(e, i))
  {
    hide OneContent, ExactlyOnce, StepAll, Send;
    match i
    case Create(_, _, _, _, _, _, _) => CreateDatagrams(e, i);
    case Tick(None, _, _) =>
    case Tick(Some(now), clock, book) => TickDatagrams(e, now, clock, book);
    case Receive(_, _, _) => ReceiveDatagrams(e, i);
  }

  /** In every run, all attempts of one transaction carry the same bytes, those of its message. */
  lemma {:induction false} EveryRunOneContent(e: Engine, inputs: seq<Input>)
    requires ExactlyOnce(e) && Conserved(e) && OneContent(e)
    ensures OneContent(Run(e, inputs))
    decreases |inputs|
  {
    hide OneContent, ExactlyOnce, Conserved, Apply;
    if inputs != [] {
      ExactlyOnceKept(e, inputs[0]);
      OneContentKept(e, inputs[0]);
      EveryRunOneContent(Apply(e, inputs[0]), inputs[1..]);
    }
  }

  /** Every attempt an input makes is of some transaction on the list or just created, to its peer's address then. */
  lemma AttemptsAddressed(e: Engine, i: Input, m: nat)
    requires OneContent(e) && |e.log| <= m < |Apply(e, i).log| && Apply(e, i).log[m].Attempt?
    ensures var ev := Apply(e, i).log[m];
            || (i.Create? && AttemptNow(ev, Fresh(e, i), i.book))
            || (i.Tick? && exists k :: 0 <= k < |e.pending| && AttemptNow(ev, e.pending[k].item, i.book))
  {
    hide Send, StepAll, WireOk, AttemptNow;
    match i
    case Create(_, _, _, _, _, _, _) =>
      FreshWire(e, i);
      SendTarget(Fresh(e, i), i.now, i.clock, i.book);
    case Tick(None, _, _) =>
    case Tick(Some(now), clock, book) =>
      var k := StepEvent(e.pending, now, clock, book, 0, m - |e.log|);
    case Receive(_, _, _) =>
  }

  lemma EmptyOneContent()
    ensures OneContent(EMPTY)
  {
  }
}
