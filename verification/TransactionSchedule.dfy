/** When transactions are sent: the closed form of the retransmission schedule, in every reachable state. */
module TransactionSchedule {
  import opened Bytes
  import opened CoapPacket
  import opened IntrusiveList
  import opened Transactions
  import opened TransactionRuns

  /** The k-th attempt (from 0) comes at least k(k+1) seconds after the first: 0, 2, 6, 12. */
  predicate Spaced(sends: seq<int>) {
    && (|sends| > 1 ==> sends[1] >= sends[0] + 2)
    && (|sends| > 2 ==> sends[2] >= sends[0] + 6)
    && (|sends| > 3 ==> sends[3] >= sends[0] + 12)
  }

  /**
   * A pending transaction with counter c has been sent c-1 times and is due c(c-1) seconds after its first
   * send; one that was never sent cannot be sent at all.
   */
  predicate OnSchedule(t: Transaction, sends: seq<int>) {
    if t.counter == 0 then sends == [] && !Sendable(t)
    else
      && 2 <= t.counter <= COAP_MAX_RETRANSMIT && Sendable(t)
      && |sends| == t.counter - 1 && Spaced(sends)
      && t.time == sends[0] + t.counter * (t.counter - 1)
  }

  /** The same for every pending transaction, by the log; and no transaction at all is sent more than four times. */
  ghost predicate Scheduled(e: Engine) {
    && (forall k :: 0 <= k < |e.pending| ==>
          OnSchedule(e.pending[k].item, Attempts(e.log, e.pending[k].item.serial)))
    && (forall s: nat :: |Attempts(e.log, s)| <= COAP_MAX_RETRANSMIT)
  }

  predicate Late(log: seq<Event>, ev: Event) {
    ev.TimedOut? ==>
      var sends := Attempts(log, ev.serial);
      |sends| == COAP_MAX_RETRANSMIT && Spaced(sends) && sends[3] == ev.at
  }

  /** Every timeout follows four sends, at least 12 seconds after the first. */
  ghost predicate TimeoutsLate(e: Engine) {
    forall k :: 0 <= k < |e.log| ==> Late(e.log, e.log[k])
  }

  // ----- one send -----

  lemma SendOnSchedule(t: Transaction, sends: seq<int>, now: int, clock: bool, book: Book)
    requires OnSchedule(t, sends) && t.time <= now
    ensures var r := Send(t, now, clock, book);
            var more := sends + (if Sendable(t) then [now] else []);
            && (r.kept.Some? ==> r.kept.value.serial == t.serial && OnSchedule(r.kept.value, more))
            && |more| <= 4 && Spaced(more)
            && (r.kept.None? ==> |more| == 4 && more[3] == now)
  {
    hide Serialized;
    if t.counter != 0 {
      var more := sends + [now];
      assert t.counter == 2 || t.counter == 3 || t.counter == 4;
    }
  }

  lemma FirstSendOnSchedule(t: Transaction, now: int, clock: bool, book: Book)
    requires t.counter == 0
    ensures var r := Send(t, now, clock, book);
            var sends := if Sendable(t) then [now] else [];
            && (r.kept.Some? ==> r.kept.value.serial == t.serial && OnSchedule(r.kept.value, sends))
            && (clock ==> r.kept.Some?)
  {
    hide Serialized;
  }

  // ----- one step, transaction by transaction -----

  /** What StepAll does to the entry at k. */
  function After(e: Entry<Transaction>, now: int, clock: bool, book: Book): seq<Entry<Transaction>> {
    StepOne(e, now, clock, book, 0).pending
  }

  lemma {:induction false} StepLeavesAlone(v: Pending, now: int, clock: bool, book: Book, wait: int, s: nat)
    requires Holding(v, s) == 0
    ensures Attempts(StepAll(v, now, clock, book, wait).events, s) == []
  {
    hide Send;
    if v != [] {
      var first := StepOne(v[0], now, clock, book, wait);
      StepLeavesAlone(v[1..], now, clock, book, first.wait, s);
      SendCompletes(v[0].item, now, clock, book, s);
      LogsAdd(first.events, StepAll(v[1..], now, clock, book, first.wait).events, s);
    }
  }

  /** In one step, a transaction on the list is sent once if it is due and can be sent, and not at all otherwise. */
  lemma {:induction false} StepSendsOnce(v: Pending, now: int, clock: bool, book: Book, wait: int, k: nat)
    requires k < |v| && Holding(v, v[k].item.serial) == 1
    ensures Attempts(StepAll(v, now, clock, book, wait).events, v[k].item.serial) ==
            if v[k].item.time <= now && Sendable(v[k].item) then [now] else []
    decreases |v|
  {
    hide Send, Sendable;
    var s := v[k].item.serial;
    var first := StepOne(v[0], now, clock, book, wait);
    LogsAdd(first.events, StepAll(v[1..], now, clock, book, first.wait).events, s);
    SendCompletes(v[0].item, now, clock, book, s);
    if k == 0 {
      StepLeavesAlone(v[1..], now, clock, book, first.wait, s);
    } else {
      HoldingSome(v[1..], k - 1);
      StepSendsOnce(v[1..], now, clock, book, first.wait, k - 1);
    }
  }

  lemma {:induction false} HoldingSome(v: Pending, k: nat)
    requires k < |v|
    ensures Holding(v, v[k].item.serial) >= 1
  {
    HoldingAt(v, k, v[k].item.serial);
  }

  /** Each entry left after a step is what became of one entry before it. */
  lemma {:induction false} StepOrigin(v: Pending, now: int, clock: bool, book: Book, wait: int, m: nat) returns (k: nat)
    requires m < |StepAll(v, now, clock, book, wait).pending|
    ensures k < |v| && After(v[k], now, clock, book) == [StepAll(v, now, clock, book, wait).pending[m]]
    decreases |v|
  {
    hide Send;
    var first := StepOne(v[0], now, clock, book, wait);
    assert first.pending == After(v[0], now, clock, book) && |first.pending| <= 1;
    if m < |first.pending| {
      k := 0;
    } else {
      k := StepOrigin(v[1..], now, clock, book, first.wait, m - |first.pending|);
      k := k + 1;
    }
  }

  lemma SendTimeout(t: Transaction, now: int, clock: bool, book: Book)
    ensures forall m :: 0 <= m < |Send(t, now, clock, book).events| && Send(t, now, clock, book).events[m].TimedOut? ==>
              var ev := Send(t, now, clock, book).events[m];
              && ev.serial == t.serial && ev.at == now && ev.callbackRun == t.hasCallback && Send(t, now, clock, book).kept.None?
  {
    hide Serialized;
  }

  /** Each timeout in a step is that of a due transaction the step did not keep. */
  lemma {:induction false} TimeoutOrigin(v: Pending, now: int, clock: bool, book: Book, wait: int, m: nat) returns (k: nat)
    requires m < |StepAll(v, now, clock, book, wait).events| && StepAll(v, now, clock, book, wait).events[m].TimedOut?
    ensures var ev := StepAll(v, now, clock, book, wait).events[m];
            && k < |v| && v[k].item.serial == ev.serial && ev.at == now && ev.callbackRun == v[k].item.hasCallback
            && v[k].item.time <= now && Send(v[k].item, now, clock, book).kept.None?
    decreases |v|
  {
    hide Send;
    var first := StepOne(v[0], now, clock, book, wait);
    SendTimeout(v[0].item, now, clock, book);
    if m < |first.events| {
      k := 0;
    } else {
      k := TimeoutOrigin(v[1..], now, clock, book, first.wait, m - |first.events|);
      k := k + 1;
    }
  }

  // ----- every run -----

  lemma PendingOnce(e: Engine, k: nat)
    requires ExactlyOnce(e) && k < |e.pending|
    ensures Holding(e.pending, e.pending[k].item.serial) == 1 && Completions(e.log, e.pending[k].item.serial) == 0
  {
    HoldingSome(e.pending, k);
  }

  lemma {:induction false} CompletedSome(log: seq<Event>, k: nat)
    requires k < |log| && !log[k].Attempt?
    ensures Completions(log, log[k].serial) >= 1
    decreases |log|
  {
    if k > 0 {
      CompletedSome(log[1..], k - 1);
    }
  }

  lemma CompletedNotPending(e: Engine, k: nat)
    requires ExactlyOnce(e) && k < |e.log| && !e.log[k].Attempt?
    ensures Holding(e.pending, e.log[k].serial) == 0
  {
    CompletedSome(e.log, k);
  }

  lemma TickAttempts(e: Engine, now: int, clock: bool, book: Book, s: nat)
    requires ExactlyOnce(e) && Scheduled(e)
    ensures |Attempts(Apply(e, Tick(Some(now), clock, book)).log, s)| <= COAP_MAX_RETRANSMIT
  {
    hide Send, Sendable, StepAll;
    var p := StepAll(e.pending, now, clock, book, 0);
    LogsAdd(e.log, p.events, s);
    if Holding(e.pending, s) == 0 {
      StepLeavesAlone(e.pending, now, clock, book, 0, s);
    } else {
      var k := HeldAt(e.pending, s);
      PendingOnce(e, k);
      StepSendsOnce(e.pending, now, clock, book, 0, k);
      assert OnSchedule(e.pending[k].item, Attempts(e.log, s));
    }
  }

  lemma {:induction false} HeldAt(v: Pending, s: nat) returns (k: nat)
    requires Holding(v, s) > 0
    ensures k < |v| && v[k].item.serial == s
  {
    if v[0].item.serial == s {
      k := 0;
    } else {
      k := HeldAt(v[1..], s);
      k := k + 1;
    }
  }

  lemma TickScheduled(e: Engine, now: int, clock: bool, book: Book)
    requires ExactlyOnce(e) && Scheduled(e)
    ensures Scheduled(Apply(e, Tick(Some(now), clock, book)))
  {
    hide Send, StepAll, Sendable, OnSchedule, Attempts;
    var p, f := StepAll(e.pending, now, clock, book, 0), Apply(e, Tick(Some(now), clock, book));
    forall m | 0 <= m < |p.pending|
      ensures OnSchedule(p.pending[m].item, Attempts(f.log, p.pending[m].item.serial))
    {
      var k := StepOrigin(e.pending, now, clock, book, 0, m);
      var t := e.pending[k].item;
      PendingOnce(e, k);
      StepSendsOnce(e.pending, now, clock, book, 0, k);
      LogsAdd(e.log, p.events, t.serial);
      assert OnSchedule(t, Attempts(e.log, t.serial));
      if t.time <= now {
        SendOnSchedule(t, Attempts(e.log, t.serial), now, clock, book);
      } else {
        assert Attempts(e.log, t.serial) + [] == Attempts(e.log, t.serial);
      }
    }
    forall s: nat
      ensures |Attempts(f.log, s)| <= COAP_MAX_RETRANSMIT
    {
      TickAttempts(e, now, clock, book, s);
    }
  }

  lemma TickTimeouts(e: Engine, now: int, clock: bool, book: Book)
    requires ExactlyOnce(e) && Scheduled(e) && TimeoutsLate(e)
    ensures TimeoutsLate(Apply(e, Tick(Some(now), clock, book)))
  {
    hide Send, StepAll, Sendable, OnSchedule, Attempts, Spaced;
    var p, f := StepAll(e.pending, now, clock, book, 0), Apply(e, Tick(Some(now), clock, book));
    forall m | 0 <= m < |f.log|
      ensures Late(f.log, f.log[m])
    {
      var ev := f.log[m];
      LogsAdd(e.log, p.events, ev.serial);
      if m < |e.log| {
        if ev.TimedOut? {
          assert Late(e.log, e.log[m]);
          CompletedNotPending(e, m);
          StepLeavesAlone(e.pending, now, clock, book, 0, ev.serial);
          assert Attempts(e.log, ev.serial) + [] == Attempts(e.log, ev.serial);
        }
      } else if ev.TimedOut? {
        var k := TimeoutOrigin(e.pending, now, clock, book, 0, m - |e.log|);
        var t := e.pending[k].item;
        PendingOnce(e, k);
        StepSendsOnce(e.pending, now, clock, book, 0, k);
        SendOnSchedule(t, Attempts(e.log, t.serial), now, clock, book);
        SendKeepsUnsendable(t, now, clock, book);
      }
    }
  }

  lemma SendKeepsUnsendable(t: Transaction, now: int, clock: bool, book: Book)
    ensures Send(t, now, clock, book).kept.None? ==> Sendable(t)
  {
    hide Serialized;
  }

  /** Serials are given out in order, so the log knows nothing of the next one. */
  ghost predicate SerialsUsed(e: Engine) {
    forall s: nat :: s >= e.created ==> Attempts(e.log, s) == []
  }

  lemma CreateScheduled(e: Engine, i: Input)
    requires i.Create? && ExactlyOnce(e) && Scheduled(e) && SerialsUsed(e)
    ensures Scheduled(Apply(e, i)) && SerialsUsed(Apply(e, i))
  {
    hide Send, Sendable, OnSchedule, Attempts, Settled, Inserted;
    var t, f := Fresh(e, i), Apply(e, i);
    var r := Send(t, i.now, i.clock, i.book);
    FirstSendOnSchedule(t, i.now, i.clock, i.book);
    SendCompletes(t, i.now, i.clock, i.book, t.serial);
    forall s: nat
      ensures Attempts(f.log, s) == if s == t.serial then Attempts(r.events, s) else Attempts(e.log, s)
    {
      LogsAdd(e.log, r.events, s);
      SendCompletes(t, i.now, i.clock, i.book, s);
      assert Attempts(e.log, s) + [] == Attempts(e.log, s);
      assert s == t.serial ==> Attempts(e.log, s) == [];
    }
    forall m | 0 <= m < |f.pending|
      ensures OnSchedule(f.pending[m].item, Attempts(f.log, f.pending[m].item.serial))
    {
      CreateOrigin(e, i, m);
      if f.pending[m].item.serial != t.serial {
        assert exists o :: 0 <= o < |e.pending| && f.pending[m] == e.pending[o];
      }
    }
    assert t.counter == 0;
  }

  /** After a creation the list holds what became of the new transaction, and what it held before. */
  lemma CreateOrigin(e: Engine, i: Input, m: nat)
    requires i.Create? && ExactlyOnce(e) && m < |Apply(e, i).pending|
    ensures var r, u := Send(Fresh(e, i), i.now, i.clock, i.book), Apply(e, i).pending[m];
            if u.item.serial == e.created then r.kept == Some(u.item)
            else exists o :: 0 <= o < |e.pending| && u == e.pending[o]
  {
    hide Send, Serialized;
    var t, u := Fresh(e, i), Apply(e, i).pending[m];
    var r, k := Send(t, i.now, i.clock, i.book), AddIndex(e.pending, i.mid);
    KeptSerial(t, i.now, i.clock, i.book);
    if r.kept.Some? && m == k {
    } else {
      var o := if m < k then m else if r.kept.Some? then m - 1 else m;
      assert u == e.pending[o];
      HoldingSome(e.pending, o);
    }
  }

  lemma KeptSerial(t: Transaction, now: int, clock: bool, book: Book)
    ensures Send(t, now, clock, book).kept.Some? ==> Send(t, now, clock, book).kept.value.serial == t.serial
  {
    hide Serialized;
  }

  lemma CreateTimeouts(e: Engine, i: Input)
    requires i.Create? && i.clock && ExactlyOnce(e) && TimeoutsLate(e) && SerialsUsed(e)
    ensures TimeoutsLate(Apply(e, i))
  {
    hide Send, Sendable, OnSchedule, Attempts, Spaced;
    var t, f := Fresh(e, i), Apply(e, i);
    var r := Send(t, i.now, i.clock, i.book);
    FirstSendOnSchedule(t, i.now, i.clock, i.book);
    KeptHasNoTimeout(t, i.now, i.clock, i.book);
    forall m | 0 <= m < |f.log|
      ensures Late(f.log, f.log[m])
    {
      var ev := f.log[m];
      if m < |e.log| && ev.TimedOut? {
        assert Late(e.log, e.log[m]);
        CompletedSome(e.log, m);
        LogsAdd(e.log, r.events, ev.serial);
        SendCompletes(t, i.now, i.clock, i.book, ev.serial);
        assert Attempts(e.log, ev.serial) + [] == Attempts(e.log, ev.serial);
      }
    }
  }

  lemma KeptHasNoTimeout(t: Transaction, now: int, clock: bool, book: Book)
    requires Send(t, now, clock, book).kept.Some?
    ensures forall m :: 0 <= m < |Send(t, now, clock, book).events| ==> !Send(t, now, clock, book).events[m].TimedOut?
  {
    hide Serialized;
  }

  lemma ReceiveScheduled(e: Engine, i: Input)
    requires i.Receive? && Scheduled(e) && SerialsUsed(e)
    ensures Scheduled(Apply(e, i)) && SerialsUsed(Apply(e, i))
    ensures TimeoutsLate(e) ==> TimeoutsLate(Apply(e, i))
  {
    hide OnSchedule, Attempts, Spaced;
    var f := Apply(e, i);
    forall s: nat
      ensures Attempts(f.log, s) == Attempts(e.log, s)
    {
      if f.log != e.log {
        var ev := f.log[|e.log|];
        LogsAdd(e.log, [ev], s);
        EventCounts(ev, s);
        assert Attempts(e.log, s) + [] == Attempts(e.log, s);
      }
    }
    assert forall m :: 0 <= m < |f.pending| ==> exists k :: 0 <= k < |e.pending| && f.pending[m] == e.pending[k];
  }

  lemma TickSerials(e: Engine, now: int, clock: bool, book: Book)
    requires ExactlyOnce(e) && SerialsUsed(e)
    ensures SerialsUsed(Apply(e, Tick(Some(now), clock, book)))
  {
    hide StepAll, Attempts;
    var p := StepAll(e.pending, now, clock, book, 0);
    forall s: nat | s >= e.created
      ensures Attempts(e.log + p.events, s) == []
    {
      assert Completions(e.log, s) + Holding(e.pending, s) == 0;
      StepLeavesAlone(e.pending, now, clock, book, 0, s);
      LogsAdd(e.log, p.events, s);
    }
  }

  ghost predicate Reachable(e: Engine) {
    ExactlyOnce(e) && Conserved(e) && Scheduled(e) && SerialsUsed(e)
  }

  lemma ReachableKept(e: Engine, i: Input)
    requires Reachable(e)
    ensures Reachable(Apply(e, i))
    ensures TimeoutsLate(e) && (i.Create? ==> i.clock) ==> TimeoutsLate(Apply(e, i))
  {
    hide Scheduled, TimeoutsLate, SerialsUsed, StepAll, Send;
    ExactlyOnceKept(e, i);
    match i {
      case Create(_, _, _, _, _, _, _) =>
        CreateScheduled(e, i);
        if TimeoutsLate(e) && i.clock {
          CreateTimeouts(e, i);
        }
      case Tick(None, _, _) =>
      case Tick(Some(now), clock, book) =>
        TickScheduled(e, now, clock, book);
        TickSerials(e, now, clock, book);
        if TimeoutsLate(e) {
          TickTimeouts(e, now, clock, book);
        }
      case Receive(_, _, _) =>
        ReceiveScheduled(e, i);
    }
  }

  /**
   * In every state a run from nothing reaches, every pending transaction is on schedule and none has been sent
   * more than four times; if the clock could be read at each creation, every timeout came after four sends,
   * at least 12 seconds after the first.
   */
  lemma {:induction false} EveryRunOnSchedule(e: Engine, inputs: seq<Input>)
    requires Reachable(e)
    ensures Reachable(Run(e, inputs))
    ensures TimeoutsLate(e) && (forall i :: i in inputs && i.Create? ==> i.clock) ==> TimeoutsLate(Run(e, inputs))
    decreases |inputs|
  {
    hide Reachable, TimeoutsLate, Apply;
    if inputs != [] {
      ReachableKept(e, inputs[0]);
      EveryRunOnSchedule(Apply(e, inputs[0]), inputs[1..]);
      assert inputs[0] in inputs && forall i :: i in inputs[1..] ==> i in inputs;
    }
  }

  lemma EmptyReachable()
    ensures Reachable(EMPTY) && TimeoutsLate(EMPTY)
  {
  }
}
