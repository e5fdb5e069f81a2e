/** What holds in every state a run of the transaction engine reaches. */
module TransactionRuns {
  import opened Bytes
  import opened CoapPacket
  import opened IntrusiveList
  import opened Transactions

  // ----- counting -----

  predicate Completes(ev: Event, s: nat) {
    !ev.Attempt? && ev.serial == s
  }

  /** How often transaction s completed, according to the log. */
  function Completions(log: seq<Event>, s: nat): nat {
    if log == [] then 0 else (if Completes(log[0], s) then 1 else 0) + Completions(log[1..], s)
  }

  /** The times of the attempts to send transaction s, in order. */
  function Attempts(log: seq<Event>, s: nat): seq<int> {
    if log == [] then []
    else (if log[0].Attempt? && log[0].serial == s then [log[0].at] else []) + Attempts(log[1..], s)
  }

  /** How many entries of a list are transaction s. */
  function Holding(v: Pending, s: nat): nat {
    if v == [] then 0 else (if v[0].item.serial == s then 1 else 0) + Holding(v[1..], s)
  }

  function AllAttempts(log: seq<Event>): nat {
    if log == [] then 0 else (if log[0].Attempt? then 1 else 0) + AllAttempts(log[1..])
  }

  function AllAnswers(log: seq<Event>): nat {
    if log == [] then 0 else (if log[0].Answered? then 1 else 0) + AllAnswers(log[1..])
  }

  function AllTimeouts(log: seq<Event>): nat {
    if log == [] then 0 else (if log[0].TimedOut? then 1 else 0) + AllTimeouts(log[1..])
  }

  lemma {:induction false} LogsAdd(a: seq<Event>, b: seq<Event>, s: nat)
    ensures Completions(a + b, s) == Completions(a, s) + Completions(b, s)
    ensures Attempts(a + b, s) == Attempts(a, s) + Attempts(b, s)
  {
    if a == [] {
      assert a + b == b;
    } else {
      assert (a + b)[1..] == a[1..] + b;
      LogsAdd(a[1..], b, s);
    }
  }

  lemma {:induction false} TotalsAdd(a: seq<Event>, b: seq<Event>)
    ensures AllAttempts(a + b) == AllAttempts(a) + AllAttempts(b)
    ensures AllAnswers(a + b) == AllAnswers(a) + AllAnswers(b)
    ensures AllTimeouts(a + b) == AllTimeouts(a) + AllTimeouts(b)
  {
    if a == [] {
      assert a + b == b;
    } else {
      assert (a + b)[1..] == a[1..] + b;
      TotalsAdd(a[1..], b);
    }
  }

  lemma {:induction false} HoldingAdds(a: Pending, b: Pending, s: nat)
    ensures Holding(a + b, s) == Holding(a, s) + Holding(b, s)
  {
    if a == [] {
      assert a + b == b;
    } else {
      assert (a + b)[1..] == a[1..] + b;
      HoldingAdds(a[1..], b, s);
    }
  }

  lemma HoldingAt(v: Pending, k: nat, s: nat)
    requires k < |v|
    ensures Holding(v, s) == Holding(Without(v, k), s) + (if v[k].item.serial == s then 1 else 0)
  {
    assert v == v[..k] + ([v[k]] + v[k + 1..]);
    HoldingAdds(v[..k], [v[k]] + v[k + 1..], s);
    HoldingAdds([v[k]], v[k + 1..], s);
    HoldingAdds(v[..k], v[k + 1..], s);
    HoldingOne(v[k], s);
  }

  lemma HoldingOne(e: Entry<Transaction>, s: nat)
    ensures Holding([e], s) == if e.item.serial == s then 1 else 0
  {
    var v := [e];
    assert v[1..] == [];
  }

  lemma HoldingInserted(v: Pending, e: Entry<Transaction>, s: nat)
    ensures Holding(Inserted(v, e), s) == Holding(v, s) + (if e.item.serial == s then 1 else 0)
  {
    var k, w := AddIndex(v, e.id), Inserted(v, e);
    HoldingAt(w, k, s);
    assert Without(w, k) == v;
  }

  lemma EventCounts(ev: Event, s: nat)
    ensures Completions([ev], s) == if Completes(ev, s) then 1 else 0
    ensures Attempts([ev], s) == if ev.Attempt? && ev.serial == s then [ev.at] else []
    ensures AllAttempts([ev]) == if ev.Attempt? then 1 else 0
    ensures AllAnswers([ev]) == if ev.Answered? then 1 else 0
    ensures AllTimeouts([ev]) == if ev.TimedOut? then 1 else 0
  {
    var log := [ev];
    assert log[1..] == [];
  }

  // ----- one send -----

  /** A send keeps the transaction or completes it, never both, and keeps it under its own serial. */
  lemma SendCompletes(t: Transaction, now: int, clock: bool, book: Book, s: nat)
    ensures var r := Send(t, now, clock, book);
            && Completions(r.events, s) + (if r.kept.Some? && r.kept.value.serial == s then 1 else 0) ==
               (if t.serial == s then 1 else 0)
            && (s != t.serial ==> Attempts(r.events, s) == [])
            && AllAnswers(r.events) == 0 && AllTimeouts(r.events) == (if r.kept.Some? then 0 else 1)
            && Attempts(r.events, t.serial) == (if Sendable(t) then [now] else [])
            && AllAttempts(r.events) == (if Sendable(t) then 1 else 0)
  {
    SendEvents(t, now, clock, book);
    hide Send, Sendable;
    var r := Send(t, now, clock, book);
    if Sendable(t) {
      var first := r.events[0];
      EventCounts(first, s);
      EventCounts(first, t.serial);
      if r.kept.None? {
        var last := r.events[1];
        EventCounts(last, s);
        EventCounts(last, t.serial);
        assert r.events == [first] + [last];
        LogsAdd([first], [last], s);
        LogsAdd([first], [last], t.serial);
        TotalsAdd([first], [last]);
      }
    }
  }

  /** What one send logs, and under which serial the transaction goes on. */
  lemma SendEvents(t: Transaction, now: int, clock: bool, book: Book)
    ensures var r, attempt := Send(t, now, clock, book), Attempt(t.serial, now, DatagramOf(t, book));
            && (r.kept.Some? ==> r.kept.value.serial == t.serial)
            && (!Sendable(t) ==> r.kept.Some?)
            && r.events == if !Sendable(t) then []
                           else if r.kept.Some? then [attempt] else [attempt, TimedOut(t.serial, now, t.hasCallback)]
  {
    hide Serialized;
  }

  // ----- one step over the whole list -----

  lemma {:induction false} StepCompletes(v: Pending, now: int, clock: bool, book: Book, wait: int, s: nat)
    ensures var p := StepAll(v, now, clock, book, wait);
            && Completions(p.events, s) + Holding(p.pending, s) == Holding(v, s)
            && AllAnswers(p.events) == 0
            && AllTimeouts(p.events) + |p.pending| == |v|
  {
    hide Send;
    if v == [] {
    } else {
      var first := StepOne(v[0], now, clock, book, wait);
      var rest := StepAll(v[1..], now, clock, book, first.wait);
      StepCompletes(v[1..], now, clock, book, first.wait, s);
      SendCompletes(v[0].item, now, clock, book, s);
      LogsAdd(first.events, rest.events, s);
      TotalsAdd(first.events, rest.events);
      HoldingAdds(first.pending, rest.pending, s);
      if first.pending != [] {
        HoldingOne(first.pending[0], s);
      }
    }
  }

  // ----- exactly once, over every run -----

  /**
   * Every transaction created so far is on the list once and has not completed, or is off the list and
   * has completed once; nothing else is on the list or completed.
   */
  ghost predicate ExactlyOnce(e: Engine) {
    forall s: nat {:trigger Holding(e.pending, s)} ::
      Completions(e.log, s) + Holding(e.pending, s) == if s < e.created then 1 else 0
  }

  ghost predicate Conserved(e: Engine) {
    e.created == |e.pending| + AllAnswers(e.log) + AllTimeouts(e.log)
  }

  lemma SettledCounts(v: Pending, k: nat, t: Transaction, now: int, clock: bool, book: Book, s: nat)
    requires k < |v| && v[k].item == t
    ensures var r := Send(t, now, clock, book);
            var w := Settled(v, k, r.kept);
            && Completions(r.events, s) + Holding(w, s) == Holding(v, s)
            && AllTimeouts(r.events) + |w| == |v|
  {
    hide Send;
    var r := Send(t, now, clock, book);
    var w := Settled(v, k, r.kept);
    SendCompletes(t, now, clock, book, s);
    HoldingAt(v, k, s);
    if r.kept.Some? {
      HoldingAt(w, k, s);
      assert Without(w, k) == Without(v, k);
    }
  }

  lemma ApplyCounts(e: Engine, i: Input, s: nat)
    ensures var f := Apply(e, i);
            && Completions(f.log, s) + Holding(f.pending, s) ==
               Completions(e.log, s) + Holding(e.pending, s) + (if i.Create? && s == e.created then 1 else 0)
            && |f.pending| + AllAnswers(f.log) + AllTimeouts(f.log) ==
               |e.pending| + AllAnswers(e.log) + AllTimeouts(e.log) + (if i.Create? then 1 else 0)
  {
    hide Send, StepAll;
    match i {
      case Create(mid, _, _, _, now, clock, book) =>
        var t := Fresh(e, i);
        var k, w := AddIndex(e.pending, mid), Inserted(e.pending, Entry(mid, t));
        HoldingInserted(e.pending, Entry(mid, t), s);
        SettledCounts(w, k, t, now, clock, book, s);
        SendCompletes(t, now, clock, book, s);
        LogsAdd(e.log, Send(t, now, clock, book).events, s);
        TotalsAdd(e.log, Send(t, now, clock, book).events);
      case Tick(None, _, _) =>
      case Tick(Some(now), clock, book) =>
        StepCompletes(e.pending, now, clock, book, 0, s);
        LogsAdd(e.log, StepAll(e.pending, now, clock, book, 0).events, s);
        TotalsAdd(e.log, StepAll(e.pending, now, clock, book, 0).events);
      case Receive(mid, from, book) =>
        ReceiveCounts(e, mid, from, book, s);
    }
  }

  lemma ReceiveCounts(e: Engine, mid: u16, from: Address, book: Book, s: nat)
    ensures var f := Apply(e, Receive(mid, from, book));
            && Completions(f.log, s) + Holding(f.pending, s) == Completions(e.log, s) + Holding(e.pending, s)
            && |f.pending| + AllAnswers(f.log) + AllTimeouts(f.log) == |e.pending| + AllAnswers(e.log) + AllTimeouts(e.log)
  {
    if Find(e.pending, mid).Some? {
      var k := Find(e.pending, mid).value;
      var t := e.pending[k].item;
      HoldingAt(e.pending, k, s);
      EventCounts(Answered(t.serial, t.hasCallback), s);
      LogsAdd(e.log, [Answered(t.serial, t.hasCallback)], s);
      TotalsAdd(e.log, [Answered(t.serial, t.hasCallback)]);
    }
  }

  lemma ExactlyOnceKept(e: Engine, i: Input)
    requires ExactlyOnce(e) && Conserved(e)
    ensures ExactlyOnce(Apply(e, i)) && Conserved(Apply(e, i))
  {
    var f := Apply(e, i);
    assert f.created == e.created + (if i.Create? then 1 else 0);
    hide Apply;
    forall s: nat
      ensures Completions(f.log, s) + Holding(f.pending, s) == if s < f.created then 1 else 0
    {
      ApplyCounts(e, i, s);
      assert Completions(e.log, s) + Holding(e.pending, s) == if s < e.created then 1 else 0;
    }
    ApplyCounts(e, i, 0);
  }

  /** Whatever is created, whenever time passes and whatever arrives: exactly-once, and nothing lost or doubled. */
  lemma {:induction false} EveryRunExactlyOnce(e: Engine, inputs: seq<Input>)
    requires ExactlyOnce(e) && Conserved(e)
    ensures ExactlyOnce(Run(e, inputs)) && Conserved(Run(e, inputs))
    decreases |inputs|
  {
    hide Apply;
    if inputs == [] {
    } else {
      ExactlyOnceKept(e, inputs[0]);
      EveryRunExactlyOnce(Apply(e, inputs[0]), inputs[1..]);
    }
  }

  lemma EmptyExactlyOnce()
    ensures ExactlyOnce(EMPTY) && Conserved(EMPTY)
  {
  }
}
