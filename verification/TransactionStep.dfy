/** One lwm2m_step seen whole: how long to wait, what stays in which order, and how many sends can still come. */
module TransactionStep {
  import opened Bytes
  import opened CoapPacket
  import opened IntrusiveList
  import opened Transactions
  import opened TransactionRuns
  import opened TransactionSchedule

  // ----- the wait -----

  /** The step looks at the time of a transaction that is not due, or that was sent and stays. */
  predicate Counted(e: Entry<Transaction>, now: int, clock: bool, book: Book) {
    e.item.time <= now ==> Send(e.item, now, clock, book).result == 0
  }

  /** How long from now until a transaction is due, and never less than a second. */
  function Interval(t: Transaction, now: int): int {
    if t.time - now > 1 then t.time - now else 1
  }

  lemma CountedStays(e: Entry<Transaction>, now: int, clock: bool, book: Book)
    requires Counted(e, now, clock, book)
    ensures |After(e, now, clock, book)| == 1
  {
    hide Serialized;
  }

  function IntervalAfter(e: Entry<Transaction>, now: int, clock: bool, book: Book): int
    requires Counted(e, now, clock, book)
  {
    CountedStays(e, now, clock, book);
    Interval(After(e, now, clock, book)[0].item, now)
  }

  lemma StepOneWait(e: Entry<Transaction>, now: int, clock: bool, book: Book, wait: int)
    ensures var p := StepOne(e, now, clock, book, wait);
            && p.pending == After(e, now, clock, book)
            && p.wait == if Counted(e, now, clock, book) && IntervalAfter(e, now, clock, book) < wait
                         then IntervalAfter(e, now, clock, book) else wait
  {
    hide Serialized;
  }

  /** The wait a step leaves is the least of the one it got and the intervals of the transactions that stay. */
  lemma {:induction false} StepWaitExact(v: Pending, now: int, clock: bool, book: Book, wait: int)
    ensures var r := StepAll(v, now, clock, book, wait).wait;
            && r <= wait
            && (forall k :: 0 <= k < |v| && Counted(v[k], now, clock, book) ==> r <= IntervalAfter(v[k], now, clock, book))
            && (r == wait || exists k :: 0 <= k < |v| && Counted(v[k], now, clock, book) && r == IntervalAfter(v[k], now, clock, book))
  {
    hide Counted, After, StepOne;
    if v == [] {
    } else {
      var first, rest := StepOne(v[0], now, clock, book, wait), v[1..];
      StepOneWait(v[0], now, clock, book, wait);
      StepWaitExact(rest, now, clock, book, first.wait);
      var r := StepAll(v, now, clock, book, wait).wait;
      forall k | 0 <= k < |v| && Counted(v[k], now, clock, book)
        ensures r <= IntervalAfter(v[k], now, clock, book)
      {
        if k > 0 {
          assert v[k] == rest[k - 1];
        }
      }
      if r != first.wait {
        var k :| 0 <= k < |rest| && Counted(rest[k], now, clock, book) && r == IntervalAfter(rest[k], now, clock, book);
        assert v[k + 1] == rest[k];
      } else if r != wait {
        assert Counted(v[0], now, clock, book) && r == IntervalAfter(v[0], now, clock, book);
      }
    }
  }

  // ----- what stays, in order -----

  /** What is left of a list, entry by entry. */
  function Survivors(v: Pending, now: int, clock: bool, book: Book): Pending {
    if v == [] then [] else After(v[0], now, clock, book) + Survivors(v[1..], now, clock, book)
  }

  /**
   * A step leaves each entry's remains where the entry was: one that is not due as it was, one that is due with
   * its own id and serial or not at all, and all in the old order.
   */
  lemma {:induction false} StepKeepsOrder(v: Pending, now: int, clock: bool, book: Book, wait: int)
    ensures StepAll(v, now, clock, book, wait).pending == Survivors(v, now, clock, book)
    ensures forall k :: 0 <= k < |v| ==>
              var a := After(v[k], now, clock, book);
              && (v[k].item.time > now ==> a == [v[k]])
              && (a == [] || (|a| == 1 && a[0].id == v[k].id && a[0].item.serial == v[k].item.serial))
  {
    hide After, StepOne;
    if v == [] {
    } else {
      StepOneWait(v[0], now, clock, book, wait);
      StepKeepsOrder(v[1..], now, clock, book, StepOne(v[0], now, clock, book, wait).wait);
      AfterOwn(v[0], now, clock, book);
      assert forall k :: 0 < k < |v| ==> v[k] == v[1..][k - 1];
    }
  }

  lemma AfterOwn(e: Entry<Transaction>, now: int, clock: bool, book: Book)
    ensures var a := After(e, now, clock, book);
            && (e.item.time > now ==> a == [e])
            && (a == [] || (|a| == 1 && a[0].id == e.id && a[0].item.serial == e.item.serial))
  {
    hide Serialized;
  }

  /** So the list stays sorted by message id. */
  lemma {:induction false} SurvivorsSorted(v: Pending, now: int, clock: bool, book: Book)
    requires Sorted(v)
    ensures Sorted(Survivors(v, now, clock, book))
    ensures forall m :: 0 <= m < |Survivors(v, now, clock, book)| ==> v != [] && v[0].id <= Survivors(v, now, clock, book)[m].id
  {
    hide After;
    if v != [] {
      var rest := v[1..];
      assert forall i :: 0 <= i < |rest| ==> rest[i] == v[i + 1];
      SurvivorsSorted(rest, now, clock, book);
      AfterOwn(v[0], now, clock, book);
      var a, b := After(v[0], now, clock, book), Survivors(rest, now, clock, book);
      assert rest != [] ==> v[0].id <= rest[0].id;
      assert forall m :: 0 <= m < |a + b| ==> (a + b)[m] == if m < |a| then a[m] else b[m - |a|];
    }
  }

  lemma SettledSorted(v: Pending, k: nat, t: Transaction, now: int, clock: bool, book: Book)
    requires Sorted(v) && k < |v| && v[k].item == t
    ensures Sorted(Settled(v, k, Send(t, now, clock, book).kept))
  {
    hide Send;
  }

  /** Every input keeps the list sorted, so that a message id finds its transaction whenever there is one. */
  lemma SortedKept(e: Engine, i: Input)
    requires Sorted(e.pending)
    ensures Sorted(Apply(e, i).pending)
    ensures i.Receive? ==> (Find(e.pending, i.mid).Some? <==> Has(e.pending, i.mid))
  {
    hide Send, StepAll, Sorted;
    match i {
      case Create(mid, _, _, _, now, clock, book) =>
        var t := Fresh(e, i);
        InsertedSorted(e.pending, Entry(mid, t));
        SettledSorted(Inserted(e.pending, Entry(mid, t)), AddIndex(e.pending, mid), t, now, clock, book);
      case Tick(None, _, _) =>
      case Tick(Some(now), clock, book) =>
        StepKeepsOrder(e.pending, now, clock, book, 0);
        SurvivorsSorted(e.pending, now, clock, book);
      case Receive(mid, _, _) =>
        FindExact(e.pending, mid);
        if Find(e.pending, mid).Some? {
          WithoutSorted(e.pending, Find(e.pending, mid).value);
        }
    }
  }

  lemma WithoutSorted(v: Pending, k: nat)
    requires Sorted(v) && k < |v|
    ensures Sorted(Without(v, k))
  {
  }

  // ----- without a clock -----

  /** A first send for which the clock cannot be read is also the last: it leaves, and the transaction times out at once. */
  lemma ClockFails(t: Transaction, now: int, book: Book)
    requires t.counter == 0 && Sendable(t)
    ensures var s := Send(t, now, false, book);
            && s.kept == None && s.result != 0 && |s.events| == 2
            && s.events[0].Attempt? && s.events[0].serial == t.serial && s.events[0].at == now
            && s.events[1] == TimedOut(t.serial, now, t.hasCallback)
  {
    hide Serialized;
  }

  // ----- what is sent, and what is not -----

  /**
   * What is serialized once is kept and sent again, whatever the message has become; a message that cannot be serialized
   * leaves nothing and stays. The result is 0 exactly when the transaction was sent and stays.
   */
  lemma BufferSent(t: Transaction, now: int, clock: bool, book: Book)
    ensures var s := Send(t, now, clock, book);
            var wire := if t.wire.Some? then t.wire.value else Serialized(t.message);
            && (wire == [] ==> s == Sent(Some(t), [], INTERNAL_SERVER_ERROR_5_00))
            && (wire != [] && s.kept.Some? ==> s.kept.value.wire == Some(wire))
            && (wire != [] && (t.peer.Client? || t.peer.Server?) ==>
                  s.events != [] && s.events[0] == Attempt(t.serial, now, Some(Datagram(book(t.peer), wire))))
            && (wire != [] ==> s.result == if s.events != [] && s.kept.Some? then 0 else -1)
  {
    hide Serialized;
  }

  /** A new transaction whose message cannot be serialized is due in every step from 0 on, and does nothing in any. */
  lemma UnsendableStays(e: Engine, i: Input, now: int, clock: bool, book: Book, wait: int)
    requires i.Create? && Serialized(i.message) == []
    ensures var x := Entry(i.mid, Fresh(e, i));
            && Apply(e, i) == Engine(Inserted(e.pending, x), e.log, e.created + 1)
            && x.item.time == 0 && (now >= 0 ==> StepOne(x, now, clock, book, wait) == Pass([x], [], wait))
  {
    hide Serialized;
    assert Inserted(e.pending, Entry(i.mid, Fresh(e, i)))[AddIndex(e.pending, i.mid)] == Entry(i.mid, Fresh(e, i));
  }

  // ----- how many sends are left -----

  /** The sends a transaction on schedule still has ahead of it. */
  function Ahead(t: Transaction): nat {
    if t.counter == 0 || t.counter > COAP_MAX_RETRANSMIT then 0 else COAP_MAX_RETRANSMIT + 1 - t.counter
  }

  function Budget(v: Pending): nat {
    if v == [] then 0 else Ahead(v[0].item) + Budget(v[1..])
  }

  lemma {:induction false} BudgetAdds(a: Pending, b: Pending)
    ensures Budget(a + b) == Budget(a) + Budget(b)
  {
    if a == [] {
      assert a + b == b;
    } else {
      assert (a + b)[1..] == a[1..] + b;
      BudgetAdds(a[1..], b);
    }
  }

  lemma StepOneBudget(e: Entry<Transaction>, now: int, clock: bool, book: Book, wait: int, sends: seq<int>)
    requires OnSchedule(e.item, sends)
    ensures var p := StepOne(e, now, clock, book, wait);
            AllAttempts(p.events) + Budget(p.pending) == Ahead(e.item)
  {
    hide Serialized;
    SendCompletes(e.item, now, clock, book, 0);
    var p := StepOne(e, now, clock, book, wait);
    assert p.pending != [] ==> p.pending[1..] == [] && Budget(p.pending) == Ahead(p.pending[0].item);
  }

  lemma {:induction false} StepBudget(v: Pending, log: seq<Event>, now: int, clock: bool, book: Book, wait: int)
    requires forall k :: 0 <= k < |v| ==> OnSchedule(v[k].item, Attempts(log, v[k].item.serial))
    ensures var p := StepAll(v, now, clock, book, wait);
            AllAttempts(p.events) + Budget(p.pending) == Budget(v)
  {
    hide StepOne, OnSchedule;
    if v != [] {
      var first := StepOne(v[0], now, clock, book, wait);
      var rest := StepAll(v[1..], now, clock, book, first.wait);
      StepOneBudget(v[0], now, clock, book, wait, Attempts(log, v[0].item.serial));
      assert forall k :: 0 <= k < |v[1..]| ==> v[1..][k] == v[k + 1];
      StepBudget(v[1..], log, now, clock, book, first.wait);
      TotalsAdd(first.events, rest.events);
      BudgetAdds(first.pending, rest.pending);
    }
  }

  lemma BudgetWithout(v: Pending, k: nat)
    requires k < |v|
    ensures Budget(Without(v, k)) <= Budget(v)
  {
    hide Budget;
    assert v == v[..k] + ([v[k]] + v[k + 1..]);
    BudgetAdds(v[..k], [v[k]] + v[k + 1..]);
    BudgetAdds([v[k]], v[k + 1..]);
    BudgetAdds(v[..k], v[k + 1..]);
  }

  /**
   * Without new transactions, a run spends the budget of the state it starts in: with counter c a transaction
   * has 5 - c sends ahead, and every send made is one less. An answer forfeits the rest.
   */
  lemma {:induction false} SendsBounded(e: Engine, inputs: seq<Input>)
    requires Reachable(e) && forall i :: i in inputs ==> !i.Create?
    ensures var f := Run(e, inputs);
            AllAttempts(f.log) + Budget(f.pending) <= AllAttempts(e.log) + Budget(e.pending)
    decreases |inputs|
  {
    hide Reachable, Apply;
    if inputs != [] {
      assert inputs[0] in inputs && forall i :: i in inputs[1..] ==> i in inputs;
      ReachableKept(e, inputs[0]);
      ApplyBudget(e, inputs[0]);
      SendsBounded(Apply(e, inputs[0]), inputs[1..]);
    }
  }

  lemma ApplyBudget(e: Engine, i: Input)
    requires Reachable(e) && !i.Create?
    ensures var f := Apply(e, i);
            && AllAttempts(f.log) + Budget(f.pending) <= AllAttempts(e.log) + Budget(e.pending)
            && (i.Tick? ==> AllAttempts(f.log) + Budget(f.pending) == AllAttempts(e.log) + Budget(e.pending))
  {
    hide StepAll, OnSchedule;
    match i {
      case Tick(None, _, _) =>
      case Tick(Some(now), clock, book) =>
        StepBudget(e.pending, e.log, now, clock, book, 0);
        TotalsAdd(e.log, StepAll(e.pending, now, clock, book, 0).events);
      case Receive(mid, from, book) =>
        if Find(e.pending, mid).Some? {
          var k := Find(e.pending, mid).value;
          var ev := Answered(e.pending[k].item.serial, e.pending[k].item.hasCallback);
          BudgetWithout(e.pending, k);
          EventCounts(ev, 0);
          TotalsAdd(e.log, [ev]);
        }
    }
  }

  /** The first transaction with the id, pending to a client or a server whose record holds that address. */
  ghost predicate Answers(e: Engine, mid: u16, from: Address, book: Book, k: nat) {
    && k < |e.pending| && e.pending[k].id == mid && (forall i :: 0 <= i < k ==> e.pending[i].id != mid)
    && match e.pending[k].item.peer
       case Client(id) => book(Client(id)) == from
       case Server(index) => book(Server(index)) == from
       case _ => false
  }

  /**
   * A response completes the first transaction with its id if it comes from the address its peer's record holds, and
   * does nothing else; in every other case it does nothing.
   */
  lemma ReceiveExact(e: Engine, mid: u16, from: Address, book: Book)
    requires Sorted(e.pending)
    ensures Apply(e, Receive(mid, from, book)) != e <==> exists k: nat :: Answers(e, mid, from, book, k)
    ensures forall k: nat :: Answers(e, mid, from, book, k) ==>
              Apply(e, Receive(mid, from, book)) ==
              Engine(Without(e.pending, k), e.log + [Answered(e.pending[k].item.serial, e.pending[k].item.hasCallback)], e.created)
  {
    FindExact(e.pending, mid);
    hide Find, Without;
    if Find(e.pending, mid).Some? {
      var k := Find(e.pending, mid).value;
      assert IsFrom(e.pending[k].item.peer, from, book) <==> Answers(e, mid, from, book, k);
      forall j: nat | Answers(e, mid, from, book, j)
        ensures j == k
      {
        assert !(j < k) && !(k < j);
      }
    } else {
      assert forall j: nat :: j < |e.pending| ==> e.pending[j].id != mid;
    }
  }
}
