/** The transaction list of lwm2m_context_t on linked nodes: sends that unlink nodes, and the walk that survives it. */
module TransactionContext {
  import opened Bytes
  import opened CoapPacket
  import opened IntrusiveList
  import opened Transactions

  class PendingList {
    var transactionList: Node?<Transaction>
    /** What went out and which callbacks ran, in order. */
    var log: seq<Event>
    var created: nat
    ghost var spine: seq<Node<Transaction>>

    ghost predicate Valid()
      reads this, spine
    {
      Chain(transactionList, spine)
    }

    ghost function State(): Engine
      reads this, spine
    {
      Engine(View(spine), log, created)
    }

    constructor ()
      ensures Valid() && State() == EMPTY
    {
      transactionList, log, created, spine := null, [], 0, [];
    }

    /** transaction_remove: the head, or the node behind the one that links to it. */
    method TransactionRemove(n: Node<Transaction>, ghost k: nat)
      requires Valid() && k < |spine| && n == spine[k]
      modifies this`transactionList, this`spine, spine`next
      ensures Valid() && spine == Without(old(spine), k)
    {
      if n == transactionList {
        assert k == 0;
        transactionList := transactionList.next;
        spine := Without(spine, 0);
      } else {
        var previous := transactionList;
        ghost var i := 0;
        while previous.next != null && previous.next != n
          invariant 0 <= i < k && previous == spine[i]
          decreases |spine| - i
        {
          previous := previous.next;
          i := i + 1;
        }
        assert i + 1 == k;
        spine := Unlink(transactionList, previous, spine, i);
      }
    }

    /** transaction_send */
    method TransactionSend(n: Node<Transaction>, ghost k: nat, now: int, clock: bool, book: Book) returns (result: int)
      requires Valid() && k < |spine| && n == spine[k]
      modifies this`transactionList, this`spine, this`log, spine`next, n`item
      ensures Valid()
      ensures var s := Send(old(n.item), now, clock, book);
              && result == s.result && log == old(log) + s.events
              && match s.kept
                 case Some(t) => spine == old(spine) && n.item == t
                 case None => spine == Without(old(spine), k)
    {
      hide Chain, Serialized;
      result := 0;
      if n.item.wire.None? {
        var bytes := Serialized(n.item.message);
        if bytes == [] {
          return INTERNAL_SERVER_ERROR_5_00;
        }
        n.item := n.item.(wire := Some(bytes));
      } else if n.item.wire.value == [] {
        return INTERNAL_SERVER_ERROR_5_00;
      }
      if n.item.peer.UnknownPeer? {
        return -1;
      }
      log := log + [Attempt(n.item.serial, now, DatagramOf(n.item, book))];
      if n.item.counter == 0 {
        if clock {
          n.item := n.item.(time := now, counter := 1);
        } else {
          n.item := n.item.(counter := COAP_MAX_RETRANSMIT);
        }
      }
      if n.item.counter < COAP_MAX_RETRANSMIT {
        n.item := n.item.(time := n.item.time + COAP_RESPONSE_TIMEOUT * n.item.counter);
        n.item := n.item.(counter := n.item.counter + 1);
      } else {
        log := log + [TimedOut(n.item.serial, now, n.item.hasCallback)];
        TransactionRemove(n, k);
        result := -1;
      }
    }

    /** The turn of lwm2m_step for one transaction. */
    method StepNode(n: Node<Transaction>, ghost k: nat, now: int, clock: bool, book: Book, timeout: int) returns (timeout': int)
      requires Valid() && k < |spine| && n == spine[k]
      modifies this`transactionList, this`spine, this`log, spine`next, n`item
      ensures Valid()
      ensures var p := StepOne(Entry(n.id, old(n.item)), now, clock, book, timeout);
              && timeout' == p.wait && log == old(log) + p.events
              && if p.pending == [] then spine == Without(old(spine), k)
                 else spine == old(spine) && p.pending == [Entry(n.id, n.item)]
    {
      hide Chain, Send;
      timeout' := timeout;
      var removed := 0;
      if n.item.time <= now {
        removed := TransactionSend(n, k, now, clock, book);
      }
      if removed == 0 {
        SendZeroKeeps(old(n.item), now, clock, book);
        var interval := if n.item.time > now then n.item.time - now else 1;
        if timeout' > interval {
          timeout' := interval;
        }
      }
    }

    /** lwm2m_step, the reading being None when gettimeofday fails. */
    method Step(reading: Option<int>, clock: bool, book: Book, timeout: int) returns (timeout': int)
      requires Valid()
      modifies this, spine
      ensures Valid() && State() == Apply(old(State()), Tick(reading, clock, book))
      ensures timeout' == if reading.None? then timeout else StepAll(old(View(spine)), reading.value, clock, book, timeout).wait
    {
      timeout' := timeout;
      if reading == None {
        return;
      }
      timeout' := Walk(reading.value, clock, book, timeout);
      WaitIrrelevant(old(View(spine)), reading.value, clock, book, timeout, 0);
    }

    /** The walk stands at s[i]: done is what it left on the list, the entries v[i..] are as they were. */
    ghost predicate Walking(s: seq<Node<Transaction>>, v: Pending, done: seq<Node<Transaction>>, i: nat,
                            transacP: Node?<Transaction>)
      reads this, spine, s
    {
      && Valid() && i <= |s| == |v| && transacP == LinkAt(s, i)
      && spine == done + s[i..]
      && (forall m :: 0 <= m < |spine| ==> spine[m] in s)
      && (forall j :: i <= j < |s| ==> v[j] == Entry(s[j].id, s[j].item))
    }

    lemma WalkStarts()
      requires Valid()
      ensures Walking(spine, View(spine), [], 0, transactionList)
    {
    }

    lemma WalkingAt(s: seq<Node<Transaction>>, v: Pending, done: seq<Node<Transaction>>, i: nat, transacP: Node?<Transaction>)
      requires Walking(s, v, done, i, transacP)
      ensures Valid() && |s| == |v|
      ensures if transacP == null then i == |s| && spine == done else i < |s| && transacP in s
      ensures forall m :: 0 <= m < |spine| ==> spine[m] in s
    {
    }

    /** nextP is read before the send, which may unlink transacP. */
    method WalkOn(transacP: Node<Transaction>, ghost s: seq<Node<Transaction>>, ghost v: Pending,
                  ghost done: seq<Node<Transaction>>, ghost i: nat, now: int, clock: bool, book: Book, timeout: int)
      returns (nextP: Node?<Transaction>, timeout': int, ghost done': seq<Node<Transaction>>)
      requires Walking(s, v, done, i, transacP)
      modifies this`transactionList, this`spine, this`log, s
      ensures Walking(s, v, done', i + 1, nextP)
      ensures var p := StepOne(v[i], now, clock, book, timeout);
              && timeout' == p.wait && log == old(log) + p.events
              && View(done') == old(View(done)) + p.pending
    {
      hide StepOne, Chain;
      ghost var k, before := |done|, View(done);
      NextOf(transactionList, spine, k);
      DoneApart(transactionList, spine, done, k);
      assert forall j :: i < j < |s| ==> s[j] == spine[k + j - i];
      nextP := transacP.next;
      timeout' := StepNode(transacP, k, now, clock, book, timeout);
      assert View(done) == before;
      WithoutAt(done, s, i);
      if StepOne(v[i], now, clock, book, timeout).pending == [] {
        done' := done;
      } else {
        done' := done + [transacP];
      }
      assert spine == done' + s[i + 1..];
    }

    method Walk(now: int, clock: bool, book: Book, timeout: int) returns (timeout': int)
      requires Valid()
      modifies this`transactionList, this`spine, this`log, spine
      ensures Valid()
      ensures var p := StepAll(old(View(spine)), now, clock, book, timeout);
              View(spine) == p.pending && log == old(log) + p.events && timeout' == p.wait
    {
      hide StepOne, StepAll, Resumed, Walking, Valid, Chain;
      ghost var s, v := spine, View(spine);
      ghost var done: seq<Node<Transaction>> := [];
      ghost var kept, events, i := View(done), [], 0;
      timeout' := timeout;
      var transacP := transactionList;
      WalkStarts();
      assert v[0..] == v;
      ResumedStart(StepAll(v, now, clock, book, timeout));
      while transacP != null
        invariant 0 <= i <= |s| == |v| && Walking(s, v, done, i, transacP)
        invariant log == old(log) + events && View(done) == kept
        invariant StepAll(v, now, clock, book, timeout) == Resumed(kept, events, StepAll(v[i..], now, clock, book, timeout'))
        decreases |s| - i
      {
        WalkingAt(s, v, done, i, transacP);
        ghost var p := StepOne(v[i], now, clock, book, timeout');
        StepResumes(v, i, now, clock, book, timeout', kept, events);
        transacP, timeout', done := WalkOn(transacP, s, v, done, i, now, clock, book, timeout');
        kept, events, i := kept + p.pending, events + p.events, i + 1;
      }
      WalkingAt(s, v, done, i, transacP);
      assert v[i..] == [];
      ResumedEnd(kept, events, now, clock, book, timeout');
    }

    /** transaction_new and the addition to the list. */
    method AddTransaction(mid: u16, t: Transaction) returns (n: Node<Transaction>, ghost k: nat)
      requires Valid()
      modifies this`transactionList, this`spine, spine`next
      ensures Valid() && fresh(n)
      ensures View(spine) == Inserted(old(View(spine)), Entry(mid, t))
      ensures k == AddIndex(old(View(spine)), mid) && k < |spine| && n == spine[k] && n.item == t && n.id == mid
      ensures forall i :: 0 <= i < |spine| ==> spine[i] == n || spine[i] in old(spine)
    {
      hide Chain, AddIndex, Spliced, Inserted;
      k := AddIndex(View(spine), mid);
      ghost var before, v := spine, View(spine);
      n := new Node(mid, t);
      assert View(before) == v;
      var first;
      ghost var after;
      first, after := Add(transactionList, n, spine);
      assert View(before) == v;
      transactionList, spine := first, after;
      SplicedMembers(before, k, n);
    }

    /** A request as the engine makes it: the new transaction on the list, then its first send. */
    method StartTransaction(mid: u16, message: Message, peer: Peer, hasCallback: bool, now: int, clock: bool, book: Book)
      returns (result: int)
      requires Valid()
      modifies this, spine
      ensures Valid() && State() == Apply(old(State()), Create(mid, message, peer, hasCallback, now, clock, book))
      ensures result == Send(Fresh(old(State()), Create(mid, message, peer, hasCallback, now, clock, book)), now, clock, book).result
    {
      hide Chain, Send, AddIndex, Inserted;
      var t := Transaction(created, peer, message, hasCallback, 0, 0, None);
      ghost var k;
      var n;
      n, k := AddTransaction(mid, t);
      created := created + 1;
      ghost var w, s := View(spine), spine;
      assert w[k] == Entry(mid, t);
      NodesApart(transactionList, spine, k);
      result := TransactionSend(n, k, now, clock, book);
      SettledView(w, s, k, n, Send(t, now, clock, book).kept, spine);
    }

    /** handle_response for a message with this id from this address. */
    method HandleResponse(mid: u16, from: Address, book: Book)
      requires Valid()
      modifies this, spine
      ensures Valid() && State() == Apply(old(State()), Receive(mid, from, book))
    {
      hide Chain, Find, Without;
      var n := FindNode(transactionList, mid, spine);
      if n != null && IsFrom(n.item.peer, from, book) {
        ghost var k := Find(View(spine), mid).value;
        log := log + [Answered(n.item.serial, n.item.hasCallback)];
        ghost var before, v := spine, View(spine);
        TransactionRemove(n, k);
        WithoutView(before, v, k);
      }
    }
  }

  lemma WithoutView(s: seq<Node<Transaction>>, v: Pending, k: nat)
    requires k < |s| == |v| && forall i :: 0 <= i < |v| ==> v[i] == Entry(s[i].id, s[i].item)
    ensures View(Without(s, k)) == Without(v, k)
  {
  }

  lemma SendZeroKeeps(t: Transaction, now: int, clock: bool, book: Book)
    ensures Send(t, now, clock, book).result == 0 <==> Send(t, now, clock, book).events != [] && Send(t, now, clock, book).kept.Some?
    ensures Send(t, now, clock, book).result == 0 ==> Send(t, now, clock, book).kept.Some?
  {
    hide Serialized;
  }

  lemma NextOf(head: Node?<Transaction>, spine: seq<Node<Transaction>>, k: nat)
    requires Chain(head, spine) && k < |spine|
    ensures spine[k].next == LinkAt(spine, k + 1)
  {
  }

  lemma WithoutAt(done: seq<Node<Transaction>>, s: seq<Node<Transaction>>, i: nat)
    requires i < |s|
    ensures Without(done + s[i..], |done|) == done + s[i + 1..]
    ensures done + s[i..] == done + [s[i]] + s[i + 1..]
  {
  }

  lemma NodesApart(head: Node?<Transaction>, spine: seq<Node<Transaction>>, k: nat)
    requires Chain(head, spine) && k < |spine|
    ensures forall j :: 0 <= j < |spine| && j != k ==> spine[j] != spine[k]
  {
  }

  lemma SplicedMembers(s: seq<Node<Transaction>>, k: nat, n: Node<Transaction>)
    requires k <= |s|
    ensures forall i :: 0 <= i < |s| + 1 ==> Spliced(s, k, n)[i] == n || Spliced(s, k, n)[i] in s
  {
  }

  lemma DoneApart(head: Node?<Transaction>, spine: seq<Node<Transaction>>, done: seq<Node<Transaction>>, k: nat)
    requires Chain(head, spine) && k == |done| < |spine| && spine[..k] == done
    ensures spine[k] !in done && forall j :: k < j < |spine| ==> spine[j] != spine[k]
  {
    forall j | 0 <= j < k
      ensures done[j] != spine[k]
    {
      assert done[j] == spine[j];
    }
  }

  /** What a walk has kept and logged so far, and what the rest of it adds. */
  ghost function Resumed(kept: Pending, events: seq<Event>, rest: Pass): Pass {
    Pass(kept + rest.pending, events + rest.events, rest.wait)
  }

  lemma ResumedStart(rest: Pass)
    ensures Resumed([], [], rest) == rest
  {
  }

  lemma ResumedEnd(kept: Pending, events: seq<Event>, now: int, clock: bool, book: Book, wait: int)
    ensures Resumed(kept, events, StepAll([], now, clock, book, wait)) == Pass(kept, events, wait)
  {
  }

  lemma StepResumes(v: Pending, i: nat, now: int, clock: bool, book: Book, wait: int, kept: Pending, events: seq<Event>)
    requires i < |v|
    ensures var p := StepOne(v[i], now, clock, book, wait);
            Resumed(kept, events, StepAll(v[i..], now, clock, book, wait)) ==
            Resumed(kept + p.pending, events + p.events, StepAll(v[i + 1..], now, clock, book, p.wait))
  {
    hide StepOne;
    assert v[i..][1..] == v[i + 1..];
    var p := StepOne(v[i], now, clock, book, wait);
    var rest := StepAll(v[i + 1..], now, clock, book, p.wait);
    assert kept + (p.pending + rest.pending) == kept + p.pending + rest.pending;
    assert events + (p.events + rest.events) == events + p.events + rest.events;
  }

  /** The wait handed in does not change what is kept or logged. */
  lemma {:induction false} WaitIrrelevant(v: Pending, now: int, clock: bool, book: Book, a: int, b: int)
    ensures StepAll(v, now, clock, book, a).pending == StepAll(v, now, clock, book, b).pending
    ensures StepAll(v, now, clock, book, a).events == StepAll(v, now, clock, book, b).events
  {
    hide Send;
    if v != [] {
      WaitIrrelevant(v[1..], now, clock, book, StepOne(v[0], now, clock, book, a).wait, StepOne(v[0], now, clock, book, b).wait);
    }
  }

  lemma SettledView(w: Pending, s: seq<Node<Transaction>>, k: nat, n: Node<Transaction>, kept: Option<Transaction>,
                    after: seq<Node<Transaction>>)
    requires |w| == |s| && k < |s| && n == s[k]
    requires forall i :: 0 <= i < |s| && i != k ==> w[i] == Entry(s[i].id, s[i].item)
    requires w[k].id == n.id
    requires match kept case Some(t) => after == s && n.item == t case None => after == Without(s, k)
    ensures View(after) == Settled(w, k, kept)
  {
  }
}
