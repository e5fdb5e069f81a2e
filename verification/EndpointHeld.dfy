/** What the callbacks of registrations change, and what they leave alone. */
module EndpointHeld {
  import opened Bytes
  import opened CoapPacket
  import opened Transactions
  import O = Observe
  import opened RegistrationClient
  import opened Endpoint

  /** The two differ in what is held of the servers and in who may observe, and in nothing else. */
  ghost predicate HeldOnly(c: Context, d: Context) {
    && d == c.(held := d.held, watched := c.watched.(servers := d.watched.servers))
    && |d.held| == |c.held| && |d.watched.servers| == |c.watched.servers|
    && forall k :: 0 <= k < |c.watched.servers| ==> d.watched.servers[k].addr == c.watched.servers[k].addr
  }

  lemma HoldsOnly(c: Context, k: nat, h: Held)
    requires k < |c.held|
    ensures HeldOnly(c, Holds(c, k, h)) && Holds(c, k, h).held == c.held[k := h]
  {
  }

  lemma CalledBackOnly(c: Context, peer: Peer, reply: Option<Packet>)
    ensures HeldOnly(c, CalledBack(c, peer, reply))
  {
    hide OnReply, Holds;
    if peer.Server? && peer.index < |c.held| {
      HoldsOnly(c, peer.index, OnReply(c.held[peer.index], reply));
    }
  }

  lemma {:induction false} HeldTimedOutOnly(c: Context, v: Pending, events: seq<Event>)
    ensures HeldOnly(c, HeldTimedOut(c, v, events))
    decreases |events|
  {
    hide CalledBack, PeerIn;
    if events != [] {
      var ev := events[0];
      var d := if ev.TimedOut? && ev.callbackRun then CalledBack(c, PeerIn(v, ev.serial), None) else c;
      CalledBackOnly(c, PeerIn(v, ev.serial), None);
      HeldTimedOutOnly(d, v, events[1..]);
    }
  }

  lemma {:induction false} NoneTimedOut(c: Context, v: Pending, events: seq<Event>)
    requires forall m :: 0 <= m < |events| ==> !events[m].TimedOut?
    ensures HeldTimedOut(c, v, events) == c
    decreases |events|
  {
    if events != [] {
      NoneTimedOut(c, v, events[1..]);
    }
  }

  // ----- who may observe -----

  /** A server may observe exactly while the client is registered with it. */
  ghost predicate Synced(c: Context) {
    && |c.held| == |c.watched.servers|
    && forall k :: 0 <= k < |c.held| ==> (c.watched.servers[k].registered <==> c.held[k].status == Status.Registered)
  }

  lemma HoldsSynced(c: Context, k: nat, h: Held)
    requires Synced(c) && k < |c.held|
    ensures Synced(Holds(c, k, h))
  {
  }

  lemma CalledBackSynced(c: Context, peer: Peer, reply: Option<Packet>)
    requires Synced(c)
    ensures Synced(CalledBack(c, peer, reply))
  {
    hide OnReply, Holds, Synced;
    if peer.Server? && peer.index < |c.held| {
      HoldsSynced(c, peer.index, OnReply(c.held[peer.index], reply));
    }
  }

  lemma {:induction false} HeldTimedOutSynced(c: Context, v: Pending, events: seq<Event>)
    requires Synced(c)
    ensures Synced(HeldTimedOut(c, v, events))
    decreases |events|
  {
    hide CalledBack, PeerIn, Synced;
    if events != [] {
      var ev := events[0];
      CalledBackSynced(c, PeerIn(v, ev.serial), None);
      HeldTimedOutSynced(if ev.TimedOut? && ev.callbackRun then CalledBack(c, PeerIn(v, ev.serial), None) else c, v, events[1..]);
    }
  }
}
