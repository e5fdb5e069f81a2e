/** A list with ascending ids is a map from ids to records, and its operations are the map's. */
module ListLookup {
  import opened Bytes
  import opened IntrusiveList

  function Lookup<T>(v: seq<Entry<T>>, id: u16): Option<T> {
    match Find(v, id) case None => None case Some(k) => Some(v[k].item)
  }

  lemma AscendingSorted<T>(v: seq<Entry<T>>)
    requires Ascending(v)
    ensures Sorted(v)
  {
  }

  lemma FindAt<T>(v: seq<Entry<T>>, k: nat)
    requires Ascending(v) && k < |v|
    ensures Find(v, v[k].id) == Some(k)
  {
    SkipUnique(v, v[k].id, k);
  }

  lemma LookupExact<T>(v: seq<Entry<T>>, id: u16, t: T)
    requires Ascending(v)
    ensures Lookup(v, id) == Some(t) <==> Entry(id, t) in v
    ensures Lookup(v, id) == None <==> !Has(v, id)
  {
    hide Skip;
    AscendingSorted(v);
    FindExact(v, id);
    if Entry(id, t) in v {
      var k :| 0 <= k < |v| && v[k] == Entry(id, t);
      FindAt(v, k);
    }
  }

  /** Two ascending lists with the same entries elsewhere agree elsewhere. */
  lemma LookupSame<T>(v: seq<Entry<T>>, w: seq<Entry<T>>, id: u16)
    requires Ascending(v) && Ascending(w)
    requires forall t :: Entry(id, t) in v <==> Entry(id, t) in w
    ensures Lookup(v, id) == Lookup(w, id)
  {
    hide Lookup;
    match Lookup(v, id) {
      case Some(t) =>
        LookupExact(v, id, t);
        LookupExact(w, id, t);
      case None =>
        match Lookup(w, id)
        case Some(t) =>
          LookupExact(v, id, t);
          LookupExact(w, id, t);
        case None =>
    }
  }

  lemma LookupInserted<T>(v: seq<Entry<T>>, e: Entry<T>)
    requires Ascending(v) && !Has(v, e.id)
    ensures Ascending(Inserted(v, e)) && |Inserted(v, e)| == |v| + 1
    ensures forall id: u16 :: Lookup(Inserted(v, e), id) == if id == e.id then Some(e.item) else Lookup(v, id)
  {
    InsertedAscending(v, e);
    var k, w := AddIndex(v, e.id), Inserted(v, e);
    hide AddIndex, Inserted, Lookup;
    assert w == Spliced(v, k, e);
    forall id: u16
      ensures Lookup(w, id) == if id == e.id then Some(e.item) else Lookup(v, id)
    {
      if id == e.id {
        LookupExact(w, id, e.item);
      } else {
        LookupSame(v, w, id);
      }
    }
  }

  lemma LookupWithout<T>(v: seq<Entry<T>>, k: nat)
    requires Ascending(v) && k < |v|
    ensures Ascending(Without(v, k))
    ensures forall id: u16 :: Lookup(Without(v, k), id) == if id == v[k].id then None else Lookup(v, id)
  {
    var w := Without(v, k);
    hide Lookup;
    assert forall i :: 0 <= i < |w| ==> w[i] == v[if i < k then i else i + 1];
    forall id: u16
      ensures Lookup(w, id) == if id == v[k].id then None else Lookup(v, id)
    {
      if id == v[k].id {
        LookupExact(w, id, v[k].item);
      } else {
        assert forall t :: Entry(id, t) in v[..k] + [v[k]] + v[k + 1..] <==> Entry(id, t) in w;
        assert v[..k] + [v[k]] + v[k + 1..] == v;
        LookupSame(v, w, id);
      }
    }
  }

  lemma LookupUpdated<T>(v: seq<Entry<T>>, k: nat, t: T)
    requires Ascending(v) && k < |v|
    ensures var w := v[k := v[k].(item := t)];
            && Ascending(w)
            && forall id: u16 :: Lookup(w, id) == if id == v[k].id then Some(t) else Lookup(v, id)
  {
    var w := v[k := v[k].(item := t)];
    hide Lookup;
    assert Ascending(w);
    forall id: u16
      ensures Lookup(w, id) == if id == v[k].id then Some(t) else Lookup(v, id)
    {
      if id == v[k].id {
        assert w[k] == Entry(id, t);
        LookupExact(w, id, t);
      } else {
        forall u
          ensures Entry(id, u) in v <==> Entry(id, u) in w
        {
          assert forall i :: 0 <= i < |v| && i != k ==> v[i] == w[i];
        }
        LookupSame(v, w, id);
      }
    }
  }

  /** The map determines the list. */
  lemma {:induction false} LookupDetermines<T>(v: seq<Entry<T>>, w: seq<Entry<T>>)
    requires Ascending(v) && Ascending(w)
    requires forall id: u16 :: Lookup(v, id) == Lookup(w, id)
    ensures v == w
    decreases |v|
  {
    hide Lookup, Ascending;
    SameHead(v, w);
    if v != [] {
      LookupWithout(v, 0);
      LookupWithout(w, 0);
      assert Without(v, 0) == v[1..] && Without(w, 0) == w[1..];
      LookupDetermines(v[1..], w[1..]);
    }
  }

  lemma SameHead<T>(v: seq<Entry<T>>, w: seq<Entry<T>>)
    requires Ascending(v) && Ascending(w)
    requires forall id: u16 :: Lookup(v, id) == Lookup(w, id)
    ensures if v == [] then w == [] else w != [] && v[0] == w[0]
  {
    if v != [] {
      FindAt(v, 0);
      HeadLeast(w, v[0].id);
    }
    if w != [] {
      FindAt(w, 0);
      HeadLeast(v, w[0].id);
    }
  }

  lemma HeadLeast<T>(v: seq<Entry<T>>, id: u16)
    requires Ascending(v) && Lookup(v, id).Some?
    ensures v != [] && v[0].id <= id
  {
  }
}
