// The second level over whole runs: whom it evicts, what a scan of keys read
// once does to it, and how a deleted entry can outlive a live one there.
module Lru2Recency {
  import opened Prelude
  import opened Lru2List
  import opened Lru2Laws
  import opened Lru2Bucket
  import opened Lru2Coherence

  // ---- order ------------------------------------------------------------------

  // The latest Get of each key.
  function LastGets(es: seq<Event>): map<Key, nat>
    decreases |es|
  {
    if es == [] then map[]
    else
      var m, n := LastGets(es[..|es| - 1]), |es| - 1;
      if es[n].Get? then m[es[n].k := n] else m
  }

  lemma TouchedByGet(s: seq<Node>, gets: map<Key, nat>, k: Key, n: nat)
    requires BySet(s, gets) && DistinctKeys(s) && forall x :: x in gets ==> gets[x] < n
    ensures BySet(Touched(s, k), gets[k := n])
  {
    hide BySet;
    var i := Find(s, k);
    if i < |s| {
      WithoutMembers(s, i);
      WithoutBySet(s, i, gets);
      NewestFirst(Without(s, i), gets, s[i], n);
    } else {
      OtherKey(s, gets, k, n);
    }
  }

  lemma OtherKey(s: seq<Node>, gets: map<Key, nat>, k: Key, n: nat)
    requires BySet(s, gets) && Find(s, k) == |s|
    ensures BySet(s, gets[k := n])
  {
  }

  lemma Renumber(s: seq<Node>, gets: map<Key, nat>, k: Key, n: nat)
    requires BySet(s, gets - {k})
    ensures BySet(s, gets[k := n])
  {
  }

  lemma ReadByGet(b: Bucket, gets: map<Key, nat>, k: Key, now1: int64, now2: int64, n: nat)
    requires Ok(b) && BySet(b.l2, gets) && forall x :: x in gets ==> gets[x] < n
    ensures BySet(Read(b, k, now1, now2).0.l2, gets[k := n])
  {
    hide BySet, Touched, Stored, Killed, Lookup, DistinctKeys;
    match Lookup(b.l1, k) {
      case Some(x) =>
        LookupKey(b.l1, k);
        StoredBySet(b.c2, b.l2, gets, k, x.v, x.expireAt, n);
        KilledBySet(b.l2, gets, k);
        Renumber(Killed(b.l2, k), gets, k, n);
      case None =>
        TouchedByGet(b.l2, gets, k, n);
        TouchedLookup(b.l2, k, k);
        KilledBySet(Touched(b.l2, k), gets[k := n], k);
    }
  }

  lemma {:induction false} PurgedByGet(b: Bucket, gets: map<Key, nat>, keys: seq<Key>)
    requires Ok(b) && BySet(b.l2, gets)
    ensures BySet(Purged(b, keys).0.l2, gets)
    decreases |keys|
  {
    hide BySet, Killed;
    if keys != [] {
      var front := keys[..|keys| - 1];
      PurgedByGet(b, gets, front);
      PurgedLookup(b, front, []);
      KilledBySet(Purged(b, front).0.l2, gets, keys[|keys| - 1]);
    }
  }

  // In every reachable bucket the live second-level entries are listed by the
  // latest Get of their keys, newest first.
  lemma {:induction false} GetOrder(c1: nat, c2: nat, es: seq<Event>)
    requires c1 > 0 && c2 > 0 && Run(es)
    ensures BySet(After(c1, c2, es).b.l2, LastGets(es))
    ensures forall k :: k in LastGets(es) ==> LastGets(es)[k] < |es|
    decreases |es|
  {
    hide BySet, Read, Write, Killed;
    if es != [] {
      var front, ev := es[..|es| - 1], es[|es| - 1];
      var w, n := After(c1, c2, front), |es| - 1;
      GetOrder(c1, c2, front);
      Reachable(c1, c2, front);
      match ev {
        case Set(k, v, e) => WriteSecond(w.b, k, v, e);
        case Get(k, now1, now2) => ReadByGet(w.b, LastGets(front), k, now1, now2, n);
        case Del(k) => KilledBySet(w.b.l2, LastGets(front), k);
        case Tick(now) => PurgedByGet(w.b, LastGets(front), Expired(w.b, now));
      }
    } else {
      NothingListed(LastGets(es));
    }
  }

  lemma NothingListed(gets: map<Key, nat>)
    ensures BySet([], gets)
  {
  }

  lemma WriteSecond(b: Bucket, k: Key, v: Value, e: int64)
    requires b.c1 > 0
    ensures Write(b, k, v, e).0.l2 == b.l2
  {
  }

  // So the live entry a promotion drops is the one whose key was read least
  // recently of all the live ones.
  lemma LeastReadEvicted(c1: nat, c2: nat, es: seq<Event>, k: Key, k': Key)
    requires c1 > 0 && c2 > 0 && Run(es)
    ensures var s, gets := After(c1, c2, es).b.l2, LastGets(es); var out := Victim(c2, s, k);
            out.Some? && out.value.Live() && Lookup(s, k').Some? ==>
              out.value.k in gets && k' in gets && gets[out.value.k] <= gets[k']
  {
    hide After, DistinctKeys;
    GetOrder(c1, c2, es);
    var s := After(c1, c2, es).b.l2;
    if Lookup(s, k').Some? {
      var i := Find(s, k');
      assert s[i].Live() && s[i].k == k';
    }
  }

  // ---- scans ------------------------------------------------------------------

  // Event ev neither deletes nor expires the second-level entry of k, and is no
  // Get that promotes: reading a key for the first time since it was stored.
  predicate Spares(b: Bucket, ev: Event, k: Key) {
    match ev
    case Set(_, _, e) => e > 0
    case Get(k', now1, _) => Lookup(b.l1, k') == None && (k' == k ==> !Overdue(Lookup(b.l2, k), now1))
    case Del(k') => k' != k
    case Tick(now) => !Overdue(Lookup(b.l1, k), now) && !Overdue(Lookup(b.l2, k), now)
  }

  predicate SparesAll(w: World, es: seq<Event>, i: nat, k: Key)
    requires w.b.c1 > 0 && w.b.c2 > 0
    decreases |es|
  {
    es == [] ||
      (CapsKept(w, es[0], i);
       Spares(w.b, es[0], k) && SparesAll(Step(w, es[0], i), es[1..], i + 1, k))
  }

  lemma StepSpares(w: World, ev: Event, i: nat, k: Key)
    requires Ok(w.b) && Spares(w.b, ev, k)
    ensures Ok(Step(w, ev, i).b) && Lookup(Step(w, ev, i).b.l2, k) == Lookup(w.b.l2, k)
  {
    hide Lookup, Killed, Touched, Stored, DistinctKeys, DeadLast, Swept, Removed;
    match ev {
      case Set(k', v, e) => WriteLookup(w.b, k', v, e, k);
      case Get(k', now1, now2) =>
        ReadOwn(w.b, k', now1, now2);
        SecondSpares(w.b, k', now1, now2, k);
      case Del(k') => RemovedLookup(w.b, k', k);
      case Tick(now) => SweptLookup(w.b, now, k);
    }
  }

  lemma SecondSpares(b: Bucket, k: Key, now1: int64, now2: int64, k': Key)
    requires Ok(b) && Lookup(b.l1, k) == None && (k == k' ==> !Overdue(Lookup(b.l2, k), now1))
    ensures Lookup(Read(b, k, now1, now2).0.l2, k') == Lookup(b.l2, k')
  {
    hide Lookup, Killed, Touched, DistinctKeys, DeadLast;
    TouchedLookup(b.l2, k, k');
    KilledLookup(Touched(b.l2, k), k, k');
  }

  // A scan cannot push anything out of the second level: however many keys are
  // stored, and read without being found in the first level, a second-level
  // entry stays until it is deleted or expires.
  lemma {:induction false} ScanResistant(w: World, es: seq<Event>, i: nat, k: Key)
    requires Ok(w.b) && SparesAll(w, es, i, k)
    ensures Lookup(Steps(w, es, i).b.l2, k) == Lookup(w.b.l2, k)
    decreases |es|
  {
    hide Step, Spares, Lookup;
    if es != [] {
      StepSpares(w, es[0], i, k);
      ScanResistant(Step(w, es[0], i), es[1..], i + 1, k);
    }
  }

  // ---- a deleted entry that outlives a live one -----------------------------------

  // Two keys promoted, the second deleted and asked for once more.
  function TwoPromoted(a: Key, b: Key, v: Value): seq<Event> {
    [Set(a, v, 9), Get(a, 1, 1), Set(b, v, 9), Get(b, 1, 1), Del(b), Get(b, 1, 1)]
  }

  // The buckets a run goes through.
  ghost predicate Through(bs: seq<Bucket>, es: seq<Event>) {
    |bs| == |es| + 1
    && forall i {:trigger es[i]} :: 0 <= i < |es| ==> bs[i].c1 > 0 && bs[i].c2 > 0 && bs[i + 1] == Effect(bs[i], es[i])
  }

  lemma {:induction false} ThroughAfter(c1: nat, c2: nat, bs: seq<Bucket>, es: seq<Event>)
    requires c1 > 0 && c2 > 0 && Through(bs, es) && bs[0] == Bucket(c1, c2, [], [])
    ensures After(c1, c2, es).b == bs[|es|]
    decreases |es|
  {
    hide Step, Effect;
    if es != [] {
      var n := |es| - 1;
      var front := es[..n];
      forall i | 0 <= i < n ensures bs[i].c1 > 0 && bs[i].c2 > 0 && bs[i + 1] == Effect(bs[i], front[i]) {
        assert front[i] == es[i];
      }
      ThroughAfter(c1, c2, bs[..|es|], front);
      SameEffect(After(c1, c2, front), es[n], n);
    }
  }

  lemma PromoteFirst(a: Key, v: Value)
    ensures Write(Bucket(1, 2, [], []), a, v, 9).0 == Bucket(1, 2, [Node(a, v, 9)], [])
    ensures Read(Bucket(1, 2, [Node(a, v, 9)], []), a, 1, 1).0 == Bucket(1, 2, [Node(a, v, 0)], [Node(a, v, 9)])
  {
    assert Without([Node(a, v, 9)], 0) == [];
  }

  lemma PromoteSecond(a: Key, b: Key, v: Value)
    requires a != b
    ensures Write(Bucket(1, 2, [Node(a, v, 0)], [Node(a, v, 9)]), b, v, 9).0
            == Bucket(1, 2, [Node(b, v, 9)], [Node(a, v, 9)])
    ensures Read(Bucket(1, 2, [Node(b, v, 9)], [Node(a, v, 9)]), b, 1, 1).0
            == Bucket(1, 2, [Node(b, v, 0)], [Node(b, v, 9), Node(a, v, 9)])
  {
    assert Without([Node(b, v, 9)], 0) == [];
  }

  lemma DeleteSecond(a: Key, b: Key, v: Value)
    requires a != b
    ensures Removed(Bucket(1, 2, [Node(b, v, 0)], [Node(b, v, 9), Node(a, v, 9)]), b).0
            == Bucket(1, 2, [Node(b, v, 0)], [Node(a, v, 9), Node(b, v, 0)])
  {
    assert Without([Node(b, v, 9), Node(a, v, 9)], 0) == [Node(a, v, 9)];
  }

  lemma ReadDeleted(a: Key, b: Key, v: Value)
    requires a != b
    ensures Read(Bucket(1, 2, [Node(b, v, 0)], [Node(a, v, 9), Node(b, v, 0)]), b, 1, 1).0
            == Bucket(1, 2, [Node(b, v, 0)], [Node(b, v, 0), Node(a, v, 9)])
  {
    FindUnique([Node(a, v, 9), Node(b, v, 0)], b, 1);
    assert Without([Node(a, v, 9), Node(b, v, 0)], 1) == [Node(a, v, 9)];
  }

  // From an empty bucket with two second-level slots: the next promotion drops
  // the live entry although a deleted one is there.
  lemma DeletedOutlivesLive(a: Key, b: Key, c: Key, v: Value)
    requires a != b && a != c && b != c
    ensures var l2 := After(1, 2, TwoPromoted(a, b, v)).b.l2;
            && Victim(2, l2, c) == Some(Node(a, v, 9)) && Node(a, v, 9).Live()
            && l2 == [Node(b, v, 0), Node(a, v, 9)] && !Node(b, v, 0).Live()
  {
    hide Read, Write, Removed;
    PromoteFirst(a, v);
    PromoteSecond(a, b, v);
    DeleteSecond(a, b, v);
    ReadDeleted(a, b, v);
    var x, x0, y, y0 := Node(a, v, 9), Node(a, v, 0), Node(b, v, 9), Node(b, v, 0);
    var bs := [Bucket(1, 2, [], []), Bucket(1, 2, [x], []), Bucket(1, 2, [x0], [x]), Bucket(1, 2, [y], [x]),
               Bucket(1, 2, [y0], [y, x]), Bucket(1, 2, [y0], [x, y0]), Bucket(1, 2, [y0], [y0, x])];
    ThroughAfter(1, 2, bs, TwoPromoted(a, b, v));
  }
}
