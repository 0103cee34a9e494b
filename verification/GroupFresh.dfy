// Freshness of the read path without a fixed source: which Set or write-back
// the value of a cache hit comes from, in any run of the group.
module GroupFresh {
  import opened Prelude
  import B = Lru2Bucket
  import C = Lru2Coherence
  import SF = SingleFlight
  import opened GroupGet

  // ---- what an event does to the store --------------------------------------

  // The bucket operation of adding an entry to the cache, if it gets that far.
  function Adding(w: World, k: Key, v: Prelude.Value, deadline: Option<int64>): Option<(nat, C.Event)>
    requires Shaped(w)
  {
    if w.cacheClosed || deadline.None? then None else Some((Home(w, k), C.Set(k, v, deadline.value)))
  }

  // The bucket an event works on, and how.
  function Op(w: World, ev: Event): (r: Option<(nat, C.Event)>)
    requires Shaped(w) && Enabled(w, ev)
  {
    match ev
    case Lookup(t, now1, now2) =>
      if w.cacheClosed then None else Some((Home(w, w.callers[t].key), C.Get(w.callers[t].key, now1, now2)))
    case WriteBack(t, d) => Adding(w, w.callers[t].key, w.callers[t].pc.v, d)
    case Set(k, b, d, early) =>
      if (w.closed && !early) || k == [] || b == [] then None else Adding(w, k, View(b), d)
    case Delete(k, early) =>
      if (w.closed && !early) || k == [] || w.cacheClosed then None else Some((Home(w, k), C.Del(k)))
    case Tick(i, now) => Some((i, C.Tick(now)))
    case _ => None
  }

  lemma OpEffect(w: World, ev: Event)
    requires Shaped(w) && Enabled(w, ev)
    ensures match Op(w, ev)
            case None => Next(w, ev).buckets == w.buckets
            case Some(x) => x.0 < |w.buckets| && Next(w, ev).buckets == w.buckets[x.0 := C.Effect(w.buckets[x.0], x.1)]
    ensures Op(w, ev).Some? && Op(w, ev).value.1.Set? ==> Op(w, ev).value.1.e > 0
  {
    hide B.Read, B.Write, B.Removed, B.Swept;
  }

  // The operations on bucket i, each with the position of its event.
  ghost function Log(w: World, es: seq<Event>, i: nat): seq<(nat, C.Event)>
    requires Shaped(w) && Legal(w, es)
    decreases |es|
  {
    if es == [] then []
    else
      var front, last := es[..|es| - 1], es[|es| - 1];
      var op := Op(After(w, front), last);
      Log(w, front, i) + if op.Some? && op.value.0 == i then [(|front|, op.value.1)] else []
  }

  function Operations(log: seq<(nat, C.Event)>): (r: seq<C.Event>)
    ensures |r| == |log| && forall j {:trigger r[j]} :: 0 <= j < |log| ==> r[j] == log[j].1
  {
    seq(|log|, j requires 0 <= j < |log| => log[j].1)
  }

  lemma OperationsSnoc(log: seq<(nat, C.Event)>, x: (nat, C.Event))
    ensures Operations(log + [x]) == Operations(log) + [x.1]
  {
  }

  // The bucket ends as its own operations leave it.
  lemma {:induction false} LogBucket(w: World, es: seq<Event>, i: nat)
    requires Initial(w) && Legal(w, es) && i < |w.buckets|
    ensures |After(w, es).buckets| == |w.buckets|
    ensures After(w, es).buckets[i] == C.After(w.buckets[i].c1, w.buckets[i].c2, Operations(Log(w, es, i))).b
    ensures C.Run(Operations(Log(w, es, i)))
    decreases |es|
  {
    hide Next, Enabled, Op, C.Step;
    if es != [] {
      var front, last := es[..|es| - 1], es[|es| - 1];
      LogBucket(w, front, i);
      var w', log := After(w, front), Log(w, front, i);
      OpEffect(w', last);
      var op := Op(w', last);
      if op.Some? && op.value.0 == i {
        OperationsSnoc(log, (|front|, op.value.1));
        C.OneMoreEvent(w.buckets[i].c1, w.buckets[i].c2, Operations(log), op.value.1);
        C.SameEffect(C.After(w.buckets[i].c1, w.buckets[i].c2, Operations(log)), op.value.1, |log|);
      } else {
        assert Log(w, es, i) == log;
      }
    }
  }

  // Event p of the run works on bucket i as op says.
  ghost predicate Does(w: World, es: seq<Event>, p: nat, i: nat, op: C.Event)
    requires Shaped(w) && Legal(w, es)
  {
    p < |es| && Op(At(w, es, p), es[p]) == Some((i, op))
  }

  lemma DoesFront(w: World, es: seq<Event>, p: nat, i: nat, op: C.Event)
    requires Shaped(w) && Legal(w, es) && p < |es| - 1
    ensures Legal(w, es[..|es| - 1]) && (Does(w, es, p, i, op) <==> Does(w, es[..|es| - 1], p, i, op))
  {
    hide Op, Next;
    AtFront(w, es, p);
  }

  ghost predicate Listed(w: World, es: seq<Event>, i: nat, log: seq<(nat, C.Event)>)
    requires Shaped(w) && Legal(w, es)
  {
    && (forall j {:trigger log[j]} :: 0 <= j < |log| ==> Does(w, es, log[j].0, i, log[j].1))
    && (forall j, j' {:trigger log[j], log[j']} :: 0 <= j < j' < |log| ==> log[j].0 < log[j'].0)
  }

  // The log lists, in order, only events that work on the bucket ...
  lemma {:induction false} LogSound(w: World, es: seq<Event>, i: nat)
    requires Shaped(w) && Legal(w, es)
    ensures Listed(w, es, i, Log(w, es, i))
    decreases |es|
  {
    hide Next, Op, Enabled, Does;
    if es != [] {
      var front, last := es[..|es| - 1], es[|es| - 1];
      LogSound(w, front, i);
      var log, op := Log(w, front, i), Op(After(w, front), last);
      if op.Some? {
        DoesLast(w, es, i, op.value.1);
      }
      forall j | 0 <= j < |log| ensures log[j].0 < |front| && Does(w, es, log[j].0, i, log[j].1) {
        DoesBefore(w, front, log[j].0, i, log[j].1);
        DoesFront(w, es, log[j].0, i, log[j].1);
      }
    }
  }

  // ... and all of them.
  lemma {:induction false} LogComplete(w: World, es: seq<Event>, i: nat, p: nat, op: C.Event)
    requires Shaped(w) && Legal(w, es) && Does(w, es, p, i, op)
    ensures (p, op) in Log(w, es, i)
    decreases |es|
  {
    hide Next, Op, Enabled, Does;
    DoesBefore(w, es, p, i, op);
    var front := es[..|es| - 1];
    if p < |front| {
      DoesFront(w, es, p, i, op);
      LogComplete(w, front, i, p, op);
    } else {
      DoesLast(w, es, i, op);
      assert Log(w, es, i)[|Log(w, front, i)|] == (p, op);
    }
  }

  lemma DoesBefore(w: World, es: seq<Event>, p: nat, i: nat, op: C.Event)
    requires Shaped(w) && Legal(w, es)
    ensures Does(w, es, p, i, op) ==> p < |es|
  {
  }

  lemma DoesLast(w: World, es: seq<Event>, i: nat, op: C.Event)
    requires Shaped(w) && Legal(w, es) && es != []
    ensures Does(w, es, |es| - 1, i, op) <==> Op(After(w, es[..|es| - 1]), es[|es| - 1]) == Some((i, op))
  {
    hide Op, Next;
    AtFront(w, es, |es| - 1);
  }

  // ---- freshness --------------------------------------------------------------

  // Event p stores v under k.
  ghost predicate Stores(w: World, es: seq<Event>, p: nat, k: Key, v: Prelude.Value, e: int64)
    requires Shaped(w) && Legal(w, es)
  {
    Does(w, es, p, Home(w, k), C.Set(k, v, e))
  }

  // Event p stores v under k, and no later event stores or deletes k.
  ghost predicate LastStore(w: World, es: seq<Event>, p: nat, k: Key, v: Prelude.Value, e: int64)
    requires Shaped(w) && Legal(w, es)
  {
    && Stores(w, es, p, k, v, e)
    && (forall q: nat, v', e' :: p < q && Stores(w, es, q, k, v', e') ==> false)
    && (forall q: nat :: p < q ==> !Does(w, es, q, Home(w, k), C.Del(k)))
  }

  // What a Get of k arriving after the run would find in the cache.
  ghost function Hit(w: World, es: seq<Event>, k: Key, now1: int64, now2: int64): Option<Prelude.Value>
    requires Shaped(w) && Legal(w, es)
  {
    var w' := After(w, es);
    B.Read(w'.buckets[Home(w', k)], k, now1, now2).1
  }

  // A live first-level entry of k was evicted for room since k was last stored.
  ghost predicate Spilled(w: World, es: seq<Event>, k: Key)
    requires Shaped(w) && Legal(w, es)
  {
    var b := w.buckets[Home(w, k)];
    k in C.After(b.c1, b.c2, Operations(Log(w, es, Home(w, k)))).spilled
  }

  // In any run, a hit on k is served from one definite Set or write-back, not
  // expired; no Delete of k came after the last of them; and it is the last of
  // them exactly when k has not been spilled since.
  lemma Freshness(w: World, es: seq<Event>, k: Key, now1: int64, now2: int64)
    returns (s: nat, e: int64, l: nat, v: Prelude.Value, e': int64)
    requires Initial(w) && Legal(w, es) && Hit(w, es, k, now1, now2).Some?
    ensures s <= l && Stores(w, es, s, k, Hit(w, es, k, now1, now2).value, e) && now1 < e
    ensures LastStore(w, es, l, k, v, e')
    ensures s == l <==> !Spilled(w, es, k)
  {
    hide C.After, C.Run, Op, Next, Does, B.Read, LastStore, Log, C.IsLatest;
    var i := Home(w, k);
    var b, log := w.buckets[i], Log(w, es, i);
    var ops := Operations(log);
    LogBucket(w, es, i);
    LogSound(w, es, i);
    C.Coherence(b.c1, b.c2, ops, k, now1, now2);
    var c := C.After(b.c1, b.c2, ops);
    var s', l' := C.Served(c, k).value, c.latest[k];
    LatestIsLast(w, es, k, l');
    s, e, l, v, e' := log[s'].0, ops[s'].e, log[l'].0, ops[l'].v, ops[l'].e;
    assert ops[s'] == C.Set(k, ops[s'].v, e);
  }

  lemma LatestIsLast(w: World, es: seq<Event>, k: Key, l: nat)
    requires Initial(w) && Legal(w, es)
    requires var log := Log(w, es, Home(w, k)); C.IsLatest(Operations(log), l, k)
    ensures var log := Log(w, es, Home(w, k));
            l < |log| && log[l].1.Set? && LastStore(w, es, log[l].0, k, log[l].1.v, log[l].1.e)
  {
    hide Op, Next, Does, Log;
    var i := Home(w, k);
    var log := Log(w, es, i);
    var ops := Operations(log);
    LogSound(w, es, i);
    assert ops[l] == log[l].1 && log[l].1 == C.Set(k, log[l].1.v, log[l].1.e);
    forall q: nat, op: C.Event | log[l].0 < q && Does(w, es, q, i, op) && (op.Set? || op.Del?) ensures op.k != k {
      LogComplete(w, es, i, q, op);
      var j :| 0 <= j < |log| && log[j] == (q, op);
      assert j > l && ops[j] == op;
    }
  }

  // ---- the latest Set -----------------------------------------------------------

  // Event p is a Set of k that stores b; every later store of k is a write-back.
  ghost predicate LatestSet(w: World, es: seq<Event>, p: nat, k: Key, b: seq<uint8>, e: int64)
    requires Shaped(w) && Legal(w, es)
  {
    && Stores(w, es, p, k, View(b), e) && es[p].Set?
    && forall q: nat, v, e' :: p < q && Stores(w, es, q, k, v, e') ==> es[q].WriteBack?
  }

  lemma StoresIn(w: World, es: seq<Event>, p: nat, k: Key, v: Prelude.Value, e: int64)
    requires Shaped(w) && Legal(w, es)
    ensures Stores(w, es, p, k, v, e) ==> p < |es| && (es[p].Set? || es[p].WriteBack?)
    ensures Stores(w, es, p, k, v, e) && es[p].Set? ==> es[p].key == k
    ensures Stores(w, es, p, k, v, e) && es[p].WriteBack? ==>
              es[p].t in At(w, es, p).callers && At(w, es, p).callers[es[p].t] == Caller(k, Storing(v))
  {
  }

  // A Set is seen, as long as its key is not spilled, exactly when the last
  // write-back of the key after it, if there is one, stored the same value.
  lemma LatestSetSeen(w: World, es: seq<Event>, p: nat, k: Key, b: seq<uint8>, e: int64, now1: int64, now2: int64)
    requires Initial(w) && Legal(w, es) && LatestSet(w, es, p, k, b, e)
    requires Hit(w, es, k, now1, now2).Some? && !Spilled(w, es, k)
    ensures Hit(w, es, k, now1, now2) == Some(View(b)) <==>
            forall q: nat, v, e' :: p < q && LastStore(w, es, q, k, v, e') ==> v == View(b)
  {
    hide Hit, Spilled, Stores, Home, Does;
    var s, e1, l, v, e2 := Freshness(w, es, k, now1, now2);
    assert p <= l;
    SameStore(w, es, l, k, Hit(w, es, k, now1, now2).value, e1, v, e2);
    if l == p {
      SameStore(w, es, p, k, v, e2, View(b), e);
    }
    forall q: nat, v', e' | LastStore(w, es, q, k, v', e') ensures q == l && v' == v {
      SameStore(w, es, l, k, v, e2, v', e');
    }
  }

  lemma SameStore(w: World, es: seq<Event>, p: nat, k: Key, v: Prelude.Value, e: int64, v': Prelude.Value, e': int64)
    requires Shaped(w) && Legal(w, es)
    ensures Stores(w, es, p, k, v, e) && Stores(w, es, p, k, v', e') ==> v == v' && e == e'
  {
  }

  // Some Get of k is past its cache miss and may still write back.
  ghost predicate Loads(w: World, k: Key) {
    exists t {:trigger w.callers[t]} :: t in w.callers && w.callers[t].key == k
      && (w.callers[t].pc.Loading? || w.callers[t].pc.Storing?)
  }

  // If event ev looks k up, the cache answers.
  ghost predicate Found(w: World, ev: Event, k: Key)
    requires Shaped(w) && Enabled(w, ev)
  {
    ev.Lookup? && w.callers[ev.t].key == k ==> ev.t in Next(w, ev).callers && Next(w, ev).callers[ev.t].pc.Replied?
  }

  lemma StepLoads(w: World, ev: Event, k: Key)
    requires Shaped(w) && Enabled(w, ev) && !Loads(w, k) && Found(w, ev, k)
    ensures !Loads(Next(w, ev), k)
  {
    hide B.Read, B.Write, B.Removed, B.Swept, SF.Next, SF.Enabled, Home;
  }

  lemma {:induction false} AtNext(w: World, es: seq<Event>, p: nat)
    requires Shaped(w) && Legal(w, es) && p < |es|
    ensures At(w, es, p + 1) == Next(At(w, es, p), es[p])
    decreases |es|
  {
    hide Next, Enabled;
    AtFront(w, es, p);
    if p < |es| - 1 {
      AtNext(w, es[..|es| - 1], p);
      AtFront(w, es, p + 1);
    }
  }

  lemma {:induction false} NoLoads(w: World, es: seq<Event>, k: Key, p: nat, q: nat)
    requires Shaped(w) && Legal(w, es) && p <= q <= |es| && !Loads(At(w, es, p), k)
    requires forall r {:trigger es[r]} :: p <= r < |es| ==> Found(At(w, es, r), es[r], k)
    ensures !Loads(At(w, es, q), k)
    decreases q - p
  {
    hide Next, Enabled, Loads, Found;
    if p < q {
      assert Found(At(w, es, p), es[p], k);
      AtNext(w, es, p);
      StepLoads(At(w, es, p), es[p], k);
      NoLoads(w, es, k, p + 1, q);
    }
  }

  // A condition that can be read off at the Set: if no Get of its key is past
  // its cache miss then, and none misses afterwards, no write-back of the key
  // follows, and as long as the key is not spilled every hit returns the value set.
  lemma SetSettles(w: World, es: seq<Event>, p: nat, k: Key, b: seq<uint8>, e: int64, now1: int64, now2: int64)
    requires Initial(w) && Legal(w, es) && LatestSet(w, es, p, k, b, e)
    requires p < |es| && !Loads(At(w, es, p), k)
    requires forall r {:trigger es[r]} :: p <= r < |es| ==> Found(At(w, es, r), es[r], k)
    ensures forall q: nat, v, e' :: p < q ==> !Stores(w, es, q, k, v, e')
    ensures Hit(w, es, k, now1, now2).Some? && !Spilled(w, es, k) ==> Hit(w, es, k, now1, now2) == Some(View(b))
  {
    hide Next, Hit, Spilled, Stores, Does, Home, Enabled, Found;
    forall q: nat, v, e' | p < q ensures !Stores(w, es, q, k, v, e') {
      StoresIn(w, es, q, k, v, e');
      if q < |es| {
        NoLoads(w, es, k, p, q);
      }
    }
    if Hit(w, es, k, now1, now2).Some? && !Spilled(w, es, k) {
      LatestSetSeen(w, es, p, k, b, e, now1, now2);
    }
  }
}
