// What a Get answers after a Delete and after the group was closed, over runs of
// the group.
module GroupReplies {
  import opened Prelude
  import Lru2List
  import B = Lru2Bucket
  import C = Lru2Coherence
  import opened GroupGet
  import opened GroupFresh

  // Event q puts something under k: a Set of k or a write-back of a Get of k.
  ghost predicate Puts(w: World, es: seq<Event>, q: nat, k: Key)
    requires Shaped(w) && Legal(w, es) && q < |es|
  {
    || (es[q].Set? && es[q].key == k)
    || (es[q].WriteBack? && es[q].t in At(w, es, q).callers && At(w, es, q).callers[es[q].t].key == k)
  }

  // After a Delete of k that reaches the cache, and until something is put under k
  // again, every Get of k misses and goes on to load.
  lemma DeletedLoads(w: World, es: seq<Event>, p: nat, k: Key, early: bool, ev: Event)
    requires Initial(w) && Legal(w, es) && p < |es| && es[p] == Delete(k, early) && k != []
    requires !At(w, es, p).cacheClosed && (!At(w, es, p).closed || early)
    requires forall q :: p < q < |es| ==> !Puts(w, es, q, k)
    requires Enabled(After(w, es), ev) && ev.Lookup? && After(w, es).callers[ev.t].key == k
    ensures Next(After(w, es), ev).callers[ev.t].pc == Loading
  {
    hide Op, Next, Stores, Does, B.Read, Puts;
    if Hit(w, es, k, ev.now1, ev.now2).Some? {
      NoHit(w, es, p, k, early, ev.now1, ev.now2);
    }
    MissLoads(After(w, es), ev);
  }

  lemma NoHit(w: World, es: seq<Event>, p: nat, k: Key, early: bool, now1: int64, now2: int64)
    requires Initial(w) && Legal(w, es) && p < |es| && es[p] == Delete(k, early) && k != []
    requires !At(w, es, p).cacheClosed && (!At(w, es, p).closed || early)
    requires forall q :: p < q < |es| ==> !Puts(w, es, q, k)
    ensures Hit(w, es, k, now1, now2) == None
  {
    hide Op, Next, Enabled, Hit, Does, Spilled;
    if Hit(w, es, k, now1, now2).Some? {
      var s, e, l, v, e' := Freshness(w, es, k, now1, now2);
      StorePuts(w, es, l, k, v, e');
      DeletesIn(w, es, p, k, early);
    }
  }

  lemma StorePuts(w: World, es: seq<Event>, q: nat, k: Key, v: Prelude.Value, e: int64)
    requires Shaped(w) && Legal(w, es) && Stores(w, es, q, k, v, e)
    ensures q < |es| && Puts(w, es, q, k)
  {
    hide Stores;
    StoresIn(w, es, q, k, v, e);
  }

  lemma DeletesIn(w: World, es: seq<Event>, p: nat, k: Key, early: bool)
    requires Initial(w) && Legal(w, es) && p < |es| && es[p] == Delete(k, early) && k != []
    requires !At(w, es, p).cacheClosed && (!At(w, es, p).closed || early)
    ensures Does(w, es, p, Home(w, k), C.Del(k))
  {
    hide Next;
    SameBuckets(w, es, p);
  }

  lemma {:induction false} SameBuckets(w: World, es: seq<Event>, p: nat)
    requires Shaped(w) && Legal(w, es) && p <= |es|
    ensures |At(w, es, p).buckets| == |w.buckets|
    decreases |es|
  {
    hide Next, Enabled, Op;
    if es != [] {
      var front := es[..|es| - 1];
      if p < |es| {
        AtFront(w, es, p);
        SameBuckets(w, front, p);
      } else {
        SameBuckets(w, front, |front|);
        OpEffect(After(w, front), es[|es| - 1]);
      }
    }
  }

  lemma MissLoads(w: World, ev: Event)
    requires Shaped(w) && Enabled(w, ev) && ev.Lookup?
    requires var k := w.callers[ev.t].key; B.Read(w.buckets[Home(w, k)], k, ev.now1, ev.now2).1 == None
    ensures ev.t in Next(w, ev).callers && Next(w, ev).callers[ev.t].pc == Loading
  {
    hide B.Read;
  }

  // After a cleanup tick on the bucket of k that finds a copy of k expired, the next
  // Get of k misses and goes on to load.
  lemma TickedLoads(w: World, now: int64, k: Key, ev: Event)
    requires Shaped(w) && ev.Lookup? && ev.t in w.callers && w.callers[ev.t] == Caller(k, Asking)
    requires B.Ok(w.buckets[Home(w, k)])
    requires var b := w.buckets[Home(w, k)];
             B.Overdue(Lru2List.Lookup(b.l1, k), now) || B.Overdue(Lru2List.Lookup(b.l2, k), now)
    ensures var w1 := Next(w, Tick(Home(w, k), now)); Enabled(w1, ev) && Next(w1, ev).callers[ev.t].pc == Loading
  {
    hide B.Swept, B.Read, Lru2List.Lookup;
    var b, i := w.buckets[Home(w, k)], Home(w, k);
    B.SweptLookup(b, now, k);
    B.ReadOwn(B.Swept(b, now), k, ev.now1, ev.now2);
    MissLoads(Next(w, Tick(i, now)), ev);
  }

  // ---- a closed group -----------------------------------------------------------

  lemma ClosedStep(w: World, ev: Event)
    requires Shaped(w) && Enabled(w, ev)
    ensures w.closed || ev.Close? ==> Next(w, ev).closed
    ensures w.cacheClosed ==> Next(w, ev).cacheClosed
  {
    hide B.Read, B.Write, B.Removed, B.Swept;
  }

  lemma {:induction false} ClosedForever(w: World, es: seq<Event>, p: nat)
    requires Shaped(w) && Legal(w, es) && p < |es| && es[p] == Close
    ensures After(w, es).closed
    decreases |es|
  {
    hide Next, Enabled;
    var front, ev := es[..|es| - 1], es[|es| - 1];
    AtFront(w, es, p);
    ClosedStep(After(w, front), ev);
    if p < |front| {
      ClosedForever(w, front, p);
    }
  }

  // Once a group is closed every new Get is refused, and no new Set or Delete
  // changes anything; before, a Get is refused only for the empty key.
  lemma ClosedRefuses(w: World, es: seq<Event>, p: nat, ev: Event)
    requires Shaped(w) && Legal(w, es) && p < |es| && es[p] == Close && Enabled(After(w, es), ev)
    ensures ev.Call? ==> Next(After(w, es), ev).callers[ev.t].pc == Replied(Closed)
    ensures (ev.Set? || ev.Delete?) && !ev.early ==> Next(After(w, es), ev) == After(w, es)
  {
    hide Legal;
    ClosedForever(w, es, p);
  }

  lemma OpenAccepts(w: World, t: Tid, k: Key)
    requires Shaped(w) && Enabled(w, Call(t, k)) && !w.closed
    ensures Next(w, Call(t, k)).callers[t].pc == if k == [] then Replied(KeyRequired) else Asking
  {
  }

  lemma {:induction false} CacheClosedForever(w: World, es: seq<Event>, p: nat)
    requires Shaped(w) && Legal(w, es) && p < |es| && es[p] == CloseCache
    ensures After(w, es).cacheClosed
    decreases |es|
  {
    hide Next, Enabled;
    var front, ev := es[..|es| - 1], es[|es| - 1];
    AtFront(w, es, p);
    if p < |front| {
      CacheClosedForever(w, front, p);
      ClosedStep(After(w, front), ev);
    } else {
      CacheCloses(After(w, front));
    }
  }

  lemma CacheCloses(w: World)
    requires Shaped(w) && Enabled(w, CloseCache)
    ensures Next(w, CloseCache).cacheClosed
  {
  }

  // Once the cache is closed every lookup under way goes on to load, and no Set,
  // Delete or write-back touches the store.
  lemma ClosedCacheLoads(w: World, es: seq<Event>, p: nat, ev: Event)
    requires Shaped(w) && Legal(w, es) && p < |es| && es[p] == CloseCache && Enabled(After(w, es), ev)
    ensures ev.Lookup? ==> Next(After(w, es), ev).callers[ev.t].pc == Loading
    ensures ev.Set? || ev.Delete? || ev.WriteBack? ==> Next(After(w, es), ev).buckets == After(w, es).buckets
  {
    hide Legal, B.Read, B.Write, B.Removed;
    CacheClosedForever(w, es, p);
  }
}
