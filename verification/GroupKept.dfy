// After a Set: as long as no event takes the key away, every Get finds the
// value set, whatever Gets were under way.
module GroupKept {
  import opened Prelude
  import L = Lru2List
  import B = Lru2Bucket
  import C = Lru2Coherence
  import opened GroupGet
  import opened GroupFresh

  // ---- one bucket -----------------------------------------------------------------

  predicate Drops(cb: B.Callback, k: Key) {
    cb.Some? && cb.value.0 == k
  }

  // The operation does not take k away: it drops no entry of k for room, finds
  // none expired and does not delete k.
  predicate Keeps(b: B.Bucket, op: C.Event, k: Key)
    requires b.c1 > 0 && b.c2 > 0
  {
    match op
    case Set(k', v, e) => e > 0 && (k' != k ==> !Drops(B.Write(b, k', v, e).1, k))
    case Get(k', now1, now2) =>
      if k' != k then !Drops(B.Read(b, k', now1, now2).2, k)
      else if L.Lookup(b.l1, k).Some? then !B.Overdue(L.Lookup(b.l1, k), now1)
      else !B.Overdue(L.Lookup(b.l2, k), now1) && !B.Overdue(L.Lookup(b.l2, k), now2)
    case Del(k') => k' != k
    case Tick(now) => !B.Overdue(L.Lookup(b.l1, k), now) && !B.Overdue(L.Lookup(b.l2, k), now)
  }

  lemma KeepsHolds(b: B.Bucket, op: C.Event, k: Key)
    requires B.Ok(b) && B.Holds(b, k) && Keeps(b, op, k)
    ensures B.Holds(C.Effect(b, op), k)
    ensures op.Get? && op.k == k ==> B.Read(b, k, op.now1, op.now2).1.Some?
  {
    hide L.Lookup, L.Killed, L.Touched, L.Stored, L.DistinctKeys, L.Find;
    match op {
      case Set(k', v, e) => B.WriteLookup(b, k', v, e, k);
      case Get(k', now1, now2) =>
        if k' == k {
          B.ReadOwn(b, k, now1, now2);
        } else {
          B.ReadOther(b, k', now1, now2, k);
        }
      case Del(k') => B.RemovedLookup(b, k', k);
      case Tick(now) => B.SweptLookup(b, now, k);
    }
  }

  lemma SetHolds(b: B.Bucket, k: Key, v: Prelude.Value, e: int64)
    requires B.Ok(b) && e > 0
    ensures B.Holds(C.Effect(b, C.Set(k, v, e)), k)
  {
    B.WriteLookup(b, k, v, e, k);
  }

  // ---- the group ------------------------------------------------------------------

  ghost predicate KeepsKey(w: World, ev: Event, k: Key)
    requires Shaped(w) && Enabled(w, ev)
  {
    && (ev.Lookup? && w.callers[ev.t].key == k ==> !w.cacheClosed)
    && (Op(w, ev).Some? && Op(w, ev).value.0 == Home(w, k) ==> Keeps(w.buckets[Home(w, k)], Op(w, ev).value.1, k))
  }

  // No event after p takes k away.
  ghost predicate Undisturbed(w: World, es: seq<Event>, p: nat, k: Key)
    requires Shaped(w) && Legal(w, es)
  {
    forall r {:trigger es[r]} :: p < r < |es| ==> KeepsKey(At(w, es, r), es[r], k)
  }

  ghost predicate NoStores(w: World, es: seq<Event>, p: nat, k: Key)
    requires Shaped(w) && Legal(w, es)
  {
    forall q: nat, v, e :: p < q ==> !Stores(w, es, q, k, v, e)
  }

  // No Get of k can write back, k is stored and not spilled, and nothing was
  // stored under it since p.
  ghost predicate Settled(w: World, es: seq<Event>, p: nat, k: Key)
    requires Shaped(w) && Legal(w, es)
  {
    && !Loads(After(w, es), k)
    && B.Holds(After(w, es).buckets[Home(After(w, es), k)], k)
    && !Spilled(w, es, k)
    && NoStores(w, es, p, k)
  }

  lemma BucketOk(w: World, es: seq<Event>, i: nat)
    requires Initial(w) && Legal(w, es) && i < |w.buckets|
    ensures |After(w, es).buckets| == |w.buckets| && B.Ok(After(w, es).buckets[i])
  {
    hide Next, Op, C.Step, C.Run;
    LogBucket(w, es, i);
    C.Reachable(w.buckets[i].c1, w.buckets[i].c2, Operations(Log(w, es, i)));
  }

  lemma SpilledOnly(w: C.World, op: C.Event, n: nat, k: Key)
    requires B.Ok(w.b) && (op.Set? ==> op.e > 0)
    requires (op.Set? && op.k == k) || (k !in w.spilled && Keeps(w.b, op, k))
    ensures k !in C.Step(w, op, n).spilled
  {
    hide B.Write;
    if op.Set? && op.k == k {
      B.WriteLookup(w.b, k, op.v, op.e, k);
    }
  }

  lemma SpilledStep(w: World, es: seq<Event>, k: Key)
    requires Initial(w) && Legal(w, es) && es != []
    requires var w1, ev := After(w, es[..|es| - 1]), es[|es| - 1];
             var op := Op(w1, ev);
             (op.Some? && op.value.0 == Home(w, k) && op.value.1.Set? && op.value.1.k == k)
             || (!Spilled(w, es[..|es| - 1], k) && KeepsKey(w1, ev, k))
    ensures !Spilled(w, es, k)
  {
    hide Next, Enabled, Op, C.After, C.Step, Keeps;
    var front, ev, i := es[..|es| - 1], es[|es| - 1], Home(w, k);
    var b := w.buckets[i];
    var log, op := Log(w, front, i), Op(After(w, front), ev);
    LogBucket(w, front, i);
    BucketOk(w, front, i);
    OpEffect(After(w, front), ev);
    if op.Some? && op.value.0 == i {
      SpilledOnly(C.After(b.c1, b.c2, Operations(log)), op.value.1, |log|, k);
      OperationsSnoc(log, (|front|, op.value.1));
      C.OneMoreEvent(b.c1, b.c2, Operations(log), op.value.1);
    } else {
      assert Log(w, es, i) == log;
    }
  }

  lemma LatestSetFront(w: World, es: seq<Event>, p: nat, k: Key, b: seq<uint8>, e: int64)
    requires Shaped(w) && Legal(w, es) && LatestSet(w, es, p, k, b, e) && p < |es| - 1
    ensures Legal(w, es[..|es| - 1]) && LatestSet(w, es[..|es| - 1], p, k, b, e)
  {
    hide Op, Next, Enabled;
    var front := es[..|es| - 1];
    DoesFront(w, es, p, Home(w, k), C.Set(k, View(b), e));
    forall q: nat, v, e' | p < q && Stores(w, front, q, k, v, e') ensures front[q].WriteBack? {
      DoesBefore(w, front, q, Home(w, k), C.Set(k, v, e'));
      DoesFront(w, es, q, Home(w, k), C.Set(k, v, e'));
      assert Stores(w, es, q, k, v, e');
    }
  }

  lemma UndisturbedFront(w: World, es: seq<Event>, p: nat, k: Key)
    requires Shaped(w) && Legal(w, es) && es != [] && Undisturbed(w, es, p, k)
    ensures Legal(w, es[..|es| - 1]) && Undisturbed(w, es[..|es| - 1], p, k)
    ensures p < |es| - 1 ==> KeepsKey(After(w, es[..|es| - 1]), es[|es| - 1], k)
  {
    hide Op, Next, Enabled, KeepsKey;
    var front := es[..|es| - 1];
    AtFront(w, es, |es| - 1);
    assert es[|es| - 1] == es[|es| - 1];
    forall r | p < r < |front| ensures KeepsKey(At(w, front, r), front[r], k) {
      AtFront(w, es, r);
      assert front[r] == es[r];
    }
  }

  // A Get of a settled key finds the value set.
  lemma SettledFound(w: World, es: seq<Event>, p: nat, k: Key, b: seq<uint8>, e: int64, ev: Event)
    requires Initial(w) && Legal(w, es) && LatestSet(w, es, p, k, b, e) && Settled(w, es, p, k)
    requires Enabled(After(w, es), ev) && KeepsKey(After(w, es), ev, k)
    ensures Found(After(w, es), ev, k)
    ensures ev.Lookup? && After(w, es).callers[ev.t].key == k ==>
              Next(After(w, es), ev).callers[ev.t].pc == Replied(Value(View(b)))
  {
    hide Next, Enabled, Op, Spilled, Stores, Does, B.Holds, Log, B.Read, LatestSet, C.Effect, Keeps, NoStores, Loads;
    var w' := After(w, es);
    if ev.Lookup? && LookedUp(w', ev) == k {
      var i := Home(w', k);
      BucketOk(w, es, Home(w, k));
      LookupKeeps(w', ev, k);
      KeepsHolds(w'.buckets[i], C.Get(k, ev.now1, ev.now2), k);
      NoLaterStore(w, es, p, k);
      LatestSetSeen(w, es, p, k, b, e, ev.now1, ev.now2);
      HitAnswers(w', ev, k, View(b));
    }
    NotLookedUp(w', ev, k);
  }

  // The key a Lookup is for.
  function LookedUp(w: World, ev: Event): Key
    requires ev.Lookup? && Shaped(w) && Enabled(w, ev)
  {
    w.callers[ev.t].key
  }

  lemma NotLookedUp(w: World, ev: Event, k: Key)
    requires Shaped(w) && Enabled(w, ev)
    ensures ev.Lookup? ==> ev.t in w.callers && w.callers[ev.t].key == LookedUp(w, ev)
    ensures !(ev.Lookup? && LookedUp(w, ev) == k) ==> Found(w, ev, k)
  {
    hide Next;
  }

  lemma LookupKeeps(w: World, ev: Event, k: Key)
    requires Shaped(w) && Enabled(w, ev) && KeepsKey(w, ev, k) && ev.Lookup? && LookedUp(w, ev) == k
    ensures !w.cacheClosed && Keeps(w.buckets[Home(w, k)], C.Get(k, ev.now1, ev.now2), k)
  {
    hide Keeps;
  }

  lemma NoLaterStore(w: World, es: seq<Event>, p: nat, k: Key)
    requires Shaped(w) && Legal(w, es) && NoStores(w, es, p, k)
    ensures forall q: nat, v, e :: p < q ==> !LastStore(w, es, q, k, v, e)
  {
    hide Stores;
  }

  lemma HitAnswers(w: World, ev: Event, k: Key, v: Prelude.Value)
    requires Shaped(w) && Enabled(w, ev) && ev.Lookup? && LookedUp(w, ev) == k && !w.cacheClosed && v.View?
    requires B.Read(w.buckets[Home(w, k)], k, ev.now1, ev.now2).1 == Some(v)
    ensures Found(w, ev, k)
    ensures ev.t in Next(w, ev).callers && Next(w, ev).callers[ev.t].pc == Replied(Value(v))
  {
    hide B.Read, Home;
  }

  lemma StepHolds(w: World, es: seq<Event>, k: Key, ev: Event)
    requires Initial(w) && Legal(w, es) && Enabled(After(w, es), ev)
    requires var w' := After(w, es); var op := Op(w', ev);
             (op.Some? && op.value.0 == Home(w', k) && op.value.1.Set? && op.value.1.k == k)
             || (B.Holds(w'.buckets[Home(w', k)], k) && KeepsKey(w', ev, k))
    ensures var w' := After(w, es); B.Holds(Next(w', ev).buckets[Home(Next(w', ev), k)], k)
  {
    hide Next, Enabled, Op, B.Holds, C.Effect, Keeps;
    var w' := After(w, es);
    BucketOk(w, es, Home(w, k));
    var op, i := Op(w', ev), Home(w', k);
    OpEffect(w', ev);
    if op.Some? && op.value.0 == i {
      if op.value.1.Set? && op.value.1.k == k {
        SetHolds(w'.buckets[i], k, op.value.1.v, op.value.1.e);
      } else {
        KeepsHolds(w'.buckets[i], op.value.1, k);
      }
    }
  }

  lemma StepStores(w: World, es: seq<Event>, p: nat, k: Key, b: seq<uint8>, e: int64)
    requires Shaped(w) && Legal(w, es) && LatestSet(w, es, p, k, b, e) && p < |es| - 1
    requires NoStores(w, es[..|es| - 1], p, k) && !Loads(After(w, es[..|es| - 1]), k)
    ensures NoStores(w, es, p, k)
  {
    hide Op, Next, Enabled, Does;
    var front := es[..|es| - 1];
    AtFront(w, es, |es| - 1);
    forall q: nat, v, e' | p < q ensures !Stores(w, es, q, k, v, e') {
      StoresIn(w, es, q, k, v, e');
      if q < |front| {
        DoesFront(w, es, q, Home(w, k), C.Set(k, v, e'));
        assert !Stores(w, front, q, k, v, e');
      }
    }
  }

  // If no Get of k is past its cache miss at the Set and no later event takes k
  // away, then no write-back of k follows.
  lemma {:induction false} StaysSettled(w: World, es: seq<Event>, p: nat, k: Key, b: seq<uint8>, e: int64)
    requires Initial(w) && Legal(w, es) && LatestSet(w, es, p, k, b, e)
    requires p < |es| && !Loads(At(w, es, p), k) && Undisturbed(w, es, p, k)
    ensures Settled(w, es, p, k)
    decreases |es|
  {
    hide Op, Next, Enabled, Does, KeepsKey, Loads, B.Holds, Spilled, LatestSet, NoStores, Undisturbed, Found;
    var front, ev := es[..|es| - 1], es[|es| - 1];
    AtFront(w, es, p);
    UndisturbedFront(w, es, p, k);
    if p == |es| - 1 {
      FirstSettled(w, es, k, b, e);
    } else {
      LatestSetFront(w, es, p, k, b, e);
      StaysSettled(w, front, p, k, b, e);
      SettledFound(w, front, p, k, b, e, ev);
      StepLoads(After(w, front), ev, k);
      StepHolds(w, front, k, ev);
      SpilledStep(w, es, k);
      StepStores(w, es, p, k, b, e);
    }
  }

  lemma FirstSettled(w: World, es: seq<Event>, k: Key, b: seq<uint8>, e: int64)
    requires Initial(w) && Legal(w, es) && es != [] && LatestSet(w, es, |es| - 1, k, b, e)
    requires !Loads(After(w, es[..|es| - 1]), k)
    ensures Settled(w, es, |es| - 1, k)
  {
    hide Op, Next, Enabled, Loads, B.Holds, Spilled;
    var front, ev := es[..|es| - 1], es[|es| - 1];
    AtFront(w, es, |es| - 1);
    BucketOk(w, front, Home(w, k));
    StepLoads(After(w, front), ev, k);
    StepHolds(w, front, k, ev);
    SpilledStep(w, es, k);
    forall q: nat, v, e' | |es| - 1 < q ensures !Stores(w, es, q, k, v, e') {
      StoresIn(w, es, q, k, v, e');
    }
  }

  // Freshness from events alone: no Get of k past its cache miss at the Set, and
  // afterwards no Delete, expiry or drop of k. Then every Get of k after the Set
  // that the cache is asked for returns the value set.
  lemma SetKept(w: World, es: seq<Event>, p: nat, k: Key, b: seq<uint8>, e: int64, ev: Event)
    requires Initial(w) && Legal(w, es) && LatestSet(w, es, p, k, b, e)
    requires p < |es| && !Loads(At(w, es, p), k) && Undisturbed(w, es, p, k)
    requires Enabled(After(w, es), ev) && KeepsKey(After(w, es), ev, k)
    requires ev.Lookup? && After(w, es).callers[ev.t].key == k
    ensures Next(After(w, es), ev).callers[ev.t].pc == Replied(Value(View(b)))
  {
    hide Next, Enabled, KeepsKey, Undisturbed, Settled, LatestSet, Loads;
    StaysSettled(w, es, p, k, b, e);
    SettledFound(w, es, p, k, b, e, ev);
  }
}
