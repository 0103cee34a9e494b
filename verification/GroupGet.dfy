// The read path of a cache group: the LRU-2 store in front, request merging
// behind it, a remote peer or the getter behind that, and the write-back.
// Every event is one atomic step of one of these parts.
module GroupGet {
  import opened Prelude
  import opened Hashing
  import opened Lru2List
  import opened Lru2Bucket
  import SF = SingleFlight

  type Tid = nat

  // ---- loadData -----------------------------------------------------------

  datatype PeerAnswer = NoPeer | PeerValue(b: seq<uint8>) | PeerError
  datatype GetterAnswer = Bytes(b: seq<uint8>) | Fails(code: nat) | Panics(reason: nat)

  // A remote peer first; the getter when there is no peer or it fails.
  function LoadData(peer: PeerAnswer, getter: GetterAnswer): SF.Outcome {
    match peer
    case PeerValue(b) => SF.Returned(View(b), None)
    case _ =>
      match getter
      case Bytes(b) => SF.Returned(View(b), None)
      case Fails(code) => SF.Returned(View([]), Some(SF.Failure(code)))
      case Panics(r) => SF.Panicking(r)
  }

  // ---- the group ----------------------------------------------------------

  datatype Reply = Value(v: Prelude.Value) | Closed | KeyRequired | LoadError(e: SF.Error) | Panicked(reason: nat)

  datatype Pc =
    | Asking                          // about to look into the cache
    | Loading                         // inside loader.Do
    | Storing(v: Prelude.Value)       // about to write back
    | Replied(r: Reply)

  datatype Caller = Caller(key: Key, pc: Pc)

  // cacheClosed: the cache shell answers every Get with a miss and ignores writes.
  datatype World = World(closed: bool, cacheClosed: bool, buckets: seq<Bucket>, loader: SF.State,
                         callers: map<Tid, Caller>)

  // early: the caller saw the group open, however long ago. Clear, also the one
  // that closing a group begins with, is a series of early Deletes.
  datatype Event =
    | Call(t: Tid, key: Key)
    | Lookup(t: Tid, now1: int64, now2: int64)
    | Flight(t: Tid, peer: PeerAnswer, getter: GetterAnswer)
    | Collect(t: Tid)
    | WriteBack(t: Tid, deadline: Option<int64>)
    | Set(key: Key, b: seq<uint8>, deadline: Option<int64>, early: bool)
    | Delete(key: Key, early: bool)
    | Tick(i: nat, now: int64)
    | Close
    | CloseCache

  function Home(w: World, k: Key): (i: nat)
    requires w.buckets != []
    ensures i < |w.buckets|
  {
    Poly(k) % |w.buckets|
  }

  predicate Enabled(w: World, ev: Event) {
    match ev
    case Call(t, _) => t !in w.callers && t !in w.loader.threads
    case Lookup(t, _, _) => t in w.callers && w.callers[t].pc.Asking?
    case Flight(t, _, _) => t in w.callers && w.callers[t].pc.Loading? && SF.Enabled(w.loader, t)
    case Collect(t) => t in w.callers && w.callers[t].pc.Loading? && t in w.loader.threads
      && w.loader.threads[t].pc.Finished?
    case WriteBack(t, d) => t in w.callers && w.callers[t].pc.Storing? && (d.Some? ==> d.value > 0)
    case Set(_, _, d, _) => d.Some? ==> d.value > 0
    case Tick(i, _) => i < |w.buckets|
    case CloseCache => w.closed
    case _ => true
  }

  predicate Shaped(w: World) {
    w.buckets != [] && forall i {:trigger w.buckets[i]} :: 0 <= i < |w.buckets| ==>
        w.buckets[i].c1 > 0 && w.buckets[i].c2 > 0
  }

  function Replaced(w: World, i: nat, b: Bucket): (w': World)
    requires Shaped(w) && i < |w.buckets| && b.c1 > 0 && b.c2 > 0
    ensures Shaped(w')
  {
    w.(buckets := w.buckets[i := b])
  }

  function Goto(w: World, t: Tid, pc: Pc): (w': World)
    requires t in w.callers
    ensures Shaped(w) ==> Shaped(w')
  {
    w.(callers := w.callers[t := w.callers[t].(pc := pc)])
  }

  // Add, or AddWithExpiration: without a deadline the entry is already late
  // and nothing is written.
  function CacheAdd(w: World, k: Key, v: Prelude.Value, deadline: Option<int64>): (w': World)
    requires Shaped(w)
    ensures Shaped(w') && w'.callers == w.callers
  {
    if w.cacheClosed || deadline.None? then w
    else Replaced(w, Home(w, k), Write(w.buckets[Home(w, k)], k, v, deadline.value).0)
  }

  // A value found in the cache is returned; anything else leads to a load.
  function Answered(w: World, t: Tid, hit: Option<Prelude.Value>): (w': World)
    requires Shaped(w) && t in w.callers
    ensures Shaped(w')
  {
    if hit.Some? && hit.value.View? then Goto(w, t, Replied(Value(hit.value)))
    else
      var l := w.loader.(threads := w.loader.threads[t := SF.Thread(w.callers[t].key, SF.Start)]);
      Goto(w.(loader := l), t, Loading)
  }

  // What load makes of the result of loader.Do.
  function Collected(r: SF.Result): Pc {
    match r
    case Got(v, None) => Storing(v)
    case Got(v, Some(e)) => Replied(LoadError(e))
    case Threw(reason) => Replied(Panicked(reason))
  }

  function Next(w: World, ev: Event): (w': World)
    requires Shaped(w) && Enabled(w, ev)
    ensures Shaped(w')
  {
    match ev
    case Call(t, k) =>
      var pc := if w.closed then Replied(Closed) else if k == [] then Replied(KeyRequired) else Asking;
      w.(callers := w.callers[t := Caller(k, pc)])
    case Lookup(t, now1, now2) =>
      var k := w.callers[t].key;
      if w.cacheClosed then Answered(w, t, None)
      else
        var (b, hit, _) := Read(w.buckets[Home(w, k)], k, now1, now2);
        Answered(Replaced(w, Home(w, k), b), t, hit)
    case Flight(t, peer, getter) =>
      w.(loader := SF.Next(w.loader, t, LoadData(peer, getter)))
    case Collect(t) =>
      Goto(w, t, Collected(w.loader.threads[t].pc.result))
    case WriteBack(t, d) =>
      Goto(CacheAdd(w, w.callers[t].key, w.callers[t].pc.v, d), t, Replied(Value(w.callers[t].pc.v)))
    case Set(k, b, d, early) =>
      if (w.closed && !early) || k == [] || b == [] then w else CacheAdd(w, k, View(b), d)
    case Delete(k, early) =>
      if (w.closed && !early) || k == [] || w.cacheClosed then w
      else Replaced(w, Home(w, k), Removed(w.buckets[Home(w, k)], k).0)
    case Tick(i, now) =>
      PurgeCaps(w.buckets[i], Expired(w.buckets[i], now));
      Replaced(w, i, Swept(w.buckets[i], now))
    case Close => w.(closed := true)
    case CloseCache => w.(cacheClosed := true)
  }

  // ---- transparency -------------------------------------------------------

  // The value every key has at its source, and whether every load succeeds: the
  // peer answers or the getter does.
  datatype Source = Source(of: Key -> seq<uint8>, total: bool)

  // The environment follows f: peers answer with the value of the key or an
  // error, the getter returns it, fails or panics (but not both without a value,
  // if f is total), and every Set stores it.
  predicate Follows(w: World, ev: Event, f: Source) {
    match ev
    case Flight(t, peer, getter) =>
      t in w.callers ==>
        && (peer.PeerValue? ==> peer.b == f.of(w.callers[t].key))
        && (getter.Bytes? ==> getter.b == f.of(w.callers[t].key))
        && (f.total ==> peer.PeerValue? || getter.Bytes?)
    case Set(k, b, _, _) => b == f.of(k)
    case _ => true
  }

  ghost predicate BucketTrue(b: Bucket, f: Source) {
    && Ok(b)
    && forall k :: KeyTrue(b, k, f)
  }

  ghost predicate KeyTrue(b: Bucket, k: Key, f: Source) {
    && (Lru2List.Lookup(b.l1, k).Some? ==> Lru2List.Lookup(b.l1, k).value.v == View(f.of(k)))
    && (Lru2List.Lookup(b.l2, k).Some? ==> Lru2List.Lookup(b.l2, k).value.v == View(f.of(k)))
  }

  ghost predicate Honest(how: SF.Outcome, k: Key, f: Source) {
    && (how.Returned? && how.err == None ==> how.val == View(f.of(k)))
    && (f.total ==> how.Returned? && how.err == None)
  }

  ghost predicate LoaderTrue(l: SF.State, f: Source) {
    && SF.Inv(l)
    && forall c {:trigger l.calls[c]} :: c in l.calls && l.calls[c].how.Some? ==>
         c in l.threads && Honest(l.calls[c].how.value, l.threads[c].key, f)
  }

  // A value is the source's value; a load fails only if peer and getter may both fail.
  ghost predicate ReplyTrue(r: Reply, k: Key, f: Source) {
    && (r.Value? ==> r.v == View(f.of(k)))
    && (f.total ==> r.Value? || r.Closed? || r.KeyRequired?)
  }

  ghost predicate CallerTrue(w: World, t: Tid, f: Source)
    requires t in w.callers
  {
    var c := w.callers[t];
    && (c.pc.Storing? ==> c.pc.v == View(f.of(c.key)))
    && (c.pc.Replied? ==> ReplyTrue(c.pc.r, c.key, f))
    && (c.pc.Loading? ==> t in w.loader.threads)
    && (t in w.loader.threads ==> w.loader.threads[t].key == c.key && !c.pc.Asking?)
  }

  ghost predicate True(w: World, f: Source) {
    && Shaped(w)
    && (forall i {:trigger w.buckets[i]} :: 0 <= i < |w.buckets| ==> BucketTrue(w.buckets[i], f))
    && LoaderTrue(w.loader, f)
    && w.loader.threads.Keys <= w.callers.Keys
    && forall t {:trigger w.callers[t]} :: t in w.callers ==> CallerTrue(w, t, f)
  }

  lemma WriteTrue(b: Bucket, k: Key, e: int64, f: Source)
    requires BucketTrue(b, f) && e > 0
    ensures BucketTrue(Write(b, k, View(f.of(k)), e).0, f)
  {
    hide Stored, Lru2List.Lookup;
    forall k' ensures KeyTrue(Write(b, k, View(f.of(k)), e).0, k', f) {
      WriteLookup(b, k, View(f.of(k)), e, k');
      assert KeyTrue(b, k', f);
    }
    WriteLookup(b, k, View(f.of(k)), e, k);
  }

  lemma ReadTrue(b: Bucket, k: Key, now1: int64, now2: int64, f: Source)
    requires BucketTrue(b, f)
    ensures BucketTrue(Read(b, k, now1, now2).0, f)
    ensures Read(b, k, now1, now2).1.Some? ==> Read(b, k, now1, now2).1.value == View(f.of(k))
  {
    hide Read, Lru2List.Lookup;
    ReadOwn(b, k, now1, now2);
    assert KeyTrue(b, k, f);
    forall k' ensures KeyTrue(Read(b, k, now1, now2).0, k', f) {
      assert KeyTrue(b, k', f);
      if k' != k {
        ReadOther(b, k, now1, now2, k');
      }
    }
  }

  lemma RemovedTrue(b: Bucket, k: Key, f: Source)
    requires BucketTrue(b, f)
    ensures BucketTrue(Removed(b, k).0, f)
  {
    hide Removed, Lru2List.Lookup, Ok;
    RemovedLookup(b, k, k);
    forall k' ensures KeyTrue(Removed(b, k).0, k', f) {
      RemovedLookup(b, k, k');
      assert KeyTrue(b, k', f);
    }
  }

  lemma SweptTrue(b: Bucket, now: int64, f: Source)
    requires BucketTrue(b, f)
    ensures BucketTrue(Swept(b, now), f)
  {
    hide Swept, Lru2List.Lookup, Ok;
    SweptLookup(b, now, []);
    forall k' ensures KeyTrue(Swept(b, now), k', f) {
      SweptLookup(b, now, k');
      assert KeyTrue(b, k', f);
    }
  }

  // A step leaves keys alone and records at most the outcome it was given.
  lemma LoaderFrame(l: SF.State, t: Tid, how: SF.Outcome)
    requires SF.Enabled(l, t)
    ensures var l' := SF.Next(l, t, how);
            && l'.threads.Keys == l.threads.Keys
            && (forall x {:trigger l'.threads[x]} :: x in l.threads ==> l'.threads[x].key == l.threads[x].key)
            && (forall c {:trigger l'.calls[c]} :: c in l'.calls && l'.calls[c].how.Some? ==>
                 (c in l.calls && l'.calls[c].how == l.calls[c].how) || (c == t && l'.calls[c].how == Some(how)))
  {
  }

  lemma LoaderStep(l: SF.State, t: Tid, how: SF.Outcome, f: Source)
    requires LoaderTrue(l, f) && SF.Enabled(l, t) && Honest(how, l.threads[t].key, f)
    ensures LoaderTrue(SF.Next(l, t, how), f)
    ensures SF.Next(l, t, how).threads.Keys == l.threads.Keys
    ensures forall x {:trigger SF.Next(l, t, how).threads[x]} :: x in l.threads ==>
              SF.Next(l, t, how).threads[x].key == l.threads[x].key
  {
    hide SF.Inv, SF.Next, Honest;
    SF.StepInv(l, t, how);
    LoaderFrame(l, t, how);
  }

  lemma LoaderJoin(l: SF.State, t: Tid, k: Key, f: Source)
    requires LoaderTrue(l, f) && t !in l.threads
    ensures LoaderTrue(l.(threads := l.threads[t := SF.Thread(k, SF.Start)]), f)
  {
  }

  // The result a caller collects from the loader.
  lemma CollectTrue(l: SF.State, t: Tid, f: Source)
    requires LoaderTrue(l, f) && t in l.threads && l.threads[t].pc.Finished?
    ensures var r := l.threads[t].pc.result;
            && (r.Got? && r.err == None ==> r.val == View(f.of(l.threads[t].key)))
            && (f.total ==> r.Got? && r.err == None)
  {
  }

  // Replacing one bucket by a true one, or one caller by a true one.
  lemma BucketsTrue(w: World, i: nat, b: Bucket, f: Source)
    requires True(w, f) && i < |w.buckets| && BucketTrue(b, f)
    ensures True(w.(buckets := w.buckets[i := b]), f)
  {
  }

  lemma GotoTrue(w: World, t: Tid, pc: Pc, f: Source)
    requires True(w, f) && t in w.callers && !pc.Asking?
    requires pc.Storing? ==> pc.v == View(f.of(w.callers[t].key))
    requires pc.Replied? ==> ReplyTrue(pc.r, w.callers[t].key, f)
    requires pc.Loading? ==> t in w.loader.threads
    ensures True(Goto(w, t, pc), f)
  {
  }

  lemma AddTrue(w: World, k: Key, d: Option<int64>, f: Source)
    requires True(w, f) && (d.Some? ==> d.value > 0)
    ensures True(CacheAdd(w, k, View(f.of(k)), d), f)
    ensures CacheAdd(w, k, View(f.of(k)), d).callers == w.callers
  {
    hide BucketTrue;
    if !(w.cacheClosed || d.None?) {
      var i := Home(w, k);
      assert BucketTrue(w.buckets[i], f);
      WriteTrue(w.buckets[i], k, d.value, f);
      BucketsTrue(w, i, Write(w.buckets[i], k, View(f.of(k)), d.value).0, f);
    }
  }

  lemma AnsweredTrue(w: World, t: Tid, hit: Option<Prelude.Value>, f: Source)
    requires True(w, f) && t in w.callers && w.callers[t].pc.Asking?
    requires hit.Some? ==> hit.value == View(f.of(w.callers[t].key))
    ensures True(Answered(w, t, hit), f)
  {
    hide BucketTrue, LoaderTrue;
    assert CallerTrue(w, t, f);
    if hit.Some? {
      GotoTrue(w, t, Replied(Value(hit.value)), f);
    } else {
      LoaderJoin(w.loader, t, w.callers[t].key, f);
      var w' := Answered(w, t, hit);
      forall x | x in w'.callers ensures CallerTrue(w', x, f) {
        assert CallerTrue(w, x, f);
      }
    }
  }

  lemma FlightTrue(w: World, t: Tid, how: SF.Outcome, f: Source)
    requires True(w, f) && t in w.loader.threads && SF.Enabled(w.loader, t) && Honest(how, w.loader.threads[t].key, f)
    ensures True(w.(loader := SF.Next(w.loader, t, how)), f)
  {
    hide BucketTrue, LoaderTrue, SF.Next;
    LoaderStep(w.loader, t, how, f);
    var w' := w.(loader := SF.Next(w.loader, t, how));
    forall x | x in w'.callers ensures CallerTrue(w', x, f) {
      assert CallerTrue(w, x, f);
    }
  }

  lemma CallTrue(w: World, ev: Event, f: Source)
    requires True(w, f) && Enabled(w, ev) && ev.Call?
    ensures True(Next(w, ev), f)
  {
  }

  lemma FlagsTrue(w: World, closed: bool, cacheClosed: bool, f: Source)
    requires True(w, f)
    ensures True(w.(closed := closed, cacheClosed := cacheClosed), f)
  {
  }

  lemma StepTrue(w: World, ev: Event, f: Source)
    requires True(w, f) && Enabled(w, ev) && Follows(w, ev, f)
    ensures True(Next(w, ev), f)
  {
    hide BucketTrue, LoaderTrue, Read, Write, Removed, Swept, SF.Next, SF.Enabled, CacheAdd, Answered;
    match ev {
      case Call(t, k) => CallTrue(w, ev, f);
      case Lookup(t, now1, now2) =>
        var k := w.callers[t].key;
        if w.cacheClosed {
          AnsweredTrue(w, t, None, f);
        } else {
          var i := Home(w, k);
          assert BucketTrue(w.buckets[i], f);
          ReadTrue(w.buckets[i], k, now1, now2, f);
          var (b, hit, _) := Read(w.buckets[i], k, now1, now2);
          BucketsTrue(w, i, b, f);
          AnsweredTrue(w.(buckets := w.buckets[i := b]), t, hit, f);
        }
      case Flight(t, peer, getter) =>
        assert CallerTrue(w, t, f);
        FlightTrue(w, t, LoadData(peer, getter), f);
      case Collect(t) =>
        assert CallerTrue(w, t, f);
        CollectTrue(w.loader, t, f);
        GotoTrue(w, t, Collected(w.loader.threads[t].pc.result), f);
      case WriteBack(t, d) =>
        assert CallerTrue(w, t, f);
        AddTrue(w, w.callers[t].key, d, f);
        GotoTrue(CacheAdd(w, w.callers[t].key, w.callers[t].pc.v, d), t, Replied(Value(w.callers[t].pc.v)), f);
      case Set(k, b, d, _) => AddTrue(w, k, d, f);
      case Delete(k, _) =>
        var i := Home(w, k);
        assert BucketTrue(w.buckets[i], f);
        RemovedTrue(w.buckets[i], k, f);
        BucketsTrue(w, i, Removed(w.buckets[i], k).0, f);
      case Tick(i, now) =>
        assert BucketTrue(w.buckets[i], f);
        SweptTrue(w.buckets[i], now, f);
        BucketsTrue(w, i, Swept(w.buckets[i], now), f);
      case Close => FlagsTrue(w, true, w.cacheClosed, f);
      case CloseCache => FlagsTrue(w, w.closed, true, f);
    }
  }

  // ---- runs ---------------------------------------------------------------

  ghost predicate Legal(w: World, es: seq<Event>)
    requires Shaped(w)
    decreases |es|, 0
  {
    es == [] || (Legal(w, es[..|es| - 1]) && Enabled(After(w, es[..|es| - 1]), es[|es| - 1]))
  }

  ghost function After(w: World, es: seq<Event>): (w': World)
    requires Shaped(w) && Legal(w, es)
    ensures Shaped(w')
    decreases |es|, 1
  {
    if es == [] then w else Next(After(w, es[..|es| - 1]), es[|es| - 1])
  }

  // The world before event p.
  ghost function At(w: World, es: seq<Event>, p: nat): (w': World)
    requires Shaped(w) && Legal(w, es) && p <= |es|
    ensures Shaped(w') && (p < |es| ==> Enabled(w', es[p]))
    decreases |es|
  {
    if p == |es| then After(w, es)
    else At(w, es[..|es| - 1], p)
  }

  lemma AtFront(w: World, es: seq<Event>, p: nat)
    requires Shaped(w) && Legal(w, es) && p < |es|
    ensures Legal(w, es[..|es| - 1]) && At(w, es, p) == At(w, es[..|es| - 1], p)
    ensures p == |es| - 1 ==> At(w, es, p) == After(w, es[..|es| - 1])
  {
  }

  // The environment follows f throughout the run.
  ghost predicate Obeys(w: World, es: seq<Event>, f: Source)
    requires Shaped(w) && Legal(w, es)
  {
    forall p {:trigger es[p]} :: 0 <= p < |es| ==> Follows(At(w, es, p), es[p], f)
  }

  lemma {:induction false} RunTrue(w: World, es: seq<Event>, f: Source)
    requires True(w, f) && Legal(w, es) && Obeys(w, es, f)
    ensures True(After(w, es), f)
    decreases |es|
  {
    hide Next, Enabled, Follows, BucketTrue, LoaderTrue, CallerTrue;
    if es != [] {
      var front := es[..|es| - 1];
      forall p | 0 <= p < |front| ensures Follows(At(w, front, p), front[p], f) {
        AtFront(w, es, p);
        assert es[p] == front[p];
      }
      AtFront(w, es, |front|);
      RunTrue(w, front, f);
      StepTrue(After(w, front), es[|es| - 1], f);
    }
  }

  // A new group: empty buckets, nobody inside.
  ghost predicate Initial(w: World) {
    && Shaped(w) && w.callers == map[] && w.loader == SF.State(map[], map[], map[], multiset{})
    && forall i {:trigger w.buckets[i]} :: 0 <= i < |w.buckets| ==> w.buckets[i].l1 == [] && w.buckets[i].l2 == []
  }

  // Transparency. For any number of concurrent Gets, Sets, Deletes and cleanup
  // ticks, through promotion, eviction, expiry, merged loads and write-backs,
  // every value a Get returns is the one the source has for its key; and if
  // in every load the peer or the getter answers, a Get returns a value unless
  // the group was closed or the key empty.
  lemma Transparency(w: World, es: seq<Event>, f: Source, t: Tid)
    requires Initial(w) && Legal(w, es) && Obeys(w, es, f)
    requires t in After(w, es).callers && After(w, es).callers[t].pc.Replied?
    ensures var c := After(w, es).callers[t];
            && (c.pc.r.Value? ==> c.pc.r.v == View(f.of(c.key)))
            && (f.total ==> c.pc.r.Value? || c.pc.r.Closed? || c.pc.r.KeyRequired?)
  {
    InitialTrue(w, f);
    RunTrue(w, es, f);
    assert CallerTrue(After(w, es), t, f);
  }

  lemma InitialTrue(w: World, f: Source)
    requires Initial(w)
    ensures True(w, f)
  {
  }

  // The promise needs the fixed source: a Get that loaded before a Set and
  // writes back after it hides the newer value, whatever that value is.
  lemma LateWriteBack(w: World, t: Tid, b: seq<uint8>, d: int64)
    requires Shaped(w) && t in w.callers && Ok(w.buckets[Home(w, w.callers[t].key)])
    requires w.callers[t].pc.Storing? && w.callers[t].key != []
    requires !w.closed && !w.cacheClosed && b != [] && d > 0
    ensures var k := w.callers[t].key; var w1 := Next(w, Set(k, b, Some(d), false));
            && Shaped(w1) && Enabled(w1, WriteBack(t, Some(d)))
            && var w2 := Next(w1, WriteBack(t, Some(d)));
            Lru2List.Lookup(w2.buckets[Home(w2, k)].l1, k) == Some(Node(k, w.callers[t].pc.v, d))
  {
  }

  // A second write-back can bring the value of the Set back.
  lemma RestoredByWriteBack(w: World, t: Tid, t': Tid, b: seq<uint8>, d: int64)
    requires Shaped(w) && t != t' && t in w.callers && t' in w.callers && w.callers[t'].key == w.callers[t].key
    requires w.callers[t].pc.Storing? && w.callers[t'].pc == Storing(View(b)) && w.callers[t].key != []
    requires !w.closed && !w.cacheClosed && b != [] && d > 0
    ensures var k := w.callers[t].key; var w1 := Next(w, Set(k, b, Some(d), false));
            && Shaped(w1) && Enabled(w1, WriteBack(t, Some(d)))
            && var w2 := Next(w1, WriteBack(t, Some(d)));
            && Shaped(w2) && Enabled(w2, WriteBack(t', Some(d)))
            && var w3 := Next(w2, WriteBack(t', Some(d)));
            Lru2List.Lookup(w3.buckets[Home(w3, k)].l1, k) == Some(Node(k, View(b), d))
  {
    hide Write, Lru2List.Lookup;
    var k := w.callers[t].key;
    var w2 := Next(Next(w, Set(k, b, Some(d), false)), WriteBack(t, Some(d)));
    WrittenFound(w2.buckets[Home(w2, k)], k, View(b), d);
  }

  lemma WrittenFound(b: Bucket, k: Key, v: Prelude.Value, e: int64)
    requires b.c1 > 0 && e > 0
    ensures Lru2List.Lookup(Write(b, k, v, e).0.l1, k) == Some(Node(k, v, e))
  {
  }
}
