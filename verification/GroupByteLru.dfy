// The read path of a cache group over the byte-bounded store, whose Get is two
// critical sections: the value is read in the first, and other callers may run
// before the second.
module GroupByteLru {
  import opened Prelude
  import opened ByteLruSpec
  import R = ByteLruRuns
  import SF = SingleFlight
  import G = GroupGet

  type Tid = nat

  datatype Pc =
    | Asking                             // about to look into the cache
    | Moving(v: Prelude.Value, e: Elem)  // value read, element not moved yet
    | Dropping                           // key found expired, not deleted yet
    | Loading                            // inside loader.Do
    | Storing(v: Prelude.Value)          // about to write back
    | Replied(r: G.Reply)

  datatype Caller = Caller(key: Key, pc: Pc)

  datatype World = World(closed: bool, cacheClosed: bool, store: Lru, loader: SF.State, callers: map<Tid, Caller>)

  // A ttl of None stands for a deadline that has passed before the write.
  datatype Event =
    | Call(t: Tid, key: Key)
    | Look(t: Tid, now: Time)
    | Touch(t: Tid)
    | Flight(t: Tid, peer: G.PeerAnswer, getter: G.GetterAnswer)
    | Collect(t: Tid)
    | WriteBack(t: Tid, ttl: Option<int>, now: Time, now2: Time)
    | Set(key: Key, b: seq<uint8>, ttl: Option<int>, now: Time, now2: Time, early: bool)
    | Delete(key: Key, early: bool)
    | Tick(now: Time)
    | Limit(max: int, now: Time)
    | Clear
    | Close
    | CloseCache

  // A Get holds the read lock of the cache shell through both sections.
  predicate Between(w: World) {
    exists t {:trigger w.callers[t]} :: t in w.callers && (w.callers[t].pc.Moving? || w.callers[t].pc.Dropping?)
  }

  predicate Enabled(w: World, ev: Event) {
    match ev
    case Call(t, _) => t !in w.callers && t !in w.loader.threads
    case Look(t, _) => t in w.callers && w.callers[t].pc.Asking?
    case Touch(t) => t in w.callers && (w.callers[t].pc.Moving? || w.callers[t].pc.Dropping?)
    case Flight(t, _, _) => t in w.callers && w.callers[t].pc.Loading? && SF.Enabled(w.loader, t)
    case Collect(t) =>
      t in w.callers && w.callers[t].pc.Loading? && t in w.loader.threads && w.loader.threads[t].pc.Finished?
    case WriteBack(t, _, _, _) => t in w.callers && w.callers[t].pc.Storing?
    case Clear => !Between(w)
    case CloseCache => w.closed && !Between(w)
    case _ => true
  }

  function Goto(w: World, t: Tid, pc: Pc): World
    requires t in w.callers
  {
    w.(callers := w.callers[t := w.callers[t].(pc := pc)])
  }

  function CacheAdd(w: World, k: Key, v: Prelude.Value, ttl: Option<int>, now: Time, now2: Time): World {
    if w.cacheClosed || ttl.None? then w else w.(store := Written(w.store, k, v, now, ttl.value, now2))
  }

  // A byte view is returned; anything else leads to a load.
  function Answered(w: World, t: Tid, hit: Option<Prelude.Value>): World
    requires t in w.callers
  {
    if hit.Some? && hit.value.View? then Goto(w, t, Replied(G.Value(hit.value)))
    else
      var l := w.loader.(threads := w.loader.threads[t := SF.Thread(w.callers[t].key, SF.Start)]);
      Goto(w.(loader := l), t, Loading)
  }

  function Looked(w: World, t: Tid, now: Time): World
    requires t in w.callers
  {
    var k := w.callers[t].key;
    if w.cacheClosed then Answered(w, t, None)
    else
      match R.First(w.store, k, now)
      case None => Answered(w, t, None)
      case Some(Drop(_)) => Goto(w, t, Dropping)
      case Some(Move(_, e)) => Goto(w, t, Moving(if e in w.store.entries then w.store.entries[e].value else Nil, e))
  }

  function Collected(r: SF.Result): Pc {
    match G.Collected(r)
    case Storing(v) => Storing(v)
    case Replied(reply) => Replied(reply)
    case Asking => Asking
    case Loading => Loading
  }

  function Next(w: World, ev: Event): World
    requires Enabled(w, ev)
  {
    match ev
    case Call(t, k) =>
      var pc := if w.closed then Replied(G.Closed) else if k == [] then Replied(G.KeyRequired) else Asking;
      w.(callers := w.callers[t := Caller(k, pc)])
    case Look(t, now) => Looked(w, t, now)
    case Touch(t) =>
      var k := w.callers[t].key;
      if w.callers[t].pc.Moving? then
        Answered(w.(store := Touched(w.store, k, w.callers[t].pc.e)), t, Some(w.callers[t].pc.v))
      else Answered(w.(store := Deleted(w.store, k)), t, None)
    case Flight(t, peer, getter) => w.(loader := SF.Next(w.loader, t, G.LoadData(peer, getter)))
    case Collect(t) => Goto(w, t, Collected(w.loader.threads[t].pc.result))
    case WriteBack(t, ttl, now, now2) =>
      var v := w.callers[t].pc.v;
      Goto(CacheAdd(w, w.callers[t].key, v, ttl, now, now2), t, Replied(G.Value(v)))
    case Set(k, b, ttl, now, now2, early) =>
      if (w.closed && !early) || k == [] || b == [] then w else CacheAdd(w, k, View(b), ttl, now, now2)
    case Delete(k, early) =>
      if (w.closed && !early) || k == [] || w.cacheClosed then w else w.(store := Deleted(w.store, k))
    case Tick(now) => w.(store := Evicted(w.store, now))
    case Limit(max, now) => w.(store := if max > 0 then Evicted(w.store.(max := max), now) else w.store.(max := max))
    case Clear => w.(store := Cleared(w.store))
    case Close => w.(closed := true)
    case CloseCache => w.(cacheClosed := true)
  }

  // ---- transparency -----------------------------------------------------------

  predicate Follows(w: World, ev: Event, f: G.Source) {
    match ev
    case Flight(t, peer, getter) =>
      t in w.callers ==>
        && (peer.PeerValue? ==> peer.b == f.of(w.callers[t].key))
        && (getter.Bytes? ==> getter.b == f.of(w.callers[t].key))
        && (f.total ==> peer.PeerValue? || getter.Bytes?)
    case Set(k, b, _, _, _, _) => b == f.of(k)
    case _ => true
  }

  ghost predicate StoreTrue(s: Lru, f: G.Source) {
    && Inv(s)
    && forall k {:trigger s.items[k]} {:trigger k in s.items} :: k in s.items ==>
         s.entries[s.items[k]].value == View(f.of(k))
  }

  ghost predicate CallerTrue(w: World, t: Tid, f: G.Source)
    requires t in w.callers
  {
    var c := w.callers[t];
    && (c.pc.Moving? || c.pc.Storing? ==> c.pc.v == View(f.of(c.key)))
    && (c.pc.Replied? ==> G.ReplyTrue(c.pc.r, c.key, f))
    && (c.pc.Loading? ==> t in w.loader.threads)
    && (t in w.loader.threads ==> w.loader.threads[t].key == c.key && (c.pc.Loading? || c.pc.Storing? || c.pc.Replied?))
  }

  ghost predicate True(w: World, f: G.Source) {
    && StoreTrue(w.store, f)
    && G.LoaderTrue(w.loader, f)
    && w.loader.threads.Keys <= w.callers.Keys
    && forall t {:trigger w.callers[t]} :: t in w.callers ==> CallerTrue(w, t, f)
  }

  lemma EvictedTrue(s: Lru, now: Time, f: G.Source)
    requires StoreTrue(s, f)
    ensures StoreTrue(Evicted(s, now), f)
  {
    hide Inv, Keep, Fit, Overdue, Bytes;
    var n := EvictedMeaning(s, now);
  }

  lemma DeletedTrue(s: Lru, k: Key, f: G.Source)
    requires StoreTrue(s, f)
    ensures StoreTrue(Deleted(s, k), f)
  {
    hide Inv, Minus, SizeOf, Bytes;
    R.DeletedInv(s, k);
  }

  lemma TouchedTrue(s: Lru, k: Key, e: Elem, f: G.Source)
    requires StoreTrue(s, f)
    ensures StoreTrue(Touched(s, k, e), f)
  {
    hide Inv, Minus;
    MoveInv(s, e);
  }

  lemma PushedTrue(s: Lru, k: Key, now: Time, ttl: int, f: G.Source)
    requires StoreTrue(s, f) && k !in s.items
    ensures StoreTrue(Pushed(s, k, View(f.of(k)), now, ttl), f)
  {
    PushedInv(s, k, View(f.of(k)), now, ttl);
    assert forall k' :: k' in s.items ==> s.items[k'] in s.entries && s.items[k'] != s.next;
    hide Inv;
  }

  lemma UpdatedTrue(s: Lru, k: Key, now: Time, ttl: int, f: G.Source)
    requires StoreTrue(s, f) && k in s.items
    ensures s.items[k] in s.entries && StoreTrue(Updated(s, k, View(f.of(k)), now, ttl), f)
  {
    UpdatedInv(s, k, View(f.of(k)), now, ttl);
    assert forall k' :: k' in s.items && k' != k ==> s.items[k'] in s.entries && s.items[k'] != s.items[k];
    hide Inv, Minus;
  }

  lemma WrittenTrue(s: Lru, k: Key, now: Time, ttl: int, now2: Time, f: G.Source)
    requires StoreTrue(s, f)
    ensures StoreTrue(Written(s, k, View(f.of(k)), now, ttl, now2), f)
  {
    hide StoreTrue, Evicted, Pushed, Updated;
    if k in s.items {
      UpdatedTrue(s, k, now, ttl, f);
    } else {
      PushedTrue(s, k, now, ttl, f);
      EvictedTrue(Pushed(s, k, View(f.of(k)), now, ttl), now2, f);
    }
  }

  // Replacing the store by a true one, or one caller by a true one.
  lemma StoresTrue(w: World, s: Lru, f: G.Source)
    requires True(w, f) && StoreTrue(s, f)
    ensures True(w.(store := s), f)
  {
    hide StoreTrue, G.LoaderTrue;
    forall t | t in w.callers ensures CallerTrue(w.(store := s), t, f) {
      assert CallerTrue(w, t, f);
    }
  }

  lemma GotoTrue(w: World, t: Tid, pc: Pc, f: G.Source)
    requires True(w, f) && t in w.callers && !pc.Asking?
    requires pc.Moving? || pc.Dropping? ==> w.callers[t].pc.Asking?
    requires pc.Moving? || pc.Storing? ==> pc.v == View(f.of(w.callers[t].key))
    requires pc.Replied? ==> G.ReplyTrue(pc.r, w.callers[t].key, f)
    requires pc.Loading? ==> t in w.loader.threads
    ensures True(Goto(w, t, pc), f)
  {
    hide StoreTrue, G.LoaderTrue, G.ReplyTrue;
    var w' := Goto(w, t, pc);
    forall x | x in w'.callers ensures CallerTrue(w', x, f) {
      assert CallerTrue(w, x, f);
    }
  }

  lemma AnsweredTrue(w: World, t: Tid, hit: Option<Prelude.Value>, f: G.Source)
    requires True(w, f) && t in w.callers
    requires w.callers[t].pc.Asking? || w.callers[t].pc.Moving? || w.callers[t].pc.Dropping?
    requires hit.Some? ==> hit.value == View(f.of(w.callers[t].key))
    ensures True(Answered(w, t, hit), f)
  {
    hide StoreTrue, G.LoaderTrue;
    assert CallerTrue(w, t, f);
    if hit.Some? {
      GotoTrue(w, t, Replied(G.Value(hit.value)), f);
    } else {
      G.LoaderJoin(w.loader, t, w.callers[t].key, f);
      var w' := Answered(w, t, hit);
      forall x | x in w'.callers ensures CallerTrue(w', x, f) {
        assert CallerTrue(w, x, f);
      }
    }
  }

  lemma LookedTrue(w: World, t: Tid, now: Time, f: G.Source)
    requires True(w, f) && t in w.callers && w.callers[t].pc.Asking?
    ensures True(Looked(w, t, now), f)
  {
    hide G.LoaderTrue, CallerTrue, Answered, Goto;
    var k := w.callers[t].key;
    if w.cacheClosed || R.First(w.store, k, now).None? {
      AnsweredTrue(w, t, None, f);
    } else {
      var e := w.store.items[k];
      GotoTrue(w, t, if IsOverdue(w.store, k, now) then Dropping else Moving(w.store.entries[e].value, e), f);
    }
  }

  lemma FlightTrue(w: World, t: Tid, how: SF.Outcome, f: G.Source)
    requires True(w, f) && t in w.loader.threads && SF.Enabled(w.loader, t)
    requires G.Honest(how, w.loader.threads[t].key, f)
    ensures True(w.(loader := SF.Next(w.loader, t, how)), f)
  {
    hide StoreTrue, G.LoaderTrue, SF.Next;
    G.LoaderStep(w.loader, t, how, f);
    var w' := w.(loader := SF.Next(w.loader, t, how));
    forall x | x in w'.callers ensures CallerTrue(w', x, f) {
      assert CallerTrue(w, x, f);
    }
  }

  lemma CallTrue(w: World, ev: Event, f: G.Source)
    requires True(w, f) && Enabled(w, ev) && ev.Call?
    ensures True(Next(w, ev), f)
  {
    hide StoreTrue, G.LoaderTrue;
    var w' := Next(w, ev);
    forall x | x in w'.callers ensures CallerTrue(w', x, f) {
      assert x in w.callers ==> CallerTrue(w, x, f);
    }
  }

  lemma FlagsTrue(w: World, closed: bool, cacheClosed: bool, f: G.Source)
    requires True(w, f)
    ensures True(w.(closed := closed, cacheClosed := cacheClosed), f)
  {
    hide StoreTrue, G.LoaderTrue;
    var w' := w.(closed := closed, cacheClosed := cacheClosed);
    forall x | x in w'.callers ensures CallerTrue(w', x, f) {
      assert CallerTrue(w, x, f);
    }
  }

  lemma AddTrue(w: World, k: Key, ttl: Option<int>, now: Time, now2: Time, f: G.Source)
    requires True(w, f)
    ensures True(CacheAdd(w, k, View(f.of(k)), ttl, now, now2), f)
    ensures CacheAdd(w, k, View(f.of(k)), ttl, now, now2).callers == w.callers
    ensures CacheAdd(w, k, View(f.of(k)), ttl, now, now2).loader == w.loader
  {
    hide StoreTrue, G.LoaderTrue, CallerTrue, Written;
    if !(w.cacheClosed || ttl.None?) {
      WrittenTrue(w.store, k, now, ttl.value, now2, f);
      StoresTrue(w, Written(w.store, k, View(f.of(k)), now, ttl.value, now2), f);
    }
  }

  lemma TouchTrue(w: World, t: Tid, f: G.Source)
    requires True(w, f) && Enabled(w, Touch(t))
    ensures True(Next(w, Touch(t)), f)
  {
    hide StoreTrue, G.LoaderTrue, Answered, Touched, Deleted;
    assert CallerTrue(w, t, f);
    var k := w.callers[t].key;
    if w.callers[t].pc.Moving? {
      TouchedTrue(w.store, k, w.callers[t].pc.e, f);
      StoresTrue(w, Touched(w.store, k, w.callers[t].pc.e), f);
      AnsweredTrue(w.(store := Touched(w.store, k, w.callers[t].pc.e)), t, Some(w.callers[t].pc.v), f);
    } else {
      DeletedTrue(w.store, k, f);
      StoresTrue(w, Deleted(w.store, k), f);
      AnsweredTrue(w.(store := Deleted(w.store, k)), t, None, f);
    }
  }

  lemma StoreStepTrue(w: World, ev: Event, f: G.Source)
    requires True(w, f) && Enabled(w, ev) && (ev.Delete? || ev.Tick? || ev.Limit? || ev.Clear?)
    ensures True(Next(w, ev), f)
  {
    hide G.LoaderTrue, CallerTrue, Evicted, Deleted;
    match ev {
      case Delete(k, _) =>
        DeletedTrue(w.store, k, f);
        StoresTrue(w, Deleted(w.store, k), f);
      case Tick(now) =>
        EvictedTrue(w.store, now, f);
        StoresTrue(w, Evicted(w.store, now), f);
      case Limit(max, now) =>
        var s := w.store.(max := max);
        EvictedTrue(s, now, f);
        StoresTrue(w, s, f);
        StoresTrue(w, Evicted(s, now), f);
      case Clear => StoresTrue(w, Cleared(w.store), f);
    }
  }

  lemma StepTrue(w: World, ev: Event, f: G.Source)
    requires True(w, f) && Enabled(w, ev) && Follows(w, ev, f)
    ensures True(Next(w, ev), f)
  {
    hide StoreTrue, G.LoaderTrue, SF.Next, SF.Enabled, CacheAdd, Answered, Looked;
    match ev {
      case Call(t, k) => CallTrue(w, ev, f);
      case Look(t, now) => LookedTrue(w, t, now, f);
      case Touch(t) => TouchTrue(w, t, f);
      case Flight(t, peer, getter) =>
        assert CallerTrue(w, t, f);
        FlightTrue(w, t, G.LoadData(peer, getter), f);
      case Collect(t) =>
        assert CallerTrue(w, t, f);
        G.CollectTrue(w.loader, t, f);
        GotoTrue(w, t, Collected(w.loader.threads[t].pc.result), f);
      case WriteBack(t, ttl, now, now2) =>
        assert CallerTrue(w, t, f);
        var v := w.callers[t].pc.v;
        AddTrue(w, w.callers[t].key, ttl, now, now2, f);
        GotoTrue(CacheAdd(w, w.callers[t].key, v, ttl, now, now2), t, Replied(G.Value(v)), f);
      case Set(k, b, ttl, now, now2, _) => AddTrue(w, k, ttl, now, now2, f);
      case Close => FlagsTrue(w, true, w.cacheClosed, f);
      case CloseCache => FlagsTrue(w, w.closed, true, f);
      case _ => StoreStepTrue(w, ev, f);
    }
  }

  // ---- runs -------------------------------------------------------------------

  ghost predicate Legal(w: World, es: seq<Event>, f: G.Source)
    decreases |es|
  {
    es == [] || (Enabled(w, es[0]) && Follows(w, es[0], f) && Legal(Next(w, es[0]), es[1..], f))
  }

  ghost function After(w: World, es: seq<Event>, f: G.Source): World
    requires Legal(w, es, f)
    decreases |es|
  {
    if es == [] then w else After(Next(w, es[0]), es[1..], f)
  }

  lemma {:induction false} RunTrue(w: World, es: seq<Event>, f: G.Source)
    requires True(w, f) && Legal(w, es, f)
    ensures True(After(w, es, f), f)
    decreases |es|
  {
    hide Next, Enabled, Follows, True;
    if es != [] {
      StepTrue(w, es[0], f);
      RunTrue(Next(w, es[0]), es[1..], f);
    }
  }

  ghost predicate Initial(w: World) {
    && w.store.list == [] && w.store.items == map[] && w.store.expires == map[] && w.store.entries == map[]
    && w.store.used == 0
    && w.callers == map[] && w.loader == SF.State(map[], map[], map[], multiset{})
  }

  lemma InitialTrue(w: World, f: G.Source)
    requires Initial(w)
    ensures True(w, f)
  {
  }

  // Every value a Get returns is the one the source has for its key, through
  // eviction, expiry, updates between its two critical sections, merged loads
  // and write-backs; and if in every load the peer or the getter answers, a Get
  // returns a value unless the group was closed or the key empty.
  lemma Transparency(w: World, es: seq<Event>, f: G.Source, t: Tid)
    requires Initial(w) && Legal(w, es, f)
    requires t in After(w, es, f).callers && After(w, es, f).callers[t].pc.Replied?
    ensures var c := After(w, es, f).callers[t];
            && (c.pc.r.Value? ==> c.pc.r.v == View(f.of(c.key)))
            && (f.total ==> c.pc.r.Value? || c.pc.r.Closed? || c.pc.r.KeyRequired?)
  {
    InitialTrue(w, f);
    RunTrue(w, es, f);
    assert CallerTrue(After(w, es, f), t, f);
  }

  // ---- what a Get finds -------------------------------------------------------

  lemma StepSound(w: World, ev: Event)
    requires Inv(w.store) && Enabled(w, ev)
    ensures Inv(Next(w, ev).store)
  {
    hide Inv, Written, Evicted, Deleted, SF.Next, SF.Enabled;
    match ev {
      case Touch(t) =>
        MoveInv(w.store, if w.callers[t].pc.Moving? then w.callers[t].pc.e else 0);
        R.DeletedInv(w.store, w.callers[t].key);
      case WriteBack(t, ttl, now, now2) =>
        if ttl.Some? {
          WrittenInv(w.store, w.callers[t].key, w.callers[t].pc.v, now, ttl.value, now2);
        }
      case Set(k, b, ttl, now, now2, _) =>
        if ttl.Some? {
          WrittenInv(w.store, k, View(b), now, ttl.value, now2);
        }
      case Delete(k, _) => R.DeletedInv(w.store, k);
      case Tick(now) => var n := EvictedMeaning(w.store, now);
      case Limit(max, now) =>
        R.LimitInv(w.store, max);
        var n := EvictedMeaning(w.store.(max := max), now);
      case Clear => ClearedEmpty(w.store, []);
      case _ =>
    }
  }

  // The first section of a Get of k at time now finds v.
  predicate Finds(w: World, t: Tid, k: Key, now: Time, v: Prelude.Value)
    requires t in w.callers && w.callers[t].key == k
  {
    t in Looked(w, t, now).callers && Looked(w, t, now).callers[t].pc.Moving? && Looked(w, t, now).callers[t].pc.v == v
  }

  lemma FindsStored(w: World, t: Tid, k: Key, now: Time, v: Prelude.Value)
    requires Inv(w.store) && t in w.callers && w.callers[t].key == k
    ensures Finds(w, t, k, now, v) <==>
              !w.cacheClosed && ValueOf(w.store, k) == Some(v) && !IsOverdue(w.store, k, now)
  {
    StoredHasValue(w.store, k);
  }

  // A value added to the cache is found by the next Get of its key exactly when
  // its deadline has not passed by then and it was not evicted by its own write:
  // the key was known, or the entry fits and was not late.
  lemma AddedFound(w: World, k: Key, v: Prelude.Value, ttl: int, now: Time, now2: Time, t: Tid, now3: Time)
    requires Inv(w.store) && !w.cacheClosed && v != Nil && t in w.callers && w.callers[t].key == k
    ensures var w1 := CacheAdd(w, k, v, Some(ttl), now, now2);
            t in w1.callers && w1.callers[t].key == k
            && (Finds(w1, t, k, now3, v) <==>
                  && !(ttl > 0 && now3 > now + ttl)
                  && (|| k in w.store.items
                      || ((w.store.max <= 0 || |k| + Len(v) <= w.store.max) && !(ttl > 0 && now2 > now + ttl))))
  {
    hide Inv, Written, SizeOf, Bytes, Looked;
    var w1 := CacheAdd(w, k, v, Some(ttl), now, now2);
    WrittenInv(w.store, k, v, now, ttl, now2);
    WrittenValues(w.store, k, v, now, ttl, now2, k);
    StoredHasValue(w1.store, k);
    FindsStored(w1, t, k, now3, v);
    if k !in w.store.items {
      NewEntrySurvives(w.store, k, v, now, ttl, now2);
    }
    if k in w1.store.items {
      var u := R.World(w.store, map[]);
      assert R.Sound(u) && R.Step(u, R.Set(k, v, now, ttl, now2)).s == w1.store;
      R.StepDeadline(u, R.Set(k, v, now, ttl, now2), k);
    }
  }

  // A Set in an open group, seen by the next Get of its key.
  lemma SetFound(w: World, k: Key, b: seq<uint8>, ttl: int, now: Time, now2: Time, t: Tid, now3: Time)
    requires Inv(w.store) && !w.closed && !w.cacheClosed && k != [] && b != []
    requires t in w.callers && w.callers[t] == Caller(k, Asking)
    ensures var w1 := Next(w, Set(k, b, Some(ttl), now, now2, false));
            && Enabled(w1, Look(t, now3)) && w1.callers[t].key == k
            && (Finds(w1, t, k, now3, View(b)) <==>
                  && !(ttl > 0 && now3 > now + ttl)
                  && (|| k in w.store.items
                      || ((w.store.max <= 0 || |k| + |b| <= w.store.max) && !(ttl > 0 && now2 > now + ttl))))
  {
    hide Inv, Finds;
    AddedFound(w, k, View(b), ttl, now, now2, t, now3);
  }

  // What the first section found is returned, whatever happens before the second.
  lemma FoundReturned(w: World, t: Tid, b: seq<uint8>)
    requires Enabled(w, Touch(t)) && w.callers[t].pc.Moving? && w.callers[t].pc.v == View(b)
    ensures Next(w, Touch(t)).callers[t].pc == Replied(G.Value(View(b)))
  {
  }

  // A key that is deleted, or cleared with all others, is loaded by the next Get.
  lemma RemovedLoads(w: World, ev: Event, k: Key, t: Tid, now: Time)
    requires Inv(w.store) && Enabled(w, ev) && ((ev == Delete(k, true) && k != [] && !w.cacheClosed) || ev.Clear?)
    requires t in w.callers && w.callers[t] == Caller(k, Asking)
    ensures var w1 := Next(w, ev); Enabled(w1, Look(t, now)) && Next(w1, Look(t, now)).callers[t].pc == Loading
  {
    hide Inv;
    DeletedValues(w.store, k, k);
    ClearedEmpty(w.store, k);
  }

  // A tick, or a positive limit, clears what has expired and enforces the limit.
  lemma TickClears(w: World, ev: Event, k: Key, t: Tid)
    requires Inv(w.store) && Enabled(w, ev) && (ev.Tick? || (ev.Limit? && ev.max > 0))
    requires t in w.callers && w.callers[t] == Caller(k, Asking) && IsOverdue(w.store, k, ev.now)
    ensures var w1 := Next(w, ev);
            && (w1.store.max > 0 ==> w1.store.used <= w1.store.max) && (ev.Limit? ==> w1.store.max == ev.max)
            && Enabled(w1, Look(t, ev.now)) && Next(w1, Look(t, ev.now)).callers[t].pc == Loading
  {
    hide Inv, Evicted, R.LastSet;
    var u := R.World(w.store, map[]);
    assert R.Sound(u);
    R.LimitHolds(u, if ev.Tick? then R.Tick(ev.now) else R.Limit(ev.max, ev.now));
    var s := if ev.Tick? then w.store else w.store.(max := ev.max);
    R.LimitInv(w.store, s.max);
    EvictedOverdue(s, k, ev.now);
  }

  lemma EvictedOverdue(s: Lru, k: Key, now: Time)
    requires Inv(s) && IsOverdue(s, k, now)
    ensures k !in Evicted(s, now).items
  {
    KeepMembers(s.list, s.entries, Overdue(s, now));
    var kept := Keep(s.list, s.entries, Overdue(s, now));
    var n := FitIsSuffix(kept, s.entries, s.max);
    assert forall e :: e in kept[n..] ==> e in kept;
  }

  // A write-back answers its Get and is seen by the next Get of its key.
  lemma WriteBackFound(w: World, u: Tid, b: seq<uint8>, ttl: int, now: Time, now2: Time, t: Tid, now3: Time)
    requires Inv(w.store) && !w.cacheClosed && u in w.callers && w.callers[u].pc == Storing(View(b))
    requires t != u && t in w.callers && w.callers[t] == Caller(w.callers[u].key, Asking)
    ensures var k, w1 := w.callers[u].key, Next(w, WriteBack(u, Some(ttl), now, now2));
            && w1.callers[u].pc == Replied(G.Value(View(b)))
            && Enabled(w1, Look(t, now3)) && w1.callers[t].key == k
            && (Finds(w1, t, k, now3, View(b)) <==>
                  && !(ttl > 0 && now3 > now + ttl)
                  && (|| k in w.store.items
                      || ((w.store.max <= 0 || |k| + |b| <= w.store.max) && !(ttl > 0 && now2 > now + ttl))))
  {
    hide Inv, Written, Finds;
    var k := w.callers[u].key;
    AddedFound(w, k, View(b), ttl, now, now2, t, now3);
    WrittenInv(w.store, k, View(b), now, ttl, now2);
    FindsStored(CacheAdd(w, k, View(b), Some(ttl), now, now2), t, k, now3, View(b));
    FindsStored(Next(w, WriteBack(u, Some(ttl), now, now2)), t, k, now3, View(b));
  }

  // A closed group refuses new Gets and ignores new Sets and Deletes, an open one
  // refuses only the empty key; a closed cache answers no Get and keeps nothing.
  lemma ClosedRefuses(w: World, ev: Event)
    requires Enabled(w, ev)
    ensures ev == Close ==> Next(w, ev).closed
    ensures ev == CloseCache ==> Next(w, ev).cacheClosed
    ensures w.closed ==> Next(w, ev).closed
    ensures w.cacheClosed ==> Next(w, ev).cacheClosed
    ensures ev.Call? && w.closed ==> Next(w, ev).callers[ev.t].pc == Replied(G.Closed)
    ensures ev.Call? && !w.closed ==>
              Next(w, ev).callers[ev.t].pc == if ev.key == [] then Replied(G.KeyRequired) else Asking
    ensures w.closed && (ev.Set? || ev.Delete?) && !ev.early ==> Next(w, ev) == w
    ensures w.cacheClosed && ev.Look? ==> Next(w, ev).callers[ev.t].pc == Loading
    ensures w.cacheClosed && (ev.Set? || ev.Delete? || ev.WriteBack?) ==> Next(w, ev).store == w.store
  {
    hide SF.Next, SF.Enabled, Written, Evicted, Deleted, Touched;
  }
}
