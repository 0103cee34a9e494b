// Runs from a new group in which a write-back decides what a Get finds.
module GroupWitness {
  import opened Prelude
  import opened Lru2List
  import B = Lru2Bucket
  import SF = SingleFlight
  import opened GroupGet
  import opened GroupFresh

  // Events es lead from w to w'.
  ghost predicate Leads(w: World, es: seq<Event>, w': World) {
    Shaped(w) && Legal(w, es) && After(w, es) == w'
  }

  lemma OneEvent(w: World, ev: Event)
    requires Shaped(w) && Enabled(w, ev)
    ensures Leads(w, [ev], Next(w, ev))
  {
    hide Next, Enabled;
    assert [ev][..0] == [];
    assert Legal(w, []) && After(w, []) == w;
    assert Legal(w, [ev]);
  }

  lemma {:induction false} Then(w: World, es: seq<Event>, w1: World, es': seq<Event>, w2: World)
    requires Leads(w, es, w1) && Leads(w1, es', w2)
    ensures Leads(w, es + es', w2)
    decreases |es'|
  {
    hide Next, Enabled;
    if es' == [] {
      assert es + es' == es;
    } else {
      var front, last := es'[..|es'| - 1], es'[|es'| - 1];
      Then(w, es, w1, front, After(w1, front));
      assert (es + es')[..|es + es'| - 1] == es + front && (es + es')[|es + es'| - 1] == last;
    }
  }

  // ---- a Get up to its write-back -------------------------------------------------

  // The group is open, k is neither cached nor being loaded, and t is new.
  ghost predicate Cold(w: World, t: Tid, k: Key) {
    && Shaped(w) && !w.closed && !w.cacheClosed && k != [] && k !in w.loader.m
    && t !in w.callers && t !in w.loader.threads
    && B.Read(w.buckets[Home(w, k)], k, 1, 1) == (w.buckets[Home(w, k)], None, None)
  }

  // A Get of k by caller t whose load brings b, up to the write-back.
  function Fetching(t: Tid, k: Key, b: seq<uint8>): seq<Event> {
    var f := Flight(t, NoPeer, Bytes(b));
    [Call(t, k), Lookup(t, 1, 1)] + [f, f, f, f, f] + [Collect(t)]
  }

  function Joined(l: SF.State, t: Tid, k: Key): SF.State {
    l.(threads := l.threads[t := SF.Thread(k, SF.Start)])
  }

  function Loaded(l: SF.State, t: Tid, k: Key, b: seq<uint8>): SF.State {
    l.(threads := l.threads[t := SF.Thread(k, SF.Finished(SF.Got(View(b), None), t))],
       calls := l.calls[t := SF.Call(View(b), None, true, Some(SF.Returned(View(b), None)))])
  }

  function Fetched(w: World, t: Tid, k: Key, b: seq<uint8>): World {
    w.(callers := w.callers[t := Caller(k, Storing(View(b)))], loader := Loaded(w.loader, t, k, b))
  }

  lemma Asks(w: World, t: Tid, k: Key)
    requires Cold(w, t, k)
    ensures Leads(w, [Call(t, k), Lookup(t, 1, 1)],
                  w.(callers := w.callers[t := Caller(k, Loading)], loader := Joined(w.loader, t, k)))
  {
    hide B.Read;
    var w1 := Next(w, Call(t, k));
    var w2 := Next(w1, Lookup(t, 1, 1));
    OneEvent(w, Call(t, k));
    OneEvent(w1, Lookup(t, 1, 1));
    Then(w, [Call(t, k)], w1, [Lookup(t, 1, 1)], w2);
    assert [Call(t, k)] + [Lookup(t, 1, 1)] == [Call(t, k), Lookup(t, 1, 1)];
    assert w2.buckets == w.buckets;
    assert w2.callers == w.callers[t := Caller(k, Loading)];
  }

  // Halfway through Do: fn has returned.
  function Halfway(l: SF.State, t: Tid, k: Key, b: seq<uint8>): SF.State {
    var how := SF.Returned(View(b), None);
    l.(m := l.m[k := t], threads := l.threads[t := SF.Thread(k, SF.Returning)],
       calls := l.calls[t := SF.Call(View(b), None, false, Some(how))])
  }

  lemma FliesOut(l: SF.State, t: Tid, k: Key, b: seq<uint8>) returns (l1: SF.State, l2: SF.State)
    requires k !in l.m && t !in l.threads
    ensures var how := SF.Returned(View(b), None); var l0 := Joined(l, t, k);
            && SF.Enabled(l0, t) && l1 == SF.Next(l0, t, how)
            && SF.Enabled(l1, t) && l2 == SF.Next(l1, t, how)
            && SF.Enabled(l2, t) && SF.Next(l2, t, how) == Halfway(l, t, k, b)
  {
    var how := SF.Returned(View(b), None);
    l1 := SF.Next(Joined(l, t, k), t, how);
    l2 := SF.Next(l1, t, how);
    assert SF.Next(l2, t, how).threads == Halfway(l, t, k, b).threads;
    assert SF.Next(l2, t, how).calls == Halfway(l, t, k, b).calls;
  }

  lemma FliesBack(l: SF.State, t: Tid, k: Key, b: seq<uint8>) returns (l4: SF.State)
    requires k !in l.m && t !in l.threads
    ensures var how := SF.Returned(View(b), None); var l3 := Halfway(l, t, k, b);
            && SF.Enabled(l3, t) && l4 == SF.Next(l3, t, how)
            && SF.Enabled(l4, t) && SF.Next(l4, t, how) == Loaded(l, t, k, b)
  {
    var how := SF.Returned(View(b), None);
    l4 := SF.Next(Halfway(l, t, k, b), t, how);
    var l5 := SF.Next(l4, t, how);
    assert l5.m == l.m;
    assert l5.threads == Loaded(l, t, k, b).threads;
    assert l5.calls == Loaded(l, t, k, b).calls;
  }

  lemma FlightEvent(w: World, t: Tid, b: seq<uint8>)
    requires Shaped(w) && t in w.callers && w.callers[t].pc.Loading? && SF.Enabled(w.loader, t)
    ensures Leads(w, [Flight(t, NoPeer, Bytes(b))], w.(loader := SF.Next(w.loader, t, SF.Returned(View(b), None))))
  {
    OneEvent(w, Flight(t, NoPeer, Bytes(b)));
  }

  lemma Flies(w: World, t: Tid, k: Key, b: seq<uint8>, l: SF.State)
    requires Shaped(w) && t in w.callers && w.callers[t].pc.Loading?
    requires k !in l.m && t !in l.threads && w.loader == Joined(l, t, k)
    ensures var f := Flight(t, NoPeer, Bytes(b)); Leads(w, [f, f, f, f, f], w.(loader := Loaded(l, t, k, b)))
  {
    hide SF.Next, SF.Enabled, Leads;
    var f := Flight(t, NoPeer, Bytes(b));
    var l1, l2 := FliesOut(l, t, k, b);
    var l4 := FliesBack(l, t, k, b);
    var w1, w2, w3, w4 := w.(loader := l1), w.(loader := l2), w.(loader := Halfway(l, t, k, b)), w.(loader := l4);
    FlightEvent(w, t, b);
    FlightEvent(w1, t, b);
    FlightEvent(w2, t, b);
    FlightEvent(w3, t, b);
    FlightEvent(w4, t, b);
    var w5 := w.(loader := Loaded(l, t, k, b));
    Then(w, [f], w1, [f], w2);
    Then(w, [f] + [f], w2, [f], w3);
    Then(w, [f] + [f] + [f], w3, [f], w4);
    Then(w, [f] + [f] + [f] + [f], w4, [f], w5);
    assert [f] + [f] + [f] + [f] + [f] == [f, f, f, f, f];
  }

  lemma Fetches(w: World, t: Tid, k: Key, b: seq<uint8>)
    requires Cold(w, t, k)
    ensures Leads(w, Fetching(t, k, b), Fetched(w, t, k, b))
  {
    hide Leads, Next;
    var f := Flight(t, NoPeer, Bytes(b));
    var w1 := w.(callers := w.callers[t := Caller(k, Loading)], loader := Joined(w.loader, t, k));
    var w2 := w1.(loader := Loaded(w.loader, t, k, b));
    Asks(w, t, k);
    Flies(w1, t, k, b, w.loader);
    CollectEvent(w2, t, View(b));
    Then(w, [Call(t, k), Lookup(t, 1, 1)], w1, [f, f, f, f, f], w2);
    Then(w, [Call(t, k), Lookup(t, 1, 1)] + [f, f, f, f, f], w2, [Collect(t)], Goto(w2, t, Storing(View(b))));
    assert Goto(w2, t, Storing(View(b))) == Fetched(w, t, k, b);
  }

  lemma CollectEvent(w: World, t: Tid, v: Prelude.Value)
    requires Shaped(w) && t in w.callers && w.callers[t].pc.Loading?
    requires t in w.loader.threads && w.loader.threads[t].pc == SF.Finished(SF.Got(v, None), t)
    ensures Leads(w, [Collect(t)], Goto(w, t, Storing(v)))
  {
    OneEvent(w, Collect(t));
  }

  // ---- which value is found --------------------------------------------------------

  lemma NewGroupCold(w: World, t: Tid, k: Key)
    requires Initial(w) && !w.closed && !w.cacheClosed && k != []
    ensures Cold(w, t, k)
  {
  }

  // Storing in the empty home bucket of k puts the entry in its first level, and
  // storing again replaces it.
  lemma StoreTwice(b: B.Bucket, k: Key, v: Prelude.Value, v': Prelude.Value, d: int64)
    requires b.l1 == [] && b.l2 == [] && b.c1 > 0
    ensures B.Write(b, k, v, d).0 == b.(l1 := [Node(k, v, d)])
    ensures B.Write(b.(l1 := [Node(k, v, d)]), k, v', d).0 == b.(l1 := [Node(k, v', d)])
  {
    assert Without([Node(k, v, d)], 0) == [];
  }

  lemma FindOnly(b: B.Bucket, k: Key, v: Prelude.Value, d: int64)
    requires b.c2 > 0 && d > 1 && b.l1 == [Node(k, v, d)]
    ensures B.Read(b, k, 1, 1).1 == Some(v)
  {
  }

  // A Get that loaded a value before a Set of another one, and writes it back
  // after the Set: the next Get finds the older value.
  function Overtaken(k: Key, b: seq<uint8>, b': seq<uint8>, d: int64): seq<Event> {
    Fetching(0, k, b) + [Set(k, b', Some(d), false)] + [WriteBack(0, Some(d))]
  }

  lemma OldValueFound(w: World, k: Key, b: seq<uint8>, b': seq<uint8>, d: int64)
    requires Initial(w) && !w.closed && !w.cacheClosed && k != [] && b' != [] && b != b' && d > 1
    ensures var es := Overtaken(k, b, b', d);
            Legal(w, es) && Hit(w, es, k, 1, 1) == Some(View(b)) && Hit(w, es, k, 1, 1) != Some(View(b'))
  {
    hide Leads, B.Write, B.Read;
    NewGroupCold(w, 0, k);
    Fetches(w, 0, k, b);
    var w1 := Fetched(w, 0, k, b);
    var w2 := w1.(buckets := Holding(w, k, View(b'), d));
    var w3 := Goto(w2.(buckets := Holding(w, k, View(b), d)), 0, Replied(Value(View(b))));
    FirstSet(w, w1, k, b', d);
    Restores(w, k, View(b'), 0, w2, d);
    Then(w, Fetching(0, k, b), w1, [Set(k, b', Some(d), false)], w2);
    Then(w, Fetching(0, k, b) + [Set(k, b', Some(d), false)], w2, [WriteBack(0, Some(d))], w3);
    FindOnly(w3.buckets[Home(w, k)], k, View(b), d);
    LeadsTo(w, Overtaken(k, b, b', d), w3);
  }

  lemma LeadsTo(w: World, es: seq<Event>, w': World)
    requires Leads(w, es, w')
    ensures Legal(w, es) && After(w, es) == w'
  {
  }

  lemma SetEvent(w: World, k: Key, b: seq<uint8>, d: int64)
    requires Shaped(w) && !w.closed && !w.cacheClosed && k != [] && b != [] && d > 0
    ensures Leads(w, [Set(k, b, Some(d), false)],
                  w.(buckets := w.buckets[Home(w, k) := B.Write(w.buckets[Home(w, k)], k, View(b), d).0]))
  {
    OneEvent(w, Set(k, b, Some(d), false));
  }

  lemma WriteBackEvent(w: World, t: Tid, d: int64)
    requires Shaped(w) && !w.cacheClosed && d > 0 && t in w.callers && w.callers[t].pc.Storing?
    ensures var k, v := w.callers[t].key, w.callers[t].pc.v;
            Leads(w, [WriteBack(t, Some(d))],
                  Goto(w.(buckets := w.buckets[Home(w, k) := B.Write(w.buckets[Home(w, k)], k, v, d).0]), t,
                    Replied(Value(v))))
  {
    OneEvent(w, WriteBack(t, Some(d)));
  }

  // A second write-back, of a value loaded before the Set that happens to be the
  // value set, brings that value back.
  function OvertakenTwice(k: Key, b: seq<uint8>, b': seq<uint8>, d: int64): seq<Event> {
    Fetching(0, k, b) + Fetching(1, k, b') + [Set(k, b', Some(d), false)] + [WriteBack(0, Some(d))]
      + [WriteBack(1, Some(d))]
  }

  lemma BothFetch(w: World, k: Key, b: seq<uint8>, b': seq<uint8>)
    requires Initial(w) && !w.closed && !w.cacheClosed && k != []
    ensures Leads(w, Fetching(0, k, b) + Fetching(1, k, b'), Fetched(Fetched(w, 0, k, b), 1, k, b'))
  {
    hide Leads;
    NewGroupCold(w, 0, k);
    NewGroupCold(w, 1, k);
    Fetches(w, 0, k, b);
    Fetches(Fetched(w, 0, k, b), 1, k, b');
    Then(w, Fetching(0, k, b), Fetched(w, 0, k, b), Fetching(1, k, b'), Fetched(Fetched(w, 0, k, b), 1, k, b'));
  }

  // The empty group w with one entry of k.
  function Holding(w: World, k: Key, v: Prelude.Value, d: int64): (bs: seq<B.Bucket>)
    requires Shaped(w)
    ensures |bs| == |w.buckets| && bs[Home(w, k)] == w.buckets[Home(w, k)].(l1 := [Node(k, v, d)])
  {
    w.buckets[Home(w, k) := w.buckets[Home(w, k)].(l1 := [Node(k, v, d)])]
  }

  lemma Restores(w: World, k: Key, v: Prelude.Value, t: Tid, w': World, d: int64)
    requires Initial(w) && Shaped(w') && !w'.cacheClosed && d > 0 && w'.buckets == Holding(w, k, v, d)
    requires t in w'.callers && w'.callers[t].pc.Storing? && w'.callers[t].key == k
    ensures var x := w'.callers[t].pc.v;
            Leads(w', [WriteBack(t, Some(d))], Goto(w'.(buckets := Holding(w, k, x, d)), t, Replied(Value(x))))
  {
    hide Leads, B.Write;
    var x, i := w'.callers[t].pc.v, Home(w, k);
    StoreTwice(w.buckets[i], k, v, x, d);
    WriteBackEvent(w', t, d);
    assert w'.buckets[i := w.buckets[i].(l1 := [Node(k, x, d)])] == Holding(w, k, x, d);
  }

  lemma NewValueFound(w: World, k: Key, b: seq<uint8>, b': seq<uint8>, d: int64)
    requires Initial(w) && !w.closed && !w.cacheClosed && k != [] && b' != [] && b != b' && d > 1
    ensures var es := OvertakenTwice(k, b, b', d); Legal(w, es) && Hit(w, es, k, 1, 1) == Some(View(b'))
  {
    hide Leads, B.Write, B.Read;
    BothFetch(w, k, b, b');
    var w1 := Fetched(Fetched(w, 0, k, b), 1, k, b');
    var w2 := w1.(buckets := Holding(w, k, View(b'), d));
    var w3 := Goto(w2.(buckets := Holding(w, k, View(b), d)), 0, Replied(Value(View(b))));
    var w4 := Goto(w3.(buckets := Holding(w, k, View(b'), d)), 1, Replied(Value(View(b'))));
    FirstSet(w, w1, k, b', d);
    Restores(w, k, View(b'), 0, w2, d);
    Restores(w, k, View(b), 1, w3, d);
    var es1, es2 := Fetching(0, k, b) + Fetching(1, k, b'), [Set(k, b', Some(d), false)];
    Then(w, es1, w1, es2, w2);
    Then(w, es1 + es2, w2, [WriteBack(0, Some(d))], w3);
    Then(w, es1 + es2 + [WriteBack(0, Some(d))], w3, [WriteBack(1, Some(d))], w4);
    FindOnly(w4.buckets[Home(w, k)], k, View(b'), d);
    LeadsTo(w, OvertakenTwice(k, b, b', d), w4);
  }

  lemma FirstSet(w: World, w': World, k: Key, b: seq<uint8>, d: int64)
    requires Initial(w) && w'.buckets == w.buckets && Shaped(w')
    requires !w'.closed && !w'.cacheClosed && k != [] && b != [] && d > 0
    ensures Leads(w', [Set(k, b, Some(d), false)], w'.(buckets := Holding(w, k, View(b), d)))
  {
    hide Leads, B.Write;
    StoreTwice(w.buckets[Home(w, k)], k, View(b), View(b), d);
    SetEvent(w', k, b, d);
  }
}
