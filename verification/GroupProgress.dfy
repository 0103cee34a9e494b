// Every Get is answered: the composition of cache, request merging and
// write-back has no deadlock and no endless run of its own steps.
module GroupProgress {
  import opened Measure
  import opened Prelude
  import B = Lru2Bucket
  import SF = SingleFlight
  import opened GroupGet

  // A caller is inside the loader exactly as its position says.
  ghost predicate CallerLinked(w: World, t: Tid)
    requires t in w.callers
  {
    && (w.callers[t].pc.Loading? ==> t in w.loader.threads)
    && (t in w.loader.threads ==> !w.callers[t].pc.Asking?)
    && (t in w.loader.threads && !w.loader.threads[t].pc.Finished? ==> w.callers[t].pc.Loading?)
  }

  ghost predicate Linked(w: World) {
    && Shaped(w) && SF.Inv(w.loader)
    && w.loader.threads.Keys <= w.callers.Keys
    && forall t {:trigger w.callers[t]} :: t in w.callers ==> CallerLinked(w, t)
  }

  lemma InitialLinked(w: World)
    requires Initial(w)
    ensures Linked(w)
  {
  }

  lemma AnsweredLinked(w: World, t: Tid, hit: Option<Prelude.Value>)
    requires Linked(w) && t in w.callers && w.callers[t].pc.Asking?
    ensures Linked(Answered(w, t, hit))
  {
    hide SF.Inv;
    assert CallerLinked(w, t);
    SF.Arrival(w.loader, t, w.callers[t].key);
  }

  lemma FlightLinked(w: World, t: Tid, how: SF.Outcome)
    requires Linked(w) && t in w.callers && w.callers[t].pc.Loading? && SF.Enabled(w.loader, t)
    ensures Linked(w.(loader := SF.Next(w.loader, t, how)))
  {
    hide SF.Inv, SF.Next, SF.Rank;
    SF.StepInv(w.loader, t, how);
    SF.StepRank(w.loader, t, how);
  }

  lemma GotoLinked(w: World, t: Tid, pc: Pc)
    requires Linked(w) && t in w.callers && (pc.Storing? || pc.Replied?)
    requires t in w.loader.threads ==> w.loader.threads[t].pc.Finished?
    ensures Linked(Goto(w, t, pc))
  {
    hide SF.Inv;
  }

  lemma BucketsLinked(w: World, w': World)
    requires Linked(w) && Shaped(w') && w'.callers == w.callers && w'.loader == w.loader
    ensures Linked(w')
  {
    hide SF.Inv;
    forall t | t in w'.callers ensures CallerLinked(w', t) {
      assert CallerLinked(w, t);
    }
  }

  lemma ReadCaps(b: B.Bucket, k: Key, now1: int64, now2: int64)
    requires b.c2 > 0
    ensures B.Read(b, k, now1, now2).0.c1 == b.c1 && B.Read(b, k, now1, now2).0.c2 == b.c2
  {
  }

  lemma StepLinked(w: World, ev: Event)
    requires Linked(w) && Enabled(w, ev)
    ensures Linked(Next(w, ev))
  {
    hide SF.Inv, SF.Next, SF.Enabled, Answered, B.Read, B.Write, B.Removed, B.Swept;
    var w' := Next(w, ev);
    match ev {
      case Call(t, k) =>
      case Lookup(t, now1, now2) =>
        if w.cacheClosed {
          AnsweredLinked(w, t, None);
        } else {
          var i := Home(w, w.callers[t].key);
          var (b, hit, _) := B.Read(w.buckets[i], w.callers[t].key, now1, now2);
          ReadCaps(w.buckets[i], w.callers[t].key, now1, now2);
          BucketsLinked(w, Replaced(w, i, b));
          AnsweredLinked(Replaced(w, i, b), t, hit);
        }
      case Flight(t, peer, getter) => FlightLinked(w, t, LoadData(peer, getter));
      case Collect(t) => GotoLinked(w, t, Collected(w.loader.threads[t].pc.result));
      case WriteBack(t, d) =>
        assert CallerLinked(w, t);
        var w1 := CacheAdd(w, w.callers[t].key, w.callers[t].pc.v, d);
        BucketsLinked(w, w1);
        GotoLinked(w1, t, Replied(Value(w.callers[t].pc.v)));
      case _ => BucketsLinked(w, w');
    }
  }

  lemma {:induction false} RunLinked(w: World, es: seq<Event>)
    requires Linked(w) && Legal(w, es)
    ensures Linked(After(w, es))
    decreases |es|
  {
    hide Next, Enabled, CallerLinked;
    if es != [] {
      RunLinked(w, es[..|es| - 1]);
      StepLinked(After(w, es[..|es| - 1]), es[|es| - 1]);
    }
  }

  // ---- progress -------------------------------------------------------------

  // A step of some Get that has begun.
  predicate Moves(ev: Event) {
    ev.Lookup? || ev.Flight? || ev.Collect? || ev.WriteBack?
  }

  // While some Get is unanswered some Get can step, whatever the environment does.
  lemma Progress(w: World, t: Tid) returns (ev: Event)
    requires Linked(w) && t in w.callers && !w.callers[t].pc.Replied?
    ensures Moves(ev) && Enabled(w, ev)
  {
    hide SF.Inv, SF.Enabled;
    assert CallerLinked(w, t);
    match w.callers[t].pc {
      case Asking => ev := Lookup(t, 0, 0);
      case Storing(v) => ev := WriteBack(t, None);
      case Loading =>
        if w.loader.threads[t].pc.Finished? {
          ev := Collect(t);
        } else {
          var u := SF.Progress(w.loader, t);
          EnabledThread(w.loader, u);
          assert CallerLinked(w, u);
          ev := Flight(u, NoPeer, Fails(0));
        }
    }
  }

  lemma EnabledThread(l: SF.State, u: Tid)
    requires SF.Enabled(l, u)
    ensures u in l.threads && !l.threads[u].pc.Finished?
  {
  }

  // Steps a Get may still take.
  function Rank(w: World, t: Tid): nat
    requires t in w.callers
  {
    match w.callers[t].pc
    case Asking => 9
    case Loading => 2 + if t in w.loader.threads then SF.Rank(w.loader.threads[t].pc) else 0
    case Storing(_) => 1
    case Replied(_) => 0
  }

  ghost function Work(w: World): nat {
    Sum(map t | t in w.callers :: Rank(w, t))
  }

  function Mover(ev: Event): Tid
    requires Moves(ev)
  {
    match ev
    case Lookup(t, _, _) => t
    case Flight(t, _, _) => t
    case Collect(t) => t
    case WriteBack(t, _) => t
  }

  lemma StepRank(w: World, ev: Event)
    requires Linked(w) && Enabled(w, ev) && Moves(ev)
    ensures var w', t := Next(w, ev), Mover(ev);
            && t in w.callers && w'.callers.Keys == w.callers.Keys && Rank(w', t) < Rank(w, t)
            && forall x :: x in w.callers && x != t ==> Rank(w', x) == Rank(w, x)
  {
    hide SF.Inv, SF.Next, SF.Enabled, SF.Rank, B.Read, B.Write;
    assert CallerLinked(w, Mover(ev));
    match ev {
      case Lookup(t, _, _) => StartRank();
      case Flight(t, peer, getter) => SF.StepRank(w.loader, t, LoadData(peer, getter));
      case Collect(t) =>
      case WriteBack(t, d) =>
    }
  }

  lemma StartRank()
    ensures SF.Rank(SF.Start) == 6
  {
  }

  lemma StepWork(w: World, ev: Event)
    requires Linked(w) && Enabled(w, ev) && !ev.Call?
    ensures if Moves(ev) then Work(Next(w, ev)) < Work(w) else Work(Next(w, ev)) == Work(w)
  {
    hide Rank, SF.Inv;
    var w' := Next(w, ev);
    var m, m' := map x | x in w.callers :: Rank(w, x), map x | x in w'.callers :: Rank(w', x);
    if Moves(ev) {
      StepRank(w, ev);
      var t := Mover(ev);
      assert m - {t} == m' - {t};
      SumDrops(m, m', t);
    } else {
      SameRanks(w, ev);
      assert m == m';
    }
  }

  lemma SameRanks(w: World, ev: Event)
    requires Shaped(w) && Enabled(w, ev) && !ev.Call? && !Moves(ev)
    ensures Next(w, ev).callers == w.callers && forall x :: x in w.callers ==> Rank(Next(w, ev), x) == Rank(w, x)
  {
    hide B.Read, B.Write, B.Removed, B.Swept;
  }

  function Count(es: seq<Event>): nat
    decreases |es|
  {
    if es == [] then 0 else Count(es[..|es| - 1]) + if Moves(es[|es| - 1]) then 1 else 0
  }

  // Once no new Get arrives, the Gets take a bounded number of steps, however
  // many Sets, Deletes and cleanup ticks come in between ...
  lemma {:induction false} RunFinite(w: World, es: seq<Event>)
    requires Linked(w) && Legal(w, es) && forall p {:trigger es[p]} :: 0 <= p < |es| ==> !es[p].Call?
    ensures Count(es) + Work(After(w, es)) <= Work(w)
    decreases |es|
  {
    hide Next, Enabled, Linked, Work;
    if es != [] {
      var front := es[..|es| - 1];
      assert forall p {:trigger front[p]} :: 0 <= p < |front| ==> front[p] == es[p];
      LinkedShaped(w);
      RunFinite(w, front);
      RunLinked(w, front);
      StepWork(After(w, front), es[|es| - 1]);
    }
  }

  lemma LinkedShaped(w: World)
    ensures Linked(w) ==> Shaped(w)
  {
  }

  // ... and when none of them can step any more, all have been answered.
  lemma AllReply(w: World, es: seq<Event>, t: Tid)
    requires Initial(w) && Legal(w, es)
    requires forall ev :: Moves(ev) ==> !Enabled(After(w, es), ev)
    requires t in After(w, es).callers
    ensures After(w, es).callers[t].pc.Replied?
  {
    hide Enabled, Linked;
    InitialLinked(w);
    RunLinked(w, es);
    if !After(w, es).callers[t].pc.Replied? {
      var ev := Progress(After(w, es), t);
    }
  }
}
