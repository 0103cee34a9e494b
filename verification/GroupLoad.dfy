// What a load brings, over whole runs: which answer of the peer or the getter
// a caller ends up with.
module GroupLoad {
  import opened Prelude
  import SF = SingleFlight
  import R = SingleFlightRuns
  import opened GroupGet
  import opened GroupProgress

  // At event p the fn of caller c ends; these are the answers it could have had.
  ghost predicate Ends(w: World, es: seq<Event>, p: nat, c: Tid, peer: PeerAnswer, getter: GetterAnswer)
    requires Shaped(w) && Legal(w, es)
  {
    && p < |es| && es[p] == Flight(c, peer, getter)
    && var l := At(w, es, p).loader; c in l.threads && l.threads[c].pc == SF.Running
  }

  // The caller returns b, or is about to.
  predicate Gets(pc: Pc, b: seq<uint8>) {
    pc == Storing(View(b)) || pc == Replied(Value(View(b)))
  }

  // The answer of the peer if there is one, whatever the getter does; otherwise
  // the bytes, the error or the panic of the getter. A panic comes back as a
  // panic only to the caller that ran fn.
  predicate Deserves(pc: Pc, own: bool, peer: PeerAnswer, getter: GetterAnswer) {
    && (peer.PeerValue? ==> Gets(pc, peer.b))
    && (!peer.PeerValue? && getter.Bytes? ==> Gets(pc, getter.b))
    && (!peer.PeerValue? && getter.Fails? ==> pc == Replied(LoadError(SF.Failure(getter.code))))
    && (!peer.PeerValue? && getter.Panics? && own ==> pc == Replied(Panicked(getter.reason)))
    && (!peer.PeerValue? && getter.Panics? && !own ==> pc == Replied(LoadError(SF.PanicRecovered(getter.reason))))
  }

  // ---- the outcome of fn stays recorded -------------------------------------------

  ghost predicate Recorded(l: SF.State, c: Tid, how: SF.Outcome) {
    c in l.calls && l.calls[c].how == Some(how) && R.OnItsOwn(l, c)
  }

  lemma FlightRecords(l: SF.State, c: Tid, how: SF.Outcome)
    requires SF.Enabled(l, c) && l.threads[c].pc == SF.Running
    ensures Recorded(SF.Next(l, c, how), c, how)
  {
  }

  lemma FlightKeeps(l: SF.State, t: Tid, how': SF.Outcome, c: Tid, how: SF.Outcome)
    requires SF.Inv(l) && SF.Enabled(l, t) && Recorded(l, c, how)
    ensures Recorded(SF.Next(l, t, how'), c, how)
  {
    assert c in l.threads && SF.ThreadOk(l, c);
  }

  // The loader after an event.
  lemma LoaderStep(w: World, ev: Event)
    requires Shaped(w) && Enabled(w, ev)
    ensures var l, l' := w.loader, Next(w, ev).loader;
            if ev.Flight? then SF.Enabled(l, ev.t) && l' == SF.Next(l, ev.t, LoadData(ev.peer, ev.getter))
            else if ev.Lookup? then
              l' == l || l' == l.(threads := l.threads[ev.t := SF.Thread(w.callers[ev.t].key, SF.Start)])
            else l' == l
  {
    hide SF.Next, SF.Enabled, LoadData;
  }

  lemma StepKeeps(w: World, ev: Event, c: Tid, how: SF.Outcome)
    requires Linked(w) && Enabled(w, ev) && Recorded(w.loader, c, how)
    ensures Recorded(Next(w, ev).loader, c, how)
  {
    hide SF.Inv, SF.Next, SF.Enabled, Next;
    LoaderStep(w, ev);
    if ev.Flight? {
      FlightKeeps(w.loader, ev.t, LoadData(ev.peer, ev.getter), c, how);
    } else if ev.Lookup? {
      assert CallerLinked(w, ev.t);
    }
  }

  lemma {:induction false} StaysRecorded(w: World, es: seq<Event>, p: nat, c: Tid,
                                         peer: PeerAnswer, getter: GetterAnswer)
    requires Initial(w) && Legal(w, es) && Ends(w, es, p, c, peer, getter)
    ensures Recorded(After(w, es).loader, c, LoadData(peer, getter))
    decreases |es|
  {
    hide Next, Enabled, LoadData, Recorded, Linked, SF.Enabled;
    var front := es[..|es| - 1];
    AtFront(w, es, p);
    InitialLinked(w);
    RunLinked(w, front);
    if p < |front| {
      StaysRecorded(w, front, p, c, peer, getter);
      StepKeeps(After(w, front), es[|es| - 1], c, LoadData(peer, getter));
    } else {
      LoaderStep(After(w, front), es[p]);
      FlightRecords(After(w, front).loader, c, LoadData(peer, getter));
    }
  }

  // ---- callers take what the loader gave them ---------------------------------------

  ghost predicate Took(w: World, t: Tid) {
    t in w.callers && t in w.loader.threads && w.loader.threads[t].pc.Finished? && !w.callers[t].pc.Loading? ==>
      var pc := Collected(w.loader.threads[t].pc.result);
      w.callers[t].pc == pc || (pc.Storing? && w.callers[t].pc == Replied(Value(pc.v)))
  }

  lemma StepTook(w: World, ev: Event, t: Tid)
    requires Linked(w) && Enabled(w, ev) && Took(w, t)
    ensures Took(Next(w, ev), t)
  {
    hide SF.Inv, SF.Next, SF.Enabled, LoadData, Next;
    CallersStep(w, ev, t);
    LoaderStep(w, ev);
    if t in w.callers {
      assert CallerLinked(w, t);
    }
    if ev.Flight? {
      ThreadsStep(w.loader, ev.t, LoadData(ev.peer, ev.getter), t);
    }
  }

  lemma ThreadsStep(l: SF.State, u: Tid, how: SF.Outcome, t: Tid)
    requires SF.Enabled(l, u)
    ensures t in SF.Next(l, u, how).threads <==> t in l.threads
    ensures t in l.threads && l.threads[t].pc.Finished? ==> u != t
    ensures t in l.threads && u != t ==> SF.Next(l, u, how).threads[t] == l.threads[t]
  {
  }

  // What an event does to caller t.
  lemma CallersStep(w: World, ev: Event, t: Tid)
    requires Shaped(w) && Enabled(w, ev)
    ensures var cs, cs' := w.callers, Next(w, ev).callers;
            && (t in cs ==> t in cs')
            && (t !in cs && t in cs' ==> t !in w.loader.threads)
            && (t in cs && cs'[t] != cs[t] ==>
                  || (ev.Lookup? && ev.t == t && cs[t].pc.Asking?)
                  || (ev.Collect? && ev.t == t && cs[t].pc.Loading? && t in w.loader.threads
                      && cs'[t].pc == Collected(w.loader.threads[t].pc.result))
                  || (ev.WriteBack? && ev.t == t && cs[t].pc.Storing? && cs'[t].pc == Replied(Value(cs[t].pc.v))))
  {
    hide SF.Next, SF.Enabled;
  }

  lemma {:induction false} RunTook(w: World, es: seq<Event>, t: Tid)
    requires Initial(w) && Legal(w, es)
    ensures Took(After(w, es), t)
    decreases |es|
  {
    hide Next, Enabled, Linked;
    if es != [] {
      var front := es[..|es| - 1];
      InitialLinked(w);
      RunLinked(w, front);
      RunTook(w, front, t);
      StepTook(After(w, front), es[|es| - 1], t);
    }
  }

  // ---- which answer a caller gets -----------------------------------------------------

  // Every caller that finished with the call of c got what the fn of c brought.
  lemma LoadDecides(w: World, es: seq<Event>, p: nat, c: Tid, peer: PeerAnswer, getter: GetterAnswer, t: Tid)
    requires Initial(w) && Legal(w, es) && Ends(w, es, p, c, peer, getter)
    requires var w' := After(w, es);
             && t in w'.callers && !w'.callers[t].pc.Loading? && t in w'.loader.threads
             && w'.loader.threads[t].pc.Finished? && w'.loader.threads[t].pc.from == c
    ensures Deserves(After(w, es).callers[t].pc, t == c, peer, getter)
  {
    hide Next, Enabled, SF.Enabled, SF.Next;
    InitialLinked(w);
    RunLinked(w, es);
    StaysRecorded(w, es, p, c, peer, getter);
    RunTook(w, es, t);
    assert SF.ThreadOk(After(w, es).loader, t);
  }

  // A caller that ran fn itself gets what its own fn brought, as soon as it has
  // left the loader.
  lemma OwnLoadDecides(w: World, es: seq<Event>, p: nat, c: Tid, peer: PeerAnswer, getter: GetterAnswer)
    requires Initial(w) && Legal(w, es) && Ends(w, es, p, c, peer, getter)
    requires c in After(w, es).callers && !After(w, es).callers[c].pc.Loading?
    ensures Deserves(After(w, es).callers[c].pc, true, peer, getter)
  {
    hide Next, Enabled, SF.Enabled, SF.Next, Deserves, LoadData;
    InitialLinked(w);
    RunLinked(w, es);
    StaysRecorded(w, es, p, c, peer, getter);
    assert CallerLinked(After(w, es), c);
    LoadDecides(w, es, p, c, peer, getter, c);
  }

  // Every outcome the loader knows was brought by one event.
  lemma {:induction false} BroughtBy(w: World, es: seq<Event>, c: Tid)
    returns (p: nat, peer: PeerAnswer, getter: GetterAnswer)
    requires Initial(w) && Legal(w, es)
    requires c in After(w, es).loader.calls && After(w, es).loader.calls[c].how.Some?
    ensures Ends(w, es, p, c, peer, getter)
    decreases |es|
  {
    hide Next, Enabled, LoadData, SF.Enabled, SF.Next;
    var front, ev := es[..|es| - 1], es[|es| - 1];
    AtFront(w, es, |es| - 1);
    var l := After(w, front).loader;
    LoaderStep(After(w, front), ev);
    if ev.Flight? {
      NewOutcome(l, ev.t, LoadData(ev.peer, ev.getter), c);
    }
    if c in l.calls && l.calls[c].how.Some? {
      p, peer, getter := BroughtBy(w, front, c);
      AtFront(w, es, p);
    } else {
      p, peer, getter := |es| - 1, ev.peer, ev.getter;
    }
  }

  lemma NewOutcome(l: SF.State, t: Tid, how: SF.Outcome, c: Tid)
    requires SF.Enabled(l, t)
    ensures var l' := SF.Next(l, t, how);
            c in l'.calls && l'.calls[c].how.Some? && !(c in l.calls && l.calls[c].how.Some?) ==>
              c == t && t in l.threads && l.threads[t].pc == SF.Running
  {
  }

  // So a Get that missed the cache returns what one definite load brought.
  lemma AnswerOrigin(w: World, es: seq<Event>, t: Tid)
    returns (p: nat, c: Tid, peer: PeerAnswer, getter: GetterAnswer)
    requires Initial(w) && Legal(w, es)
    requires t in After(w, es).callers && t in After(w, es).loader.threads && !After(w, es).callers[t].pc.Loading?
    ensures Ends(w, es, p, c, peer, getter) && Deserves(After(w, es).callers[t].pc, t == c, peer, getter)
  {
    hide Next, Enabled, SF.Enabled, SF.Next, Deserves, LoadData;
    InitialLinked(w);
    RunLinked(w, es);
    assert CallerLinked(After(w, es), t);
    assert SF.ThreadOk(After(w, es).loader, t);
    c := After(w, es).loader.threads[t].pc.from;
    p, peer, getter := BroughtBy(w, es, c);
    LoadDecides(w, es, p, c, peer, getter, t);
  }
}
