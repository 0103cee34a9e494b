// Which operations of the cache shell reach the store: exactly those that find
// it made and not closed.
module LifecycleUse {
  import opened Lifecycle

  // Thread t is about to call a method of the store at some point of the run.
  ghost predicate Uses(s: State, moves: seq<Move>, t: Tid)
    requires Legal(s, moves)
    decreases |moves|
  {
    || (t in s.threads && s.threads[t].pc == Using)
    || (moves != [] && Uses(Next(s, moves[0].t, moves[0].late), moves[1..], t))
  }

  // One of its looks at closed finds it set.
  ghost predicate SeesClosed(s: State, moves: seq<Move>, t: Tid)
    requires Legal(s, moves)
    decreases |moves|
  {
    moves != [] &&
      (|| (moves[0].t == t && s.threads[t].pc in {Entry, Ensure1, Locked, RLocked} && s.closed)
       || SeesClosed(Next(s, moves[0].t, moves[0].late), moves[1..], t))
  }

  // Its first look at initialized finds it set.
  ghost predicate SeesStore(s: State, moves: seq<Move>, t: Tid)
    requires Legal(s, moves)
    decreases |moves|
  {
    moves != [] &&
      (|| (moves[0].t == t && FindsStore(s, moves[0]))
       || SeesStore(Next(s, moves[0].t, moves[0].late), moves[1..], t))
  }

  // ensureInitialized returns to an AddWithExpiration whose deadline has passed.
  ghost predicate TooLate(s: State, moves: seq<Move>, t: Tid)
    requires Legal(s, moves)
    decreases |moves|
  {
    moves != [] &&
      (|| (moves[0].t == t && IsLate(s, moves[0]))
       || TooLate(Next(s, moves[0].t, moves[0].late), moves[1..], t))
  }

  lemma StepOf(s: State, m: Move, t: Tid)
    requires Enabled(s, m.t) && t in s.threads && Typed(s.threads[t])
    ensures var s' := Next(s, m.t, m.late);
            && t in s'.threads && s'.threads[t].op == s.threads[t].op && Typed(s'.threads[t])
            && (m.t != t ==> s'.threads[t] == s.threads[t])
            && (s.closed ==> s'.closed)
  {
  }

  lemma ClosedStep(s: State, m: Move, t: Tid)
    requires Enabled(s, m.t) && t in s.threads && s.closed && s.threads[t].pc != Using
    ensures Next(s, m.t, m.late).threads[t].pc != Using
  {
  }

  // Once the cache is closed nobody begins to use the store.
  lemma {:induction false} ClosedNoUse(s: State, moves: seq<Move>, t: Tid)
    requires Legal(s, moves) && t in s.threads && Typed(s.threads[t]) && s.closed && s.threads[t].pc != Using
    ensures !Uses(s, moves, t)
    decreases |moves|
  {
    hide Next, Enabled, Typed;
    if moves != [] {
      StepOf(s, moves[0], t);
      ClosedStep(s, moves[0], t);
      ClosedNoUse(Next(s, moves[0].t, moves[0].late), moves[1..], t);
    }
  }

  // What decides whether a thread at th will use the store.
  ghost predicate Due(th: Thread, seesClosed: bool, seesStore: bool, tooLate: bool) {
    match th.pc
    case Using => true
    case Entry => th.op != Close && !seesClosed && if Adds(th.op) then !tooLate else seesStore
    case CheckInit => !seesClosed && seesStore
    case Ensure1 => !seesClosed && !tooLate
    case Ensure2 => !seesClosed && !tooLate
    case InitCheck => !seesClosed && !tooLate
    case Stored => !seesClosed && !tooLate
    case WantLock => th.op != Close && !seesClosed && (Adds(th.op) ==> !tooLate)
    case Locked => th.op != Close && !seesClosed && (Adds(th.op) ==> !tooLate)
    case Releasing => Adds(th.op) && !seesClosed && !tooLate
    case WantRLock => !seesClosed
    case RLocked => !seesClosed
    case _ => false
  }

  // Past its last look at closed.
  predicate Looked(th: Thread) {
    th.pc in {Using, RReleasing, Ended} || (th.pc == Releasing && !Adds(th.op))
  }

  // A thread past its last look does not look again, and past ensureInitialized
  // it is not late any more.
  predicate Behind(th: Thread, seesClosed: bool, seesStore: bool, tooLate: bool) {
    && (Looked(th) ==> !seesClosed)
    && (!(th.pc in {Entry, CheckInit}) ==> !seesStore)
    && (th.op != AddTimed || th.pc in {WantRLock, RLocked, Using, RReleasing, Ended} ==> !tooLate)
  }

  lemma BehindStep(s: State, m: Move, t: Tid)
    requires Enabled(s, m.t) && t in s.threads && Typed(s.threads[t])
    ensures var th, th' := s.threads[t], Next(s, m.t, m.late).threads[t];
            && (Looked(th) ==> Looked(th'))
            && (!(th.pc in {Entry, CheckInit}) ==> !(th'.pc in {Entry, CheckInit}))
            && (th.op != AddTimed || th.pc in {WantRLock, RLocked, Using, RReleasing, Ended} ==>
                  th'.op != AddTimed || th'.pc in {WantRLock, RLocked, Using, RReleasing, Ended})
  {
  }

  lemma {:induction false} StaysBehind(s: State, moves: seq<Move>, t: Tid)
    requires Legal(s, moves) && t in s.threads && Typed(s.threads[t])
    ensures Behind(s.threads[t], SeesClosed(s, moves, t), SeesStore(s, moves, t), TooLate(s, moves, t))
    decreases |moves|
  {
    hide Next, Enabled, Typed;
    if moves != [] {
      StepOf(s, moves[0], t);
      BehindStep(s, moves[0], t);
      StaysBehind(Next(s, moves[0].t, moves[0].late), moves[1..], t);
    }
  }

  // A move of t itself that does not find the cache closed, given what the rest
  // of the run decides: that it finds initialized set, or is too late, adds to it.
  ghost predicate Passes(s: State, m: Move, c: bool, i: bool, l: bool)
    requires Enabled(s, m.t)
  {
    var th, s' := s.threads[m.t], Next(s, m.t, m.late);
    m.t in s'.threads
    && (Due(th, c, i || FindsStore(s, m), l || IsLate(s, m)) <==> Due(s'.threads[m.t], c, i, l))
  }

  predicate FindsStore(s: State, m: Move)
    requires Enabled(s, m.t)
  {
    s.threads[m.t].pc == CheckInit && s.initialized
  }

  predicate IsLate(s: State, m: Move)
    requires Enabled(s, m.t)
  {
    var th := s.threads[m.t];
    && m.late && th.op == AddTimed
    && ((th.pc == Ensure1 && s.closed) || (th.pc == Ensure2 && s.initialized) || th.pc == Releasing)
  }

  lemma AddPasses(s: State, m: Move, c: bool, i: bool, l: bool)
    requires Enabled(s, m.t) && Typed(s.threads[m.t]) && Adds(s.threads[m.t].op) && s.threads[m.t].pc != Using
    requires s.threads[m.t].pc in {Entry, Ensure1, Locked, RLocked} ==> !s.closed
    requires m.t in Next(s, m.t, m.late).threads && Behind(Next(s, m.t, m.late).threads[m.t], c, i, l)
    ensures Passes(s, m, c, i, l)
  {
  }

  lemma OtherPasses(s: State, m: Move, c: bool, i: bool, l: bool)
    requires Enabled(s, m.t) && Typed(s.threads[m.t]) && !Adds(s.threads[m.t].op) && s.threads[m.t].pc != Using
    requires s.threads[m.t].pc in {Entry, Ensure1, Locked, RLocked} ==> !s.closed
    requires m.t in Next(s, m.t, m.late).threads && Behind(Next(s, m.t, m.late).threads[m.t], c, i, l)
    ensures Passes(s, m, c, i, l)
  {
  }

  // A thread that has ended used the store exactly when it was due to.
  lemma {:induction false} UsesIffDue(s: State, moves: seq<Move>, t: Tid)
    requires Legal(s, moves) && t in s.threads && Typed(s.threads[t])
    requires t in After(s, moves).threads && After(s, moves).threads[t].pc == Ended
    ensures Uses(s, moves, t) <==>
              Due(s.threads[t], SeesClosed(s, moves, t), SeesStore(s, moves, t), TooLate(s, moves, t))
    decreases |moves|
  {
    hide Next, Enabled, Typed, Due;
    if moves != [] {
      var m, rest := moves[0], moves[1..];
      var s' := Next(s, m.t, m.late);
      StepOf(s, m, t);
      UsesIffDue(s', rest, t);
      if m.t == t {
        StaysBehind(s', rest, t);
        if s.threads[t].pc in {Entry, Ensure1, Locked, RLocked} && s.closed {
          ClosedStep(s, m, t);
          ClosedNoUse(s', rest, t);
        } else if s.threads[t].pc != Using && Adds(s.threads[t].op) {
          AddPasses(s, m, SeesClosed(s', rest, t), SeesStore(s', rest, t), TooLate(s', rest, t));
        } else if s.threads[t].pc != Using {
          OtherPasses(s, m, SeesClosed(s', rest, t), SeesStore(s', rest, t), TooLate(s', rest, t));
        }
      }
    }
    DueUsing(s.threads[t], SeesClosed(s, moves, t), SeesStore(s, moves, t), TooLate(s, moves, t));
  }

  lemma DueUsing(th: Thread, c: bool, i: bool, l: bool)
    ensures th.pc == Using ==> Due(th, c, i, l)
    ensures th.pc == Ended ==> !Due(th, c, i, l)
    ensures c && th.pc != Using ==> !Due(th, c, i, l)
  {
  }

  lemma OpStep(s: State, m: Move, t: Tid)
    requires Enabled(s, m.t) && t in s.threads
    ensures t in Next(s, m.t, m.late).threads && Next(s, m.t, m.late).threads[t].op == s.threads[t].op
  {
  }

  // No operation is lost. In any interleaving, an operation that has ended has
  // called the store exactly when: for Add, it never found the cache closed; for
  // AddWithExpiration, neither that nor a passed deadline; for Get, Delete, Len
  // and Clear, it found the cache initialized and never found it closed.
  lemma EveryOperationServed(s: State, moves: seq<Move>, t: Tid)
    requires Initial(s) && Legal(s, moves) && t in s.threads
    requires t in After(s, moves).threads && After(s, moves).threads[t].pc == Ended
    ensures var op := s.threads[t].op;
            && (op == Add ==> (Uses(s, moves, t) <==> !SeesClosed(s, moves, t)))
            && (op == AddTimed ==> (Uses(s, moves, t) <==> !SeesClosed(s, moves, t) && !TooLate(s, moves, t)))
            && (op in {Get, Delete, Len, Clear} ==>
                  (Uses(s, moves, t) <==> SeesStore(s, moves, t) && !SeesClosed(s, moves, t)))
            && (op == Close ==> !Uses(s, moves, t))
  {
    hide Next, Enabled;
    UsesIffDue(s, moves, t);
    if s.threads[t].op == Add {
      NeverTooLate(s, moves, t);
    }
  }

  lemma {:induction false} NeverTooLate(s: State, moves: seq<Move>, t: Tid)
    requires Legal(s, moves) && t in s.threads && s.threads[t].op != AddTimed
    ensures !TooLate(s, moves, t)
    decreases |moves|
  {
    hide Next, Enabled;
    if moves != [] {
      OpStep(s, moves[0], t);
      NeverTooLate(Next(s, moves[0].t, moves[0].late), moves[1..], t);
    }
  }
}
