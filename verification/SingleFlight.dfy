// Request merging as a step machine. Any finite number of calls of Do, for any
// keys, interleave at their atomic steps: Load, Store, the end of fn, the
// recorded panic, Done and Delete.
module SingleFlight {
  import opened Measure
  import opened Prelude

  type Tid = nat

  // What fn did: it returned a value and possibly an error, or it panicked.
  datatype Outcome = Returned(val: Value, err: Option<Error>) | Panicking(reason: nat)

  datatype Error = Failure(code: nat) | PanicRecovered(reason: nat)

  // How Do ended: with a value and possibly an error, or by panicking again.
  datatype Result = Got(val: Value, err: Option<Error>) | Threw(reason: nat)

  // A call record; it is named by the thread that created it. The last field
  // remembers how fn ended and is read by no step.
  datatype Call = Call(val: Value, err: Option<Error>, done: bool, how: Option<Outcome>)

  datatype Pc =
    | Start
    | Waiting(on: Tid)                  // Load found a call
    | Missed                            // Load found none
    | Running                           // call stored, fn under way
    | Returning                         // val and err assigned
    | Recovered(reason: nat)            // fn panicked
    | Recorded(reason: nat)             // err assigned after the panic
    | Woken(panic: Option<nat>)         // Done called
    | Finished(result: Result, from: Tid)

  datatype Thread = Thread(key: Key, pc: Pc)

  // over counts, for each key, the Stores that replaced an entry.
  datatype State = State(m: map<Key, Tid>, calls: map<Tid, Call>, threads: map<Tid, Thread>, over: multiset<Key>)

  // Between Store and Delete.
  predicate Owns(pc: Pc) {
    pc.Running? || pc.Returning? || pc.Recovered? || pc.Recorded? || pc.Woken?
  }

  function InFlight(s: State, k: Key): set<Tid> {
    set t | t in s.threads && s.threads[t].key == k && Owns(s.threads[t].pc)
  }

  // Only a waiter whose call is not done is blocked.
  predicate Enabled(s: State, t: Tid) {
    && t in s.threads
    && match s.threads[t].pc
       case Finished(_, _) => false
       case Waiting(c) => c in s.calls && s.calls[c].done
       case Missed => true
       case Start => true
       case _ => t in s.calls
  }

  // One atomic step of thread t; how is the outcome of fn when fn ends now.
  function Next(s: State, t: Tid, how: Outcome): State
    requires Enabled(s, t)
  {
    var k := s.threads[t].key;
    match s.threads[t].pc
    case Start =>
      Goto(s, t, if k in s.m then Waiting(s.m[k]) else Missed)
    case Waiting(c) =>
      Goto(s, t, Finished(Got(s.calls[c].val, s.calls[c].err), c))
    case Missed =>
      Goto(s.(m := s.m[k := t],
              calls := s.calls[t := Call(Nil, None, false, None)],
              over := if k in s.m then s.over + multiset{k} else s.over), t, Running)
    case Running =>
      (match how
       case Returned(v, e) => Goto(Put(s, t, Call(v, e, false, Some(how))), t, Returning)
       case Panicking(r) => Goto(Put(s, t, s.calls[t].(how := Some(how))), t, Recovered(r)))
    case Recovered(r) =>
      Goto(Put(s, t, s.calls[t].(err := Some(PanicRecovered(r)))), t, Recorded(r))
    case Recorded(r) =>
      Goto(Put(s, t, s.calls[t].(done := true)), t, Woken(Some(r)))
    case Returning =>
      Goto(Put(s, t, s.calls[t].(done := true)), t, Woken(None))
    case Woken(p) =>
      Goto(s.(m := s.m - {k}), t,
           Finished(if p.Some? then Threw(p.value) else Got(s.calls[t].val, s.calls[t].err), t))
  }

  function Goto(s: State, t: Tid, pc: Pc): State
    requires t in s.threads
  {
    s.(threads := s.threads[t := s.threads[t].(pc := pc)])
  }

  function Put(s: State, t: Tid, c: Call): State {
    s.(calls := s.calls[t := c])
  }

  // ---- the invariant ------------------------------------------------------

  // What waiters of a call read once it is done.
  function Shared(how: Outcome): Result {
    match how
    case Returned(v, e) => Got(v, e)
    case Panicking(r) => Got(Nil, Some(PanicRecovered(r)))
  }

  // What the creator of a call returns.
  function Own(how: Outcome): Result {
    match how
    case Returned(v, e) => Got(v, e)
    case Panicking(r) => Threw(r)
  }

  // The record of a call agrees with the position of its creator.
  predicate CallOk(c: Call, pc: Pc) {
    match pc
    case Running => c == Call(Nil, None, false, None)
    case Returning => c.how.Some? && c.how.value.Returned? && Got(c.val, c.err) == Shared(c.how.value) && !c.done
    case Recovered(r) => c == Call(Nil, None, false, Some(Panicking(r)))
    case Recorded(r) => c == Call(Nil, Some(PanicRecovered(r)), false, Some(Panicking(r)))
    case Woken(p) => c.done && c.how.Some? && Got(c.val, c.err) == Shared(c.how.value)
                     && p == if c.how.value.Panicking? then Some(c.how.value.reason) else None
    case Finished(r, _) => c.done && c.how.Some? && Got(c.val, c.err) == Shared(c.how.value)
    case _ => false
  }

  ghost predicate ThreadOk(s: State, t: Tid)
    requires t in s.threads
  {
    var th := s.threads[t];
    && (Owns(th.pc) ==> t in s.calls)
    && (t in s.calls ==> CallOk(s.calls[t], th.pc))
    && match th.pc
       case Waiting(c) => c in s.calls && c in s.threads && s.threads[c].key == th.key && c != t
       case Finished(r, c) =>
         && c in s.calls && c in s.threads && s.threads[c].key == th.key
         && s.calls[c].done && s.calls[c].how.Some?
         && r == (if c == t then Own(s.calls[c].how.value) else Shared(s.calls[c].how.value))
       case _ => true
  }

  ghost predicate Inv(s: State) {
    && (forall t {:trigger s.threads[t]} :: t in s.threads ==> ThreadOk(s, t))
    && (forall t :: t in s.calls ==> t in s.threads)
    && (forall k {:trigger s.m[k]} {:trigger k in s.m} :: k in s.m ==> s.m[k] in InFlight(s, k))
  }

  ghost predicate Bounded(s: State, k: Key) {
    |InFlight(s, k)| <= s.over[k] + if k in s.m then 1 else 0
  }

  // Every caller is about to call Load; nothing is stored.
  ghost predicate Initial(s: State) {
    && s.m == map[] && s.calls == map[] && s.over == multiset{}
    && forall t :: t in s.threads ==> s.threads[t].pc == Start
  }

  lemma InitialOk(s: State, k: Key)
    requires Initial(s)
    ensures Inv(s) && Bounded(s, k)
  {
  }

  lemma FlightChange(s: State, t: Tid, how: Outcome, k: Key)
    requires Inv(s) && Enabled(s, t)
    ensures var s' := Next(s, t, how); var mine := s.threads[t].key == k;
            InFlight(s', k) ==
              if mine && s.threads[t].pc == Missed then InFlight(s, k) + {t}
              else if mine && s.threads[t].pc.Woken? then InFlight(s, k) - {t}
              else InFlight(s, k)
  {
  }

  lemma StepMine(s: State, t: Tid, how: Outcome)
    requires Inv(s) && Enabled(s, t)
    ensures ThreadOk(Next(s, t, how), t)
  {
  }

  lemma StepOther(s: State, t: Tid, how: Outcome, x: Tid)
    requires Inv(s) && Enabled(s, t) && x in s.threads && x != t
    ensures ThreadOk(Next(s, t, how), x)
  {
  }

  lemma StepInv(s: State, t: Tid, how: Outcome)
    requires Inv(s) && Enabled(s, t)
    ensures Inv(Next(s, t, how))
  {
    hide ThreadOk;
    var s' := Next(s, t, how);
    forall x | x in s'.threads ensures ThreadOk(s', x) {
      if x == t {
        StepMine(s, t, how);
      } else {
        StepOther(s, t, how, x);
      }
    }
    forall k' | k' in s'.m ensures s'.m[k'] in InFlight(s', k') {
      FlightChange(s, t, how, k');
    }
  }

  // A caller may arrive at any time.
  lemma Arrival(s: State, t: Tid, k: Key)
    requires Inv(s) && t !in s.threads
    ensures Inv(s.(threads := s.threads[t := Thread(k, Start)]))
  {
  }

  // The number of calls in flight for a key is at most one more than the
  // number of Stores that replaced an entry of the key.
  lemma StepBound(s: State, t: Tid, how: Outcome, k: Key)
    requires Inv(s) && Enabled(s, t) && Bounded(s, k)
    ensures Bounded(Next(s, t, how), k)
  {
    FlightChange(s, t, how, k);
    if s.threads[t].key == k && s.threads[t].pc.Woken? {
      assert t in InFlight(s, k);
    }
  }

  // ---- runs ---------------------------------------------------------------

  datatype Move = Move(t: Tid, how: Outcome)

  predicate Legal(s: State, moves: seq<Move>)
    decreases |moves|
  {
    moves == [] || (Enabled(s, moves[0].t) && Legal(Next(s, moves[0].t, moves[0].how), moves[1..]))
  }

  function After(s: State, moves: seq<Move>): State
    requires Legal(s, moves)
    decreases |moves|
  {
    if moves == [] then s else After(Next(s, moves[0].t, moves[0].how), moves[1..])
  }

  // Every interleaving, any number of callers and keys: the invariant holds
  // and calls in flight are bounded by the replaced entries.
  lemma {:induction false} RunInv(s: State, moves: seq<Move>, k: Key)
    requires Inv(s) && Bounded(s, k) && Legal(s, moves)
    ensures Inv(After(s, moves)) && Bounded(After(s, moves), k)
    ensures After(s, moves).over[k] >= s.over[k]
    decreases |moves|
  {
    if moves != [] {
      StepInv(s, moves[0].t, moves[0].how);
      StepBound(s, moves[0].t, moves[0].how, k);
      RunInv(Next(s, moves[0].t, moves[0].how), moves[1..], k);
    }
  }

  // At most one call of k in flight at every point of the run.
  predicate Alone(s: State, moves: seq<Move>, k: Key)
    requires Legal(s, moves)
    decreases |moves|
  {
    && |InFlight(s, k)| <= 1
    && (moves == [] || Alone(Next(s, moves[0].t, moves[0].how), moves[1..], k))
  }

  // Calls of k never overlap between their Store and their Delete exactly when
  // no Store of k replaced an entry.
  lemma {:induction false} AloneIff(s: State, moves: seq<Move>, k: Key)
    requires Inv(s) && Bounded(s, k) && s.over[k] == 0 && Legal(s, moves)
    ensures Alone(s, moves, k) <==> After(s, moves).over[k] == 0
    decreases |moves|
  {
    if moves != [] {
      var t, how := moves[0].t, moves[0].how;
      var s' := Next(s, t, how);
      StepInv(s, t, how);
      StepBound(s, t, how, k);
      if s'.over[k] == 0 {
        AloneIff(s', moves[1..], k);
      } else {
        assert s.threads[t].key == k && s.threads[t].pc == Missed && k in s.m;
        FlightChange(s, t, how, k);
        var c := s.m[k];
        assert c in InFlight(s, k) && t !in InFlight(s, k);
        assert {t, c} <= InFlight(s', k);
        SubsetSize({t, c}, InFlight(s', k));
        RunInv(s', moves[1..], k);
      }
    }
  }

  // fn can run twice at a time for a key: two callers that both Load before
  // either of them Stores both run it.
  lemma DoubleRun(k: Key)
    ensures var s := State(map[], map[], map[0 := Thread(k, Start), 1 := Thread(k, Start)], multiset{});
            var any := Returned(Nil, None);
            var moves := [Move(0, any), Move(1, any), Move(0, any), Move(1, any)];
            && Initial(s) && Legal(s, moves)
            && After(s, moves).threads == map[0 := Thread(k, Running), 1 := Thread(k, Running)]
  {
    var s := State(map[], map[], map[0 := Thread(k, Start), 1 := Thread(k, Start)], multiset{});
    var any := Returned(Nil, None);
    var s1 := Next(s, 0, any);
    var s2 := Next(s1, 1, any);
    var s3 := Next(s2, 0, any);
    var s4 := Next(s3, 1, any);
    var m := Move(0, any);
    var m' := Move(1, any);
    assert [m, m', m, m'][1..] == [m', m, m'] && [m', m, m'][1..] == [m, m'] && [m, m'][1..] == [m'] && [m'][1..] == [];
    assert Legal(s4, []) && After(s4, []) == s4;
    assert Legal(s3, [m']) && After(s3, [m']) == s4;
    assert Legal(s2, [m, m']) && After(s2, [m, m']) == s4;
    assert Legal(s1, [m', m, m']) && After(s1, [m', m, m']) == s4;
  }

  // A caller that has finished got the result of one definite call for its own
  // key, which was done by then: what fn of its own call did, or the shared
  // result of the call it found, in which a panic has become an error.
  lemma FinishedResult(s: State, moves: seq<Move>, t: Tid)
    requires Initial(s) && Legal(s, moves)
    requires t in After(s, moves).threads && After(s, moves).threads[t].pc.Finished?
    ensures var s' := After(s, moves); var th := s'.threads[t]; var c := th.pc.from;
            && c in s'.calls && c in s'.threads && s'.threads[c].key == th.key
            && s'.calls[c].done && s'.calls[c].how.Some?
            && th.pc.result == if c == t then Own(s'.calls[c].how.value) else Shared(s'.calls[c].how.value)
  {
    InitialOk(s, []);
    RunInv(s, moves, []);
    assert ThreadOk(After(s, moves), t);
  }

  // When nobody is inside Do any more, no entry is left behind.
  lemma Quiescent(s: State)
    requires Inv(s)
    requires forall t :: t in s.threads ==> s.threads[t].pc.Start? || s.threads[t].pc.Finished?
    ensures s.m == map[]
  {
  }

  // ---- progress -----------------------------------------------------------

  // No deadlock: while some caller has not finished, some caller can step.
  lemma Progress(s: State, t: Tid) returns (u: Tid)
    requires Inv(s) && t in s.threads && !s.threads[t].pc.Finished?
    ensures Enabled(s, u)
  {
    assert ThreadOk(s, t);
    u := t;
    if s.threads[t].pc.Waiting? {
      var c := s.threads[t].pc.on;
      assert ThreadOk(s, c);
      if !s.calls[c].done {
        u := c;
      }
    }
  }

  // Steps a caller may still take.
  function Rank(pc: Pc): nat {
    match pc
    case Start => 6
    case Missed => 5
    case Running => 4
    case Recovered(_) => 3
    case Recorded(_) => 2
    case Returning => 2
    case Woken(_) => 1
    case Waiting(_) => 1
    case Finished(_, _) => 0
  }

  ghost function Work(s: State): nat {
    Sum(map t | t in s.threads :: Rank(s.threads[t].pc))
  }

  lemma StepRank(s: State, t: Tid, how: Outcome)
    requires Enabled(s, t)
    ensures var s' := Next(s, t, how);
            && s'.threads.Keys == s.threads.Keys && s'.threads == s.threads[t := s'.threads[t]]
            && Rank(s'.threads[t].pc) < Rank(s.threads[t].pc)
  {
  }

  lemma StepWork(s: State, t: Tid, how: Outcome)
    requires Enabled(s, t)
    ensures Work(Next(s, t, how)) < Work(s)
  {
    hide Next, Rank, Enabled;
    StepRank(s, t, how);
    var s' := Next(s, t, how);
    var m, m' := map x | x in s.threads :: Rank(s.threads[x].pc), map x | x in s'.threads :: Rank(s'.threads[x].pc);
    assert m - {t} == m' - {t};
    SumDrops(m, m', t);
  }

  // Every run is finite, and one that cannot be continued has no blocked caller.
  lemma {:induction false} RunFinite(s: State, moves: seq<Move>)
    requires Legal(s, moves)
    ensures |moves| + Work(After(s, moves)) <= Work(s)
    decreases |moves|
  {
    if moves != [] {
      StepWork(s, moves[0].t, moves[0].how);
      RunFinite(Next(s, moves[0].t, moves[0].how), moves[1..]);
    }
  }

  lemma AllFinish(s: State, moves: seq<Move>, t: Tid)
    requires Initial(s) && Legal(s, moves)
    requires forall u :: !Enabled(After(s, moves), u)
    requires t in After(s, moves).threads
    ensures After(s, moves).threads[t].pc.Finished? && After(s, moves).m == map[]
  {
    InitialOk(s, []);
    RunInv(s, moves, []);
    forall x | x in After(s, moves).threads ensures After(s, moves).threads[x].pc.Finished? {
      if !After(s, moves).threads[x].pc.Finished? {
        var u := Progress(After(s, moves), x);
      }
    }
    Quiescent(After(s, moves));
  }
}
