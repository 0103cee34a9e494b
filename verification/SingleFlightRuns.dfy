// What merging guarantees over whole runs: when fn runs twice at a time for a
// key, and when a caller gets the result of a call it overlaps.
module SingleFlightRuns {
  import opened Prelude
  import opened SingleFlight

  // ---- fn running twice at a time -------------------------------------------

  predicate Runs(s: State, t: Tid, k: Key) {
    t in s.threads && s.threads[t] == Thread(k, Running)
  }

  ghost predicate OneRuns(s: State, k: Key) {
    forall t, u :: Runs(s, t, k) && Runs(s, u, k) ==> t == u
  }

  // fn runs for at most one caller of k at every point of the run.
  ghost predicate NeverTwice(s: State, moves: seq<Move>, k: Key)
    requires Legal(s, moves)
    decreases |moves|
  {
    OneRuns(s, k) && (moves == [] || NeverTwice(Next(s, moves[0].t, moves[0].how), moves[1..], k))
  }

  predicate Misses(s: State, t: Tid, k: Key) {
    t in s.threads && s.threads[t] == Thread(k, Missed)
  }

  // Stores of k made while another caller runs fn for k.
  ghost function Clashes(s: State, moves: seq<Move>, k: Key): nat
    requires Legal(s, moves)
    decreases |moves|
  {
    if moves == [] then 0
    else
      var t := moves[0].t;
      (if Misses(s, t, k) && exists u :: Runs(s, u, k) then 1 else 0)
      + Clashes(Next(s, t, moves[0].how), moves[1..], k)
  }

  lemma RunsChange(s: State, t: Tid, how: Outcome, k: Key, u: Tid)
    requires Enabled(s, t)
    ensures Runs(Next(s, t, how), u, k) <==> if u == t then Misses(s, t, k) else Runs(s, u, k)
  {
  }

  // Two callers of k run fn at the same time exactly when some Store of k is
  // made while another caller runs fn for k.
  lemma {:induction false} NeverTwiceIff(s: State, moves: seq<Move>, k: Key)
    requires OneRuns(s, k) && Legal(s, moves)
    ensures NeverTwice(s, moves, k) <==> Clashes(s, moves, k) == 0
    decreases |moves|
  {
    hide Next, Enabled;
    if moves != [] {
      var t, how := moves[0].t, moves[0].how;
      var s' := Next(s, t, how);
      forall u ensures Runs(s', u, k) <==> if u == t then Misses(s, t, k) else Runs(s, u, k) {
        RunsChange(s, t, how, k, u);
      }
      if u :| Misses(s, t, k) && Runs(s, u, k) {
        assert Runs(s', t, k) && Runs(s', u, k) && u != t;
      } else {
        NeverTwiceIff(s', moves[1..], k);
      }
    }
  }

  // ---- sharing --------------------------------------------------------------

  predicate Flies(s: State, c: Tid, k: Key) {
    c in s.threads && s.threads[c].key == k && Owns(s.threads[c].pc)
  }

  // Caller t of k is inside Do without having found a call yet, or enters it
  // with move m, while another call c of k is between Store and Delete.
  predicate Overlaps(s: State, t: Tid, c: Tid, k: Key, entering: bool) {
    t != c && Flies(s, c, k) && (Misses(s, t, k) || (entering && t in s.threads && s.threads[t] == Thread(k, Start)))
  }

  // Caller t waits for call c or has returned its result.
  predicate Shares(s: State, t: Tid, c: Tid) {
    t in s.threads && (s.threads[t].pc == Waiting(c) || (s.threads[t].pc.Finished? && s.threads[t].pc.from == c))
  }

  // The documented promise: whenever a caller overlaps a call, it is bound in
  // the end to the result of that call.
  ghost predicate Merges(s: State, moves: seq<Move>, k: Key)
    requires Legal(s, moves)
    decreases |moves|
  {
    && (forall t, c :: Overlaps(s, t, c, k, moves != [] && moves[0].t == t) ==> Shares(After(s, moves), t, c))
    && (moves == [] || Merges(Next(s, moves[0].t, moves[0].how), moves[1..], k))
  }

  // No caller of k is between its Load and its Store while another call of k
  // is between Store and Delete.
  ghost predicate Clear(s: State, k: Key) {
    forall t, c :: !(Misses(s, t, k) && Flies(s, c, k))
  }

  ghost predicate AlwaysClear(s: State, moves: seq<Move>, k: Key)
    requires Legal(s, moves)
    decreases |moves|
  {
    Clear(s, k) && (moves == [] || AlwaysClear(Next(s, moves[0].t, moves[0].how), moves[1..], k))
  }

  // The entry of k is the only call of k in flight.
  ghost predicate OneEntry(s: State, k: Key) {
    forall c :: Flies(s, c, k) <==> k in s.m && s.m[k] == c
  }

  lemma FliesChange(s: State, t: Tid, how: Outcome, k: Key, c: Tid)
    requires Enabled(s, t)
    ensures Flies(Next(s, t, how), c, k) <==>
              if c == t then Misses(s, t, k) || (Flies(s, t, k) && !s.threads[t].pc.Woken?) else Flies(s, c, k)
  {
  }

  lemma EntryChange(s: State, t: Tid, how: Outcome, k: Key)
    requires Enabled(s, t)
    ensures var m, m' := s.m, Next(s, t, how).m;
            if s.threads[t].key == k && s.threads[t].pc == Missed then k in m' && m'[k] == t
            else if s.threads[t].key == k && s.threads[t].pc.Woken? then k !in m'
            else (k in m' <==> k in m) && (k in m ==> m'[k] == m[k])
  {
  }

  lemma StepEntry(s: State, t: Tid, how: Outcome, k: Key)
    requires OneEntry(s, k) && Clear(s, k) && Enabled(s, t)
    ensures OneEntry(Next(s, t, how), k)
  {
    hide Next;
    var s' := Next(s, t, how);
    EntryChange(s, t, how, k);
    forall c ensures Flies(s', c, k) <==> k in s'.m && s'.m[k] == c {
      FliesChange(s, t, how, k, c);
      assert Misses(s, t, k) ==> !Flies(s, c, k);
      assert Flies(s, t, k) && Flies(s, c, k) ==> c == t;
    }
  }

  lemma StepShares(s: State, t: Tid, how: Outcome, u: Tid, c: Tid)
    requires Enabled(s, t) && Shares(s, u, c)
    ensures Shares(Next(s, t, how), u, c)
  {
  }

  // Once bound to a call, always bound to it ...
  lemma {:induction false} SharesForever(s: State, moves: seq<Move>, u: Tid, c: Tid)
    requires Legal(s, moves) && Shares(s, u, c)
    ensures Shares(After(s, moves), u, c)
    decreases |moves|
  {
    hide Next, Enabled, Shares;
    if moves != [] {
      StepShares(s, moves[0].t, moves[0].how, u, c);
      SharesForever(Next(s, moves[0].t, moves[0].how), moves[1..], u, c);
    }
  }

  // A caller that has not found a call runs fn itself.
  predicate OnItsOwn(s: State, u: Tid) {
    u in s.threads
    && (s.threads[u].pc == Missed || Owns(s.threads[u].pc) || (s.threads[u].pc.Finished? && s.threads[u].pc.from == u))
  }

  lemma StepOwn(s: State, t: Tid, how: Outcome, u: Tid)
    requires Enabled(s, t) && OnItsOwn(s, u)
    ensures OnItsOwn(Next(s, t, how), u)
  {
  }

  // ... and on its own, always on its own.
  lemma {:induction false} OwnForever(s: State, moves: seq<Move>, u: Tid)
    requires Legal(s, moves) && OnItsOwn(s, u)
    ensures OnItsOwn(After(s, moves), u)
    decreases |moves|
  {
    hide Next, Enabled, OnItsOwn;
    if moves != [] {
      StepOwn(s, moves[0].t, moves[0].how, u);
      OwnForever(Next(s, moves[0].t, moves[0].how), moves[1..], u);
    }
  }

  // The promise of Do, with its exact condition: every caller that overlaps a
  // call of k shares its result if and only if no caller of k is ever between
  // its Load and its Store while another call of k is in flight.
  lemma {:induction false} MergesIff(s: State, moves: seq<Move>, k: Key)
    requires OneEntry(s, k) && Legal(s, moves)
    ensures Merges(s, moves, k) <==> AlwaysClear(s, moves, k)
    decreases |moves|
  {
    if !Clear(s, k) {
      var t, c :| Misses(s, t, k) && Flies(s, c, k);
      assert Overlaps(s, t, c, k, moves != [] && moves[0].t == t);
      OwnForever(s, moves, t);
      assert !Shares(After(s, moves), t, c);
    } else {
      forall t, c | Overlaps(s, t, c, k, moves != [] && moves[0].t == t) ensures Shares(After(s, moves), t, c) {
        EnteringShares(s, moves, k, t, c);
      }
      if moves != [] {
        StepEntry(s, moves[0].t, moves[0].how, k);
        MergesIff(Next(s, moves[0].t, moves[0].how), moves[1..], k);
      }
    }
  }

  // A Load made while a call is in flight finds it.
  lemma EnteringShares(s: State, moves: seq<Move>, k: Key, t: Tid, c: Tid)
    requires OneEntry(s, k) && Clear(s, k) && Legal(s, moves)
    requires Overlaps(s, t, c, k, moves != [] && moves[0].t == t)
    ensures Shares(After(s, moves), t, c)
  {
    assert s.m[k] == c;
    var s' := Next(s, t, moves[0].how);
    assert Shares(s', t, c);
    SharesForever(s', moves[1..], t, c);
  }

  // ---- witnesses ------------------------------------------------------------

  const QUICK: Outcome := Returned(Nil, None)

  // The run in which these callers move, one after the other.
  function Moves(ts: seq<Tid>): (r: seq<Move>)
    ensures |r| == |ts|
  {
    seq(|ts|, i requires 0 <= i < |ts| => Move(ts[i], QUICK))
  }

  function TwoCallers(k: Key, pc: Pc, pc': Pc): map<Tid, Thread> {
    map[0 := Thread(k, pc), 1 := Thread(k, pc')]
  }

  // The states of that run, one after the other.
  ghost predicate Trace(ss: seq<State>, ts: seq<Tid>) {
    |ss| == |ts| + 1
    && forall i {:trigger ts[i]} :: 0 <= i < |ts| ==> Enabled(ss[i], ts[i]) && ss[i + 1] == Next(ss[i], ts[i], QUICK)
  }

  lemma {:induction false} TraceRun(ss: seq<State>, ts: seq<Tid>, k: Key)
    requires Trace(ss, ts)
    ensures Legal(ss[0], Moves(ts)) && After(ss[0], Moves(ts)) == ss[|ts|]
    ensures NeverTwice(ss[0], Moves(ts), k) <==> forall i {:trigger ss[i]} :: 0 <= i < |ss| ==> OneRuns(ss[i], k)
    ensures AlwaysClear(ss[0], Moves(ts), k) <==> forall i {:trigger ss[i]} :: 0 <= i < |ss| ==> Clear(ss[i], k)
    decreases |ts|
  {
    hide Next, Enabled, OneRuns, Clear;
    if ts != [] {
      assert ts[0] == ts[0];
      var ss', ts' := ss[1..], ts[1..];
      assert forall i :: 0 <= i < |ts'| ==> ts'[i] == ts[i + 1];
      TraceRun(ss', ts', k);
      assert Moves(ts)[1..] == Moves(ts');
      assert forall i {:trigger ss[i]} :: 0 < i < |ss| ==> ss[i] == ss'[i - 1];
      assert forall i {:trigger ss'[i]} :: 0 <= i < |ss'| ==> ss'[i] == ss[i + 1];
    }
  }

  lemma BothLoad(k: Key) returns (s0: State, s1: State, s2: State)
    ensures s0 == State(map[], map[], TwoCallers(k, Start, Start), multiset{}) && Initial(s0)
    ensures Enabled(s0, 0) && s1 == Next(s0, 0, QUICK)
    ensures Enabled(s1, 1) && s2 == Next(s1, 1, QUICK)
    ensures s1 == State(map[], map[], TwoCallers(k, Missed, Start), multiset{})
    ensures s2 == State(map[], map[], TwoCallers(k, Missed, Missed), multiset{})
  {
    s0 := State(map[], map[], TwoCallers(k, Start, Start), multiset{});
    s1 := Next(s0, 0, QUICK);
    s2 := Next(s1, 1, QUICK);
  }

  // Caller 0 has run fn, caller 1 has missed.
  function Returned0(k: Key): State {
    var call := Call(Nil, None, false, Some(QUICK));
    State(map[k := 0], map[0 := call], TwoCallers(k, Returning, Missed), multiset{})
  }

  lemma OneReturns(k: Key, s2: State) returns (s3: State, s4: State)
    requires s2 == State(map[], map[], TwoCallers(k, Missed, Missed), multiset{})
    ensures Enabled(s2, 0) && s3 == Next(s2, 0, QUICK)
    ensures Enabled(s3, 0) && s4 == Next(s3, 0, QUICK)
    ensures s3.threads == TwoCallers(k, Running, Missed)
    ensures s4 == Returned0(k)
  {
    s3 := Next(s2, 0, QUICK);
    s4 := Next(s3, 0, QUICK);
  }

  lemma OtherStores(k: Key, s4: State) returns (s5: State)
    requires s4 == Returned0(k)
    ensures Enabled(s4, 1) && s5 == Next(s4, 1, QUICK)
    ensures s5.threads == TwoCallers(k, Returning, Running) && s5.over[k] == 1
  {
    s5 := Next(s4, 1, QUICK);
  }

  lemma OneLeaves(k: Key, s4: State) returns (s5: State, s6: State, s7: State)
    requires s4 == Returned0(k)
    ensures Enabled(s4, 0) && s5 == Next(s4, 0, QUICK)
    ensures Enabled(s5, 0) && s6 == Next(s5, 0, QUICK)
    ensures Enabled(s6, 1) && s7 == Next(s6, 1, QUICK)
    ensures s7.threads == TwoCallers(k, Finished(Got(Nil, None), 0), Running) && s7.over[k] == 0
  {
    s5 := Next(s4, 0, QUICK);
    s6 := Next(s5, 0, QUICK);
    s7 := Next(s6, 1, QUICK);
  }

  // A Store can replace an entry although fn never runs twice at a time: the
  // call it replaces has run fn and waits to be deleted.
  lemma QuietOverlap(k: Key)
    ensures var s := State(map[], map[], TwoCallers(k, Start, Start), multiset{}); var run := Moves([0, 1, 0, 0, 1]);
            Initial(s) && Legal(s, run) && After(s, run).over[k] == 1 && NeverTwice(s, run, k)
  {
    hide Enabled, Next, Legal, After, Merges, AlwaysClear, NeverTwice;
    var s0, s1, s2 := BothLoad(k);
    var s3, s4 := OneReturns(k, s2);
    var s5 := OtherStores(k, s4);
    assert s3.threads == TwoCallers(k, Running, Missed) && s4.threads == TwoCallers(k, Returning, Missed)
        && s5.threads == TwoCallers(k, Returning, Running);
    TraceRun([s0, s1, s2, s3, s4, s5], [0, 1, 0, 0, 1], k);
  }

  // Two callers inside Do at the same time can both run fn although no Store
  // replaces an entry: one goes from Store to Delete between the other's Load
  // and Store.
  lemma SecondRun(k: Key)
    ensures var s := State(map[], map[], TwoCallers(k, Start, Start), multiset{});
            var run := Moves([0, 1, 0, 0, 0, 0, 1]);
            && Initial(s) && Legal(s, run) && After(s, run).over[k] == 0
            && After(s, run).threads == TwoCallers(k, Finished(Got(Nil, None), 0), Running)
            && !Merges(s, run, k)
  {
    hide Enabled, Next, Legal, After, Merges, AlwaysClear, NeverTwice;
    var s0, s1, s2 := BothLoad(k);
    var s3, s4 := OneReturns(k, s2);
    var s5, s6, s7 := OneLeaves(k, s4);
    assert Misses(s3, 1, k) && Flies(s3, 0, k);
    var ss := [s0, s1, s2, s3, s4, s5, s6, s7];
    TraceRun(ss, [0, 1, 0, 0, 0, 0, 1], k);
    assert !Clear(ss[3], k);
    MergesIff(s0, Moves([0, 1, 0, 0, 0, 0, 1]), k);
  }
}
