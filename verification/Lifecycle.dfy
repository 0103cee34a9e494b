// The lazily created, closable cache shell as a step machine: any finite number
// of threads run Get, Add, AddWithExpiration, Delete, Len, Clear and Close, and
// interleave at every atomic load or store and every lock operation.
module Lifecycle {
  import opened Measure
  import opened Prelude

  type Tid = nat

  datatype Op = Get | Add | AddTimed | Delete | Len | Clear | Close

  datatype Pc =
    | Entry         // first look at closed
    | CheckInit     // look at initialized, outside the lock
    | Ensure1       // ensureInitialized: closed, outside the lock
    | Ensure2       // ensureInitialized: initialized, outside the lock
    | WantLock
    | Locked        // write lock held, second look at closed
    | InitCheck     // write lock held, second look at initialized
    | Stored        // store created, flag not yet set
    | Resetting     // store closed and dropped, flag not yet reset
    | Releasing     // about to give the write lock back
    | WantRLock
    | RLocked       // read lock held, second look at closed
    | RReleasing
    | Using         // about to call a method of the store
    | Ended

  datatype Thread = Thread(op: Op, pc: Pc)

  // created and closings count stores made and stores closed; closer is the
  // thread whose compare-and-swap closed the cache.
  datatype State = State(
    closed: bool, initialized: bool, store: Option<nat>, created: nat, closings: nat,
    writer: Option<Tid>, readers: set<Tid>, closer: Option<Tid>, threads: map<Tid, Thread>)

  predicate Enabled(s: State, t: Tid) {
    && t in s.threads
    && match s.threads[t].pc
       case Ended => false
       case WantLock => s.writer == None && s.readers == {}
       case WantRLock => s.writer == None
       case _ => true
  }

  function Goto(s: State, t: Tid, pc: Pc): State
    requires t in s.threads
  {
    s.(threads := s.threads[t := s.threads[t].(pc := pc)])
  }

  predicate Adds(op: Op) { op == Add || op == AddTimed }

  // Where a thread goes when ensureInitialized returns; late says that the
  // deadline of an AddWithExpiration has passed by then.
  function Ensured(op: Op, late: bool): Pc {
    if op == AddTimed && late then Ended else WantRLock
  }

  function Next(s: State, t: Tid, late: bool): State
    requires Enabled(s, t)
  {
    var op := s.threads[t].op;
    match s.threads[t].pc
    case Entry =>
      if s.closed then Goto(s, t, Ended)
      else if op == Close then Goto(s.(closed := true, closer := Some(t)), t, WantLock)
      else Goto(s, t, if Adds(op) then Ensure1 else CheckInit)
    case CheckInit =>
      Goto(s, t, if !s.initialized then Ended else if op == Clear then WantLock else WantRLock)
    case Ensure1 => Goto(s, t, if s.closed then Ensured(op, late) else Ensure2)
    case Ensure2 => Goto(s, t, if s.initialized then Ensured(op, late) else WantLock)
    case WantLock => Goto(s.(writer := Some(t)), t, Locked)
    case Locked =>
      if op == Close then
        Goto(if s.store.Some? then s.(store := None, closings := s.closings + 1) else s, t, Resetting)
      else if s.closed then Goto(s, t, Releasing)
      else Goto(s, t, if op == Clear then Using else InitCheck)
    case InitCheck =>
      if s.initialized then Goto(s, t, Releasing)
      else Goto(s.(store := Some(s.created), created := s.created + 1), t, Stored)
    case Stored => Goto(s.(initialized := true), t, Releasing)
    case Resetting => Goto(s.(initialized := false), t, Releasing)
    case Releasing => Goto(s.(writer := None), t, if Adds(op) then Ensured(op, late) else Ended)
    case WantRLock => Goto(s.(readers := s.readers + {t}), t, RLocked)
    case RLocked => Goto(s, t, if s.closed then RReleasing else Using)
    case Using => Goto(s, t, if op == Clear then Releasing else RReleasing)
    case RReleasing => Goto(s.(readers := s.readers - {t}), t, Ended)
    case Ended => s
  }

  // ---- the invariant ------------------------------------------------------

  predicate HoldsWrite(th: Thread) {
    match th.pc
    case Locked => true
    case InitCheck => true
    case Stored => true
    case Resetting => true
    case Releasing => true
    case Using => th.op == Clear
    case _ => false
  }

  predicate HoldsRead(th: Thread) {
    th.pc == RLocked || th.pc == RReleasing || (th.pc == Using && th.op != Clear)
  }

  // Which positions an operation can be in.
  predicate Typed(th: Thread) {
    match th.pc
    case Entry => true
    case Ended => true
    case CheckInit => !Adds(th.op) && th.op != Close
    case Ensure1 => Adds(th.op)
    case Ensure2 => Adds(th.op)
    case InitCheck => Adds(th.op)
    case Stored => Adds(th.op)
    case WantLock => Adds(th.op) || th.op == Clear || th.op == Close
    case Locked => Adds(th.op) || th.op == Clear || th.op == Close
    case Releasing => Adds(th.op) || th.op == Clear || th.op == Close
    case Resetting => th.op == Close
    case _ => th.op != Close && (th.op == Clear ==> th.pc == Using)
  }

  // The thread that closed the cache has dropped the store.
  predicate Dropped(s: State) {
    && s.closer.Some? && s.closer.value in s.threads
    && s.threads[s.closer.value].pc in {Resetting, Releasing, Ended}
  }

  // Close has completed.
  predicate Shut(s: State) {
    && s.closer.Some? && s.closer.value in s.threads
    && s.threads[s.closer.value].pc == Ended
  }

  // Lock ownership matches positions.
  ghost predicate LockOk(s: State, t: Tid)
    requires t in s.threads
  {
    var th := s.threads[t];
    Typed(th) && (HoldsWrite(th) <==> s.writer == Some(t)) && (HoldsRead(th) <==> t in s.readers)
  }

  // What a thread may count on: past its own look at the flags, a store unless
  // the cache has been closed; past a second look under the lock, a store.
  ghost predicate StoreSeen(s: State, t: Tid)
    requires t in s.threads
  {
    var th := s.threads[t];
    && ((th.pc in {WantRLock, RLocked} || (th.op == Clear && th.pc in {WantLock, Locked})) ==>
          s.closed || s.store.Some?)
    && (th.pc == Using ==> s.store.Some?)
    && (th.pc in {InitCheck, Stored} ==> !Dropped(s))
    && (th.pc == Stored ==> s.store.Some?)
    && (th.pc == Releasing && Adds(th.op) ==> s.closed || s.store.Some?)
    && (th.op == Close && th.pc in {WantLock, Locked, Resetting, Releasing} ==> s.closer == Some(t))
  }

  ghost predicate ThreadOk(s: State, t: Tid)
    requires t in s.threads
  {
    LockOk(s, t) && StoreSeen(s, t)
  }

  // The closed flag is set by one Close, which then goes on to the end.
  ghost predicate CloserOk(s: State) {
    && (s.closed <==> s.closer.Some?)
    && (s.closer.Some? ==> s.closer.value in s.threads && s.threads[s.closer.value].op == Close
                           && s.threads[s.closer.value].pc in {WantLock, Locked, Resetting, Releasing, Ended})
  }

  // At most one store, there until it is dropped, and closed when it is.
  ghost predicate CountOk(s: State) {
    && s.created <= 1
    && s.store == (if s.created == 1 && !Dropped(s) then Some(0) else None)
    && s.closings == (if Dropped(s) then s.created else 0)
  }

  // The initialized flag follows the store, late by one step of the writer.
  ghost predicate FlagOk(s: State) {
    && (s.initialized ==> s.created == 1)
    && (s.created == 1 && !s.initialized ==>
          Dropped(s) || (s.writer.Some? && s.writer.value in s.threads && s.threads[s.writer.value].pc == Stored))
    && (Dropped(s) && s.threads[s.closer.value].pc != Resetting ==> !s.initialized)
  }

  ghost predicate StoreOk(s: State) {
    CloserOk(s) && CountOk(s) && FlagOk(s)
  }

  ghost predicate Inv(s: State) {
    && StoreOk(s)
    && (s.writer.Some? ==> s.readers == {} && s.writer.value in s.threads)
    && s.readers <= s.threads.Keys
    && forall t {:trigger s.threads[t]} :: t in s.threads ==> ThreadOk(s, t)
  }

  ghost predicate Initial(s: State) {
    && s == State(false, false, None, 0, 0, None, {}, None, s.threads)
    && forall t {:trigger s.threads[t]} :: t in s.threads ==> s.threads[t].pc == Entry
  }

  lemma InitialOk(s: State)
    requires Initial(s)
    ensures Inv(s)
  {
  }

  lemma StepCloser(s: State, t: Tid, late: bool)
    requires Near(s, t) && Enabled(s, t)
    ensures CloserOk(Next(s, t, late))
  {
  }

  lemma StepCount(s: State, t: Tid, late: bool)
    requires Near(s, t) && Enabled(s, t)
    ensures CountOk(Next(s, t, late))
  {
  }

  lemma StepFlag(s: State, t: Tid, late: bool)
    requires Near(s, t) && Enabled(s, t)
    ensures FlagOk(Next(s, t, late))
  {
  }

  // The invariant as far as thread t, the writer and the closer are concerned.
  ghost predicate Near(s: State, t: Tid) {
    && StoreOk(s)
    && t in s.threads && ThreadOk(s, t)
    && (s.writer.Some? ==> s.readers == {} && s.writer.value in s.threads && ThreadOk(s, s.writer.value))
    && (s.closer.Some? ==> ThreadOk(s, s.closer.value))
  }

  lemma NearInv(s: State, t: Tid)
    requires Inv(s) && t in s.threads
    ensures Near(s, t)
  {
  }

  lemma StepTyped(s: State, t: Tid, late: bool)
    requires Enabled(s, t) && Typed(s.threads[t])
    ensures t in Next(s, t, late).threads && Typed(Next(s, t, late).threads[t])
  {
  }

  lemma StepWriter(s: State, t: Tid, late: bool)
    requires Enabled(s, t) && LockOk(s, t)
    ensures t in Next(s, t, late).threads
    ensures HoldsWrite(Next(s, t, late).threads[t]) <==> Next(s, t, late).writer == Some(t)
  {
  }

  lemma StepReader(s: State, t: Tid, late: bool)
    requires Enabled(s, t) && LockOk(s, t)
    ensures t in Next(s, t, late).threads
    ensures HoldsRead(Next(s, t, late).threads[t]) <==> t in Next(s, t, late).readers
  {
  }

  lemma StepLock(s: State, t: Tid, late: bool)
    requires t in s.threads && LockOk(s, t) && Enabled(s, t)
    ensures LockOk(Next(s, t, late), t)
  {
    hide Next, Typed, HoldsWrite, HoldsRead, Enabled;
    StepTyped(s, t, late);
    StepWriter(s, t, late);
    StepReader(s, t, late);
  }

  lemma StepOwners(s: State, t: Tid, late: bool)
    requires t in s.threads && LockOk(s, t) && Enabled(s, t)
    requires s.writer.Some? ==> s.readers == {} && s.writer.value in s.threads
    ensures var s' := Next(s, t, late);
            && (s'.writer.Some? ==> s'.readers == {} && s'.writer.value in s.threads)
            && s'.readers <= s.readers + {t} && s'.threads.Keys == s.threads.Keys
  {
  }

  lemma StepSeen(s: State, t: Tid, late: bool)
    requires Near(s, t) && Enabled(s, t)
    ensures StoreSeen(Next(s, t, late), t)
  {
  }

  lemma StepOther(s: State, t: Tid, late: bool, x: Tid)
    requires Near(s, t) && Enabled(s, t) && x in s.threads && x != t && ThreadOk(s, x)
    ensures ThreadOk(Next(s, t, late), x)
  {
  }

  lemma StepInv(s: State, t: Tid, late: bool)
    requires Inv(s) && Enabled(s, t)
    ensures Inv(Next(s, t, late))
  {
    NearInv(s, t);
    hide LockOk, StoreSeen, CloserOk, CountOk, FlagOk, Next, Enabled;
    StepCloser(s, t, late);
    StepCount(s, t, late);
    StepFlag(s, t, late);
    StepLock(s, t, late);
    StepOwners(s, t, late);
    StepSeen(s, t, late);
    forall x | x in s.threads ensures ThreadOk(Next(s, t, late), x) {
      if x != t {
        StepOther(s, t, late, x);
      }
    }
  }

  // ---- runs ---------------------------------------------------------------

  datatype Move = Move(t: Tid, late: bool)

  predicate Legal(s: State, moves: seq<Move>)
    decreases |moves|
  {
    moves == [] || (Enabled(s, moves[0].t) && Legal(Next(s, moves[0].t, moves[0].late), moves[1..]))
  }

  function After(s: State, moves: seq<Move>): State
    requires Legal(s, moves)
    decreases |moves|
  {
    if moves == [] then s else After(Next(s, moves[0].t, moves[0].late), moves[1..])
  }

  lemma {:induction false} RunInv(s: State, moves: seq<Move>)
    requires Inv(s) && Legal(s, moves)
    ensures Inv(After(s, moves))
    decreases |moves|
  {
    if moves != [] {
      StepInv(s, moves[0].t, moves[0].late);
      RunInv(Next(s, moves[0].t, moves[0].late), moves[1..]);
    }
  }

  // In every reachable state: a thread about to call the store finds one and
  // holds the lock that keeps it there; at most one store was ever created;
  // it is closed at most once, and exactly once if Close has completed.
  lemma Safety(s: State, moves: seq<Move>, t: Tid)
    requires Initial(s) && Legal(s, moves)
    ensures var s' := After(s, moves);
            && (t in s'.threads && s'.threads[t].pc == Using ==>
                 s'.store.Some? && (s'.writer == Some(t) || t in s'.readers))
            && s'.closings <= s'.created <= 1
            && (Shut(s') ==> s'.store == None && s'.closings == s'.created && !s'.initialized)
  {
    InitialOk(s);
    RunInv(s, moves);
    if t in After(s, moves).threads {
      assert ThreadOk(After(s, moves), t);
    }
  }

  // Once Close has completed nothing is created or closed any more, and the
  // cache stays shut.
  lemma {:induction false} ShutForever(s: State, moves: seq<Move>)
    requires Inv(s) && Shut(s) && Legal(s, moves)
    ensures var s' := After(s, moves);
            Shut(s') && s'.created == s.created && s'.closings == s.closings && s'.store == None
    decreases |moves|
  {
    if moves != [] {
      var t := moves[0].t;
      var s1 := Next(s, t, moves[0].late);
      ShutStep(s, t, moves[0].late);
      StepInv(s, t, moves[0].late);
      ShutForever(s1, moves[1..]);
    }
  }

  lemma ShutStep(s: State, t: Tid, late: bool)
    requires Inv(s) && Shut(s) && Enabled(s, t)
    ensures var s' := Next(s, t, late); Shut(s') && s'.created == s.created && s'.closings == s.closings
  {
  }

  // ---- progress -----------------------------------------------------------

  // No deadlock: while some thread has not ended, some thread can step.
  lemma Progress(s: State, t: Tid) returns (u: Tid)
    requires Inv(s) && t in s.threads && s.threads[t].pc != Ended
    ensures Enabled(s, u)
  {
    u := t;
    if !Enabled(s, t) {
      if s.writer.Some? {
        u := s.writer.value;
      } else {
        u :| u in s.readers;
      }
      assert ThreadOk(s, u);
    }
  }

  // Steps a thread may still take.
  function Rank(th: Thread): nat {
    match th.pc
    case Entry => 12
    case Ensure1 => 11
    case CheckInit => 11
    case Ensure2 => 10
    case WantLock => 9
    case Locked => 8
    case InitCheck => 7
    case Stored => 6
    case Resetting => 6
    case Releasing => 5
    case WantRLock => if th.op == Clear then 8 else 4
    case RLocked => if th.op == Clear then 7 else 3
    case Using => if th.op == Clear then 6 else 2
    case RReleasing => 1
    case Ended => 0
  }

  ghost function Work(s: State): nat {
    Sum(map t | t in s.threads :: Rank(s.threads[t]))
  }

  lemma StepRank(s: State, t: Tid, late: bool)
    requires Enabled(s, t)
    ensures var s' := Next(s, t, late);
            && s'.threads.Keys == s.threads.Keys && s'.threads == s.threads[t := s'.threads[t]]
            && Rank(s'.threads[t]) < Rank(s.threads[t])
  {
    hide Rank;
    StepRankDrops(s, t, late);
  }

  lemma StepRankDrops(s: State, t: Tid, late: bool)
    requires Enabled(s, t)
    ensures t in Next(s, t, late).threads && Rank(Next(s, t, late).threads[t]) < Rank(s.threads[t])
  {
  }

  lemma StepWork(s: State, t: Tid, late: bool)
    requires Enabled(s, t)
    ensures Work(Next(s, t, late)) < Work(s)
  {
    hide Next, Rank, Enabled;
    StepRank(s, t, late);
    var s' := Next(s, t, late);
    var m, m' := map x | x in s.threads :: Rank(s.threads[x]), map x | x in s'.threads :: Rank(s'.threads[x]);
    assert m - {t} == m' - {t};
    SumDrops(m, m', t);
  }

  // Every run is finite ...
  lemma {:induction false} RunFinite(s: State, moves: seq<Move>)
    requires Legal(s, moves)
    ensures |moves| + Work(After(s, moves)) <= Work(s)
    decreases |moves|
  {
    if moves != [] {
      StepWork(s, moves[0].t, moves[0].late);
      RunFinite(Next(s, moves[0].t, moves[0].late), moves[1..]);
    }
  }

  // ... and one that cannot be continued has left no thread blocked; if a
  // thread called Close in it, the cache is shut.
  lemma AllEnd(s: State, moves: seq<Move>, t: Tid)
    requires Initial(s) && Legal(s, moves)
    requires forall u :: !Enabled(After(s, moves), u)
    requires t in After(s, moves).threads
    ensures var s' := After(s, moves);
            && s'.threads[t].pc == Ended && s'.writer == None && s'.readers == {}
            && (s'.closed ==> Shut(s') && s'.closings == s'.created)
  {
    InitialOk(s);
    RunInv(s, moves);
    var s' := After(s, moves);
    forall x | x in s'.threads ensures s'.threads[x].pc == Ended {
      if s'.threads[x].pc != Ended {
        var u := Progress(s', x);
      }
    }
    forall x | x in s'.threads ensures s'.writer != Some(x) && x !in s'.readers {
      assert ThreadOk(s', x);
    }
  }
}
