// Whole runs of one bucket: every locked operation is one event, in the order
// in which the bucket's lock was taken. The question is which Set a hit is
// served from, given that a key can have a copy in both levels.
module Lru2Coherence {
  import opened Prelude
  import opened Lru2List
  import opened Lru2Laws
  import opened Lru2Bucket

  datatype Event =
    | Set(k: Key, v: Value, e: int64)
    | Get(k: Key, now1: int64, now2: int64)
    | Del(k: Key)
    | Tick(now: int64)

  // The bucket, and for each key: the latest Set not followed by a Del, the Set
  // its second-level copy came from, and whether its live first-level entry was
  // evicted for lack of room (and so handed to the callback) since that Set.
  datatype World = World(b: Bucket, latest: map<Key, nat>, origin: map<Key, nat>, spilled: set<Key>)

  // Deadlines are positive: readings of the clock are not negative.
  ghost predicate Run(es: seq<Event>) {
    forall i {:trigger es[i]} :: 0 <= i < |es| && es[i].Set? ==> es[i].e > 0
  }

  function Step(w: World, ev: Event, i: nat): World
    requires w.b.c1 > 0 && w.b.c2 > 0
  {
    match ev
    case Set(k, v, e) =>
      var (b, cb) := Write(w.b, k, v, e);
      World(b, w.latest[k := i], w.origin, w.spilled - {k} + if cb.Some? then {cb.value.0} else {})
    case Get(k, now1, now2) =>
      var n := Lookup(w.b.l1, k);
      World(Read(w.b, k, now1, now2).0, w.latest,
            if n.Some? && now1 < n.value.expireAt && k in w.latest then w.origin[k := w.latest[k]] else w.origin,
            w.spilled)
    case Del(k) =>
      World(Removed(w.b, k).0, w.latest - {k}, w.origin, w.spilled)
    case Tick(now) =>
      World(Swept(w.b, now), w.latest, w.origin, w.spilled)
  }

  function After(c1: nat, c2: nat, es: seq<Event>): (w: World)
    requires c1 > 0 && c2 > 0
    ensures w.b.c1 == c1 && w.b.c2 == c2
    decreases |es|
  {
    if es == [] then World(Bucket(c1, c2, [], []), map[], map[], {})
    else
      var w := After(c1, c2, es[..|es| - 1]);
      var w' := Step(w, es[|es| - 1], |es| - 1);
      CapsKept(w, es[|es| - 1], |es| - 1);
      w'
  }

  lemma CapsKept(w: World, ev: Event, i: nat)
    requires w.b.c1 > 0 && w.b.c2 > 0
    ensures Step(w, ev, i).b.c1 == w.b.c1 && Step(w, ev, i).b.c2 == w.b.c2
  {
    if ev.Tick? {
      PurgeCaps(w.b, Expired(w.b, ev.now));
    }
  }

  // Event s stored exactly the entry n.
  ghost predicate Wrote(es: seq<Event>, s: nat, n: Node) {
    s < |es| && es[s] == Set(n.k, n.v, n.expireAt)
  }

  // Event s is a Set of k, with no later Set or Del of k.
  ghost predicate IsLatest(es: seq<Event>, s: nat, k: Key) {
    && s < |es| && es[s].Set? && es[s].k == k
    && forall j {:trigger es[j]} :: s < j < |es| && (es[j].Set? || es[j].Del?) ==> es[j].k != k
  }

  ghost predicate KeyInv(w: World, es: seq<Event>, k: Key) {
    var n1, n2 := Lookup(w.b.l1, k), Lookup(w.b.l2, k);
    && (k in w.latest ==> IsLatest(es, w.latest[k], k))
    && (n1.Some? ==> k in w.latest && k !in w.spilled && Wrote(es, w.latest[k], n1.value))
    && (n2.Some? ==>
         && k in w.latest && k in w.origin
         && Wrote(es, w.origin[k], n2.value)
         && (if n1.Some? then w.origin[k] < w.latest[k]
             else if k in w.spilled then w.origin[k] < w.latest[k]
             else w.origin[k] == w.latest[k]))
  }

  ghost predicate Inv(w: World, es: seq<Event>) {
    Ok(w.b) && forall k :: KeyInv(w, es, k)
  }

  lemma LookupKey(s: seq<Node>, k: Key)
    ensures Lookup(s, k).Some? ==> Lookup(s, k).value.k == k && Lookup(s, k).value.Live()
  {
  }

  // What one more event, about another key, leaves alone.
  lemma GrowTrace(es: seq<Event>, ev: Event, k: Key)
    ensures forall s {:trigger IsLatest(es, s, k)} ::
              IsLatest(es, s, k) && ((ev.Set? || ev.Del?) ==> ev.k != k) ==> IsLatest(es + [ev], s, k)
    ensures forall s, n {:trigger Wrote(es, s, n)} :: Wrote(es, s, n) ==> Wrote(es + [ev], s, n)
  {
  }

  lemma StepKey(w: World, es: seq<Event>, ev: Event, k: Key)
    requires Inv(w, es) && (ev.Set? ==> ev.e > 0)
    ensures KeyInv(Step(w, ev, |es|), es + [ev], k)
    ensures Ok(Step(w, ev, |es|).b)
  {
    hide Killed, Stored, Touched, DeadLast, Find, DistinctKeys, IsLatest, Wrote;
    var w' := Step(w, ev, |es|);
    assert KeyInv(w, es, k);
    LookupKey(w.b.l1, k);
    LookupKey(w.b.l2, k);
    GrowTrace(es, ev, k);
    match ev {
      case Set(k0, v, e) =>
        WriteLookup(w.b, k0, v, e, k);
        StepSet(w, es, ev, k);
      case Get(k0, now1, now2) =>
        ReadOwn(w.b, k0, now1, now2);
        if k != k0 {
          ReadOther(w.b, k0, now1, now2, k);
        }
      case Del(k0) =>
        RemovedLookup(w.b, k0, k);
      case Tick(now) =>
        SweptLookup(w.b, now, k);
    }
  }

  lemma StepSet(w: World, es: seq<Event>, ev: Event, k: Key)
    requires Inv(w, es) && ev.Set? && ev.e > 0
    ensures KeyInv(Step(w, ev, |es|), es + [ev], k)
  {
    hide Killed, Stored, Touched, DeadLast, Find, DistinctKeys;
    assert KeyInv(w, es, k);
    WriteLookup(w.b, ev.k, ev.v, ev.e, k);
  }

  lemma {:induction false} Reachable(c1: nat, c2: nat, es: seq<Event>)
    requires c1 > 0 && c2 > 0 && Run(es)
    ensures Inv(After(c1, c2, es), es)
    decreases |es|
  {
    if es == [] {
    } else {
      var front, ev := es[..|es| - 1], es[|es| - 1];
      Reachable(c1, c2, front);
      assert front + [ev] == es;
      var w := After(c1, c2, front);
      forall k ensures KeyInv(After(c1, c2, es), es, k) {
        StepKey(w, front, ev, k);
      }
      StepKey(w, front, ev, []);
    }
  }

  // ---- which Set a hit is served from -------------------------------------

  // The Set whose value a read of k finds.
  function Served(w: World, k: Key): Option<nat> {
    if Lookup(w.b.l1, k).Some? && k in w.latest then Some(w.latest[k])
    else if Lookup(w.b.l2, k).Some? && k in w.origin then Some(w.origin[k])
    else None
  }

  // Two-level coherence. After any run, a hit on k returns the value of one
  // definite Set of k whose deadline has not passed, no Del of k came after the
  // latest Set, and the served Set is the latest one exactly when the live
  // first-level entry of k has not been evicted for lack of room since then.
  lemma Coherence(c1: nat, c2: nat, es: seq<Event>, k: Key, now1: int64, now2: int64)
    requires c1 > 0 && c2 > 0 && Run(es)
    requires Read(After(c1, c2, es).b, k, now1, now2).1.Some?
    ensures var w := After(c1, c2, es);
            && Served(w, k).Some? && k in w.latest
            && var s, l := Served(w, k).value, w.latest[k];
            && s <= l < |es| && IsLatest(es, l, k)
            && es[s].Set? && es[s].k == k
            && Read(w.b, k, now1, now2).1 == Some(es[s].v)
            && now1 < es[s].e
            && (s == l <==> k !in w.spilled)
  {
    var w := After(c1, c2, es);
    Reachable(c1, c2, es);
    assert KeyInv(w, es, k);
    ReadOwn(w.b, k, now1, now2);
    LookupKey(w.b.l1, k);
    LookupKey(w.b.l2, k);
  }

  // The callback of a removal. After any run, for a key that is held and has not
  // been spilled and whose latest Set stored a value, deleting it reports that
  // value, and so does a cleanup tick that finds one of its copies expired.
  lemma CallbackLatest(c1: nat, c2: nat, es: seq<Event>, k: Key, now: int64, x: Value)
    requires c1 > 0 && c2 > 0 && Run(es)
    requires var w := After(c1, c2, es); Holds(w.b, k) && k !in w.spilled
    ensures var w := After(c1, c2, es);
            && k in w.latest && w.latest[k] < |es| && IsLatest(es, w.latest[k], k)
            && var v := es[w.latest[k]].v;
            (v != Nil ==>
               && Reported(w.b, k) == Some((k, v))
               && (k in Expired(w.b, now) ==> ((k, x) in Purged(w.b, Expired(w.b, now)).1 <==> x == v)))
  {
    hide Expired, Purged, Reported, After, Ok;
    var w := After(c1, c2, es);
    Reachable(c1, c2, es);
    assert KeyInv(w, es, k);
    LookupKey(w.b.l1, k);
    LookupKey(w.b.l2, k);
    ReportedIs(w.b, k);
    ExpiredIff(w.b, now, k);
    PurgedReports(w.b, Expired(w.b, now));
    ReportsIff(w.b, Expired(w.b, now), (k, x));
  }

  // A key is marked spilled exactly by a Set of another key that overwrites the
  // live first-level entry of k, and unmarked by a Set of k.
  lemma SpilledBy(w: World, ev: Event, i: nat, k: Key)
    requires Ok(w.b) && (ev.Set? ==> ev.e > 0)
    ensures k in Step(w, ev, i).spilled <==>
            if ev.Set? && ev.k == k then false
            else k in w.spilled || (ev.Set? && Lookup(w.b.l1, k).Some? && Lookup(Step(w, ev, i).b.l1, k) == None)
  {
    if ev.Set? {
      WriteLookup(w.b, ev.k, ev.v, ev.e, k);
      var cb := Write(w.b, ev.k, ev.v, ev.e).1;
      if cb.Some? {
        WriteLookup(w.b, ev.k, ev.v, ev.e, cb.value.0);
      }
    }
  }

  // The unconditional claim "a hit returns the latest value" is false: with
  // one slot per level, promoting an old value, writing a new one and pushing
  // the new one out of the first level brings the old value back.
  lemma StaleRead(a: Key, b: Key, old': Value, new': Value, other: Value)
    requires a != b && old' != new'
    ensures var es := StaleRun(a, b, old', new', other);
            && Run(es)
            && a in After(1, 1, es).latest && After(1, 1, es).latest[a] == 2
            && Read(After(1, 1, es).b, a, 2, 2).1 == Some(old')
  {
    hide Step, Read, After;
    var w1, w2, w3 := StaleTrace(a, b, old', new', other);
    FourEvents(Set(a, old', 9), Get(a, 1, 1), Set(a, new', 9), Set(b, other, 9), w1, w2, w3);
    LastRead(a, b, old', other);
  }

  function StaleRun(a: Key, b: Key, old': Value, new': Value, other: Value): seq<Event> {
    [Set(a, old', 9), Get(a, 1, 1), Set(a, new', 9), Set(b, other, 9)]
  }

  lemma StaleTrace(a: Key, b: Key, old': Value, new': Value, other: Value) returns (w1: World, w2: World, w3: World)
    requires a != b
    ensures w1 == Step(After(1, 1, []), Set(a, old', 9), 0) && w1.b.c1 == w1.b.c2 == 1
    ensures w2 == Step(w1, Get(a, 1, 1), 1) && w2.b.c1 == w2.b.c2 == 1
    ensures w3 == Step(w2, Set(a, new', 9), 2) && w3.b.c1 == w3.b.c2 == 1
    ensures var w4 := Step(w3, Set(b, other, 9), 3);
            && w4.b == Bucket(1, 1, [Node(b, other, 9)], [Node(a, old', 9)])
            && a in w4.latest && w4.latest[a] == 2
  {
    hide Write, Read;
    w1 := Step(After(1, 1, []), Set(a, old', 9), 0);
    FirstWrite(a, old', 9);
    OneSlotPromote(a, old', 9);
    w2 := Step(w1, Get(a, 1, 1), 1);
    OneSlotWrite(w2.b, Node(a, old', 0), a, new', 9);
    w3 := Step(w2, Set(a, new', 9), 2);
    OneSlotWrite(w3.b, Node(a, new', 9), b, other, 9);
  }

  lemma FirstWrite(k: Key, v: Value, e: int64)
    ensures Write(Bucket(1, 1, [], []), k, v, e).0 == Bucket(1, 1, [Node(k, v, e)], [])
  {
  }

  lemma FourEvents(e0: Event, e1: Event, e2: Event, e3: Event, w1: World, w2: World, w3: World)
    requires w1 == Step(After(1, 1, []), e0, 0) && w1.b.c1 > 0 && w1.b.c2 > 0
    requires w2 == Step(w1, e1, 1) && w2.b.c1 > 0 && w2.b.c2 > 0
    requires w3 == Step(w2, e2, 2) && w3.b.c1 > 0 && w3.b.c2 > 0
    ensures After(1, 1, [e0, e1, e2, e3]) == Step(w3, e3, 3)
  {
    hide Step;
    OneMoreEvent(1, 1, [], e0);
    OneMoreEvent(1, 1, [] + [e0], e1);
    OneMoreEvent(1, 1, [] + [e0] + [e1], e2);
    OneMoreEvent(1, 1, [] + [e0] + [e1] + [e2], e3);
    assert [e0, e1, e2, e3] == [] + [e0] + [e1] + [e2] + [e3];
  }

  lemma OneSlotWrite(b: Bucket, n: Node, k: Key, v: Value, e: int64)
    requires b.c1 == 1 && b.l1 == [n]
    ensures Write(b, k, v, e).0 == b.(l1 := [Node(k, v, e)])
  {
  }

  lemma OneSlotPromote(a: Key, v: Value, e: int64)
    requires e > 1
    ensures Read(Bucket(1, 1, [Node(a, v, e)], []), a, 1, 1).0 == Bucket(1, 1, [Node(a, v, 0)], [Node(a, v, e)])
  {
  }

  lemma LastRead(a: Key, b: Key, v: Value, other: Value)
    requires a != b
    ensures Read(Bucket(1, 1, [Node(b, other, 9)], [Node(a, v, 9)]), a, 2, 2).1 == Some(v)
  {
  }

  lemma OneMoreEvent(c1: nat, c2: nat, es: seq<Event>, ev: Event)
    requires c1 > 0 && c2 > 0
    ensures After(c1, c2, es + [ev]) == Step(After(c1, c2, es), ev, |es|)
  {
  }

  // ---- no resurrection ----------------------------------------------------

  // A key neither level holds stays unreadable until it is Set again, whatever
  // slots are reused meanwhile.
  lemma {:induction false} NoResurrection(w: World, es: seq<Event>, i: nat, k: Key, now1: int64, now2: int64)
    requires Ok(w.b) && !Holds(w.b, k) && Run(es)
    requires forall j {:trigger es[j]} :: 0 <= j < |es| && es[j].Set? ==> es[j].k != k
    ensures Ok(Steps(w, es, i).b) && !Holds(Steps(w, es, i).b, k)
    ensures Read(Steps(w, es, i).b, k, now1, now2).1 == None
    decreases |es|
  {
    if es == [] {
      ReadOwn(w.b, k, now1, now2);
    } else {
      StepHolds(w, es[0], i, k);
      NoResurrection(Step(w, es[0], i), es[1..], i + 1, k, now1, now2);
    }
  }

  // The world after events es, the first of which is number i.
  function Steps(w: World, es: seq<Event>, i: nat): (w': World)
    requires w.b.c1 > 0 && w.b.c2 > 0
    ensures w'.b.c1 == w.b.c1 && w'.b.c2 == w.b.c2
    decreases |es|
  {
    if es == [] then w
    else
      CapsKept(w, es[0], i);
      Steps(Step(w, es[0], i), es[1..], i + 1)
  }

  lemma StepHolds(w: World, ev: Event, i: nat, k: Key)
    requires Ok(w.b) && (ev.Set? ==> ev.e > 0)
    ensures Ok(Step(w, ev, i).b)
    ensures Holds(Step(w, ev, i).b, k) ==> Holds(w.b, k) || (ev.Set? && ev.k == k)
    ensures ev == Del(k) ==> !Holds(Step(w, ev, i).b, k)
    ensures ev.Get? && ev.k == k && Overdue(Lookup(w.b.l1, k), ev.now1) ==> !Holds(Step(w, ev, i).b, k)
  {
    match ev {
      case Set(k0, v, e) => WriteLookup(w.b, k0, v, e, k);
      case Get(k0, now1, now2) =>
        ReadOwn(w.b, k0, now1, now2);
        if k != k0 { ReadOther(w.b, k0, now1, now2, k); }
      case Del(k0) => RemovedLookup(w.b, k0, k);
      case Tick(now) => SweptLookup(w.b, now, k);
    }
  }

  // ---- who is evicted -----------------------------------------------------

  // The live entries are listed by the numbers latest gives their keys, newest
  // first; for the first level these are the latest Sets.
  ghost predicate BySet(s: seq<Node>, latest: map<Key, nat>) {
    && (forall i {:trigger s[i]} :: 0 <= i < |s| && s[i].Live() ==> s[i].k in latest)
    && forall i, j {:trigger s[i], s[j]} :: 0 <= i < j < |s| && s[i].Live() && s[j].Live() ==>
         latest[s[i].k] > latest[s[j].k]
  }

  lemma StoredBySet(cap: nat, s: seq<Node>, latest: map<Key, nat>, k: Key, v: Value, e: int64, n: nat)
    requires cap > 0 && BySet(s, latest) && DistinctKeys(s)
    requires forall x :: x in latest ==> latest[x] < n
    ensures BySet(Stored(cap, s, k, v, e), latest[k := n])
  {
    hide BySet;
    var i := Find(s, k);
    var j := if i < |s| then i else |s| - 1;
    if i < |s| || |s| >= cap {
      WithoutMembers(s, j);
      var w := Without(s, j);
      assert i == |s| ==> w == s[..|s| - 1];
      WithoutBySet(s, j, latest);
      NewestFirst(w, latest, Node(k, v, e), n);
    } else {
      NewestFirst(s, latest, Node(k, v, e), n);
    }
  }

  lemma WithoutBySet(s: seq<Node>, j: nat, latest: map<Key, nat>)
    requires BySet(s, latest) && j < |s|
    ensures BySet(Without(s, j), latest)
  {
  }

  lemma NewestFirst(w: seq<Node>, latest: map<Key, nat>, x: Node, n: nat)
    requires BySet(w, latest) && forall a :: 0 <= a < |w| ==> w[a].k != x.k
    requires forall k :: k in latest ==> latest[k] < n
    ensures BySet([x] + w, latest[x.k := n])
  {
  }

  lemma KilledBySet(s: seq<Node>, latest: map<Key, nat>, k: Key)
    requires BySet(s, latest) && DistinctKeys(s)
    ensures BySet(Killed(s, k), latest)
    ensures BySet(Killed(s, k), latest - {k})
    ensures Killed(Killed(s, k), k) == Killed(s, k)
  {
    var t, i := Killed(s, k), Find(s, k);
    KilledLookup(s, k, k);
    if i < |s| && s[i].Live() {
      WithoutMembers(s, i);
      WithoutBySet(s, i, latest);
    } else if i < |s| {
      forall a | 0 <= a < |s| && s[a].Live() ensures s[a].k != k {
        assert a < i ==> s[a].k != s[i].k;
        assert i < a ==> s[i].k != s[a].k;
      }
    }
  }

  lemma {:induction false} PurgedBySet(b: Bucket, latest: map<Key, nat>, keys: seq<Key>)
    requires Ok(b) && BySet(b.l1, latest)
    ensures BySet(Purged(b, keys).0.l1, latest)
    decreases |keys|
  {
    if keys != [] {
      var front := keys[..|keys| - 1];
      PurgedBySet(b, latest, front);
      PurgedLookup(b, front, []);
      KilledBySet(Purged(b, front).0.l1, latest, keys[|keys| - 1]);
    }
  }

  lemma {:induction false} EvictionOrder(c1: nat, c2: nat, es: seq<Event>)
    requires c1 > 0 && c2 > 0 && Run(es)
    ensures BySet(After(c1, c2, es).b.l1, After(c1, c2, es).latest)
    ensures forall k :: k in After(c1, c2, es).latest ==> After(c1, c2, es).latest[k] < |es|
    decreases |es|
  {
    if es != [] {
      var front, ev := es[..|es| - 1], es[|es| - 1];
      var w, n := After(c1, c2, front), |es| - 1;
      EvictionOrder(c1, c2, front);
      Reachable(c1, c2, front);
      match ev {
        case Set(k, v, e) => StoredBySet(c1, w.b.l1, w.latest, k, v, e, n);
        case Get(k, now1, now2) => KilledBySet(w.b.l1, w.latest, k);
        case Del(k) => KilledBySet(w.b.l1, w.latest, k);
        case Tick(now) => PurgedBySet(w.b, w.latest, Expired(w.b, now));
      }
    }
  }

  lemma RunOk(c1: nat, c2: nat, es: seq<Event>)
    requires c1 > 0 && c2 > 0 && Run(es)
    ensures Ok(After(c1, c2, es).b)
  {
    Reachable(c1, c2, es);
  }

  // So room in the first level is made by dropping the key that was Set least
  // recently, and only when no deleted slot is left to reuse.
  lemma OldestSetEvicted(c1: nat, c2: nat, es: seq<Event>, k: Key, k': Key)
    requires c1 > 0 && c2 > 0 && Run(es)
    ensures var w := After(c1, c2, es); var out := Victim(c1, w.b.l1, k);
            out.Some? && out.value.Live() ==>
              && out.value.k in w.latest && out.value.k != k
              && (forall i :: 0 <= i < |w.b.l1| ==> w.b.l1[i].Live())
              && (Lookup(w.b.l1, k').Some? ==> k' in w.latest && w.latest[out.value.k] <= w.latest[k'])
  {
    hide After, Inv, DistinctKeys;
    var w := After(c1, c2, es);
    RunOk(c1, c2, es);
    EvictionOrder(c1, c2, es);
    VictimLookup(c1, w.b.l1, k, k);
    if Lookup(w.b.l1, k').Some? {
      var i := Find(w.b.l1, k');
      assert w.b.l1[i].Live() && w.b.l1[i].k == k';
    }
  }

  // The second level has no such discipline: a read of a deleted key moves its
  // slot to the head. Deleted entries stay last exactly when the touched key is
  // absent or live, or nothing is live.
  lemma TouchedDeadLast(s: seq<Node>, k: Key)
    requires DistinctKeys(s) && DeadLast(s)
    ensures DeadLast(Touched(s, k)) <==>
            Find(s, k) == |s| || s[Find(s, k)].Live() || forall i :: 0 <= i < |s| ==> !s[i].Live()
  {
    hide Without, DeadLast;
    var i := Find(s, k);
    if i < |s| {
      WithoutLives(s, i);
      DeadLastHead(s[i], Without(s, i));
    }
  }

  lemma WithoutLives(s: seq<Node>, i: nat)
    requires DeadLast(s) && i < |s|
    ensures DeadLast(Without(s, i))
    ensures (forall n :: n in Without(s, i) ==> !n.Live()) <==> forall a :: 0 <= a < |s| && a != i ==> !s[a].Live()
  {
  }

  // A live entry, then a deleted one: reading the deleted key swaps them.
  lemma TouchBreaksOrder(a: Node, b: Node)
    requires a.k != b.k && a.Live() && !b.Live()
    ensures DeadLast([a, b]) && Touched([a, b], b.k) == [b, a] && !DeadLast([b, a])
  {
  }

  lemma DeadLastHead(x: Node, w: seq<Node>)
    requires DeadLast(w)
    ensures DeadLast([x] + w) <==> x.Live() || forall n :: n in w ==> !n.Live()
  {
    var t := [x] + w;
    assert t[0] == x;
    assert forall a :: 0 <= a < |w| ==> t[a + 1] == w[a];
  }

  // ---- many buckets -------------------------------------------------------

  // What an event does to the bucket alone.
  function Effect(b: Bucket, ev: Event): Bucket
    requires b.c1 > 0 && b.c2 > 0
  {
    Step(World(b, map[], map[], {}), ev, 0).b
  }

  // A run of a store of n buckets: each event names the bucket it locks.
  ghost function StoreAfter(c1: nat, c2: nat, n: nat, es: seq<(nat, Event)>): (bs: seq<Bucket>)
    requires c1 > 0 && c2 > 0
    ensures |bs| == n && forall i {:trigger bs[i]} :: 0 <= i < n ==> bs[i].c1 == c1 && bs[i].c2 == c2
    decreases |es|
  {
    if es == [] then seq(n, _ => Bucket(c1, c2, [], []))
    else
      var bs := StoreAfter(c1, c2, n, es[..|es| - 1]);
      var (i, ev) := es[|es| - 1];
      if i >= n then bs
      else
        CapsKept(World(bs[i], map[], map[], {}), ev, 0);
        bs[i := Effect(bs[i], ev)]
  }

  // The events of one bucket, in order.
  function Only(es: seq<(nat, Event)>, i: nat): seq<Event>
    decreases |es|
  {
    if es == [] then []
    else
      var front := Only(es[..|es| - 1], i);
      var (j, ev) := es[|es| - 1];
      if j == i then front + [ev] else front
  }

  // Buckets do not interact: each ends as if its own events had run alone, so
  // every statement about one bucket's runs holds inside the store.
  lemma {:induction false} Independent(c1: nat, c2: nat, n: nat, es: seq<(nat, Event)>, i: nat)
    requires c1 > 0 && c2 > 0 && i < n
    ensures StoreAfter(c1, c2, n, es)[i] == After(c1, c2, Only(es, i)).b
    decreases |es|
  {
    hide Step;
    if es != [] {
      var front := es[..|es| - 1];
      var (j, ev) := es[|es| - 1];
      Independent(c1, c2, n, front, i);
      if j == i {
        OneMoreEvent(c1, c2, Only(front, i), ev);
        SameEffect(After(c1, c2, Only(front, i)), ev, |Only(front, i)|);
      }
    }
  }

  lemma SameEffect(w: World, ev: Event, i: nat)
    requires w.b.c1 > 0 && w.b.c2 > 0
    ensures Step(w, ev, i).b == Effect(w.b, ev)
  {
  }
}
