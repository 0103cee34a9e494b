// Interleavings of the byte-bounded store. Each event is one critical section;
// a Get that does not miss outright is two of them, with anything in between.
module ByteLruRuns {
  import opened Prelude
  import opened ByteLruSpec

  type Tid = nat

  // What a reader still has to do after its first phase: move an element it
  // has seen, or delete a key it found expired.
  datatype Pending = Move(key: Key, elem: Elem) | Drop(key: Key)

  datatype World = World(s: Lru, readers: map<Tid, Pending>)

  datatype Event =
    | GetFirst(t: Tid, key: Key, now: Time)
    | GetSecond(t: Tid)
    | Set(key: Key, value: Value, now: Time, ttl: int, now2: Time)
    | Delete(key: Key)
    | Tick(now: Time)
    | Extend(key: Key, now: Time, ttl: int)
    | Limit(max: int, now: Time)
    | Clear

  // Clear re-initialises the list under elements that readers still hold; its
  // only caller takes a lock that keeps readers out.
  predicate Enabled(w: World, ev: Event) {
    match ev
    case GetFirst(t, _, _) => t !in w.readers
    case GetSecond(t) => t in w.readers
    case Clear => w.readers == map[]
    case _ => true
  }

  function First(s: Lru, k: Key, now: Time): Option<Pending> {
    if k !in s.items then None
    else if IsOverdue(s, k, now) then Some(Drop(k))
    else Some(Move(k, s.items[k]))
  }

  function Second(s: Lru, p: Pending): Lru {
    match p
    case Move(k, e) => Touched(s, k, e)
    case Drop(k) => Deleted(s, k)
  }

  function Step(w: World, ev: Event): World
    requires Enabled(w, ev)
  {
    match ev
    case GetFirst(t, k, now) =>
      (match First(w.s, k, now)
       case None => w
       case Some(p) => w.(readers := w.readers[t := p]))
    case GetSecond(t) => World(Second(w.s, w.readers[t]), w.readers - {t})
    case Set(k, v, now, ttl, now2) => w.(s := Written(w.s, k, v, now, ttl, now2))
    case Delete(k) => w.(s := Deleted(w.s, k))
    case Tick(now) => w.(s := Evicted(w.s, now))
    case Extend(k, now, ttl) => w.(s := if k in w.s.items then w.s.(expires := Timed(w.s, k, now, ttl)) else w.s)
    case Limit(max, now) => w.(s := if max > 0 then Evicted(w.s.(max := max), now) else w.s.(max := max))
    case Clear => w.(s := Cleared(w.s))
  }

  // The store is sound, and every element a reader holds is known under the
  // key the reader looked up, on the list or not.
  ghost predicate Sound(w: World) {
    && Inv(w.s)
    && forall t {:trigger w.readers[t]} :: t in w.readers && w.readers[t].Move? ==>
         w.readers[t].elem in w.s.entries && w.s.entries[w.readers[t].elem].key == w.readers[t].key
  }

  // No step forgets an element or renames it.
  lemma EntriesGrow(w: World, ev: Event)
    requires Sound(w) && Enabled(w, ev)
    ensures var t := Step(w, ev).s;
            forall e :: e in w.s.entries ==> e in t.entries && t.entries[e].key == w.s.entries[e].key
  {
  }

  lemma StepInv(w: World, ev: Event)
    requires Sound(w) && Enabled(w, ev)
    ensures Inv(Step(w, ev).s)
  {
    hide Written, Evicted, Unlinked;
    match ev {
      case GetFirst(t, k, now) =>
      case GetSecond(t) =>
        match w.readers[t] {
          case Move(k, e) => MoveInv(w.s, e);
          case Drop(k) => DeletedInv(w.s, k);
        }
      case Set(k, v, now, ttl, now2) => WrittenInv(w.s, k, v, now, ttl, now2);
      case Delete(k) => DeletedInv(w.s, k);
      case Tick(now) => var n := EvictedMeaning(w.s, now);
      case Extend(k, now, ttl) =>
      case Limit(max, now) =>
        assert Inv(w.s.(max := max));
        var n := EvictedMeaning(w.s.(max := max), now);
      case Clear =>
    }
  }

  lemma DeletedInv(s: Lru, k: Key)
    requires Inv(s)
    ensures Inv(Deleted(s, k))
  {
    if k in s.items {
      UnlinkedInv(s, s.items[k]);
    }
  }

  lemma StepSound(w: World, ev: Event)
    requires Sound(w) && Enabled(w, ev)
    ensures Sound(Step(w, ev))
  {
    hide Written, Evicted, Unlinked, Touched, Deleted;
    StepInv(w, ev);
    EntriesGrow(w, ev);
  }

  predicate Legal(w: World, es: seq<Event>)
    decreases |es|
  {
    es == [] || (Enabled(w, es[0]) && Legal(Step(w, es[0]), es[1..]))
  }

  function After(w: World, es: seq<Event>): World
    requires Legal(w, es)
    decreases |es|
  {
    if es == [] then w else After(Step(w, es[0]), es[1..])
  }

  // Whatever runs between the two phases of any number of readers, list and
  // index stay inverse, only stored keys expire, and the byte count is exact.
  lemma {:induction false} RunSound(w: World, es: seq<Event>)
    requires Sound(w) && Legal(w, es)
    ensures Sound(After(w, es))
    decreases |es|
  {
    if es != [] {
      StepSound(w, es[0]);
      RunSound(Step(w, es[0]), es[1..]);
    }
  }

  // The second phase of a successful Get only reorders, and only its own key:
  // an element taken off the list meanwhile is not put back.
  lemma SecondPhase(w: World, t: Tid)
    requires Sound(w) && t in w.readers && w.readers[t].Move?
    ensures var s, s', p := w.s, Step(w, GetSecond(t)).s, w.readers[t];
            && s' == s.(list := s'.list)
            && (if p.elem in s.list
                then s.items[p.key] == p.elem && s'.list == Minus(s.list, p.elem) + [p.elem]
                else s' == s)
  {
  }

  // A Get that finds its key expired deletes it later without looking again:
  // a value stored in between is lost.
  lemma LostUpdate(k: Key, v: Value, new': Value)
    requires v != Nil && new' != Nil
    ensures var w := World(Pushed(Lru([], map[], map[], map[], 0, 0, 0), k, v, 0, 5), map[]);
            var es := [GetFirst(1, k, 6), Set(k, new', 6, 0, 6), GetSecond(1)];
            && Sound(w) && Legal(w, es) && k !in After(w, es).s.items
  {
    var s0 := Lru([], map[], map[], map[], 0, 0, 0);
    PushedInv(s0, k, v, 0, 5);
    var w := World(Pushed(s0, k, v, 0, 5), map[]);
    var e0, e1, e2 := GetFirst(1, k, 6), Set(k, new', 6, 0, 6), GetSecond(1);
    var w1 := Step(w, e0);
    var w2 := Step(w1, e1);
    assert w1.readers == map[1 := Drop(k)];
    assert k in w2.s.items && w2.readers == map[1 := Drop(k)];
    var w3 := Step(w2, e2);
    assert k !in w3.s.items;
    assert [e0, e1, e2][1..] == [e1, e2] && [e1, e2][1..] == [e2] && [e2][1..] == [];
    assert Legal(w3, []) && Legal(w2, [e2]) && Legal(w1, [e1, e2]);
    assert After(w2, [e2]) == After(w3, []);
    assert After(w1, [e1, e2]) == After(w2, [e2]);
  }

  // That deletion removes whatever is stored under its key by then, and
  // nothing else.
  lemma DropEffect(w: World, t: Tid, k': Key)
    requires Sound(w) && t in w.readers && w.readers[t].Drop?
    ensures var s, s', k := w.s, Step(w, GetSecond(t)).s, w.readers[t].key;
            && k !in s'.items
            && (k' != k ==> (k' in s'.items <==> k' in s.items) && (k' in s.items ==> s'.items[k'] == s.items[k']))
            && (k !in s.items ==> s' == s)
  {
  }

  // ---- what a late deletion loses -----------------------------------------------

  function DeadlineOf(s: Lru, k: Key): Option<Time> {
    if k in s.expires then Some(s.expires[k]) else None
  }

  // Whether a Set or a change of deadline renews key k, and until when.
  datatype Renewal = NotRenewed | Renewed(until: Option<Time>)

  function Until(now: Time, ttl: int): Renewal {
    Renewed(if ttl > 0 then Some(now + ttl) else None)
  }

  function Renews(s: Lru, ev: Event, k: Key): Renewal {
    match ev
    case Set(k', v, now, ttl, now2) => if k' == k && v != Nil then Until(now, ttl) else NotRenewed
    case Extend(k', now, ttl) => if k' == k && k in s.items then Until(now, ttl) else NotRenewed
    case _ => NotRenewed
  }

  // The last renewal of k in a run.
  function LastRenewal(w: World, es: seq<Event>, k: Key): Renewal
    requires Legal(w, es)
    decreases |es|
  {
    if es == [] then NotRenewed
    else
      var later := LastRenewal(Step(w, es[0]), es[1..], k);
      if later.Renewed? then later else Renews(w.s, es[0], k)
  }

  // A key still stored after a step was renewed by it, or was stored before
  // with the same deadline.
  lemma StepDeadline(w: World, ev: Event, k: Key)
    requires Sound(w) && Enabled(w, ev) && k in Step(w, ev).s.items
    ensures match Renews(w.s, ev, k)
            case Renewed(d) => DeadlineOf(Step(w, ev).s, k) == d
            case NotRenewed => k in w.s.items && DeadlineOf(Step(w, ev).s, k) == DeadlineOf(w.s, k)
  {
    hide Minus, Keep, Fit, Bytes, SizeOf, Len, Distinct, Overdue, MovedBack, Evicted, Deleted;
    match ev {
      case Set(k', v, now, ttl, now2) =>
        EvictedDeadline(Pushed(w.s, k', v, now, ttl), now2, k);
        DeletedDeadline(w.s, k', k);
      case GetSecond(t) => DeletedDeadline(w.s, w.readers[t].key, k);
      case Delete(k') => DeletedDeadline(w.s, k', k);
      case Tick(now) => EvictedDeadline(w.s, now, k);
      case Limit(max, now) => EvictedDeadline(w.s.(max := max), now, k);
      case _ =>
    }
  }

  lemma EvictedDeadline(s: Lru, now: Time, k: Key)
    ensures k in Evicted(s, now).items ==> k in s.items && DeadlineOf(Evicted(s, now), k) == DeadlineOf(s, k)
  {
    hide Keep, Fit, Overdue, Bytes;
  }

  lemma DeletedDeadline(s: Lru, k': Key, k: Key)
    requires Inv(s)
    ensures k in Deleted(s, k').items ==> k in s.items && k != k' && DeadlineOf(Deleted(s, k'), k) == DeadlineOf(s, k)
  {
    hide Minus, Bytes, SizeOf, Distinct;
  }

  lemma {:induction false} RunDeadline(w: World, es: seq<Event>, k: Key)
    requires Sound(w) && Legal(w, es) && k in After(w, es).s.items
    ensures match LastRenewal(w, es, k)
            case Renewed(d) => DeadlineOf(After(w, es).s, k) == d
            case NotRenewed => k in w.s.items && DeadlineOf(After(w, es).s, k) == DeadlineOf(w.s, k)
    decreases |es|
  {
    hide Step, Enabled, Sound, Renews, DeadlineOf;
    if es != [] {
      StepSound(w, es[0]);
      RunDeadline(Step(w, es[0]), es[1..], k);
      if LastRenewal(Step(w, es[0]), es[1..], k).NotRenewed? {
        StepDeadline(w, es[0], k);
      }
    }
  }

  lemma {:induction false} StillPending(w: World, es: seq<Event>, t: Tid)
    requires Legal(w, es) && t in w.readers && GetSecond(t) !in es
    ensures t in After(w, es).readers && After(w, es).readers[t] == w.readers[t]
    decreases |es|
  {
    if es != [] {
      assert es[0] in es;
      StillPending(Step(w, es[0]), es[1..], t);
    }
  }

  // The second phase of reader t is about to remove an entry that has not
  // expired at time now.
  predicate Loses(w: World, t: Tid, now: Time) {
    t in w.readers && w.readers[t].Drop?
    && var k := w.readers[t].key;
    k in w.s.items && !IsOverdue(w.s, k, now) && k !in Step(w, GetSecond(t)).s.items
  }

  // A Get that found its key expired removes an entry that has not expired
  // exactly when the key is stored by then and its last renewal between the two
  // phases holds that long.
  lemma LosesIff(w: World, t: Tid, k: Key, now: Time, es: seq<Event>, now': Time)
    requires Sound(w) && t !in w.readers && k in w.s.items && IsOverdue(w.s, k, now) && now <= now'
    requires var w1 := Step(w, GetFirst(t, k, now)); Legal(w1, es) && GetSecond(t) !in es
    ensures var w1 := Step(w, GetFirst(t, k, now));
            Loses(After(w1, es), t, now') <==>
              && k in After(w1, es).s.items
              && LastRenewal(w1, es, k).Renewed?
              && (LastRenewal(w1, es, k).until.Some? ==> now' <= LastRenewal(w1, es, k).until.value)
  {
    var w1 := Step(w, GetFirst(t, k, now));
    StepSound(w, GetFirst(t, k, now));
    RunSound(w1, es);
    StillPending(w1, es, t);
    DropEffect(After(w1, es), t, k);
    if k in After(w1, es).s.items {
      RunDeadline(w1, es, k);
    }
  }

  // ---- the list is in order of use ------------------------------------------------

  // The element an event moves to the back: a Set its entry, a second phase the
  // element it holds if that is still listed.
  function Uses(w: World, ev: Event): Option<Elem>
    requires Enabled(w, ev)
  {
    match ev
    case Set(k, v, _, _, _) =>
      if v == Nil then None
      else if k in w.s.items && w.s.items[k] in w.s.entries then Some(w.s.items[k])
      else Some(w.s.next)
    case GetSecond(t) =>
      (match w.readers[t]
       case Move(k, e) => if k in w.s.items && e in w.s.list then Some(e) else None
       case Drop(_) => None)
    case _ => None
  }

  // When each element was last used, events being numbered from n.
  function LastUse(w: World, es: seq<Event>, used: map<Elem, nat>, n: nat): map<Elem, nat>
    requires Legal(w, es)
    decreases |es|
  {
    if es == [] then used
    else
      var e := Uses(w, es[0]);
      LastUse(Step(w, es[0]), es[1..], if e.Some? then used[e.value := n] else used, n + 1)
  }

  // Least recently used first.
  ghost predicate InOrder(list: seq<Elem>, used: map<Elem, nat>) {
    && (forall e :: e in list ==> e in used)
    && forall i, j {:trigger list[i], list[j]} :: 0 <= i < j < |list| ==> used[list[i]] < used[list[j]]
  }

  lemma PrependInOrder(e: Elem, list: seq<Elem>, used: map<Elem, nat>)
    requires InOrder(list, used) && e in used && forall x :: x in list ==> used[e] < used[x]
    ensures InOrder([e] + list, used)
  {
  }

  lemma TailInOrder(list: seq<Elem>, used: map<Elem, nat>)
    requires list != [] && InOrder(list, used)
    ensures InOrder(list[1..], used) && list[0] in used && forall x :: x in list[1..] ==> used[list[0]] < used[x]
  {
    forall x | x in list[1..] ensures used[list[0]] < used[x] {
      var i :| 0 < i < |list| && list[i] == x;
    }
  }

  lemma {:induction false} MinusInOrder(list: seq<Elem>, e: Elem, used: map<Elem, nat>)
    requires InOrder(list, used)
    ensures InOrder(Minus(list, e), used)
  {
    if list != [] {
      TailInOrder(list, used);
      MinusInOrder(list[1..], e, used);
      MinusMembers(list[1..], e);
      if list[0] != e {
        PrependInOrder(list[0], Minus(list[1..], e), used);
      }
    }
  }

  lemma {:induction false} KeepInOrder(list: seq<Elem>, entries: map<Elem, Entry>, gone: set<Key>, used: map<Elem, nat>)
    requires InOrder(list, used)
    ensures InOrder(Keep(list, entries, gone), used)
  {
    if list != [] {
      TailInOrder(list, used);
      KeepInOrder(list[1..], entries, gone, used);
      KeepMembers(list[1..], entries, gone);
      if !(list[0] in entries && entries[list[0]].key in gone) {
        PrependInOrder(list[0], Keep(list[1..], entries, gone), used);
      }
    }
  }

  lemma EvictedInOrder(s: Lru, now: Time, used: map<Elem, nat>)
    requires InOrder(s.list, used)
    ensures InOrder(Evicted(s, now).list, used)
  {
    KeepInOrder(s.list, s.entries, Overdue(s, now), used);
    var kept := Keep(s.list, s.entries, Overdue(s, now));
    var n := FitIsSuffix(kept, s.entries, s.max);
    assert forall x :: x in kept[n..] ==> x in kept;
  }

  // A use moves the element behind all others.
  lemma UsedInOrder(list: seq<Elem>, e: Elem, used: map<Elem, nat>, n: nat)
    requires InOrder(list, used) && forall x :: x in used ==> used[x] < n
    ensures InOrder(Minus(list, e) + [e], used[e := n])
  {
    MinusInOrder(list, e, used);
    MinusMembers(list, e);
    var m := Minus(list, e);
    assert forall i :: 0 <= i < |m| ==> m[i] in m;
  }

  lemma StepInOrder(w: World, ev: Event, used: map<Elem, nat>, n: nat)
    requires Sound(w) && Enabled(w, ev) && InOrder(w.s.list, used) && forall x :: x in used ==> used[x] < n
    ensures var e := Uses(w, ev); InOrder(Step(w, ev).s.list, if e.Some? then used[e.value := n] else used)
  {
    hide InOrder, Minus, Keep, Fit, Bytes, Evicted;
    match ev {
      case GetFirst(t, k, now) =>
      case GetSecond(t) =>
        match w.readers[t] {
          case Move(k, e) => UsedInOrder(w.s.list, e, used, n);
          case Drop(k) => if k in w.s.items { MinusInOrder(w.s.list, w.s.items[k], used); }
        }
      case Set(k, v, now, ttl, now2) =>
        if k in w.s.items {
          UsedInOrder(w.s.list, w.s.items[k], used, n);
          MinusInOrder(w.s.list, w.s.items[k], used);
        } else {
          assert w.s.next !in w.s.list;
          MinusAbsent(w.s.list, w.s.next);
          UsedInOrder(w.s.list, w.s.next, used, n);
          EvictedInOrder(Pushed(w.s, k, v, now, ttl), now2, used[w.s.next := n]);
        }
      case Delete(k) => if k in w.s.items { MinusInOrder(w.s.list, w.s.items[k], used); }
      case Tick(now) => EvictedInOrder(w.s, now, used);
      case Extend(k, now, ttl) =>
      case Limit(max, now) => EvictedInOrder(w.s.(max := max), now, used);
      case Clear => EmptyInOrder(used);
    }
  }

  lemma EmptyInOrder(used: map<Elem, nat>)
    ensures InOrder([], used)
  {
  }

  // Over any interleaving the list is ordered by last use: the last Set of the
  // entry or the last second phase that found it listed.
  lemma {:induction false} UseOrder(w: World, es: seq<Event>, used: map<Elem, nat>, n: nat)
    requires Sound(w) && Legal(w, es) && InOrder(w.s.list, used) && forall x :: x in used ==> used[x] < n
    ensures InOrder(After(w, es).s.list, LastUse(w, es, used, n))
    decreases |es|
  {
    hide Step, Enabled, Sound, InOrder, Uses;
    if es != [] {
      StepSound(w, es[0]);
      StepInOrder(w, es[0], used, n);
      var e := Uses(w, es[0]);
      UseOrder(Step(w, es[0]), es[1..], if e.Some? then used[e.value := n] else used, n + 1);
    }
  }

  // So eviction for room takes the least recently used: every entry it drops
  // that has not expired was last used before every entry it keeps.
  lemma OldestEvicted(w: World, es: seq<Event>, now: Time, x: Elem, y: Elem)
    requires Sound(w) && w.s.list == [] && Legal(w, es)
    requires var s := After(w, es).s;
             && x in s.list && x in s.entries && !IsOverdue(s, s.entries[x].key, now)
             && x !in Evicted(s, now).list && y in Evicted(s, now).list
    ensures var used := LastUse(w, es, map[], 0); x in used && y in used && used[x] < used[y]
  {
    hide Sound, Uses, Step;
    EmptyInOrder(map[]);
    UseOrder(w, es, map[], 0);
    var s, used := After(w, es).s, LastUse(w, es, map[], 0);
    var gone := Overdue(s, now);
    var kept := Keep(s.list, s.entries, gone);
    KeepInOrder(s.list, s.entries, gone, used);
    KeepMembers(s.list, s.entries, gone);
    var n := FitIsSuffix(kept, s.entries, s.max);
    var i :| 0 <= i < |kept| && kept[i] == x;
    var j :| n <= j < |kept| && kept[j] == y;
    InSuffix(kept, n, i);
  }

  lemma InSuffix(list: seq<Elem>, n: nat, i: nat)
    requires i < |list| && n <= |list|
    ensures i < n || list[i] in list[n..]
  {
    assert i >= n ==> list[n..][i - n] == list[i];
  }

  // ---- what a Get finds ---------------------------------------------------------

  // The value last set for k in a run.
  function LastSet(w: World, es: seq<Event>, k: Key): Option<Value>
    requires Legal(w, es)
    decreases |es|
  {
    if es == [] then None
    else
      var later := LastSet(Step(w, es[0]), es[1..], k);
      if later.Some? then later
      else if es[0].Set? && es[0].key == k && es[0].value != Nil then Some(es[0].value)
      else None
  }

  lemma StepValue(w: World, ev: Event, k: Key)
    requires Sound(w) && Enabled(w, ev) && k in Step(w, ev).s.items
    ensures ValueOf(Step(w, ev).s, k) ==
            if ev.Set? && ev.key == k && ev.value != Nil then Some(ev.value) else ValueOf(w.s, k)
    ensures k in w.s.items || (ev.Set? && ev.key == k && ev.value != Nil)
  {
    hide Minus, Keep, Fit, Bytes, SizeOf, Len, Distinct, Overdue, Evicted, Deleted, Written;
    StepInv(w, ev);
    StoredHasValue(Step(w, ev).s, k);
    StoredHasValue(w.s, k);
    match ev {
      case Set(k', v, now, ttl, now2) => WrittenValues(w.s, k', v, now, ttl, now2, k);
      case GetSecond(t) => DeletedValues(w.s, w.readers[t].key, k);
      case Delete(k') => DeletedValues(w.s, k', k);
      case Tick(now) => EvictedValues(w.s, now, k);
      case Limit(max, now) => EvictedValues(w.s.(max := max), now, k);
      case _ =>
    }
  }

  // Over any interleaving, a key that is stored has the value last set for it,
  // or, if none was set, was stored before with the value it has.
  lemma {:induction false} RunValue(w: World, es: seq<Event>, k: Key)
    requires Sound(w) && Legal(w, es) && k in After(w, es).s.items
    ensures match LastSet(w, es, k)
            case Some(v) => ValueOf(After(w, es).s, k) == Some(v)
            case None => k in w.s.items && ValueOf(After(w, es).s, k) == ValueOf(w.s, k)
    decreases |es|
  {
    hide Step, Enabled, Sound, ValueOf;
    if es != [] {
      StepSound(w, es[0]);
      RunValue(Step(w, es[0]), es[1..], k);
      if LastSet(Step(w, es[0]), es[1..], k).None? {
        StepValue(w, es[0], k);
      }
    }
  }

  // So the value that the first phase of a Get reads is the one last set.
  lemma HitIsLastSet(w: World, es: seq<Event>, k: Key, now: Time)
    requires Sound(w) && w.s.items == map[] && Legal(w, es)
    requires First(After(w, es).s, k, now).Some? && First(After(w, es).s, k, now).value.Move?
    ensures var s, e := After(w, es).s, First(After(w, es).s, k, now).value.elem;
            e in s.entries && LastSet(w, es, k) == Some(s.entries[e].value)
  {
    RunSound(w, es);
    RunValue(w, es, k);
    StoredHasValue(After(w, es).s, k);
  }

  // A key that is not stored is missed until a value is set for it again.
  lemma MissesUntilSet(w: World, es: seq<Event>, k: Key, now: Time)
    requires Sound(w) && Legal(w, es) && k !in w.s.items && LastSet(w, es, k) == None
    ensures First(After(w, es).s, k, now) == None
  {
    if k in After(w, es).s.items {
      RunValue(w, es, k);
    }
  }

  // That is every key after a Clear ...
  lemma ClearedMisses(w: World, es: seq<Event>, k: Key, now: Time)
    requires Sound(w) && Enabled(w, Clear) && Legal(Step(w, Clear), es) && LastSet(Step(w, Clear), es, k) == None
    ensures First(After(Step(w, Clear), es).s, k, now) == None
  {
    StepSound(w, Clear);
    ClearedEmpty(w.s, k);
    MissesUntilSet(Step(w, Clear), es, k, now);
  }

  // ... and its own key after a Delete.
  lemma DeletedMisses(w: World, es: seq<Event>, k: Key, now: Time)
    requires Sound(w) && Legal(Step(w, Delete(k)), es) && LastSet(Step(w, Delete(k)), es, k) == None
    ensures First(After(Step(w, Delete(k)), es).s, k, now) == None
  {
    StepSound(w, Delete(k));
    DeletedValues(w.s, k, k);
    MissesUntilSet(Step(w, Delete(k)), es, k, now);
  }

  // ---- the limit ------------------------------------------------------------------

  // After a tick, after a positive limit is set, and after a Set of a key that
  // was not stored, a positive limit holds and nothing is left that had expired at
  // that time; a limit that is not positive is only noted.
  lemma LimitHolds(w: World, ev: Event)
    requires Sound(w) && Enabled(w, ev)
    ensures var s, s' := w.s, Step(w, ev).s;
            && (ev.Limit? ==> s'.max == ev.max) && (!ev.Limit? ==> s'.max == s.max)
            && (ev.Tick? || (ev.Limit? && ev.max > 0) || (ev.Set? && ev.value != Nil && ev.key !in s.items) ==>
                  && (s'.max > 0 ==> s'.used <= s'.max)
                  && Overdue(s', if ev.Set? then ev.now2 else ev.now) == {})
            && (ev.Limit? && ev.max <= 0 ==> s' == s.(max := ev.max))
  {
    hide Keep, Fit, Bytes, Minus, SizeOf, Overdue, Inv;
    match ev {
      case Tick(now) => var n := EvictedMeaning(w.s, now);
      case Limit(max, now) =>
        assert Inv(w.s.(max := max)) by { LimitInv(w.s, max); }
        var n := EvictedMeaning(w.s.(max := max), now);
      case Set(k, v, now, ttl, now2) =>
        if v != Nil && k !in w.s.items {
          PushedInv(w.s, k, v, now, ttl);
          var n := EvictedMeaning(Pushed(w.s, k, v, now, ttl), now2);
        }
      case _ =>
    }
  }

  lemma LimitInv(s: Lru, max: int)
    requires Inv(s)
    ensures Inv(s.(max := max))
  {
  }
}
