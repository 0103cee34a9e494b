// One bucket of the LRU-2 store as a value: its two levels, and every
// operation that runs while the bucket's lock is held. A reading of the clock
// is an argument; an eviction callback is a result.
module Lru2Bucket {
  import opened Prelude
  import opened Lru2List
  import opened Lru2Laws

  datatype Bucket = Bucket(c1: nat, c2: nat, l1: seq<Node>, l2: seq<Node>)

  // The callback issued once the lock is released.
  type Callback = Option<(Key, Value)>

  ghost predicate Ok(b: Bucket) {
    && b.c1 > 0 && b.c2 > 0
    && |b.l1| <= b.c1 && |b.l2| <= b.c2
    && DistinctKeys(b.l1) && DistinctKeys(b.l2)
    && DeadLast(b.l1)
  }

  // ---- expiry -------------------------------------------------------------

  // Absolute deadline of a time to live: never for ttl <= 0, and saturating
  // instead of overflowing otherwise.
  function Deadline(now: int64, ttl: int64): (e: int64)
    ensures e as int == if ttl <= 0 || now as int + ttl as int > MAX_INT64 as int then MAX_INT64 as int
                        else now as int + ttl as int
    ensures now >= 0 ==> e > 0
  {
    if ttl <= 0 then MAX_INT64
    else if now > MAX_INT64 - ttl then MAX_INT64
    else now + ttl
  }

  // ---- operations under the lock ------------------------------------------

  function NonNil(k: Key, v: Value): Callback {
    if v == Nil then None else Some((k, v))
  }

  // delete: both levels, reporting the value of the first level that has one.
  function Removed(b: Bucket, k: Key): (Bucket, bool, Value) {
    var n1, n2 := Lookup(b.l1, k), Lookup(b.l2, k);
    (b.(l1 := Killed(b.l1, k), l2 := Killed(b.l2, k)),
     n1.Some? || n2.Some?,
     if n1.Some? && n1.value.v != Nil then n1.value.v
     else if n2.Some? && n2.value.v != Nil then n2.value.v
     else Nil)
  }

  // What a capacity eviction reports.
  function Spill(victim: Option<Node>): Callback {
    if victim.Some? && victim.value.Live() then Some((victim.value.k, victim.value.v)) else None
  }

  // SetWithExpiration with the deadline already computed.
  function Write(b: Bucket, k: Key, v: Value, e: int64): (Bucket, Callback)
    requires b.c1 > 0
  {
    (b.(l1 := Stored(b.c1, b.l1, k, v, e)), Spill(Victim(b.c1, b.l1, k)))
  }

  // Get: now1 is the clock at entry, now2 the reading taken by the second-level lookup.
  function Read(b: Bucket, k: Key, now1: int64, now2: int64): (Bucket, Option<Value>, Callback)
    requires b.c2 > 0
  {
    match Lookup(b.l1, k)
    case Some(n) => Promoted(b.(l1 := Killed(b.l1, k)), n, now1)
    case None => SecondRead(b, k, now1, now2)
  }

  // A first-level hit n, already deleted there, moves to the second level unless expired.
  function Promoted(b: Bucket, n: Node, now1: int64): (Bucket, Option<Value>, Callback)
    requires b.c2 > 0
  {
    if now1 >= n.expireAt then (Removed(b, n.k).0, None, Reported(b, n.k))
    else
      (b.(l2 := Stored(b.c2, b.l2, n.k, n.v, n.expireAt)), Some(n.v), Spill(Victim(b.c2, b.l2, n.k)))
  }

  function SecondRead(b: Bucket, k: Key, now1: int64, now2: int64): (Bucket, Option<Value>, Callback) {
    var b1 := b.(l2 := Touched(b.l2, k));
    match Lookup(b.l2, k)
    case None => (b1, None, None)
    case Some(n) =>
      if now2 >= n.expireAt then (b1, None, None)
      else if now1 >= n.expireAt then (Removed(b1, k).0, None, Reported(b1, k))
      else (b1, Some(n.v), None)
  }

  // The callback a removal of k issues: first-level value, else second-level value.
  function Reported(b: Bucket, k: Key): Callback {
    var (_, deleted, v) := Removed(b, k);
    if deleted then NonNil(k, v) else None
  }

  // One cleanup tick: the expired keys of both levels, each once, in list order ...
  function ExpiredIn(now: int64): ((seq<Key>, Node) -> (seq<Key>, bool)) {
    (acc: seq<Key>, n: Node) => (if now >= n.expireAt && n.k !in acc then acc + [n.k] else acc, true)
  }

  function Expired(b: Bucket, now: int64): seq<Key> {
    Walked(b.l2, Walked(b.l1, [], ExpiredIn(now)), ExpiredIn(now))
  }

  // ... are removed from both levels.
  function Purged(b: Bucket, keys: seq<Key>): (Bucket, seq<(Key, Value)>)
    decreases |keys|
  {
    if keys == [] then (b, [])
    else
      var (b1, log) := Purged(b, keys[..|keys| - 1]);
      var k := keys[|keys| - 1];
      var (b2, deleted, v) := Removed(b1, k);
      (b2, if deleted && v != Nil then log + [(k, v)] else log)
  }

  function Swept(b: Bucket, now: int64): Bucket {
    Purged(b, Expired(b, now)).0
  }

  lemma {:induction false} PurgeCaps(b: Bucket, keys: seq<Key>)
    ensures Purged(b, keys).0.c1 == b.c1 && Purged(b, keys).0.c2 == b.c2
    decreases |keys|
  {
    if keys != [] {
      PurgeCaps(b, keys[..|keys| - 1]);
    }
  }

  // ---- what the operations do to lookups ----------------------------------

  lemma RemovedLookup(b: Bucket, k: Key, k': Key)
    requires Ok(b)
    ensures var b' := Removed(b, k).0;
            && Ok(b')
            && Lookup(b'.l1, k') == (if k' == k then None else Lookup(b.l1, k'))
            && Lookup(b'.l2, k') == (if k' == k then None else Lookup(b.l2, k'))
  {
    KilledLookup(b.l1, k, k');
    KilledLookup(b.l2, k, k');
    DeadLastKept(b.c1, b.l1, k, Nil, 1);
  }

  lemma WriteLookup(b: Bucket, k: Key, v: Value, e: int64, k': Key)
    requires Ok(b) && e > 0
    ensures var (b', cb) := Write(b, k, v, e);
            && Ok(b') && b'.l2 == b.l2
            && Lookup(b'.l1, k') ==
               (if k' == k then Some(Node(k, v, e))
                else if cb.Some? && cb.value.0 == k' then None
                else Lookup(b.l1, k'))
            && (cb.Some? ==>
                  && cb.value.0 != k && Lookup(b.l1, cb.value.0) == Some(b.l1[|b.l1| - 1])
                  && b.l1[|b.l1| - 1].v == cb.value.1)
            && (cb.Some? ==> |b.l1| == b.c1 && forall i :: 0 <= i < |b.l1| ==> b.l1[i].Live())
  {
    StoredLookup(b.c1, b.l1, k, v, e, k');
    DeadLastKept(b.c1, b.l1, k, v, e);
    VictimLookup(b.c1, b.l1, k, k');
  }

  lemma VictimLookup(cap: nat, s: seq<Node>, k: Key, k': Key)
    requires cap > 0 && DistinctKeys(s)
    ensures match Victim(cap, s, k)
            case None => true
            case Some(n) =>
              && n.k != k && n == s[|s| - 1]
              && (n.k == k' ==> Lookup(s, k') == if n.Live() then Some(n) else None)
    ensures DeadLast(s) && Spill(Victim(cap, s, k)).Some? ==> |s| >= cap && forall i :: 0 <= i < |s| ==> s[i].Live()
  {
  }

  // A read changes nothing about other keys, except that promotion into a full
  // second level drops the entry it overwrites, and reports it.
  lemma ReadOther(b: Bucket, k: Key, now1: int64, now2: int64, k': Key)
    requires Ok(b) && k' != k
    ensures var (b', _, cb) := Read(b, k, now1, now2);
            && Lookup(b'.l1, k') == Lookup(b.l1, k')
            && (Lookup(b'.l2, k') == Lookup(b.l2, k') || (Lookup(b'.l2, k') == None && cb.Some? && cb.value.0 == k'))
  {
    hide Killed, Stored, Touched, Find;
    KilledLookup(b.l1, k, k');
    match Lookup(b.l1, k) {
      case Some(n) =>
        KilledLookup(Killed(b.l1, k), k, k');
        KilledLookup(b.l2, k, k');
        StoredLookup(b.c2, b.l2, k, n.v, n.expireAt, k');
        VictimLookup(b.c2, b.l2, k, k');
      case None =>
        TouchedLookup(b.l2, k, k');
        KilledLookup(Touched(b.l2, k), k, k');
    }
  }

  // For its own key a read either hits a copy that has not expired and leaves
  // that copy in the second level, or misses; then an expired copy it found in
  // the first level is gone from both levels.
  lemma ReadOwn(b: Bucket, k: Key, now1: int64, now2: int64)
    requires Ok(b)
    ensures var (b', hit, cb) := Read(b, k, now1, now2);
            && Ok(b')
            && Lookup(b'.l1, k) == None
            && (match Lookup(b.l1, k)
                case Some(n) =>
                  if now1 < n.expireAt then hit == Some(n.v) && Lookup(b'.l2, k) == Some(n)
                  else hit == None && Lookup(b'.l2, k) == None
                case None =>
                  match Lookup(b.l2, k)
                  case Some(n) =>
                    if now1 < n.expireAt && now2 < n.expireAt then hit == Some(n.v) && Lookup(b'.l2, k) == Some(n)
                    else hit == None && Lookup(b'.l2, k) == (if now2 < n.expireAt then None else Some(n))
                  case None => hit == None && Lookup(b'.l2, k) == None)
  {
    hide Killed, Stored, Touched, DeadLast;
    KilledLookup(b.l1, k, k);
    DeadLastKept(b.c1, b.l1, k, Nil, 1);
    match Lookup(b.l1, k) {
      case Some(n) =>
        var b1 := b.(l1 := Killed(b.l1, k));
        StoredLookup(b.c2, b.l2, k, n.v, n.expireAt, k);
        RemovedLookup(b1, k, k);
      case None =>
        var b1 := b.(l2 := Touched(b.l2, k));
        TouchedLookup(b.l2, k, k);
        RemovedLookup(b1, k, k);
    }
  }

  // Which value the removal of a key reports: the first level's if that is live
  // and not nil, else the second level's on the same terms, else none.
  lemma ReportedIs(b: Bucket, k: Key)
    ensures var n1, n2 := Lookup(b.l1, k), Lookup(b.l2, k);
            && (n1.Some? && n1.value.v != Nil ==> Reported(b, k) == Some((k, n1.value.v)))
            && (!(n1.Some? && n1.value.v != Nil) && n2.Some? && n2.value.v != Nil
                ==> Reported(b, k) == Some((k, n2.value.v)))
            && (!(n1.Some? && n1.value.v != Nil) && !(n2.Some? && n2.value.v != Nil) ==> Reported(b, k) == None)
  {
    hide Lookup;
  }

  // What a read reports: of an expired key the second-level value, of a promotion
  // the live second-level entry it overwrites, and otherwise nothing.
  lemma ReadReports(b: Bucket, k: Key, now1: int64, now2: int64)
    requires Ok(b)
    ensures var n1, n2, cb := Lookup(b.l1, k), Lookup(b.l2, k), Read(b, k, now1, now2).2;
            if n1.Some? && now1 < n1.value.expireAt then
              match cb
              case None => true
              case Some(x) => x.0 != k && Find(b.l2, k) == |b.l2| >= b.c2 && Lookup(b.l2, x.0).Some?
                              && Lookup(b.l2, x.0).value == b.l2[|b.l2| - 1] && b.l2[|b.l2| - 1].v == x.1
            else if n2.Some? && n2.value.v != Nil && now1 >= (if n1.Some? then n1.value.expireAt else n2.value.expireAt)
                    && (n1.Some? || now2 < n2.value.expireAt) then
              cb == Some((k, n2.value.v))
            else cb == None
  {
    hide Killed, Stored, Touched, DeadLast;
    KilledLookup(b.l1, k, k);
    TouchedLookup(b.l2, k, k);
    VictimLookup(b.c2, b.l2, k, k);
    ReportedIs(b.(l1 := Killed(b.l1, k)), k);
    ReportedIs(b.(l2 := Touched(b.l2, k)), k);
    if Victim(b.c2, b.l2, k).Some? {
      VictimLookup(b.c2, b.l2, k, Victim(b.c2, b.l2, k).value.k);
    }
  }

  // ---- sweeps -------------------------------------------------------------

  // Whether the node holds an expired live entry for k.
  predicate Overdue(n: Option<Node>, now: int64) {
    n.Some? && now >= n.value.expireAt
  }

  lemma {:induction false} ExpiredWalk(s: seq<Node>, acc: seq<Key>, now: int64, k: Key)
    requires Distinct(acc)
    ensures var r := Walked(s, acc, ExpiredIn(now));
            && Distinct(r)
            && (k in r <==> k in acc || exists n :: n in s && n.k == k && n.Live() && now >= n.expireAt)
  {
    if s != [] {
      var n := s[0];
      var acc' := if n.Live() then ExpiredIn(now)(acc, n).0 else acc;
      assert forall x :: x in acc' <==> x in acc || (n.Live() && now >= n.expireAt && x == n.k);
      ExpiredWalk(s[1..], acc', now, k);
      assert forall x :: x in s <==> x == n || x in s[1..];
    }
  }

  lemma LookupExists(s: seq<Node>, now: int64, k: Key)
    requires DistinctKeys(s)
    ensures Overdue(Lookup(s, k), now) <==> exists n :: n in s && n.k == k && n.Live() && now >= n.expireAt
  {
  }

  // A tick collects exactly the keys with an expired copy in either level.
  lemma ExpiredIff(b: Bucket, now: int64, k: Key)
    requires Ok(b)
    ensures Distinct(Expired(b, now))
    ensures k in Expired(b, now) <==> Overdue(Lookup(b.l1, k), now) || Overdue(Lookup(b.l2, k), now)
  {
    ExpiredWalk(b.l1, [], now, k);
    ExpiredWalk(b.l2, Walked(b.l1, [], ExpiredIn(now)), now, k);
    LookupExists(b.l1, now, k);
    LookupExists(b.l2, now, k);
  }

  lemma {:induction false} PurgedLookup(b: Bucket, keys: seq<Key>, k: Key)
    requires Ok(b)
    ensures var b' := Purged(b, keys).0;
            && Ok(b') && b'.c1 == b.c1 && b'.c2 == b.c2
            && Lookup(b'.l1, k) == (if k in keys then None else Lookup(b.l1, k))
            && Lookup(b'.l2, k) == (if k in keys then None else Lookup(b.l2, k))
    decreases |keys|
  {
    hide Removed, Lookup, Ok;
    PurgeCaps(b, keys);
    if keys != [] {
      var front, x := keys[..|keys| - 1], keys[|keys| - 1];
      PurgedLookup(b, front, k);
      RemovedLookup(Purged(b, front).0, x, k);
      assert keys == front + [x];
    }
  }

  // Cleanup removes both copies of a key as soon as one of them has expired,
  // and leaves every other key alone.
  lemma SweptLookup(b: Bucket, now: int64, k: Key)
    requires Ok(b)
    ensures var b' := Swept(b, now);
            var gone := Overdue(Lookup(b.l1, k), now) || Overdue(Lookup(b.l2, k), now);
            && Ok(b')
            && Lookup(b'.l1, k) == (if gone then None else Lookup(b.l1, k))
            && Lookup(b'.l2, k) == (if gone then None else Lookup(b.l2, k))
  {
    ExpiredIff(b, now, k);
    PurgedLookup(b, Expired(b, now), k);
  }

  function Reports(b: Bucket, keys: seq<Key>): seq<(Key, Value)>
    decreases |keys|
  {
    if keys == [] then []
    else
      var front, k := Reports(b, keys[..|keys| - 1]), keys[|keys| - 1];
      match Reported(b, k) case Some(x) => front + [x] case None => front
  }

  // Removing a list of different keys issues at most one callback for each,
  // the one it would have issued on its own.
  lemma {:induction false} PurgedReports(b: Bucket, keys: seq<Key>)
    requires Ok(b) && Distinct(keys)
    ensures Purged(b, keys).1 == Reports(b, keys)
    decreases |keys|
  {
    if keys != [] {
      var front, x := keys[..|keys| - 1], keys[|keys| - 1];
      PurgedReports(b, front);
      PurgedLookup(b, front, x);
      assert x !in front;
    }
  }

  lemma {:induction false} ReportsIff(b: Bucket, keys: seq<Key>, x: (Key, Value))
    ensures x in Reports(b, keys) <==> x.0 in keys && Reported(b, x.0) == Some(x)
    decreases |keys|
  {
    hide Reported;
    if keys != [] {
      var front, k := keys[..|keys| - 1], keys[|keys| - 1];
      assert keys == front + [k];
      ReportsIff(b, front, x);
      ReportedKey(b, k);
    }
  }

  lemma ReportedKey(b: Bucket, k: Key)
    ensures Reported(b, k).Some? ==> Reported(b, k).value.0 == k
  {
  }

  // ---- counting and collecting --------------------------------------------

  function OneMore(): ((nat, Node) -> (nat, bool)) {
    (acc: nat, n: Node) => (acc + 1, true)
  }

  function NewKey(): ((seq<Key>, Node) -> (seq<Key>, bool)) {
    (acc: seq<Key>, n: Node) => (if n.k !in acc then acc + [n.k] else acc, true)
  }

  // Number of live entries of a list.
  function Lives(s: seq<Node>): nat {
    if s == [] then 0 else (if s[0].Live() then 1 else 0) + Lives(s[1..])
  }

  function Size(b: Bucket): nat { Lives(b.l1) + Lives(b.l2) }

  // The slots of a list that hold live entries.
  ghost function LiveSlots(s: seq<Node>): set<nat> {
    set i: nat | i < |s| && s[i].Live()
  }

  lemma {:induction false} LivesCount(s: seq<Node>)
    ensures Lives(s) == |LiveSlots(s)|
    decreases |s|
  {
    if s == [] {
      assert LiveSlots(s) == {};
    } else {
      hide LiveSlots;
      LivesFront(s);
      LivesCount(s[..|s| - 1]);
      SlotsFront(s);
    }
  }

  lemma SlotsFront(s: seq<Node>)
    requires s != []
    ensures |LiveSlots(s)| == |LiveSlots(s[..|s| - 1])| + if s[|s| - 1].Live() then 1 else 0
  {
    var front, l := s[..|s| - 1], |s| - 1;
    assert LiveSlots(s) == LiveSlots(front) + if s[l].Live() then {l} else {};
  }

  lemma {:induction false} LivesFront(s: seq<Node>)
    requires s != []
    ensures Lives(s) == Lives(s[..|s| - 1]) + if s[|s| - 1].Live() then 1 else 0
  {
    if |s| > 1 {
      LivesFront(s[1..]);
      assert s[1..][..|s| - 2] == s[..|s| - 1][1..];
    } else {
      assert s[..0] == [] && s[1..] == [];
    }
  }

  // The size of a bucket: its live slots, first and second level together.
  lemma SizeCount(b: Bucket)
    ensures Size(b) == |LiveSlots(b.l1)| + |LiveSlots(b.l2)|
  {
    LivesCount(b.l1);
    LivesCount(b.l2);
  }

  lemma {:induction false} WalkCounts(s: seq<Node>, acc: nat)
    ensures Walked(s, acc, OneMore()) == acc + Lives(s)
  {
    if s != [] {
      WalkCounts(s[1..], acc + if s[0].Live() then 1 else 0);
    }
  }

  // The keys of both levels added to acc, each once.
  function Gathered(b: Bucket, acc: seq<Key>): seq<Key> {
    Walked(b.l2, Walked(b.l1, acc, NewKey()), NewKey())
  }

  lemma {:induction false} NewKeyWalk(s: seq<Node>, acc: seq<Key>, k: Key)
    requires Distinct(acc)
    ensures var r := Walked(s, acc, NewKey());
            && Distinct(r) && acc <= r
            && (k in r <==> k in acc || exists n :: n in s && n.k == k && n.Live())
  {
    if s != [] {
      var n := s[0];
      var acc' := if n.Live() && n.k !in acc then acc + [n.k] else acc;
      NewKeyWalk(s[1..], acc', k);
      assert forall x :: x in s <==> x == n || x in s[1..];
    }
  }

  // Whether either level holds a live copy of k.
  predicate Holds(b: Bucket, k: Key) {
    Lookup(b.l1, k).Some? || Lookup(b.l2, k).Some?
  }

  lemma GatheredIff(b: Bucket, acc: seq<Key>, k: Key)
    requires Ok(b) && Distinct(acc)
    ensures var r := Gathered(b, acc);
            && Distinct(r) && acc <= r
            && (k in r <==> k in acc || Holds(b, k))
  {
    NewKeyWalk(b.l1, acc, k);
    NewKeyWalk(b.l2, Walked(b.l1, acc, NewKey()), k);
    LiveExists(b.l1, k);
    LiveExists(b.l2, k);
  }

  lemma LiveExists(s: seq<Node>, k: Key)
    requires DistinctKeys(s)
    ensures Lookup(s, k).Some? <==> exists n :: n in s && n.k == k && n.Live()
  {
  }

  // A bucket holding no live copy of any key has size zero, and conversely.
  lemma {:induction false} LivesZero(s: seq<Node>)
    requires DistinctKeys(s)
    ensures Lives(s) == 0 <==> forall k :: Lookup(s, k) == None
  {
    if s != [] {
      var t := s[1..];
      assert forall i :: 0 <= i < |t| ==> t[i] == s[i + 1];
      LivesZero(t);
      var first := if s[0].Live() then Some(s[0]) else None;
      forall k ensures Lookup(s, k) == if k == s[0].k then first else Lookup(t, k) {
        assert s == [s[0]] + t;
        PrependLookup(t, s[0], k);
      }
      AbsentLookup(t, s[0].k);
    }
  }

  // ---- which keys a bucket holds ------------------------------------------

  // Only writing makes a bucket hold a key it did not hold, and only that key.
  lemma ReadHolds(b: Bucket, k: Key, now1: int64, now2: int64, k': Key)
    requires Ok(b) && Holds(Read(b, k, now1, now2).0, k')
    ensures Holds(b, k')
  {
    if k' == k {
      ReadOwn(b, k, now1, now2);
    } else {
      ReadOther(b, k, now1, now2, k');
    }
  }

  lemma WriteHolds(b: Bucket, k: Key, v: Value, e: int64, k': Key)
    requires Ok(b) && e > 0 && Holds(Write(b, k, v, e).0, k')
    ensures k' == k || Holds(b, k')
  {
    WriteLookup(b, k, v, e, k');
  }

  lemma RemovedHolds(b: Bucket, k: Key, k': Key)
    requires Ok(b)
    ensures Holds(Removed(b, k).0, k') <==> k' != k && Holds(b, k')
    ensures k' != k ==> Reported(Removed(b, k).0, k') == Reported(b, k')
    ensures Reported(b, k).Some? ==> Reported(b, k).value.0 == k && Holds(b, k)
  {
    RemovedLookup(b, k, k');
  }

  lemma SweptHolds(b: Bucket, now: int64, k: Key)
    requires Ok(b) && Holds(Swept(b, now), k)
    ensures Holds(b, k)
  {
    SweptLookup(b, now, k);
  }

  // A bucket is empty, as Len counts it, exactly when it holds no key.
  lemma SizeZero(b: Bucket)
    requires Ok(b)
    ensures Size(b) == 0 <==> forall k :: !Holds(b, k)
  {
    LivesZero(b.l1);
    LivesZero(b.l2);
    if forall k :: !Holds(b, k) {
      forall k ensures Lookup(b.l1, k) == None && Lookup(b.l2, k) == None {
        assert !Holds(b, k);
      }
    }
  }
}
