// One bucket of the LRU-2 store as an object: the code that runs between
// taking and releasing the bucket's lock.
module Lru2Shard {
  import opened Prelude
  import opened Lru2List
  import opened Lru2Laws
  import opened Lru2Bucket

  // A reading of the store's clock, in nanoseconds since 1970.
  type Clock = t: int64 | t >= 0

  class Shard {
    const l1: Cache
    const l2: Cache

    ghost function Footprint(): set<object> {
      {l1, l1.dlnk, l1.m, l2, l2.dlnk, l2.m}
    }

    ghost predicate Valid()
      reads Footprint()
    {
      && l1 != l2 && l1.dlnk != l2.dlnk && l1.m != l2.m
      && l1.Valid() && l2.Valid()
      && DeadLast(l1.Contents())
    }

    // The bucket this object stands for.
    ghost function State(): Bucket
      reads Footprint()
    {
      Bucket(l1.Cap(), l2.Cap(), l1.Contents(), l2.Contents())
    }

    constructor (cap1: uint16, cap2: uint16)
      ensures fresh(Footprint())
      ensures Valid() <==> 0 < cap1 < 0xFFFF && 0 < cap2 < 0xFFFF
      ensures Valid() ==> State() == Bucket(cap1 as int, cap2 as int, [], [])
    {
      l1 := new Cache(cap1);
      l2 := new Cache(cap2);
    }

    // The state satisfies the assumptions of the bucket laws.
    lemma StateOk()
      requires Valid()
      ensures Ok(State())
    {
    }

    // Deletion in the first level, and in the second.
    method Del1(key: Key) returns (n: Option<Node>, status: int, expireAt: int64)
      requires Valid()
      modifies Footprint()
      ensures Valid() && State() == old(State()).(l1 := Killed(old(State()).l1, key))
      ensures match Lookup(old(State()).l1, key)
              case Some(x) => n == Some(x.(expireAt := 0)) && status == 1 && expireAt == x.expireAt
              case None => n == None && status == 0 && expireAt == 0 && State() == old(State())
    {
      ghost var b := State();
      assert b.c1 > 0;
      DeadLastKept(b.c1, b.l1, key, Nil, 1);
      hide Cache.Valid, DeadLast, Killed, Lookup;
      n, status, expireAt := l1.Del(key);
    }

    method Del2(key: Key) returns (n: Option<Node>, status: int, expireAt: int64)
      requires Valid()
      modifies Footprint()
      ensures Valid() && State() == old(State()).(l2 := Killed(old(State()).l2, key))
      ensures match Lookup(old(State()).l2, key)
              case Some(x) => n == Some(x.(expireAt := 0)) && status == 1 && expireAt == x.expireAt
              case None => n == None && status == 0 && expireAt == 0 && State() == old(State())
    {
      hide Cache.Valid, DeadLast, Killed, Lookup;
      n, status, expireAt := l2.Del(key);
    }

    method Remove(key: Key) returns (deleted: bool, evictedValue: Value)
      requires Valid()
      modifies Footprint()
      ensures Valid()
      ensures (State(), deleted, evictedValue) == Removed(old(State()), key)
    {
      hide Valid, State, Killed, Lookup;
      var n1, s1, _ := Del1(key);
      var n2, s2, _ := Del2(key);
      deleted := s1 > 0 || s2 > 0;
      evictedValue :=
        if n1.Some? && n1.value.v != Nil then n1.value.v
        else if n2.Some? && n2.value.v != Nil then n2.value.v
        else Nil;
    }

    method Write(key: Key, value: Value, expireAt: int64) returns (cb: Callback)
      requires Valid() && expireAt > 0
      modifies Footprint()
      ensures Valid()
      ensures (State(), cb) == Lru2Bucket.Write(old(State()), key, value, expireAt)
    {
      ghost var b := State();
      assert b.c1 > 0;
      DeadLastKept(b.c1, b.l1, key, value, expireAt);
      hide Cache.Valid, Cache.Contents, DeadLast, Stored, Victim;
      var _, evictedKey, evictedValue, evicted := l1.Put(key, value, expireAt);
      cb := if evicted then Some((evictedKey, evictedValue)) else None;
    }

    // _get for the second level, with its own reading of the clock.
    method Second(key: Key, now2: int64) returns (n: Option<Node>)
      requires Valid()
      modifies Footprint()
      ensures Valid()
      ensures State() == old(State()).(l2 := Touched(old(State().l2), key))
      ensures var n2 := Lookup(old(State().l2), key);
              n == if n2.Some? && now2 < n2.value.expireAt then n2 else None
    {
      hide Cache.Valid;
      n := l2.Get(key);
      if n.Some? && (n.value.expireAt <= 0 || now2 >= n.value.expireAt) {
        return None;
      }
    }

    method Read(key: Key, now1: int64, now2: int64) returns (val: Option<Value>, cb: Callback)
      requires Valid()
      modifies Footprint()
      ensures Valid()
      ensures (State(), val, cb) == Lru2Bucket.Read(old(State()), key, now1, now2)
    {
      hide Valid, State, Killed, Promoted, SecondRead;
      var n1, status1, expireAt := Del1(key);
      if status1 > 0 {
        val, cb := Promote(key, n1.value.v, expireAt, now1);
      } else {
        val, cb := ReadSecond(key, now1, now2);
      }
    }

    // A first-level hit.
    method Promote(key: Key, v: Value, expireAt: int64, now1: int64) returns (val: Option<Value>, cb: Callback)
      requires Valid() && expireAt > 0
      modifies Footprint()
      ensures Valid()
      ensures (State(), val, cb) == Promoted(old(State()), Node(key, v, expireAt), now1)
    {
      hide Valid, State, Lookup, Stored, Removed, Reported, Victim;
      if expireAt > 0 && now1 >= expireAt {
        var _, c := Drop(key);
        return None, c;
      }
      cb := Put2(key, v, expireAt);
      return Some(v), cb;
    }

    // Insertion into the second level.
    method Put2(key: Key, v: Value, expireAt: int64) returns (cb: Callback)
      requires Valid()
      modifies Footprint()
      ensures Valid() && old(State()).c2 > 0
      ensures State() == old(State()).(l2 := Stored(old(State()).c2, old(State()).l2, key, v, expireAt))
      ensures cb == Spill(Victim(old(State()).c2, old(State()).l2, key))
    {
      ghost var b := State();
      assert b.c2 > 0;
      hide Cache.Valid, DeadLast, Stored, Victim;
      var _, evictedKey, evictedValue, evicted := l2.Put(key, v, expireAt);
      assert l1.Contents() == b.l1 && l2.Contents() == Stored(b.c2, b.l2, key, v, expireAt);
      hide Cache.Contents;
      cb := if evicted then Some((evictedKey, evictedValue)) else None;
    }

    // The first level has no live copy.
    method ReadSecond(key: Key, now1: int64, now2: int64) returns (val: Option<Value>, cb: Callback)
      requires Valid()
      modifies Footprint()
      ensures Valid()
      ensures (State(), val, cb) == SecondRead(old(State()), key, now1, now2)
    {
      hide Valid, State, Touched, Removed, Reported;
      var n2 := Second(key, now2);
      if n2.None? {
        return None, None;
      }
      if n2.value.expireAt > 0 && now1 >= n2.value.expireAt {
        var _, c := Drop(key);
        return None, c;
      }
      return Some(n2.value.v), None;
    }

    // Removal of a key together with the callback it leads to.
    method Drop(key: Key) returns (deleted: bool, cb: Callback)
      requires Valid()
      modifies Footprint()
      ensures Valid()
      ensures State() == Removed(old(State()), key).0
      ensures deleted == Holds(old(State()), key) && cb == Reported(old(State()), key)
    {
      hide Cache.Valid, Cache.Contents, DeadLast, Lookup;
      var v;
      deleted, v := Remove(key);
      cb := if deleted && v != Nil then Some((key, v)) else None;
    }

    // The bucket's share of one cleanup tick: collect the expired keys of both
    // levels, then remove each; callbacks are issued after the lock is released.
    method Sweep(now: int64) returns (evicted: seq<(Key, Value)>)
      requires Valid()
      modifies Footprint()
      ensures Valid()
      ensures (State(), evicted) == Purged(old(State()), Expired(old(State()), now))
    {
      hide State, Expired, Purged;
      var keys := ListExpired(now);
      evicted := RemoveAll(keys);
    }

    method ListExpired(now: int64) returns (keys: seq<Key>)
      requires Valid()
      ensures keys == Expired(State(), now)
    {
      keys := l1.Walk([], ExpiredIn(now));
      keys := l2.Walk(keys, ExpiredIn(now));
    }

    method RemoveAll(keys: seq<Key>) returns (evicted: seq<(Key, Value)>)
      requires Valid()
      modifies Footprint()
      ensures Valid()
      ensures (State(), evicted) == Purged(old(State()), keys)
    {
      hide Valid, State, Removed;
      ghost var b := State();
      evicted := [];
      for i := 0 to |keys|
        invariant Valid()
        invariant (State(), evicted) == Purged(b, keys[..i])
      {
        var deleted, v := Remove(keys[i]);
        evicted := if deleted && v != Nil then evicted + [(keys[i], v)] else evicted;
        assert keys[..i + 1][..i] == keys[..i];
      }
      assert keys[..|keys|] == keys;
    }

    // The bucket's share of Len.
    method Count(acc: nat) returns (n: nat)
      requires Valid()
      ensures n == acc + Size(State())
    {
      n := l1.Walk(acc, OneMore());
      WalkCounts(l1.Contents(), acc);
      WalkCounts(l2.Contents(), n);
      n := l2.Walk(n, OneMore());
    }

    // The bucket's share of the key collection in Clear.
    method Collect(acc: seq<Key>) returns (keys: seq<Key>)
      requires Valid()
      ensures keys == Gathered(State(), acc)
    {
      keys := l1.Walk(acc, NewKey());
      keys := l2.Walk(keys, NewKey());
    }
  }
}
