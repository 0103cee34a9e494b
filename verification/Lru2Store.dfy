// The LRU-2 store: an array of independent buckets, each operation working on
// the bucket its key hashes to. The eviction callback of an operation is an
// out-parameter: it is issued once the bucket's lock is released.
module Lru2Store {
  import opened Prelude
  import opened Hashing
  import opened Lru2Bucket
  import opened Lru2Shard

  // Live entries of the first n buckets, both levels.
  function Total(bs: seq<Bucket>, n: nat): nat
    requires n <= |bs|
  {
    if n == 0 then 0 else Total(bs, n - 1) + Size(bs[n - 1])
  }

  lemma {:induction false} TotalZero(bs: seq<Bucket>, n: nat)
    requires n <= |bs|
    ensures Total(bs, n) == 0 <==> forall i :: 0 <= i < n ==> Size(bs[i]) == 0
  {
    hide Size;
    if n > 0 {
      TotalZero(bs, n - 1);
    }
  }

  // Each bucket counts by its own size, whatever the others hold.
  lemma {:induction false} TotalReplaced(bs: seq<Bucket>, n: nat, i: nat, b: Bucket)
    requires i < n <= |bs|
    ensures Total(bs[i := b], n) + Size(bs[i]) == Total(bs, n) + Size(b)
  {
    hide Size;
    if i < n - 1 {
      TotalReplaced(bs, n - 1, i, b);
    } else {
      TotalFront(bs, n - 1, i, b);
    }
  }

  lemma {:induction false} TotalFront(bs: seq<Bucket>, n: nat, i: nat, b: Bucket)
    requires n <= i < |bs|
    ensures Total(bs[i := b], n) == Total(bs, n)
  {
    hide Size;
    if n > 0 {
      TotalFront(bs, n - 1, i, b);
    }
  }

  class Store {
    const shards: seq<Shard>
    const mask: int32

    ghost function Objects(): set<object> {
      set i, o | 0 <= i < |shards| && o in shards[i].Footprint() :: o
    }

    // A power of two buckets, at most 32768.
    ghost predicate Shaped() {
      && |shards| == mask as int + 1
      && exists j: nat :: j <= 15 && |shards| == Pow2(j)
    }

    // No two buckets share memory.
    ghost predicate Apart() {
      forall i, j :: 0 <= i < j < |shards| ==> shards[i].Footprint() !! shards[j].Footprint()
    }

    ghost predicate Valid()
      reads Objects()
    {
      && Shaped() && Apart()
      && forall i {:trigger shards[i]} :: 0 <= i < |shards| ==> shards[i].Valid() && Homed(i, shards[i].State())
    }

    // Every key a bucket holds hashes to it.
    ghost predicate Homed(i: nat, b: Bucket)
      requires Shaped()
    {
      forall k :: Holds(b, k) ==> Home(k) == i
    }

    // The bucket of a key: the remainder of the unbounded hash.
    ghost function Home(key: Key): (i: nat)
      requires Shaped()
      ensures i < |shards|
    {
      Poly(key) % |shards|
    }

    method Locate(key: Key) returns (i: nat)
      requires Shaped()
      ensures i == Home(key)
    {
      var h := HashBKRD(key);
      ghost var j: nat :| j <= 15 && |shards| == Pow2(j);
      BucketInRange(key, mask, j);
      i := And32(h, mask) as int;
    }

    // The buckets other than i are as before.
    twostate predicate OthersSame(i: nat)
      reads Objects()
    {
      forall j {:trigger shards[j]} :: 0 <= j < |shards| && j != i ==> shards[j].State() == old(shards[j].State())
    }

    method Get(key: Key, now1: Clock, now2: Clock) returns (val: Option<Value>, cb: Callback)
      requires Valid()
      modifies shards[Home(key)].Footprint()
      ensures Valid() && OthersSame(Home(key))
      ensures (shards[Home(key)].State(), val, cb) == Read(old(shards[Home(key)].State()), key, now1, now2)
    {
      hide Shard.State, Shard.Valid, Read, Holds;
      var i := Locate(key);
      ghost var b := shards[i].State();
      shards[i].StateOk();
      val, cb := shards[i].Read(key, now1, now2);
      forall k | Holds(shards[i].State(), k) ensures Home(k) == i {
        ReadHolds(b, key, now1, now2, k);
      }
    }

    method SetWithExpiration(key: Key, value: Value, now: Clock, ttl: int64) returns (cb: Callback)
      requires Valid()
      modifies shards[Home(key)].Footprint()
      ensures Valid() && OthersSame(Home(key))
      ensures (shards[Home(key)].State(), cb) == Write(old(shards[Home(key)].State()), key, value, Deadline(now, ttl))
    {
      hide Shard.State, Shard.Valid, Write, Holds;
      var expireAt := MAX_INT64;
      if ttl > 0 {
        if now > MAX_INT64 - ttl {
          expireAt := MAX_INT64;
        } else {
          expireAt := now + ttl;
        }
      }
      var i := Locate(key);
      ghost var b := shards[i].State();
      shards[i].StateOk();
      cb := shards[i].Write(key, value, expireAt);
      forall k | Holds(shards[i].State(), k) ensures Home(k) == i {
        WriteHolds(b, key, value, expireAt, k);
      }
    }

    method Set(key: Key, value: Value) returns (cb: Callback)
      requires Valid()
      modifies shards[Home(key)].Footprint()
      ensures Valid() && OthersSame(Home(key))
      ensures (shards[Home(key)].State(), cb) == Write(old(shards[Home(key)].State()), key, value, MAX_INT64)
    {
      cb := SetWithExpiration(key, value, 0, 0);
    }

    method Delete(key: Key) returns (deleted: bool, cb: Callback)
      requires Valid()
      modifies shards[Home(key)].Footprint()
      ensures Valid() && OthersSame(Home(key))
      ensures shards[Home(key)].State() == Removed(old(shards[Home(key)].State()), key).0
      ensures deleted == Holds(old(shards[Home(key)].State()), key)
      ensures cb == Reported(old(shards[Home(key)].State()), key)
    {
      hide Shard.State, Shard.Valid, Holds, Reported, Removed;
      var i := Locate(key);
      ghost var b := shards[i].State();
      shards[i].StateOk();
      deleted, cb := shards[i].Drop(key);
      forall k | Holds(shards[i].State(), k) ensures Home(k) == i {
        RemovedHolds(b, key, k);
      }
    }

    // newLRU2Cache: zero options take their defaults. The 16-bit sums for the
    // number of buckets and for the rows of a link table come out as zero for
    // the largest options; the store works exactly when they do not.
    constructor (bucketCount: uint16, capPerBucket: uint16, level2Cap: uint16)
      ensures fresh(Objects())
      ensures Valid() <==> bucketCount <= 0x8000 && capPerBucket < 0xFFFF && level2Cap < 0xFFFF
      ensures Valid() ==> |shards| == Pow2(Bits(OrDefault(bucketCount, 16)))
      ensures Valid() ==> AllEmpty(OrDefault(capPerBucket, 1024), OrDefault(level2Cap, 1024))
    {
      hide Shard.State, Shard.Valid, Holds, Bits, Pow2, Homed;
      var c1, c2 := OrDefault(capPerBucket, 1024), OrDefault(level2Cap, 1024);
      var mask32, n := MaskFrom(OrDefault(bucketCount, 16));
      var ss := MakeShards(n, c1, c2);
      shards := ss;
      mask := mask32;
      new;
      hide Shard.Footprint, Made, OrDefault;
      Judge(OrDefault(bucketCount, 16), c1, c2);
    }

    // When a store with these buckets works.
    lemma Judge(n: nat, c1: nat, c2: nat)
      requires 0 <= mask && mask as int + 1 == Pow2(Bits(n)) && (n <= 0x8000 ==> Bits(n) <= 15)
      requires |shards| == if n <= 0x8000 then mask as int + 1 else 0
      requires forall i {:trigger shards[i]} :: 0 <= i < |shards| ==> Made(shards[i], c1, c2)
      requires Apart()
      ensures Valid() <==> n <= 0x8000 && c1 < 0xFFFF && c2 < 0xFFFF
      ensures Valid() ==> AllEmpty(c1, c2)
    {
      hide Shard.State, Shard.Valid, Holds, Bits, Pow2, Homed;
      if n <= 0x8000 {
        assert Shaped();
        EmptyHomed(Bucket(c1, c2, [], []));
        assert Made(shards[0], c1, c2);
      }
    }

    // Every bucket is empty and has these capacities.
    ghost predicate AllEmpty(c1: nat, c2: nat)
      reads Objects()
    {
      forall i {:trigger shards[i]} :: 0 <= i < |shards| ==> shards[i].State() == Bucket(c1, c2, [], [])
    }

    lemma EmptyHomed(b: Bucket)
      requires Shaped() && b.l1 == [] && b.l2 == []
      ensures forall i :: Homed(i, b)
    {
    }

    static function OrDefault(option: uint16, default: nat): nat {
      if option == 0 then default else option as int
    }

    // The mask, and the number of buckets: mask + 1 in 16 bits.
    static method MaskFrom(n: nat) returns (mask: int32, rows: nat)
      requires 0 < n < 0x1_0000
      ensures 0 <= mask && mask as int + 1 == Pow2(Bits(n))
      ensures n <= 0x8000 ==> rows == mask as int + 1 && Bits(n) <= 15
      ensures n > 0x8000 ==> rows == 0
    {
      var mask16 := MaskOfNextPowOf2(n as uint16);
      BucketCountFits(n);
      BitsBound(n);
      mask := mask16 as int32;
      rows := (mask16 as int + 1) % 0x1_0000;
    }

    static method MakeShards(n: nat, cap1: nat, cap2: nat) returns (ss: seq<Shard>)
      requires 0 < cap1 <= 0xFFFF && 0 < cap2 <= 0xFFFF
      ensures |ss| == n
      ensures forall i {:trigger ss[i]} :: 0 <= i < n ==> Made(ss[i], cap1, cap2) && fresh(ss[i].Footprint())
      ensures forall i, j :: 0 <= i < j < n ==> ss[i].Footprint() !! ss[j].Footprint()
    {
      hide Shard.State, Shard.Valid;
      ss := [];
      while |ss| < n
        invariant |ss| <= n
        invariant forall i {:trigger ss[i]} :: 0 <= i < |ss| ==> Made(ss[i], cap1, cap2) && fresh(ss[i].Footprint())
        invariant forall i, j :: 0 <= i < j < |ss| ==> ss[i].Footprint() !! ss[j].Footprint()
      {
        var s := new Shard(cap1 as uint16, cap2 as uint16);
        ss := ss + [s];
      }
    }

    // A new bucket with these capacities.
    static ghost predicate Made(s: Shard, cap1: nat, cap2: nat)
      reads s.Footprint()
    {
      && (s.Valid() <==> cap1 < 0xFFFF && cap2 < 0xFFFF)
      && (s.Valid() ==> s.State() == Bucket(cap1, cap2, [], []))
    }

    ghost function States(): (r: seq<Bucket>)
      reads Objects()
      ensures |r| == |shards|
      ensures forall i {:trigger r[i]} :: 0 <= i < |r| ==> r[i] == shards[i].State()
    {
      seq(|shards|, i requires 0 <= i < |shards| reads Objects() => shards[i].State())
    }

    method Len() returns (count: nat)
      requires Valid()
      ensures count == Total(States(), |shards|)
    {
      hide Size, Shard.State, Shard.Valid, Shard.Footprint;
      ghost var bs := States();
      count := 0;
      for i := 0 to |shards|
        invariant Valid() && States() == bs
        invariant count == Total(bs, i)
      {
        count := CountOne(i, count, bs);
      }
    }

    method CountOne(i: nat, acc: nat, ghost bs: seq<Bucket>) returns (n: nat)
      requires Valid() && i < |shards| && bs == States()
      ensures n == acc + Size(bs[i])
      ensures Valid() && States() == bs
    {
      hide Size;
      n := shards[i].Count(acc);
    }

    // The store holds key k: its home bucket does.
    ghost predicate Has(k: Key)
      requires Shaped()
      reads Objects()
    {
      Holds(shards[Home(k)].State(), k)
    }

    // Len is zero exactly when no key is held.
    lemma EmptyStore()
      requires Valid()
      ensures Total(States(), |shards|) == 0 <==> forall k :: !Has(k)
    {
      hide Shard.State, Shard.Valid, Size, Holds;
      var bs := States();
      forall i | 0 <= i < |bs| ensures Size(bs[i]) == 0 <==> forall k :: !Holds(bs[i], k) {
        shards[i].StateOk();
        SizeZero(bs[i]);
      }
      TotalZero(bs, |bs|);
      forall k | Total(bs, |bs|) == 0 ensures !Has(k) {
        assert !Holds(bs[Home(k)], k);
      }
      if forall k :: !Has(k) {
        forall i, k | 0 <= i < |bs| ensures !Holds(bs[i], k) {
          assert Homed(i, bs[i]);
          assert Home(k) == i ==> (Has(k) <==> Holds(bs[i], k));
        }
      }
    }

    // One cleanup tick, bucket after bucket; calls[i] lists the callbacks
    // issued after bucket i is unlocked.
    method Tick(now: Clock) returns (calls: seq<seq<(Key, Value)>>)
      requires Valid()
      modifies Objects()
      ensures Valid()
      ensures |calls| == |shards|
      ensures forall i {:trigger shards[i]} {:trigger calls[i]} :: 0 <= i < |shards| ==>
                var b := old(shards[i].State());
                shards[i].State() == Swept(b, now) && calls[i] == Reports(b, Expired(b, now))
    {
      hide Shard.State, Shard.Valid, Shard.Footprint, Holds, Expired, Purged, Reports;
      calls := [];
      for i := 0 to |shards|
        invariant Valid() && |calls| == i
        invariant forall j {:trigger shards[j]} :: i <= j < |shards| ==> shards[j].State() == old(shards[j].State())
        invariant forall j {:trigger shards[j]} {:trigger calls[j]} :: 0 <= j < i ==>
                    var b := old(shards[j].State());
                    shards[j].State() == Swept(b, now) && calls[j] == Reports(b, Expired(b, now))
      {
        var log := TickOne(i, now);
        calls := calls + [log];
      }
    }

    method TickOne(i: nat, now: Clock) returns (log: seq<(Key, Value)>)
      requires Valid() && i < |shards|
      modifies shards[i].Footprint()
      ensures Valid() && OthersSame(i)
      ensures var b := old(shards[i].State());
              shards[i].State() == Swept(b, now) && log == Reports(b, Expired(b, now))
    {
      hide Shard.State, Shard.Valid, Holds, Expired, Purged, Reports;
      ghost var b := shards[i].State();
      shards[i].StateOk();
      log := shards[i].Sweep(now);
      ExpiredIff(b, now, []);
      PurgedReports(b, Expired(b, now));
      forall k | Holds(shards[i].State(), k) ensures Home(k) == i {
        SweptHolds(b, now, k);
      }
    }

    // The callback that deleting k would lead to.
    ghost function Report(k: Key): Callback
      requires Shaped()
      reads Objects()
    {
      Reported(shards[Home(k)].State(), k)
    }

    // Collects the live keys of every bucket, then deletes each of them.
    method Clear() returns (calls: seq<(Key, Value)>)
      requires Valid()
      modifies Objects()
      ensures Valid()
      ensures forall k :: !Has(k)
      ensures forall i, j :: 0 <= i < j < |calls| ==> calls[i].0 != calls[j].0
      ensures forall x {:trigger x in calls} :: x in calls <==> old(Has(x.0)) && old(Report(x.0)) == Some(x)
    {
      hide Reported;
      var keys := Keys();
      calls := DropAll(keys);
    }

    method DropAll(keys: seq<Key>) returns (calls: seq<(Key, Value)>)
      requires Valid() && Distinct(keys)
      modifies Objects()
      ensures Valid()
      ensures forall k {:trigger Has(k)} :: Has(k) <==> old(Has(k)) && k !in keys
      ensures forall i, j :: 0 <= i < j < |calls| ==> calls[i].0 != calls[j].0
      ensures forall x {:trigger x in calls} :: x in calls <==> x.0 in keys && old(Report(x.0)) == Some(x)
    {
      hide Shard.State, Shard.Valid, Shard.Footprint, Has, Report;
      calls := [];
      for n := 0 to |keys|
        invariant Valid()
        invariant forall k {:trigger Has(k)} :: Has(k) <==> old(Has(k)) && k !in keys[..n]
        invariant forall k {:trigger Report(k)} :: k !in keys[..n] ==> Report(k) == old(Report(k))
        invariant forall x {:trigger x in calls} :: x in calls ==> x.0 in keys[..n]
        invariant forall x {:trigger x in calls} :: x in calls <==> x.0 in keys[..n] && old(Report(x.0)) == Some(x)
        invariant forall i, j :: 0 <= i < j < |calls| ==> calls[i].0 != calls[j].0
      {
        ghost var front := keys[..n];
        assert keys[..n + 1] == front + [keys[n]];
        assert keys[n] !in front;
        var cb := DropKey(keys[n]);
        if cb.Some? {
          assert forall i :: 0 <= i < |calls| ==> calls[i] in calls;
          calls := calls + [cb.value];
        }
      }
      assert keys[..|keys|] == keys;
    }

    // The collection phase of Clear: every live key once.
    method Keys() returns (keys: seq<Key>)
      requires Valid()
      ensures Distinct(keys)
      ensures forall k :: k in keys <==> Has(k)
    {
      hide Holds;
      keys := [];
      for i := 0 to |shards|
        invariant Valid() && Distinct(keys)
        invariant forall k :: k in keys <==> Has(k) && Home(k) < i
      {
        keys := KeysOne(i, keys);
      }
    }

    method KeysOne(i: nat, acc: seq<Key>) returns (keys: seq<Key>)
      requires Valid() && i < |shards| && Distinct(acc)
      requires forall k :: k in acc <==> Has(k) && Home(k) < i
      ensures Distinct(keys)
      ensures forall k :: k in keys <==> Has(k) && Home(k) < i + 1
    {
      ghost var b := shards[i].State();
      shards[i].StateOk();
      assert Homed(i, b);
      keys := shards[i].Collect(acc);
      GatheredIff(b, acc, []);
      forall k ensures k in keys <==> Has(k) && Home(k) < i + 1 {
        GatheredIff(b, acc, k);
        assert Home(k) == i ==> (Has(k) <==> Holds(b, k));
      }
    }

    // Delete, seen from all keys.
    method DropKey(key: Key) returns (cb: Callback)
      requires Valid()
      modifies Objects()
      ensures Valid()
      ensures cb == old(Report(key)) && (cb.Some? ==> cb.value.0 == key)
      ensures forall k {:trigger Has(k)} :: Has(k) <==> old(Has(k)) && k != key
      ensures forall k {:trigger Report(k)} :: k != key ==> Report(k) == old(Report(k))
    {
      hide Shard.State, Shard.Valid, Shard.Footprint, Holds, Reported, Removed;
      ghost var b := shards[Home(key)].State();
      shards[Home(key)].StateOk();
      RemovedHolds(b, key, key);
      var _, c := Delete(key);
      cb := c;
      forall k
        ensures Has(k) <==> old(Has(k)) && k != key
        ensures k != key ==> Report(k) == old(Report(k))
      {
        RemovedHolds(b, key, k);
      }
    }
  }
}
