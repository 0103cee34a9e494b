// What the list operations mean for lookups: which live entry each key has
// afterwards, where deleted entries sit, and what a walk collects.
module Lru2Laws {
  import opened Prelude
  import opened Lru2List

  // Deleted entries come after every live one.
  ghost predicate DeadLast(s: seq<Node>) {
    forall i, j :: 0 <= i < j < |s| && s[j].Live() ==> s[i].Live()
  }

  lemma LookupIff(s: seq<Node>, k: Key, n: Node)
    requires DistinctKeys(s)
    ensures Lookup(s, k) == Some(n) <==> n in s && n.k == k && n.Live()
  {
  }

  // Two lists agree on the live entry of k when they hold the same live nodes for k.
  lemma SameLookup(s: seq<Node>, s': seq<Node>, k: Key)
    requires DistinctKeys(s) && DistinctKeys(s')
    requires forall n: Node :: n.k == k && n.Live() ==> (n in s <==> n in s')
    ensures Lookup(s, k) == Lookup(s', k)
  {
    forall n: Node ensures Lookup(s, k) == Some(n) <==> Lookup(s', k) == Some(n) {
      LookupIff(s, k, n);
      LookupIff(s', k, n);
    }
    var a, b := Lookup(s, k), Lookup(s', k);
    assert a.Some? ==> b == Some(a.value);
    assert b.Some? ==> a == Some(b.value);
  }

  lemma WithoutMembers(s: seq<Node>, j: nat)
    requires DistinctKeys(s) && j < |s|
    ensures DistinctKeys(Without(s, j))
    ensures forall n :: n in Without(s, j) <==> n in s && n != s[j]
    ensures forall i :: 0 <= i < |s| - 1 ==> Without(s, j)[i].k != s[j].k
  {
  }

  lemma StoredLookup(cap: nat, s: seq<Node>, k: Key, v: Value, e: int64, k': Key)
    requires cap > 0 && DistinctKeys(s) && |s| <= cap
    ensures var s' := Stored(cap, s, k, v, e);
            && DistinctKeys(s') && |s'| <= cap
            && Lookup(s', k') ==
               if k' == k then (if e > 0 then Some(Node(k, v, e)) else None)
               else if Victim(cap, s, k).Some? && Victim(cap, s, k).value.k == k' then None
               else Lookup(s, k')
  {
    var x := Node(k, v, e);
    var i := Find(s, k);
    var j := if i < |s| then i else |s| - 1;
    if i < |s| || |s| >= cap {
      WithoutMembers(s, j);
      var w := Without(s, j);
      assert w == if i < |s| then w else s[..|s| - 1];
      PrependLookup(w, x, k');
      if k' != k {
        if k' != s[j].k {
          SameLookup(s, w, k');
        } else {
          AbsentLookup(w, k');
        }
      }
    } else {
      PrependLookup(s, x, k');
    }
  }

  lemma PrependLookup(w: seq<Node>, x: Node, k': Key)
    requires DistinctKeys(w) && forall i :: 0 <= i < |w| ==> w[i].k != x.k
    ensures DistinctKeys([x] + w)
    ensures Lookup([x] + w, k') == if k' == x.k then (if x.Live() then Some(x) else None) else Lookup(w, k')
  {
  }

  lemma AbsentLookup(w: seq<Node>, k: Key)
    requires forall i :: 0 <= i < |w| ==> w[i].k != k
    ensures Lookup(w, k) == None
  {
  }

  lemma TouchedLookup(s: seq<Node>, k: Key, k': Key)
    requires DistinctKeys(s)
    ensures DistinctKeys(Touched(s, k)) && |Touched(s, k)| == |s|
    ensures Lookup(Touched(s, k), k') == Lookup(s, k')
  {
    var i := Find(s, k);
    if i < |s| {
      WithoutMembers(s, i);
      PrependLookup(Without(s, i), s[i], k');
      SameLookup(s, Touched(s, k), k');
    }
  }

  lemma KilledLookup(s: seq<Node>, k: Key, k': Key)
    requires DistinctKeys(s)
    ensures DistinctKeys(Killed(s, k)) && |Killed(s, k)| == |s|
    ensures Lookup(Killed(s, k), k') == if k' == k then None else Lookup(s, k')
  {
    var i := Find(s, k);
    if i < |s| && s[i].Live() {
      WithoutMembers(s, i);
      var w, x := Without(s, i), s[i].(expireAt := 0);
      var s' := w + [x];
      assert DistinctKeys(s');
      if k' == k {
        FindUnique(s', k, |w|);
      } else {
        SameLookup(s, s', k');
      }
    }
  }

  // Storing live entries and deleting keep deleted entries at the end ...
  lemma DeadLastKept(cap: nat, s: seq<Node>, k: Key, v: Value, e: int64)
    requires cap > 0 && DeadLast(s)
    ensures e > 0 ==> DeadLast(Stored(cap, s, k, v, e))
    ensures DeadLast(Killed(s, k))
  {
    var i := Find(s, k);
    if i < |s| {
      var w := Without(s, i);
      assert forall a :: 0 <= a < |w| ==> w[a] == s[if a < i then a else a + 1];
      assert DeadLast(w);
    }
  }

  // ... so a full list loses a live entry only when it holds no deleted one.
  lemma LiveVictim(cap: nat, s: seq<Node>, k: Key)
    requires cap > 0 && DeadLast(s) && Victim(cap, s, k).Some? && Victim(cap, s, k).value.Live()
    ensures |s| >= cap && forall i :: 0 <= i < |s| ==> s[i].Live()
  {
  }
}
