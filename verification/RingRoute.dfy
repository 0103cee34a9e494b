// Routing on the ring, and what additions and removals do to it.
module RingRoute {
  import opened Prelude
  import opened RingSpec

  // ---- clockwise distance -------------------------------------------------

  // Steps from x to p going clockwise around the circle.
  function Dist(x: int, p: int): int { (p - x) % CIRCLE }

  // p is at least as near clockwise from x as every point of r.
  ghost predicate Nearest(h: HashFunc, r: Replicas, x: uint32, p: uint32) {
    forall m, j: nat {:trigger Point(h, m, j)} :: m in r && j < r[m] ==> Dist(x, p) <= Dist(x, Point(h, m, j))
  }

  // Keys hashing to x belong to node n.
  ghost predicate Routes(h: HashFunc, r: Replicas, x: uint32, n: string) {
    n in r && exists i: nat :: i < r[n] && Nearest(h, r, x, Point(h, n, i))
  }

  lemma RouteUnique(h: HashFunc, r: Replicas, nodes: set<string>, bound: int, x: uint32, a: string, b: string)
    requires Within(r, nodes, bound) && CollisionFree(h, nodes, bound)
    requires Routes(h, r, x, a) && Routes(h, r, x, b)
    ensures a == b
  {
  }

  // Minimal disruption. Giving node n more virtual nodes (adding it when it
  // had none) moves a key only to n. Read from right to left: taking virtual
  // nodes from n (or removing it) moves only keys that were routed to n.
  lemma MinimalDisruption(h: HashFunc, r: Replicas, r': Replicas, nodes: set<string>, bound: int, n: string,
                          x: uint32, a: string, b: string)
    requires Within(r, nodes, bound) && CollisionFree(h, nodes, bound)
    requires r' - {n} == r - {n} && n in r' && (n in r ==> r[n] <= r'[n])
    requires Routes(h, r, x, a) && Routes(h, r', x, b)
    ensures a == b || b == n
  {
    if b != n {
      var j: nat :| j < r'[b] && Nearest(h, r', x, Point(h, b, j));
      assert b in r' - {n} && (r' - {n})[b] == r[b];
      forall m, i: nat | m in r && i < r[m] ensures Dist(x, Point(h, b, j)) <= Dist(x, Point(h, m, i)) {
        if m != n {
          assert m in r - {n} && (r - {n})[m] == r'[m];
        }
      }
      assert Nearest(h, r, x, Point(h, b, j));
      RouteUnique(h, r, nodes, bound, x, a, b);
    }
  }

  // ---- the binary search lands on the clockwise successor -------------------

  // Index of the first key not below x, wrapping to 0 past the last.
  ghost predicate Successor(keys: seq<int>, x: int, idx: nat) {
    && idx < |keys|
    && ((keys[idx] >= x && (idx == 0 || keys[idx - 1] < x)) || (idx == 0 && keys[|keys| - 1] < x))
  }

  lemma SuccessorNearest(keys: seq<int>, x: uint32, idx: nat, q: int)
    requires Sorted(keys) && (forall p :: p in keys ==> 0 <= p < CIRCLE)
    requires Successor(keys, x, idx) && q in keys
    ensures Dist(x, keys[idx]) <= Dist(x, q)
  {
    var j :| 0 <= j < |keys| && keys[j] == q;
    assert keys[idx] in keys;
  }

  // On a canonical ring the owner of that point is the node the key routes to.
  lemma SuccessorRoutes(h: HashFunc, keys: seq<int>, owner: map<int, string>, r: Replicas, x: uint32, idx: nat)
    requires Canonical(h, keys, owner, r) && Sorted(keys) && Successor(keys, x, idx)
    ensures keys[idx] in owner && Routes(h, r, x, owner[keys[idx]])
  {
    assert keys[idx] in keys;
    var n := owner[keys[idx]];
    var i: nat :| i < r[n] && Point(h, n, i) == keys[idx];
    forall p | p in keys ensures 0 <= p < CIRCLE {
      assert Places(h, r, p, owner[p]);
    }
    forall m, j: nat | m in r && j < r[m] ensures Dist(x, keys[idx]) <= Dist(x, Point(h, m, j)) {
      SuccessorNearest(keys, x, idx, Point(h, m, j));
    }
  }

  // ---- what the loops of addNode and Remove compute -------------------------

  // The points addNode appends, in order.
  function Points(h: HashFunc, n: string, r: int): seq<int>
    decreases r
  {
    if r <= 0 then [] else Points(h, n, r - 1) + [Point(h, n, r - 1)]
  }

  function Owned(h: HashFunc, owner: map<int, string>, n: string, r: int): map<int, string>
    decreases r
  {
    if r <= 0 then owner else Owned(h, owner, n, r - 1)[Point(h, n, r - 1) := n]
  }

  // Index of the first occurrence of p, or the length.
  function IndexOf(keys: seq<int>, p: int): (i: nat)
    ensures i <= |keys| && (i < |keys| ==> keys[i] == p)
    ensures forall j :: 0 <= j < i ==> keys[j] != p
  {
    if keys == [] then 0 else if keys[0] == p then 0 else 1 + IndexOf(keys[1..], p)
  }

  // keys without the first occurrence of p.
  function DropFirst(keys: seq<int>, p: int): seq<int> {
    var i := IndexOf(keys, p);
    if i < |keys| then Without(keys, i) else keys
  }

  function Dropped(h: HashFunc, keys: seq<int>, n: string, r: int): seq<int>
    decreases r
  {
    if r <= 0 then keys else DropFirst(Dropped(h, keys, n, r - 1), Point(h, n, r - 1))
  }

  function Disowned(h: HashFunc, owner: map<int, string>, n: string, r: int): map<int, string>
    decreases r
  {
    if r <= 0 then owner else Disowned(h, owner, n, r - 1) - {Point(h, n, r - 1)}
  }

  // Adding a node that has no virtual nodes yet gives the canonical ring.
  lemma {:induction false} AddCanonical(h: HashFunc, keys: seq<int>, owner: map<int, string>, r: Replicas,
                                        nodes: set<string>, bound: int, n: string, k: int)
    requires Canonical(h, keys, owner, r) && CollisionFree(h, nodes, bound)
    requires Within(r, nodes, bound) && n in nodes && k <= bound
    requires n in r ==> r[n] <= 0
    ensures Canonical(h, keys + Points(h, n, k), Owned(h, owner, n, k), r[n := k])
    decreases k
  {
    hide Canonical, CollisionFree;
    if k <= 0 {
      assert keys + [] == keys;
      AddNone(h, keys, owner, r, n, k);
    } else {
      AddCanonical(h, keys, owner, r, nodes, bound, n, k - 1);
      assert keys + Points(h, n, k) == keys + Points(h, n, k - 1) + [Point(h, n, k - 1)];
      AddPoint(h, keys + Points(h, n, k - 1), Owned(h, owner, n, k - 1), r[n := k - 1], nodes, bound, n, k);
      assert r[n := k - 1][n := k] == r[n := k];
    }
  }

  lemma AddNone(h: HashFunc, keys: seq<int>, owner: map<int, string>, r: Replicas, n: string, k: int)
    requires Canonical(h, keys, owner, r) && (n in r ==> r[n] <= 0) && k <= 0
    ensures Canonical(h, keys, owner, r[n := k])
  {
  }

  lemma AddPoint(h: HashFunc, keys: seq<int>, owner: map<int, string>, r: Replicas,
                 nodes: set<string>, bound: int, n: string, k: int)
    requires Canonical(h, keys, owner, r) && CollisionFree(h, nodes, bound)
    requires Within(r, nodes, bound) && n in r && k == r[n] + 1 && 0 < k <= bound
    ensures Canonical(h, keys + [Point(h, n, k - 1)], owner[Point(h, n, k - 1) := n], r[n := k])
  {
    var p := Point(h, n, k - 1);
    forall q | q in owner ensures q != p {
      var i: nat :| i < r[owner[q]] && Point(h, owner[q], i) == q;
    }
    assert p !in owner;
    var owner', r' := owner[p := n], r[n := k];
    forall q | q in owner' ensures Places(h, r', q, owner'[q]) {
      if q != p {
        var i: nat :| i < r[owner[q]] && Point(h, owner[q], i) == q;
        assert i < r'[owner'[q]];
      }
    }
  }

  lemma DropFirstMembers(keys: seq<int>, p: int)
    requires Distinct(keys)
    ensures Distinct(DropFirst(keys, p))
    ensures forall q :: q in DropFirst(keys, p) <==> q in keys && q != p
    ensures Sorted(keys) ==> Sorted(DropFirst(keys, p))
  {
  }

  // None of the first k points of n is p.
  ghost predicate Misses(h: HashFunc, n: string, k: int, p: int) {
    forall i: nat {:trigger Point(h, n, i)} :: i < k ==> Point(h, n, i) != p
  }

  lemma {:induction false} DroppedKeys(h: HashFunc, keys: seq<int>, n: string, k: int, p: int)
    requires Distinct(keys)
    ensures var keys' := Dropped(h, keys, n, k);
            Distinct(keys') && (Sorted(keys) ==> Sorted(keys')) && (p in keys' <==> p in keys && Misses(h, n, k, p))
    decreases k
  {
    hide Distinct, Sorted, DropFirst;
    if k > 0 {
      DroppedKeys(h, keys, n, k - 1, p);
      DropFirstMembers(Dropped(h, keys, n, k - 1), Point(h, n, k - 1));
    }
  }

  lemma {:induction false} DisownedPoint(h: HashFunc, owner: map<int, string>, n: string, k: int, p: int)
    ensures var owner' := Disowned(h, owner, n, k);
            (p in owner' <==> p in owner && Misses(h, n, k, p)) && (p in owner' ==> owner'[p] == owner[p])
    decreases k
  {
    if k > 0 {
      DisownedPoint(h, owner, n, k - 1, p);
    }
  }

  // Removing a node gives the canonical ring of the others, in the same order.
  lemma RemoveCanonical(h: HashFunc, keys: seq<int>, owner: map<int, string>, r: Replicas,
                        nodes: set<string>, bound: int, n: string)
    requires Canonical(h, keys, owner, r) && CollisionFree(h, nodes, bound)
    requires Within(r, nodes, bound) && n in r
    ensures Canonical(h, Dropped(h, keys, n, r[n]), Disowned(h, owner, n, r[n]), r - {n})
    ensures Sorted(keys) ==> Sorted(Dropped(h, keys, n, r[n]))
  {
    var keys', owner', r' := Dropped(h, keys, n, r[n]), Disowned(h, owner, n, r[n]), r - {n};
    DroppedKeys(h, keys, n, r[n], 0);
    forall p ensures p in keys' <==> p in owner' {
      DroppedKeys(h, keys, n, r[n], p);
      DisownedPoint(h, owner, n, r[n], p);
    }
    forall p | p in owner' ensures Places(h, r', p, owner'[p]) {
      DisownedPoint(h, owner, n, r[n], p);
      RemainsPlaced(h, owner, r, p, n);
    }
    forall m, i: nat | m in r' && i < r'[m] ensures Point(h, m, i) in owner' {
      DisownedPoint(h, owner, n, r[n], Point(h, m, i));
      assert m in nodes && n in nodes;
    }
  }

  lemma RemainsPlaced(h: HashFunc, owner: map<int, string>, r: Replicas, p: int, n: string)
    requires p in owner && Places(h, r, p, owner[p]) && n in r && Misses(h, n, r[n], p)
    ensures Places(h, r - {n}, p, owner[p])
  {
  }

  // ---- sorting ------------------------------------------------------------

  function Insert(p: int, s: seq<int>): seq<int> {
    if s == [] || p <= s[0] then [p] + s else [s[0]] + Insert(p, s[1..])
  }

  // sort.Ints.
  function SortInts(s: seq<int>): seq<int> {
    if s == [] then [] else Insert(s[0], SortInts(s[1..]))
  }

  lemma {:induction false} InsertAdds(p: int, s: seq<int>)
    ensures multiset(Insert(p, s)) == multiset(s) + multiset{p}
  {
    if s != [] && p > s[0] {
      assert s == [s[0]] + s[1..];
      InsertAdds(p, s[1..]);
    }
  }

  lemma {:induction false} InsertSorted(p: int, s: seq<int>)
    requires Sorted(s)
    ensures Sorted(Insert(p, s))
  {
    if s != [] && p > s[0] {
      var t := s[1..];
      InsertSorted(p, t);
      InsertAdds(p, t);
      var u := Insert(p, t);
      forall q | q in u ensures s[0] <= q {
        assert q in multiset(u);
        if q != p {
          assert q in multiset(t);
          assert q in t;
        }
      }
      PrependSorted(s[0], u);
    }
  }

  lemma PrependSorted(a: int, u: seq<int>)
    requires Sorted(u) && forall q :: q in u ==> a <= q
    ensures Sorted([a] + u)
  {
    var t := [a] + u;
    assert forall j :: 0 <= j < |u| ==> t[j + 1] == u[j] && u[j] in u;
  }

  lemma {:induction false} SortIntsSorts(s: seq<int>)
    ensures Sorted(SortInts(s)) && multiset(SortInts(s)) == multiset(s)
  {
    if s != [] {
      SortIntsSorts(s[1..]);
      InsertAdds(s[0], SortInts(s[1..]));
      InsertSorted(s[0], SortInts(s[1..]));
      assert s == [s[0]] + s[1..];
    }
  }

  // Sorting keeps a ring canonical.
  lemma SortCanonical(h: HashFunc, keys: seq<int>, owner: map<int, string>, r: Replicas)
    requires Canonical(h, keys, owner, r)
    ensures Canonical(h, SortInts(keys), owner, r) && Sorted(SortInts(keys))
  {
    var t := SortInts(keys);
    SortIntsSorts(keys);
    forall p ensures p in t <==> p in keys {
      assert p in multiset(t) <==> p in multiset(keys);
    }
    DistinctCounts(keys);
    CountsDistinct(t);
  }

  lemma {:induction false} DistinctCounts(s: seq<int>)
    requires Distinct(s)
    ensures forall p :: multiset(s)[p] <= 1
  {
    if s != [] {
      var t := s[1..];
      assert s == [s[0]] + t;
      assert forall i :: 0 <= i < |t| ==> t[i] == s[i + 1];
      DistinctCounts(t);
      assert s[0] !in t;
      assert s[0] !in multiset(t);
    }
  }

  lemma CountsDistinct(s: seq<int>)
    requires forall p :: multiset(s)[p] <= 1
    ensures Distinct(s)
  {
    forall i, j | 0 <= i < j < |s| ensures s[i] != s[j] {
      assert s == s[..i] + [s[i]] + s[i + 1..j] + [s[j]] + s[j + 1..];
      assert multiset(s) == multiset(s[..i]) + multiset{s[i]} + multiset(s[i + 1..j]) + multiset{s[j]}
             + multiset(s[j + 1..]);
      assert s[i] == s[j] ==> multiset(s)[s[i]] >= 2;
    }
  }
}
