// The consistent-hash ring as a value: which points a node-to-replica map puts
// on the ring, who owns them, and where a key is routed.
module RingSpec {
  import opened Prelude

  const CIRCLE: int := 0x1_0000_0000

  type uint32 = x: int | 0 <= x < 0x1_0000_0000

  // The hash function is a parameter of every statement.
  type HashFunc = string -> uint32

  // ---- labels of virtual nodes --------------------------------------------

  function Decimal(n: nat): string {
    if n < 10 then [('0' as int + n) as char] else Decimal(n / 10) + [('0' as int + n % 10) as char]
  }

  function Label(node: string, i: nat): string {
    node + "-" + Decimal(i)
  }

  function Point(h: HashFunc, node: string, i: nat): uint32 {
    h(Label(node, i))
  }

  // Reading a decimal back.
  function Number(s: string): int {
    if s == "" then 0 else 10 * Number(s[..|s| - 1]) + (s[|s| - 1] as int - '0' as int)
  }

  lemma {:induction false} DecimalNumber(n: nat)
    ensures Number(Decimal(n)) == n && Decimal(n) != "" && '-' !in Decimal(n)
  {
    if n >= 10 {
      DecimalNumber(n / 10);
      var front, last := Decimal(n / 10), [('0' as int + n % 10) as char];
      assert (front + last)[..|front + last| - 1] == front;
    } else {
      assert Decimal(n)[..0] == "";
    }
  }

  // Two labels are equal only for the same node and replica number, whatever
  // dashes node names contain: without hash collisions points are distinct.
  lemma LabelInjective(a: string, i: nat, b: string, j: nat)
    requires Label(a, i) == Label(b, j)
    ensures a == b && i == j
  {
    DecimalNumber(i);
    DecimalNumber(j);
    var s, t := Decimal(i), Decimal(j);
    var l := Label(a, i);
    assert l[|a|] == '-' && l[|b|] == '-';
    forall k | |a| < k < |l| ensures l[k] != '-' {
      assert l[k] == s[k - |a| - 1];
    }
    forall k | |b| < k < |l| ensures l[k] != '-' {
      assert l[k] == t[k - |b| - 1];
    }
    assert l[|a| + 1..] == s && l[|b| + 1..] == t;
    assert l[..|a|] == a && l[..|b|] == b;
  }

  // ---- canonical rings ----------------------------------------------------

  type Replicas = map<string, int>

  // p is the point of replica i of some node n of r.
  ghost predicate Places(h: HashFunc, r: Replicas, p: int, n: string) {
    n in r && exists i: nat :: i < r[n] && Point(h, n, i) == p
  }

  // No two virtual nodes of these nodes, numbered below bound, share a point.
  ghost predicate CollisionFree(h: HashFunc, nodes: set<string>, bound: int) {
    forall a, i: nat, b, j: nat {:trigger Point(h, a, i), Point(h, b, j)} ::
      a in nodes && b in nodes && i < bound && j < bound && Point(h, a, i) == Point(h, b, j) ==> a == b && i == j
  }

  // It suffices that the hash has no collision on the labels.
  lemma InjectiveHashCollisionFree(h: HashFunc, nodes: set<string>, bound: int)
    requires forall a, i: nat, b, j: nat {:trigger Label(a, i), Label(b, j)} ::
               a in nodes && b in nodes && i < bound && j < bound && Label(a, i) != Label(b, j) ==>
                   h(Label(a, i)) != h(Label(b, j))
    ensures CollisionFree(h, nodes, bound)
  {
    forall a, i: nat, b, j: nat | a in nodes && b in nodes && i < bound && j < bound && Point(h, a, i) == Point(h, b, j)
      ensures a == b && i == j
    {
      LabelInjective'(a, i, b, j);
    }
  }

  lemma LabelInjective'(a: string, i: nat, b: string, j: nat)
    ensures Label(a, i) == Label(b, j) ==> a == b && i == j
  {
    if Label(a, i) == Label(b, j) {
      LabelInjective(a, i, b, j);
    }
  }

  ghost predicate Within(r: Replicas, nodes: set<string>, bound: int) {
    forall n {:trigger r[n]} :: n in r ==> n in nodes && r[n] <= bound
  }

  // keys and owner hold the points of r and nothing else, each point once.
  ghost predicate Canonical(h: HashFunc, keys: seq<int>, owner: map<int, string>, r: Replicas) {
    && Distinct(keys)
    && (forall p :: p in keys <==> p in owner)
    && (forall p {:trigger owner[p]} {:trigger p in owner} :: p in owner ==> Places(h, r, p, owner[p]))
    && (forall n, i: nat {:trigger Point(h, n, i)} :: n in r && i < r[n] ==> Point(h, n, i) in owner)
  }

  predicate Sorted(keys: seq<int>) {
    forall i, j :: 0 <= i < j < |keys| ==> keys[i] <= keys[j]
  }

  lemma OwnerIs(h: HashFunc, keys: seq<int>, owner: map<int, string>, r: Replicas, nodes: set<string>, bound: int,
                n: string, i: nat)
    requires Canonical(h, keys, owner, r) && Within(r, nodes, bound) && CollisionFree(h, nodes, bound)
    requires n in r && i < r[n]
    ensures Point(h, n, i) in owner && owner[Point(h, n, i)] == n
  {
  }

  // ---- a ring is determined by its replica counts --------------------------

  lemma {:induction false} SortedUnique(s: seq<int>, t: seq<int>)
    requires Sorted(s) && Sorted(t) && Distinct(s) && Distinct(t)
    requires forall p :: p in s <==> p in t
    ensures s == t
    decreases |s|
  {
    assert s != [] ==> s[0] in s;
    assert t != [] ==> t[0] in t;
    if s != [] && t != [] {
      FirstLeast(s, t[0]);
      FirstLeast(t, s[0]);
      forall p ensures p in s[1..] <==> p in t[1..] {
        TailMembers(s, p);
        TailMembers(t, p);
      }
      SortedUnique(s[1..], t[1..]);
      assert s == [s[0]] + s[1..] && t == [t[0]] + t[1..];
    }
  }

  lemma FirstLeast(s: seq<int>, p: int)
    requires Sorted(s) && p in s
    ensures s[0] <= p
  {
  }

  lemma TailMembers(s: seq<int>, p: int)
    requires s != [] && Distinct(s)
    ensures p in s[1..] <==> p in s && p != s[0]
  {
  }

  // The sorted points and their owners depend on the replica counts alone, not
  // on the order of the additions and removals that led to them.
  lemma RingUnique(h: HashFunc, keys: seq<int>, owner: map<int, string>, keys': seq<int>, owner': map<int, string>,
                   r: Replicas, nodes: set<string>, bound: int)
    requires Within(r, nodes, bound) && CollisionFree(h, nodes, bound)
    requires Canonical(h, keys, owner, r) && Canonical(h, keys', owner', r)
    requires Sorted(keys) && Sorted(keys')
    ensures keys == keys' && owner == owner'
  {
    forall p ensures p in owner <==> p in owner' {
      if p in owner { var i: nat :| i < r[owner[p]] && Point(h, owner[p], i) == p; }
      if p in owner' { var i: nat :| i < r[owner'[p]] && Point(h, owner'[p], i) == p; }
    }
    SortedUnique(keys, keys');
    forall p | p in owner ensures owner[p] == owner'[p] {
      var i: nat :| i < r[owner[p]] && Point(h, owner[p], i) == p;
      OwnerIs(h, keys', owner', r, nodes, bound, owner[p], i);
    }
  }
}
