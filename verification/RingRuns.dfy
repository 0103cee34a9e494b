// Sequences of additions, removals and resizings on the ring, and what rebalancing aims at.
module RingRuns {
  import opened Prelude
  import opened RingSpec
  import opened RingRoute
  import opened RingMap

  // Resize is one round of rebalancing: the node is taken off the ring and put
  // back with k virtual nodes.
  datatype Op = Join(names: seq<string>) | Leave(name: string) | Resize(name: string, k: int)

  function Apply(h: HashFunc, d: int, s: Ring, op: Op): Ring {
    match op
    case Join(names) => Joined(h, d, s, names)
    case Leave(n) => Left(h, s, n)
    case Resize(n, k) =>
      if n !in s.replicas || s.replicas[n] == 0 then s
      else
        var t := With(h, Left(h, s, n), n, k);
        t.(keys := SortInts(t.keys))
  }

  function ApplyAll(h: HashFunc, d: int, s: Ring, ops: seq<Op>): Ring
    decreases |ops|
  {
    if ops == [] then s else ApplyAll(h, d, Apply(h, d, s, ops[0]), ops[1..])
  }

  // n has no virtual nodes on s.
  predicate Fresh(s: Ring, n: string) {
    n in s.replicas ==> s.replicas[n] <= 0
  }

  // Every name of a Join is different and has no virtual nodes yet.
  ghost predicate Proper(s: Ring, op: Op) {
    op.Join? ==>
      && (forall i, j :: 0 <= i < j < |op.names| && op.names[i] != "" ==> op.names[i] != op.names[j])
      && (forall i :: 0 <= i < |op.names| ==> Fresh(s, op.names[i]))
  }

  ghost predicate ProperAll(h: HashFunc, d: int, s: Ring, ops: seq<Op>)
    decreases |ops|
  {
    ops == [] || (Proper(s, ops[0]) && ProperAll(h, d, Apply(h, d, s, ops[0]), ops[1..]))
  }

  // The names an operation mentions, and the number of virtual nodes it asks for.
  ghost predicate Names(op: Op, nodes: set<string>, bound: int) {
    match op
    case Join(names) => forall i :: 0 <= i < |names| ==> names[i] in nodes
    case Leave(n) => true
    case Resize(n, k) => n in nodes && k <= bound
  }

  // Ok without the order of the points.
  ghost predicate OkUnsorted(h: HashFunc, s: Ring, nodes: set<string>, bound: int) {
    && Canonical(h, s.keys, s.owner, s.replicas) && Within(s.replicas, nodes, bound)
    && s.counts.Keys == s.replicas.Keys && "" !in s.replicas
  }

  // After an Add every non-empty name has the default number of virtual nodes and
  // every other node what it had; known nodes keep their counters.
  lemma {:induction false} PlacedNodes(h: HashFunc, d: int, s: Ring, names: seq<string>, n: string)
    ensures var t, added := Placed(h, d, s, names), n != "" && n in names;
            && (n in t.replicas <==> n in s.replicas || added)
            && (n in t.replicas ==> t.replicas[n] == if added then d else s.replicas[n])
            && (n in t.counts <==> n in s.counts || added)
            && (n in t.counts ==> t.counts[n] == if n in s.counts then s.counts[n] else 0)
    decreases |names|
  {
    hide Points, Owned;
    if names != [] {
      var front, last := names[..|names| - 1], names[|names| - 1];
      assert names == front + [last];
      PlacedNodes(h, d, s, front, n);
    }
  }

  lemma JoinedNodes(h: HashFunc, d: int, s: Ring, names: seq<string>, n: string)
    ensures var t, added := Joined(h, d, s, names), n != "" && n in names;
            && (n in t.replicas <==> n in s.replicas || added)
            && (n in t.replicas ==> t.replicas[n] == if added then d else s.replicas[n])
            && (n in t.counts <==> n in s.counts || added)
            && (n in t.counts ==> t.counts[n] == if n in s.counts then s.counts[n] else 0)
  {
    hide Placed;
    PlacedNodes(h, d, s, names, n);
  }

  // After a Remove exactly that node is gone, if it had virtual nodes.
  lemma LeftNodes(h: HashFunc, s: Ring, n: string, n': string)
    ensures var t, gone := Left(h, s, n), n != "" && n in s.replicas && s.replicas[n] != 0;
            && (n' in t.replicas <==> n' in s.replicas && !(gone && n' == n))
            && (n' in t.replicas ==> t.replicas[n'] == s.replicas[n'])
            && (n' in t.counts <==> n' in s.counts && !(gone && n' == n))
            && (n' in t.counts ==> t.counts[n'] == s.counts[n'])
  {
    hide Dropped, Disowned;
  }

  // Placing names leaves the replica counts of other names alone.
  lemma {:induction false} PlacedOther(h: HashFunc, d: int, s: Ring, names: seq<string>, n: string)
    requires n !in names
    ensures n in Placed(h, d, s, names).replicas <==> n in s.replicas
    ensures n in s.replicas ==> Placed(h, d, s, names).replicas[n] == s.replicas[n]
    decreases |names|
  {
    if names != [] {
      PlacedOther(h, d, s, names[..|names| - 1], n);
    }
  }

  lemma ProperFront(s: Ring, names: seq<string>, nodes: set<string>, bound: int)
    requires names != [] && Proper(s, Join(names)) && Names(Join(names), nodes, bound)
    ensures var front, n := names[..|names| - 1], names[|names| - 1];
            && Proper(s, Join(front)) && Names(Join(front), nodes, bound)
            && n in nodes && Fresh(s, n) && (n != "" ==> n !in front)
  {
  }

  lemma {:induction false} PlacedOk(h: HashFunc, d: int, s: Ring, names: seq<string>, nodes: set<string>, bound: int)
    requires OkUnsorted(h, s, nodes, bound) && CollisionFree(h, nodes, bound) && d <= bound
    requires Proper(s, Join(names)) && Names(Join(names), nodes, bound)
    ensures OkUnsorted(h, Placed(h, d, s, names), nodes, bound)
    decreases |names|
  {
    hide Canonical, CollisionFree, Points, Owned, Proper, Names;
    if names != [] {
      var front, n := names[..|names| - 1], names[|names| - 1];
      ProperFront(s, names, nodes, bound);
      PlacedOk(h, d, s, front, nodes, bound);
      if n != "" {
        var t := Placed(h, d, s, front);
        PlacedOther(h, d, s, front, n);
        AddCanonical(h, t.keys, t.owner, t.replicas, nodes, bound, n, d);
      }
    }
  }

  lemma ResizeOk(h: HashFunc, s: Ring, n: string, k: int, nodes: set<string>, bound: int)
    requires Ok(h, s) && Within(s.replicas, nodes, bound) && CollisionFree(h, nodes, bound)
    requires n in s.replicas && s.replicas[n] != 0 && k <= bound
    ensures var t := With(h, Left(h, s, n), n, k); var t' := t.(keys := SortInts(t.keys));
            Ok(h, t') && Within(t'.replicas, nodes, bound)
  {
    hide Canonical, CollisionFree, Points, Owned, Dropped, Disowned;
    var l := Left(h, s, n);
    RemoveCanonical(h, s.keys, s.owner, s.replicas, nodes, bound, n);
    AddCanonical(h, l.keys, l.owner, l.replicas, nodes, bound, n, k);
    var t := With(h, l, n, k);
    SortCanonical(h, t.keys, t.owner, t.replicas);
  }

  lemma ApplyOk(h: HashFunc, d: int, s: Ring, op: Op, nodes: set<string>, bound: int)
    requires Ok(h, s) && Within(s.replicas, nodes, bound) && CollisionFree(h, nodes, bound) && d <= bound
    requires Proper(s, op) && Names(op, nodes, bound)
    ensures Ok(h, Apply(h, d, s, op)) && Within(Apply(h, d, s, op).replicas, nodes, bound)
  {
    hide Canonical, CollisionFree;
    match op {
      case Join(names) =>
        if names != [] {
          PlacedOk(h, d, s, names, nodes, bound);
          var t := Placed(h, d, s, names);
          SortCanonical(h, t.keys, t.owner, t.replicas);
        }
      case Leave(n) =>
        if n in s.replicas {
          RemoveCanonical(h, s.keys, s.owner, s.replicas, nodes, bound, n);
        }
      case Resize(n, k) =>
        if n in s.replicas && s.replicas[n] != 0 {
          ResizeOk(h, s, n, k, nodes, bound);
        }
    }
  }

  // Every run of proper additions, removals and resizings keeps the ring canonical ...
  lemma {:induction false} RunOk(h: HashFunc, d: int, s: Ring, ops: seq<Op>, nodes: set<string>, bound: int)
    requires Ok(h, s) && Within(s.replicas, nodes, bound) && CollisionFree(h, nodes, bound) && d <= bound
    requires ProperAll(h, d, s, ops) && forall i :: 0 <= i < |ops| ==> Names(ops[i], nodes, bound)
    ensures Ok(h, ApplyAll(h, d, s, ops)) && Within(ApplyAll(h, d, s, ops).replicas, nodes, bound)
    decreases |ops|
  {
    if ops != [] {
      ApplyOk(h, d, s, ops[0], nodes, bound);
      RunOk(h, d, Apply(h, d, s, ops[0]), ops[1..], nodes, bound);
    }
  }

  // ... so two histories that end with the same replica counts end with the
  // same points, the same owners and the same routing.
  lemma HistoryIrrelevant(h: HashFunc, d: int, s: Ring, ops: seq<Op>, ops': seq<Op>, nodes: set<string>, bound: int)
    requires Ok(h, s) && Within(s.replicas, nodes, bound) && CollisionFree(h, nodes, bound) && d <= bound
    requires ProperAll(h, d, s, ops) && forall i :: 0 <= i < |ops| ==> Names(ops[i], nodes, bound)
    requires ProperAll(h, d, s, ops') && forall i :: 0 <= i < |ops'| ==> Names(ops'[i], nodes, bound)
    requires ApplyAll(h, d, s, ops).replicas == ApplyAll(h, d, s, ops').replicas
    ensures ApplyAll(h, d, s, ops).keys == ApplyAll(h, d, s, ops').keys
    ensures ApplyAll(h, d, s, ops).owner == ApplyAll(h, d, s, ops').owner
  {
    RunOk(h, d, s, ops, nodes, bound);
    RunOk(h, d, s, ops', nodes, bound);
    var a, b := ApplyAll(h, d, s, ops), ApplyAll(h, d, s, ops');
    RingUnique(h, a.keys, a.owner, b.keys, b.owner, a.replicas, nodes, bound);
  }

  // Adding a new node and removing it again restores the ring exactly.
  lemma JoinThenLeave(h: HashFunc, d: int, s: Ring, n: string, nodes: set<string>, bound: int)
    requires Ok(h, s) && Within(s.replicas, nodes, bound) && CollisionFree(h, nodes, bound) && d <= bound
    requires n != "" && n in nodes && n !in s.replicas && d != 0
    ensures Left(h, Joined(h, d, s, [n]), n) == s
  {
    hide Canonical, CollisionFree, Points, Owned, Dropped, Disowned;
    var t := Joined(h, d, s, [n]);
    ApplyOk(h, d, s, Join([n]), nodes, bound);
    assert [n][..0] == [];
    assert Placed(h, d, s, [n]) == With(h, s, n, d);
    hide Placed, Joined, Names, Proper;
    ApplyOk(h, d, t, Leave(n), nodes, bound);
    var u := Left(h, t, n);
    assert u.replicas == s.replicas;
    assert u.counts == s.counts;
    RingUnique(h, u.keys, u.owner, s.keys, s.owner, s.replicas, nodes, bound);
  }

  // ---- adding a node that is already there ----------------------------------

  // Add does not look whether a node is present. It keeps the ring canonical
  // exactly when the node has no virtual nodes yet.
  lemma JoinExact(h: HashFunc, d: int, s: Ring, n: string, nodes: set<string>, bound: int)
    requires Ok(h, s) && Within(s.replicas, nodes, bound) && CollisionFree(h, nodes, bound) && d <= bound
    requires n != "" && n in nodes
    ensures var t := Joined(h, d, s, [n]);
            Canonical(h, t.keys, t.owner, t.replicas) <==> Fresh(s, n)
  {
    var t := Joined(h, d, s, [n]);
    if Fresh(s, n) {
      ApplyOk(h, d, s, Join([n]), nodes, bound);
    } else {
      assert [n][..0] == [];
      assert Placed(h, d, s, [n]) == With(h, s, n, d);
      var p := Point(h, n, 0);
      OwnerIs(h, s.keys, s.owner, s.replicas, nodes, bound, n, 0);
      OwnedKeeps(h, s.owner, n, d, p);
      if d <= 0 {
        assert t.owner[p] == n && !Places(h, t.replicas, p, n);
      } else {
        FirstPoint(h, n, d);
        SortIntsSorts(s.keys + Points(h, n, d));
        TwiceIn(s.keys, Points(h, n, d), p);
        NotDistinct(t.keys, p);
      }
    }
  }

  lemma NotDistinct(s: seq<int>, p: int)
    requires multiset(s)[p] >= 2
    ensures !Distinct(s)
  {
    if Distinct(s) {
      DistinctCounts(s);
    }
  }

  lemma {:induction false} OwnedKeeps(h: HashFunc, owner: map<int, string>, n: string, k: int, p: int)
    requires p in owner && owner[p] == n
    ensures p in Owned(h, owner, n, k) && Owned(h, owner, n, k)[p] == n
    decreases k
  {
    if k > 0 {
      OwnedKeeps(h, owner, n, k - 1, p);
    }
  }

  lemma {:induction false} FirstPoint(h: HashFunc, n: string, k: int)
    requires k > 0
    ensures Point(h, n, 0) in Points(h, n, k)
    decreases k
  {
    if k > 1 {
      FirstPoint(h, n, k - 1);
    }
  }

  lemma TwiceIn(s: seq<int>, t: seq<int>, p: int)
    requires p in s && p in t
    ensures multiset(s + t)[p] >= 2
  {
  }

  // Added twice and removed once, a node leaves points without owner behind:
  // every lookup then runs into a nil counter.
  lemma DuplicateDangles(h: HashFunc, d: int, n: string)
    requires d > 0 && n != ""
    ensures var s := Ring([], map[], map[], map[]);
            var t := Left(h, Joined(h, d, Joined(h, d, s, [n]), [n]), n);
            |t.keys| >= d && t.owner == map[] && t.counts == map[]
  {
    var s := Ring([], map[], map[], map[]);
    var s1 := Joined(h, d, s, [n]);
    var s2 := Joined(h, d, s1, [n]);
    assert [n][..0] == [];
    assert Placed(h, d, s, [n]) == With(h, s, n, d) && Placed(h, d, s1, [n]) == With(h, s1, n, d);
    PointsLength(h, n, d);
    SortLength(s.keys + Points(h, n, d));
    SortLength(s1.keys + Points(h, n, d));
    DroppedLength(h, s2.keys, n, d);
    var t := Left(h, s2, n);
    forall p ensures p !in t.owner {
      DisownedPoint(h, s2.owner, n, d, p);
      OwnedBy(h, map[], n, d, p);
      OwnedBy(h, s1.owner, n, d, p);
    }
    assert t.owner == map[];
    assert t.counts == map[];
  }

  lemma {:induction false} PointsLength(h: HashFunc, n: string, k: int)
    requires k >= 0
    ensures |Points(h, n, k)| == k
    decreases k
  {
    if k > 0 {
      PointsLength(h, n, k - 1);
    }
  }

  lemma SortLength(s: seq<int>)
    ensures |SortInts(s)| == |s|
  {
    SortIntsSorts(s);
    assert |multiset(s)| == |s| && |multiset(SortInts(s))| == |SortInts(s)|;
  }

  lemma {:induction false} DroppedLength(h: HashFunc, keys: seq<int>, n: string, k: int)
    requires k >= 0
    ensures |Dropped(h, keys, n, k)| >= |keys| - k
    decreases k
  {
    if k > 0 {
      DroppedLength(h, keys, n, k - 1);
    }
  }

  lemma {:induction false} OwnedBy(h: HashFunc, owner: map<int, string>, n: string, k: int, p: int)
    requires p !in owner || !Misses(h, n, k, p)
    ensures p in Owned(h, owner, n, k) ==> !Misses(h, n, k, p)
    decreases k
  {
    if k > 0 {
      if p == Point(h, n, k - 1) {
      } else if p in Owned(h, owner, n, k - 1) {
        OwnedSource(h, owner, n, k - 1, p);
      }
    }
  }

  lemma {:induction false} OwnedSource(h: HashFunc, owner: map<int, string>, n: string, k: int, p: int)
    ensures p in Owned(h, owner, n, k) ==> p in owner || !Misses(h, n, k, p)
    decreases k
  {
    if k > 0 {
      OwnedSource(h, owner, n, k - 1, p);
    }
  }

  // ---- what rebalancing aims at ---------------------------------------------

  // The result is within the configured range for a node with virtual nodes, or
  // if the range contains zero.
  lemma ResizedInRange(c: Config, cur: int, cnt: int, avg: real)
    requires avg > 0.0 && c.minReplicas <= c.maxReplicas
    ensures c.minReplicas <= Resized(c, cur, cnt, avg) <= c.maxReplicas <==>
            cur != 0 || c.minReplicas <= 0 <= c.maxReplicas
  {
  }

  // The replica counts one configuration gives: the default, or one in range.
  predicate Configured(c: Config, k: int) {
    k == c.defaultReplicas || c.minReplicas <= k <= c.maxReplicas
  }

  ghost predicate CountsConfigured(c: Config, s: Ring) {
    if c.defaultReplicas <= 0 then s.keys == [] else forall n :: n in s.replicas ==> Configured(c, s.replicas[n])
  }

  // Nodes are resized into the range, and only on a ring with points: without
  // points no request is counted, and without requests nothing is rebalanced.
  ghost predicate Rebalances(h: HashFunc, c: Config, s: Ring, ops: seq<Op>)
    decreases |ops|
  {
    ops == [] ||
      ((ops[0].Resize? ==> s.keys != [] && c.minReplicas <= ops[0].k <= c.maxReplicas)
       && Rebalances(h, c, Apply(h, c.defaultReplicas, s, ops[0]), ops[1..]))
  }

  lemma {:induction false} PlacedCounts(h: HashFunc, c: Config, s: Ring, names: seq<string>)
    requires CountsConfigured(c, s)
    ensures CountsConfigured(c, Placed(h, c.defaultReplicas, s, names))
    decreases |names|
  {
    if names != [] {
      PlacedCounts(h, c, s, names[..|names| - 1]);
    }
  }

  lemma {:induction false} DroppedEmpty(h: HashFunc, n: string, k: int)
    ensures Dropped(h, [], n, k) == []
    decreases k
  {
    if k > 0 {
      DroppedEmpty(h, n, k - 1);
    }
  }

  lemma ApplyCounts(h: HashFunc, c: Config, s: Ring, op: Op)
    requires CountsConfigured(c, s)
    requires op.Resize? ==> s.keys != [] && c.minReplicas <= op.k <= c.maxReplicas
    ensures CountsConfigured(c, Apply(h, c.defaultReplicas, s, op))
  {
    match op {
      case Join(names) => PlacedCounts(h, c, s, names);
      case Leave(n) => if n in s.replicas { DroppedEmpty(h, n, s.replicas[n]); }
      case Resize(n, k) =>
    }
  }

  // On every ring one configuration can lead to, with or without collisions, a
  // node has the default number of virtual nodes or one in range; and there are
  // no points at all if the default is not positive.
  lemma {:induction false} RunCounts(h: HashFunc, c: Config, s: Ring, ops: seq<Op>)
    requires CountsConfigured(c, s) && Rebalances(h, c, s, ops)
    ensures CountsConfigured(c, ApplyAll(h, c.defaultReplicas, s, ops))
    decreases |ops|
  {
    if ops != [] {
      ApplyCounts(h, c, s, ops[0]);
      RunCounts(h, c, Apply(h, c.defaultReplicas, s, ops[0]), ops[1..]);
    }
  }

  // So rebalancing leaves every node of such a ring within the range.
  lemma ReachedInRange(h: HashFunc, c: Config, ops: seq<Op>, n: string, cnt: int, avg: real)
    requires c.minReplicas <= c.maxReplicas && avg > 0.0
    requires var s := Ring([], map[], map[], map[]);
             Rebalances(h, c, s, ops)
             && ApplyAll(h, c.defaultReplicas, s, ops).keys != []
             && n in ApplyAll(h, c.defaultReplicas, s, ops).replicas
    ensures var s := ApplyAll(h, c.defaultReplicas, Ring([], map[], map[], map[]), ops);
            c.minReplicas <= Resized(c, s.replicas[n], cnt, avg) <= c.maxReplicas
  {
    var s := Ring([], map[], map[], map[]);
    RunCounts(h, c, s, ops);
    ResizedInRange(c, ApplyAll(h, c.defaultReplicas, s, ops).replicas[n], cnt, avg);
  }

  // k is x / n rounded down.
  predicate RoundsDown(k: int, x: real, n: real) {
    k as real * n <= x < (k as real + 1.0) * n
  }

  // Which whole number the target is before it is brought into the range: for an
  // overloaded node its share cur * avg / cnt, for any other cur * (2 - cnt / avg),
  // both rounded down.
  lemma TargetShare(c: Config, cur: int, cnt: int, avg: real) returns (k: int)
    requires avg > 0.0 && cur >= 0 && cnt >= 0 && c.minReplicas <= c.maxReplicas
    ensures k >= 0
    ensures var x, a, n := cur as real, avg, cnt as real;
            if n > a then RoundsDown(k, x * a, n) else RoundsDown(k, x * (2.0 * a - n), a)
    ensures Target(c, cur, cnt, avg) ==
            if k < c.minReplicas then c.minReplicas else if k > c.maxReplicas then c.maxReplicas else k
  {
    hide Trunc, RoundsDown, Scaled;
    if cnt as real > avg {
      OverloadedShare(cur, cnt, avg);
    } else {
      IdleShare(cur, cnt, avg);
    }
    k := Scaled(cur, cnt, avg).Floor;
    TruncFloor(Scaled(cur, cnt, avg));
  }

  lemma OverloadedShare(cur: int, cnt: int, avg: real)
    requires avg > 0.0 && cur >= 0 && cnt as real > avg
    ensures var y := Scaled(cur, cnt, avg); y >= 0.0 && RoundsDown(y.Floor, cur as real * avg, cnt as real)
  {
    hide RoundsDown;
    Quotient(cnt as real, avg);
    var y := cur as real / (cnt as real / avg);
    assert Scaled(cur, cnt, avg) == y;
    hide Scaled;
    Shared(cur as real, cnt as real, avg);
    Floored(y, cnt as real, cur as real * avg);
  }

  lemma IdleShare(cur: int, cnt: int, avg: real)
    requires avg > 0.0 && cur >= 0 && 0.0 <= cnt as real <= avg
    ensures var y := Scaled(cur, cnt, avg);
            y >= 0.0 && RoundsDown(y.Floor, cur as real * (2.0 * avg - cnt as real), avg)
  {
    hide RoundsDown;
    Quotient(cnt as real, avg);
    var y := cur as real * (2.0 - cnt as real / avg);
    assert Scaled(cur, cnt, avg) == y;
    hide Scaled;
    Doubled(cur as real, cnt as real, avg);
    Floored(y, avg, cur as real * (2.0 * avg - cnt as real));
  }

  lemma Floored(y: real, n: real, x: real)
    requires n > 0.0 && y * n == x
    ensures RoundsDown(y.Floor, x, n)
  {
    hide RoundsDown;
    Between(y.Floor, y, n);
  }

  lemma TruncFloor(y: real)
    requires y >= 0.0
    ensures Trunc(y) == y.Floor >= 0
  {
  }

  lemma Shared(x: real, n: real, a: real)
    requires x >= 0.0 && n > a > 0.0
    ensures n / a > 0.0 && x / (n / a) * n == x * a && x / (n / a) >= 0.0
  {
    Quotient(n, a);
    var ratio := n / a;
    var y := x / ratio;
    assert y * ratio == x && ratio * a == n;
    Regroup(y, ratio, a);
    if y < 0.0 {
      Product(-y, ratio);
    }
  }

  lemma Doubled(x: real, n: real, a: real)
    requires x >= 0.0 && a > 0.0 && 0.0 <= n <= a
    ensures x * (2.0 - n / a) * a == x * (2.0 * a - n) && x * (2.0 - n / a) >= 0.0
  {
    Quotient(n, a);
    var ratio := n / a;
    assert ratio * a == n;
    Regroup(x, 2.0 - ratio, a);
    Spread(ratio, a);
    Product(x, 2.0 - ratio);
  }

  lemma Quotient(n: real, a: real)
    requires a > 0.0
    ensures n / a > 1.0 <==> n > a
  {
    var q := n / a;
    assert q * a == n;
    assert (q - 1.0) * a == n - a;
    if q > 1.0 {
      Product(q - 1.0, a);
    } else {
      Product(1.0 - q, a);
      assert (1.0 - q) * a == a - n;
    }
  }

  lemma Regroup(a: real, b: real, c: real)
    ensures a * b * c == a * (b * c)
  {
  }

  lemma Spread(r: real, a: real)
    ensures (2.0 - r) * a == 2.0 * a - r * a
  {
  }

  lemma Product(a: real, b: real)
    requires a >= 0.0 && b >= 0.0
    ensures a * b >= 0.0 && (a > 0.0 && b > 0.0 ==> a * b > 0.0)
  {
  }

  lemma Between(k: int, y: real, n: real)
    requires n > 0.0 && k as real <= y < k as real + 1.0
    ensures RoundsDown(k, y * n, n)
  {
    var z := k as real;
    Product(y - z, n);
    Product(z + 1.0 - y, n);
    assert (y - z) * n == y * n - z * n;
    assert (z + 1.0 - y) * n == (z + 1.0) * n - y * n;
  }

  // An overloaded node that was in range never grows, an idle one never shrinks.
  lemma ResizedDirection(c: Config, cur: int, cnt: int, avg: real)
    requires avg > 0.0 && cnt >= 0 && 0 <= c.minReplicas <= cur <= c.maxReplicas
    ensures cnt as real > avg ==> Resized(c, cur, cnt, avg) <= cur
    ensures cnt as real <= avg ==> Resized(c, cur, cnt, avg) >= cur
  {
    hide Scaled, Trunc, Clamp;
    ScaledSide(cur, cnt, avg);
    ClampedSide(c, cur, Scaled(cur, cnt, avg));
  }

  lemma ScaledSide(cur: int, cnt: int, avg: real)
    requires avg > 0.0 && cnt >= 0 && cur >= 0
    ensures cnt as real > avg ==> 0.0 <= Scaled(cur, cnt, avg) <= cur as real
    ensures cnt as real <= avg ==> Scaled(cur, cnt, avg) >= cur as real
  {
  }

  lemma ClampedSide(c: Config, cur: int, y: real)
    requires y >= 0.0 && 0 <= c.minReplicas <= cur <= c.maxReplicas
    ensures y <= cur as real ==> Clamp(c, Trunc(y)) <= cur
    ensures y >= cur as real ==> Clamp(c, Trunc(y)) >= cur
  {
  }
}
