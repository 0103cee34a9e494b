// The consistent-hash map behind its lock. The lock is not reentrant: a method
// that asks for it while it is held never returns, and a method that holds it
// and never returns keeps it for ever.
module RingLocked {
  import opened RingSpec
  import opened RingRoute
  import opened RingMap
  import RingRuns

  datatype Outcome<+T> = Blocked | Done(value: T)

  // A node that rebalancing would remove and add again.
  predicate Moves(c: Config, replicas: Replicas, counts: map<string, int>, total: int, n: string) {
    && n != "" && n in counts && n in replicas && total > 0
    && Target(c, replicas[n], counts[n], Average(total, |replicas|)) != replicas[n]
  }

  // Nodes that keep their count have one in range: the target is.
  lemma StillInRange(c: Config, replicas: Replicas, counts: map<string, int>, total: int)
    requires counts.Keys == replicas.Keys && total > 0
    requires forall n :: !Moves(c, replicas, counts, total, n)
    ensures c.minReplicas <= c.maxReplicas ==>
              forall n {:trigger replicas[n]} :: n in replicas && n != "" ==>
                  c.minReplicas <= replicas[n] <= c.maxReplicas
  {
    forall n | n in replicas && n != "" && c.minReplicas <= c.maxReplicas
      ensures c.minReplicas <= replicas[n] <= c.maxReplicas
    {
      assert !Moves(c, replicas, counts, total, n);
    }
  }

  class LockedMap {
    const ring: Map
    // The write lock is held.
    var held: bool

    constructor (hash: HashFunc, config: Config)
      ensures fresh(ring) && !held && ring.State() == Ring([], map[], map[], map[])
      ensures ring.hash == hash && ring.config == config && ring.totalRequests == 0
    {
      ring := new Map(hash, config);
      held := false;
    }

    ghost predicate Same(s: Ring, total: int)
      reads ring
    {
      ring.State() == s && ring.totalRequests == total
    }

    method Add(nodes: seq<string>) returns (r: Outcome<bool>)
      modifies ring, `held
      ensures held == old(held)
      ensures nodes != [] && held ==> r == Blocked && Same(old(ring.State()), old(ring.totalRequests))
      ensures ring.totalRequests == old(ring.totalRequests)
      ensures nodes == [] || !held ==>
                && r == Done(nodes == [])
                && ring.State() == Joined(ring.hash, ring.config.defaultReplicas, old(ring.State()), nodes)
    {
      if nodes == [] {
        return Done(true);
      }
      if held {
        return Blocked;
      }
      held := true;
      var err := ring.Add(nodes);
      held := false;
      return Done(err);
    }

    method Remove(node: string) returns (r: Outcome<bool>)
      modifies ring, `held
      ensures held == old(held)
      ensures node != "" && held ==> r == Blocked
      ensures node == "" || held ==> Same(old(ring.State()), old(ring.totalRequests))
      ensures node == "" ==> r == Done(true)
      ensures node != "" && !held ==>
                && r == Done(node !in old(ring.nodeReplicas) || old(ring.nodeReplicas)[node] == 0)
                && ring.State() == Left(ring.hash, old(ring.State()), node)
    {
      if node == "" {
        return Done(true);
      }
      if held {
        return Blocked;
      }
      held := true;
      var err := ring.Remove(node);
      held := false;
      return Done(err);
    }

    method Get(key: string) returns (r: Outcome<Answer>)
      requires Sorted(ring.keys)
      modifies ring`nodeCounts, ring`totalRequests
      ensures key != "" && held ==> r == Blocked
      ensures key == "" ==> r == Done(Nowhere)
      ensures key == "" || held ==> Same(old(ring.State()), old(ring.totalRequests))
      ensures key != "" && !held && ring.keys != [] && Ok(ring.hash, old(ring.State())) ==>
                && r.Done? && r.value.Node? && Routes(ring.hash, ring.nodeReplicas, ring.hash(key), r.value.name)
                && r.value.name in old(ring.nodeCounts) && ring.totalRequests == old(ring.totalRequests) + 1
                && ring.nodeCounts == old(ring.nodeCounts)[r.value.name := old(ring.nodeCounts)[r.value.name] + 1]
    {
      if key == "" {
        return Done(Nowhere);
      }
      if held {
        return Blocked;
      }
      var a := ring.Get(key);
      return Done(a);
    }

    // Some node is to get another number of virtual nodes.
    ghost predicate SomeMoves()
      reads ring
    {
      exists n :: Moves(ring.config, ring.nodeReplicas, ring.nodeCounts, ring.totalRequests, n)
    }

    // rebalanceNodes as written: it takes the lock, and for the first node that
    // is to be resized calls Remove, which asks for the lock again.
    method RebalanceNodes() returns (r: Outcome<()>)
      requires ring.nodeCounts.Keys == ring.nodeReplicas.Keys && ring.totalRequests > 0
      modifies ring, `held
      ensures r == Blocked <==> old(held) || old(SomeMoves())
      ensures r == Blocked ==> held && Same(old(ring.State()), old(ring.totalRequests))
      ensures r != Blocked ==>
                && !held && ring.totalRequests == 0
                && ring.hashMap == old(ring.hashMap) && ring.nodeReplicas == old(ring.nodeReplicas)
                && ring.keys == SortInts(old(ring.keys))
                && ring.nodeCounts.Keys == old(ring.nodeCounts.Keys)
                && forall n {:trigger ring.nodeCounts[n]} :: n in ring.nodeCounts ==> ring.nodeCounts[n] == 0
      ensures r != Blocked && ring.config.minReplicas <= ring.config.maxReplicas ==>
                forall n {:trigger ring.nodeReplicas[n]} :: n in ring.nodeReplicas && n != "" ==>
                  ring.config.minReplicas <= ring.nodeReplicas[n] <= ring.config.maxReplicas
    {
      if held {
        return Blocked;
      }
      held := true;
      var todo := ring.nodeCounts.Keys;
      while todo != {}
        invariant held && Same(old(ring.State()), old(ring.totalRequests))
        invariant todo <= ring.nodeCounts.Keys
        invariant forall n :: n !in todo ==>
                    !Moves(ring.config, ring.nodeReplicas, ring.nodeCounts, ring.totalRequests, n)
        decreases |todo|
      {
        var node :| node in todo;
        todo := todo - {node};
        var current := ring.nodeReplicas[node];
        var replicas := Target(ring.config, current, ring.nodeCounts[node],
          Average(ring.totalRequests, |ring.nodeReplicas|));
        if replicas != current {
          var removed := Remove(node);
          if removed == Blocked {
            assert Moves(ring.config, ring.nodeReplicas, ring.nodeCounts, ring.totalRequests, node);
            return Blocked;
          }
          // Only the empty name comes back, with an error: the node is skipped.
          assert removed == Done(true);
        }
      }
      StillInRange(ring.config, ring.nodeReplicas, ring.nodeCounts, ring.totalRequests);
      ring.ResetCounts();
      ring.totalRequests := 0;
      ring.keys := SortInts(ring.keys);
      held := false;
      return Done(());
    }

    // checkAndRebalance as written; the read lock is free again before rebalancing.
    method CheckAndRebalance() returns (r: Outcome<bool>)
      requires ring.nodeCounts.Keys == ring.nodeReplicas.Keys
      modifies ring, `held
      ensures r == Blocked <==>
                old(ring.totalRequests) >= 1000 && (old(held) || (old(ring.Unbalanced()) && old(SomeMoves())))
      ensures r == Blocked ==> held && Same(old(ring.State()), old(ring.totalRequests))
      ensures r != Blocked ==> held == old(held) && (r == Done(true) <==> old(ring.Unbalanced()))
      ensures r == Done(false) ==> Same(old(ring.State()), old(ring.totalRequests))
    {
      if ring.totalRequests < 1000 {
        return Done(false);
      }
      if held {
        return Blocked;
      }
      if |ring.nodeReplicas| == 0 {
        return Done(false);
      }
      var avgLoad := Average(ring.totalRequests, |ring.nodeReplicas|);
      assert avgLoad > 0.0;
      assert ring.nodeCounts != map[];
      var maxDiff := ring.MaxDeviation(avgLoad);
      if maxDiff > ring.config.threshold {
        var done := RebalanceNodes();
        return if done == Blocked then Blocked else Done(true);
      }
      return Done(false);
    }
  }

  // When a node moves, for replica counts in range: an overloaded node does
  // unless it is already at the minimum, any other does when it is below the
  // maximum and at least one whole virtual node is due.
  lemma MovesIff(c: Config, cur: int, cnt: int, avg: real)
    requires avg > 0.0 && cnt >= 0 && 0 <= c.minReplicas <= cur <= c.maxReplicas && cur > 0
    ensures Target(c, cur, cnt, avg) != cur <==>
              if cnt as real > avg then cur > c.minReplicas
              else cur < c.maxReplicas && cur as real * (1.0 - cnt as real / avg) >= 1.0
  {
    var ratio := cnt as real / avg;
    if cnt as real > avg {
      assert ratio > 1.0;
      Less(cur as real, ratio);
    } else {
      assert 0.0 <= ratio <= 1.0;
      More(cur as real, ratio);
    }
  }

  lemma Less(x: real, ratio: real)
    requires x > 0.0 && ratio > 1.0
    ensures 0.0 <= x / ratio < x
  {
    var q := x / ratio;
    assert q * ratio == x;
    Spread(q, ratio - 1.0, ratio);
    if q > 0.0 {
      Product(q, ratio - 1.0);
    } else {
      Product(-q, ratio);
    }
  }

  lemma More(x: real, ratio: real)
    requires x > 0.0 && 0.0 <= ratio <= 1.0
    ensures x * (2.0 - ratio) == x + x * (1.0 - ratio) && x * (1.0 - ratio) >= 0.0
  {
    Spread(x, 1.0 - ratio, 2.0 - ratio);
    Product(x, 1.0 - ratio);
  }

  lemma Spread(x: real, y: real, z: real)
    requires z == 1.0 + y
    ensures x * z == x + x * y
  {
  }

  lemma Product(x: real, y: real)
    requires x >= 0.0 && y >= 0.0
    ensures x * y >= 0.0 && (x > 0.0 && y > 0.0 ==> x * y > 0.0)
  {
  }

  // ---- a run that blocks ----------------------------------------------------

  const DEFAULT := Config(50, 10, 200, 0.25)

  lemma TwoNodes(h: HashFunc)
    requires CollisionFree(h, {"a", "b"}, 50)
    ensures var s := Joined(h, 50, Ring([], map[], map[], map[]), ["a", "b"]);
            && Ok(h, s) && Within(s.replicas, {"a", "b"}, 50) && s.keys != []
            && s.replicas == map["a" := 50, "b" := 50] && s.counts == map["a" := 0, "b" := 0]
  {
    hide Canonical, CollisionFree, Points, Owned;
    var s0 := Ring([], map[], map[], map[]);
    EmptyRing(h);
    RingRuns.ApplyOk(h, 50, s0, RingRuns.Join(["a", "b"]), {"a", "b"}, 50);
    assert ["a", "b"][..1] == ["a"] && ["a"][..0] == [];
    assert Placed(h, 50, s0, []) == s0;
    var s1 := Placed(h, 50, s0, ["a"]);
    assert s1 == With(h, s0, "a", 50);
    hide Ok;
    var s := Joined(h, 50, s0, ["a", "b"]);
    HasPoint(h, s.keys, s.owner, s.replicas, "a");
  }

  lemma EmptyRing(h: HashFunc)
    ensures Canonical(h, [], map[], map[])
  {
  }

  lemma HasPoint(h: HashFunc, keys: seq<int>, owner: map<int, string>, r: Replicas, n: string)
    requires Canonical(h, keys, owner, r) && n in r && r[n] > 0
    ensures keys != []
  {
    assert Point(h, n, 0) in keys;
  }

  // Whichever of the two nodes got all of the requests is halved.
  lemma OneTakesAll(n: string, counts: map<string, int>)
    requires n == "a" || n == "b"
    requires counts == map["a" := 0, "b" := 0][n := 1000]
    ensures n in counts && |map["a" := 50, "b" := 50]| == 2
    ensures OutOfBand(counts[n], Average(1000, 2), 0.25)
    ensures Moves(DEFAULT, map["a" := 50, "b" := 50], counts, 1000, n)
  {
    assert Average(1000, 2) == 500.0;
    assert |map["a" := 50, "b" := 50]| == 2;
    assert Scaled(50, 1000, 500.0) == 25.0;
  }

  // 1000 requests for one key.
  method Flood(m: LockedMap, key: string) returns (ghost n: string)
    requires !m.held && key != "" && m.ring.keys != [] && Ok(m.ring.hash, m.ring.State())
    requires Within(m.ring.nodeReplicas, {"a", "b"}, 50) && CollisionFree(m.ring.hash, {"a", "b"}, 50)
    requires m.ring.nodeCounts == map["a" := 0, "b" := 0] && m.ring.totalRequests == 0
    modifies m.ring`nodeCounts, m.ring`totalRequests
    ensures m.ring.totalRequests == 1000 && m.ring.nodeCounts.Keys == m.ring.nodeReplicas.Keys
    ensures (n == "a" || n == "b") && m.ring.nodeCounts == map["a" := 0, "b" := 0][n := 1000]
  {
    hide Canonical, CollisionFree, Within, Routes;
    var first := m.Get(key);
    n := first.value.name;
    for i := 1 to 1000
      invariant m.ring.totalRequests == i && m.ring.nodeCounts == map["a" := 0, "b" := 0][n := i]
      invariant Ok(m.ring.hash, m.ring.State())
    {
      var next := m.Get(key);
      RouteUnique(m.ring.hash, m.ring.nodeReplicas, {"a", "b"}, 50, m.ring.hash(key), n, next.value.name);
    }
  }

  // Two nodes and 1000 requests for one key: the check finds the ring
  // unbalanced and never returns, and neither does any later request.
  method Overloaded(hash: HashFunc, key: string) returns (check: Outcome<bool>, later: Outcome<Answer>)
    requires CollisionFree(hash, {"a", "b"}, 50) && key != ""
    ensures check == Blocked && later == Blocked
  {
    hide Canonical, CollisionFree, Within, Routes, Points, Owned, Joined;
    var m := new LockedMap(hash, DEFAULT);
    TwoNodes(hash);
    var added := m.Add(["a", "b"]);
    ghost var n := Flood(m, key);
    OneTakesAll(n, m.ring.nodeCounts);
    hide Moves, OutOfBand, Average;
    assert m.ring.nodeReplicas == map["a" := 50, "b" := 50];
    assert Moves(DEFAULT, m.ring.nodeReplicas, m.ring.nodeCounts, m.ring.totalRequests, n);
    check := m.CheckAndRebalance();
    later := m.Get(key);
  }
}
