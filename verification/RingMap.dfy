// The consistent-hash map as an object: sorted points, owners, replica counts
// and request counters, updated in place.
module RingMap {
  import opened RingSpec
  import opened RingRoute

  // The mutable part of the map, without the request total.
  datatype Ring = Ring(keys: seq<int>, owner: map<int, string>, replicas: Replicas, counts: map<string, int>)

  // What every reader relies on.
  ghost predicate Ok(h: HashFunc, s: Ring) {
    && Canonical(h, s.keys, s.owner, s.replicas) && Sorted(s.keys)
    && s.counts.Keys == s.replicas.Keys && "" !in s.replicas
  }

  // After addNode.
  function With(h: HashFunc, s: Ring, n: string, k: int): Ring {
    Ring(s.keys + Points(h, n, k), Owned(h, s.owner, n, k), s.replicas[n := k],
         if n in s.counts then s.counts else s.counts[n := 0])
  }

  // After the loop of Add: every non-empty name in turn.
  function Placed(h: HashFunc, d: int, s: Ring, nodes: seq<string>): Ring
    decreases |nodes|
  {
    if nodes == [] then s
    else
      var t, n := Placed(h, d, s, nodes[..|nodes| - 1]), nodes[|nodes| - 1];
      if n == "" then t else With(h, t, n, d)
  }

  function Joined(h: HashFunc, d: int, s: Ring, nodes: seq<string>): Ring {
    if nodes == [] then s
    else
      var t := Placed(h, d, s, nodes);
      t.(keys := SortInts(t.keys))
  }

  // After Remove.
  function Left(h: HashFunc, s: Ring, n: string): Ring {
    if n == "" || n !in s.replicas || s.replicas[n] == 0 then s
    else Ring(Dropped(h, s.keys, n, s.replicas[n]), Disowned(h, s.owner, n, s.replicas[n]),
              s.replicas - {n}, s.counts - {n})
  }

  datatype Config = Config(defaultReplicas: int, minReplicas: int, maxReplicas: int, threshold: real)

  // int(x): truncation toward zero.
  function Trunc(x: real): int {
    if x >= 0.0 then x.Floor else -((-x).Floor)
  }

  function Clamp(c: Config, k: int): int {
    var low := if k < c.minReplicas then c.minReplicas else k;
    if low > c.maxReplicas then c.maxReplicas else low
  }

  // An overloaded node is scaled down by its load ratio, any other is scaled up.
  function Scaled(cur: int, cnt: int, avg: real): real
    requires avg > 0.0
  {
    var ratio := cnt as real / avg;
    if ratio > 1.0 then cur as real / ratio else cur as real * (2.0 - ratio)
  }

  // The replica count a node with cnt requests is to get.
  function Target(c: Config, cur: int, cnt: int, avg: real): int
    requires avg > 0.0
  {
    Clamp(c, Trunc(Scaled(cur, cnt, avg)))
  }

  // The replica count it has afterwards: a node without replicas cannot be
  // removed, and stays without.
  function Resized(c: Config, cur: int, cnt: int, avg: real): int
    requires avg > 0.0
  {
    if cur == 0 then 0 else Target(c, cur, cnt, avg)
  }

  function Average(total: int, n: nat): real
    requires n > 0
  {
    total as real / n as real
  }

  // Relative deviation of a counter from the average.
  function Deviation(cnt: int, avg: real): real
    requires avg > 0.0
  {
    var d := cnt as real - avg;
    (if d >= 0.0 then d else -d) / avg
  }

  // A counter deviates by more than t when it is above (1 + t) or below (1 - t)
  // times the average.
  lemma DeviationIff(cnt: int, avg: real, t: real)
    requires avg > 0.0
    ensures Deviation(cnt, avg) > t <==> OutOfBand(cnt, avg, t)
  {
    var d := cnt as real - avg;
    var a := if d >= 0.0 then d else -d;
    Above(a, avg, t);
  }

  predicate OutOfBand(cnt: int, avg: real, t: real) {
    cnt as real > (1.0 + t) * avg || cnt as real < (1.0 - t) * avg
  }

  lemma Above(a: real, avg: real, t: real)
    requires avg > 0.0
    ensures a / avg > t <==> a > t * avg
  {
    var q := a / avg;
    assert q * avg == a;
    if q > t {
      Scale(q, t, avg);
    } else {
      ScaleLe(q, t, avg);
    }
  }

  lemma Scale(q: real, t: real, avg: real)
    requires avg > 0.0 && q > t
    ensures q * avg > t * avg
  {
    assert (q - t) * avg > 0.0;
  }

  lemma ScaleLe(q: real, t: real, avg: real)
    requires avg > 0.0 && q <= t
    ensures q * avg <= t * avg
  {
    assert (t - q) * avg >= 0.0;
  }

  // Answer of Get: no node, a node, or the nil counter of a point without owner.
  datatype Answer = Nowhere | Node(name: string) | NilCounter

  // sort.Search for the first key not below x.
  method Search(keys: seq<int>, x: int) returns (idx: nat)
    requires Sorted(keys)
    ensures idx <= |keys|
    ensures forall k :: 0 <= k < idx ==> keys[k] < x
    ensures forall k :: idx <= k < |keys| ==> keys[k] >= x
  {
    var i, j := 0, |keys|;
    while i < j
      invariant 0 <= i <= j <= |keys|
      invariant forall k :: 0 <= k < i ==> keys[k] < x
      invariant forall k :: j <= k < |keys| ==> keys[k] >= x
    {
      var mid := (i + j) / 2;
      if keys[mid] < x {
        i := mid + 1;
      } else {
        j := mid;
      }
    }
    idx := i;
  }

  class Map {
    const hash: HashFunc
    const config: Config
    var keys: seq<int>
    var hashMap: map<int, string>
    var nodeReplicas: map<string, int>
    var nodeCounts: map<string, int>
    var totalRequests: int

    ghost function State(): Ring
      reads this
    {
      Ring(keys, hashMap, nodeReplicas, nodeCounts)
    }

    constructor (hash: HashFunc, config: Config)
      ensures Ok(hash, State())
      ensures State() == Ring([], map[], map[], map[]) && totalRequests == 0
      ensures this.hash == hash && this.config == config
    {
      this.hash := hash;
      this.config := config;
      keys, hashMap, nodeReplicas, nodeCounts, totalRequests := [], map[], map[], map[], 0;
    }

    // addNode: keys are left unsorted.
    method AddNode(node: string, replicas: int)
      modifies `keys, `hashMap, `nodeReplicas, `nodeCounts
      ensures State() == With(hash, old(State()), node, replicas)
    {
      var i := 0;
      while i < replicas
        invariant 0 <= i && (i <= replicas || i == 0)
        invariant keys == old(keys) + Points(hash, node, i)
        invariant hashMap == Owned(hash, old(hashMap), node, i)
        invariant nodeReplicas == old(nodeReplicas) && nodeCounts == old(nodeCounts)
      {
        var p := Point(hash, node, i);
        keys := keys + [p];
        hashMap := hashMap[p := node];
        i := i + 1;
      }
      nodeReplicas := nodeReplicas[node := replicas];
      if node !in nodeCounts {
        nodeCounts := nodeCounts[node := 0];
      }
    }

    method Add(nodes: seq<string>) returns (err: bool)
      modifies `keys, `hashMap, `nodeReplicas, `nodeCounts
      ensures err == (nodes == [])
      ensures State() == Joined(hash, config.defaultReplicas, old(State()), nodes)
    {
      if |nodes| == 0 {
        return true;
      }
      for i := 0 to |nodes|
        invariant State() == Placed(hash, config.defaultReplicas, old(State()), nodes[..i])
      {
        assert nodes[..i + 1][..i] == nodes[..i];
        if nodes[i] == "" {
          continue;
        }
        AddNode(nodes[i], config.defaultReplicas);
      }
      assert nodes[..|nodes|] == nodes;
      keys := SortInts(keys);
      return false;
    }

    // Remove: err for the empty name and for a node without replicas.
    method Remove(node: string) returns (err: bool)
      modifies `keys, `hashMap, `nodeReplicas, `nodeCounts
      ensures err == (node == "" || node !in old(nodeReplicas) || old(nodeReplicas)[node] == 0)
      ensures State() == Left(hash, old(State()), node)
    {
      if node == "" {
        return true;
      }
      var replicas := if node in nodeReplicas then nodeReplicas[node] else 0;
      if replicas == 0 {
        return true;
      }
      var i := 0;
      while i < replicas
        invariant 0 <= i && (i <= replicas || i == 0)
        invariant keys == Dropped(hash, old(keys), node, i)
        invariant hashMap == Disowned(hash, old(hashMap), node, i)
        invariant nodeReplicas == old(nodeReplicas) && nodeCounts == old(nodeCounts)
      {
        var p := Point(hash, node, i);
        hashMap := hashMap - {p};
        var j := 0;
        while j < |keys|
          invariant 0 <= j <= |keys| && keys == Dropped(hash, old(keys), node, i)
          invariant forall k :: 0 <= k < j ==> keys[k] != p
        {
          if keys[j] == p {
            break;
          }
          j := j + 1;
        }
        if j < |keys| {
          assert j == IndexOf(keys, p);
          keys := keys[..j] + keys[j + 1..];
        }
        i := i + 1;
      }
      nodeReplicas := nodeReplicas - {node};
      nodeCounts := nodeCounts - {node};
      return false;
    }

    method Get(key: string) returns (a: Answer)
      requires Sorted(keys)
      modifies `nodeCounts, `totalRequests
      ensures key == "" || keys == [] ==>
                a == Nowhere && nodeCounts == old(nodeCounts) && totalRequests == old(totalRequests)
      ensures key != "" && keys != [] ==>
                exists idx: nat :: Successor(keys, hash(key), idx) && a == AnswerAt(idx, old(nodeCounts))
      ensures a.Node? ==> && a.name in old(nodeCounts) && totalRequests == old(totalRequests) + 1
                          && nodeCounts == old(nodeCounts)[a.name := old(nodeCounts)[a.name] + 1]
      ensures key != "" && keys != [] && Ok(hash, old(State())) ==>
                a.Node? && Routes(hash, nodeReplicas, hash(key), a.name)
    {
      if key == "" {
        return Nowhere;
      }
      if |keys| == 0 {
        return Nowhere;
      }
      var x := hash(key);
      var idx := Search(keys, x);
      if idx == |keys| {
        idx := 0;
      }
      assert Successor(keys, x, idx);
      ghost var canonical := Canonical(hash, keys, hashMap, nodeReplicas);
      if canonical {
        SuccessorRoutes(hash, keys, hashMap, nodeReplicas, x, idx);
      }
      var p := keys[idx];
      var node := if p in hashMap then hashMap[p] else "";
      if node !in nodeCounts {
        return NilCounter;
      }
      nodeCounts := nodeCounts[node := nodeCounts[node] + 1];
      totalRequests := totalRequests + 1;
      return Node(node);
    }

    ghost function AnswerAt(idx: nat, counts: map<string, int>): Answer
      requires idx < |keys|
      reads this
    {
      var n := if keys[idx] in hashMap then hashMap[keys[idx]] else "";
      if n in counts then Node(n) else NilCounter
    }

    // Every node has the replica count its load asks for, the counters start
    // again from zero, and a canonical ring is canonical again.
    twostate predicate Rebalanced(names: set<string>, bound: int)
      reads this
      requires old(totalRequests) > 0
      requires old(nodeCounts.Keys) == old(nodeReplicas.Keys)
    {
      && nodeReplicas.Keys == old(nodeReplicas.Keys)
      && (forall n {:trigger nodeReplicas[n]} :: n in nodeReplicas ==>
           nodeReplicas[n] == Resized(config, old(nodeReplicas)[n], old(nodeCounts)[n],
             Average(old(totalRequests), |old(nodeReplicas)|)))
      && totalRequests == 0 && nodeCounts.Keys == nodeReplicas.Keys
      && (forall n {:trigger nodeCounts[n]} :: n in nodeCounts ==> nodeCounts[n] == 0)
      && Sorted(keys)
      && (old(Canonical(hash, keys, hashMap, nodeReplicas)) && CollisionFree(hash, names, bound)
          && old(Within(nodeReplicas, names, bound)) && config.minReplicas <= bound && config.maxReplicas <= bound
          ==> Canonical(hash, keys, hashMap, nodeReplicas))
    }

    // rebalanceNodes without its locking; every node is visited once, in any order.
    method RebalanceNodes(ghost names: set<string>, ghost bound: int)
      requires nodeCounts.Keys == nodeReplicas.Keys && "" !in nodeReplicas
      requires totalRequests > 0
      modifies this
      ensures Rebalanced(names, bound)
    {
      hide Canonical, CollisionFree, Within, Resized;
      if |nodeReplicas| > 0 {
        ResizeAll(Average(totalRequests, |nodeReplicas|), names, bound);
      }
      ResetCounts();
      totalRequests := 0;
      SortKeys();
    }

    // sort.Ints(m.keys).
    method SortKeys()
      modifies `keys
      ensures keys == SortInts(old(keys)) && Sorted(keys)
      ensures old(Canonical(hash, keys, hashMap, nodeReplicas)) ==> Canonical(hash, keys, hashMap, nodeReplicas)
    {
      hide Canonical;
      ghost var good := Canonical(hash, keys, hashMap, nodeReplicas);
      if good {
        SortCanonical(hash, keys, hashMap, nodeReplicas);
      }
      SortIntsSorts(keys);
      keys := SortInts(keys);
    }

    method ResizeAll(avg: real, ghost names: set<string>, ghost bound: int)
      requires nodeCounts.Keys == nodeReplicas.Keys && "" !in nodeReplicas && avg > 0.0
      modifies `keys, `hashMap, `nodeReplicas, `nodeCounts
      ensures nodeReplicas.Keys == old(nodeReplicas.Keys) == nodeCounts.Keys
      ensures forall n {:trigger nodeReplicas[n]} :: n in nodeReplicas ==>
                nodeReplicas[n] == Resized(config, old(nodeReplicas)[n], old(nodeCounts)[n], avg)
      ensures old(Canonical(hash, keys, hashMap, nodeReplicas)) && CollisionFree(hash, names, bound)
              && old(Within(nodeReplicas, names, bound)) && config.minReplicas <= bound && config.maxReplicas <= bound
              ==> Canonical(hash, keys, hashMap, nodeReplicas)
    {
      hide Canonical, CollisionFree, Within, Target;
      ghost var good := Canonical(hash, keys, hashMap, nodeReplicas) && CollisionFree(hash, names, bound)
                        && Within(nodeReplicas, names, bound)
                        && config.minReplicas <= bound && config.maxReplicas <= bound;
      var todo := nodeCounts.Keys;
      while todo != {}
        invariant todo <= nodeReplicas.Keys == old(nodeReplicas.Keys) == nodeCounts.Keys
        invariant forall n {:trigger nodeReplicas[n]} :: n in todo ==>
                    nodeReplicas[n] == old(nodeReplicas)[n] && nodeCounts[n] == old(nodeCounts)[n]
        invariant forall n {:trigger nodeReplicas[n]} :: n in nodeReplicas && n !in todo ==>
                    nodeReplicas[n] == Resized(config, old(nodeReplicas)[n], old(nodeCounts)[n], avg)
        invariant good ==> Canonical(hash, keys, hashMap, nodeReplicas) && Within(nodeReplicas, names, bound)
        decreases |todo|
      {
        var node :| node in todo;
        todo := todo - {node};
        Resize(node, avg, names, bound);
      }
    }

    // One round of the loop.
    method Resize(node: string, avg: real, ghost names: set<string>, ghost bound: int)
      requires node in nodeReplicas && node in nodeCounts && node != "" && avg > 0.0
      modifies `keys, `hashMap, `nodeReplicas, `nodeCounts
      ensures nodeReplicas ==
              old(nodeReplicas)[node := Resized(config, old(nodeReplicas)[node], old(nodeCounts)[node], avg)]
      ensures nodeCounts.Keys == old(nodeCounts).Keys
      ensures forall n {:trigger nodeCounts[n]} :: n in nodeCounts && n != node ==> nodeCounts[n] == old(nodeCounts)[n]
      ensures old(Canonical(hash, keys, hashMap, nodeReplicas)) && CollisionFree(hash, names, bound)
              && old(Within(nodeReplicas, names, bound)) && config.minReplicas <= bound && config.maxReplicas <= bound
              ==> Canonical(hash, keys, hashMap, nodeReplicas) && Within(nodeReplicas, names, bound)
    {
      ghost var good := Canonical(hash, keys, hashMap, nodeReplicas) && CollisionFree(hash, names, bound)
                        && Within(nodeReplicas, names, bound)
                        && config.minReplicas <= bound && config.maxReplicas <= bound;
      ghost var r0, ks, hm := nodeReplicas, keys, hashMap;
      var currentReplicas := nodeReplicas[node];
      var newReplicas := Target(config, currentReplicas, nodeCounts[node], avg);
      hide Canonical, CollisionFree, Target, Points, Owned, Dropped, Disowned;
      if newReplicas != currentReplicas {
        var err := Remove(node);
        if !err {
          ghost var ks1, hm1 := keys, hashMap;
          AddNode(node, newReplicas);
          assert r0 - {node} == r0 - {node} && (r0 - {node})[node := newReplicas] == r0[node := newReplicas];
          if good {
            RemoveCanonical(hash, ks, hm, r0, names, bound, node);
            TargetBound(config, currentReplicas, newReplicas, bound);
            AddCanonical(hash, ks1, hm1, r0 - {node}, names, bound, node, newReplicas);
          }
        }
      } else {
        assert r0[node := currentReplicas] == r0;
      }
    }

    method ResetCounts()
      modifies `nodeCounts
      ensures nodeCounts.Keys == old(nodeCounts).Keys
      ensures forall n {:trigger nodeCounts[n]} :: n in nodeCounts ==> nodeCounts[n] == 0
    {
      var todo := nodeCounts.Keys;
      while todo != {}
        invariant todo <= nodeCounts.Keys == old(nodeCounts).Keys
        invariant forall n {:trigger nodeCounts[n]} :: n in nodeCounts && n !in todo ==> nodeCounts[n] == 0
        decreases |todo|
      {
        var n :| n in todo;
        todo := todo - {n};
        nodeCounts := nodeCounts[n := 0];
      }
    }

    // checkAndRebalance: rebalance exactly when enough requests were seen and
    // some counter deviates from the average by more than the threshold.
    method CheckAndRebalance(ghost names: set<string>, ghost bound: int) returns (rebalanced: bool)
      requires nodeCounts.Keys == nodeReplicas.Keys && "" !in nodeReplicas
      modifies this
      ensures rebalanced <==> old(Unbalanced())
      ensures !rebalanced ==> State() == old(State()) && totalRequests == old(totalRequests)
      ensures rebalanced ==> Rebalanced(names, bound)
    {
      if totalRequests < 1000 {
        return false;
      }
      if |nodeReplicas| == 0 {
        return false;
      }
      var avgLoad := Average(totalRequests, |nodeReplicas|);
      assert avgLoad > 0.0;
      var maxDiff := MaxDeviation(avgLoad);
      if maxDiff > config.threshold {
        RebalanceNodes(names, bound);
        return true;
      }
      return false;
    }

    // The loop over the counters.
    method MaxDeviation(avgLoad: real) returns (maxDiff: real)
      requires avgLoad > 0.0 && nodeCounts != map[]
      ensures maxDiff > config.threshold <==>
                exists n :: n in nodeCounts && OutOfBand(nodeCounts[n], avgLoad, config.threshold)
    {
      maxDiff := 0.0;
      var todo := nodeCounts.Keys;
      while todo != {}
        invariant todo <= nodeCounts.Keys && maxDiff >= 0.0
        invariant forall n :: n in nodeCounts && n !in todo ==> Deviation(nodeCounts[n], avgLoad) <= maxDiff
        invariant maxDiff == 0.0 || exists n :: n in nodeCounts && maxDiff == Deviation(nodeCounts[n], avgLoad)
        decreases |todo|
      {
        var n :| n in todo;
        todo := todo - {n};
        var d := Deviation(nodeCounts[n], avgLoad);
        if d > maxDiff {
          maxDiff := d;
        }
      }
      if maxDiff == 0.0 {
        ghost var n :| n in nodeCounts;
        assert Deviation(nodeCounts[n], avgLoad) >= 0.0;
      }
      assert maxDiff > config.threshold <==>
             exists n :: n in nodeCounts && Deviation(nodeCounts[n], avgLoad) > config.threshold;
      forall n | n in nodeCounts
        ensures Deviation(nodeCounts[n], avgLoad) > config.threshold
                <==> OutOfBand(nodeCounts[n], avgLoad, config.threshold)
      {
        DeviationIff(nodeCounts[n], avgLoad, config.threshold);
      }
    }

    // Some counter is out of the band around the average.
    ghost predicate Unbalanced()
      reads this
    {
      && totalRequests >= 1000 && |nodeReplicas| > 0
      && exists n ::
           n in nodeCounts && OutOfBand(nodeCounts[n], Average(totalRequests, |nodeReplicas|), config.threshold)
    }
  }

  lemma TargetBound(c: Config, cur: int, t: int, bound: int)
    requires c.minReplicas <= bound && c.maxReplicas <= bound && exists k :: t == Clamp(c, k)
    ensures t <= bound
  {
  }
}
