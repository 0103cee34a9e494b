// What the ring does when virtual nodes share a point: the reason why the
// statements about canonical rings ask for a hash without collisions.
module RingCollisions {
  import Prelude
  import opened RingSpec
  import opened RingRoute
  import opened RingMap

  // A point on the ring that no node owns: a key that lands on it finds a nil counter.
  ghost predicate Dangles(s: Ring, p: int) {
    p in s.keys && p !in s.owner
  }

  lemma DropFirstCounts(keys: seq<int>, p: int)
    ensures multiset(DropFirst(keys, p)) == multiset(keys) - multiset{p}
  {
    var i := IndexOf(keys, p);
    if i < |keys| {
      assert keys == keys[..i] + [p] + keys[i + 1..];
    } else {
      assert p !in multiset(keys);
    }
  }

  // Each point of the removed node is taken off the ring once.
  lemma {:induction false} DroppedCounts(h: HashFunc, keys: seq<int>, n: string, k: int)
    ensures multiset(Dropped(h, keys, n, k)) == multiset(keys) - multiset(Points(h, n, k))
    decreases k
  {
    hide Points, DropFirst;
    PointsCounts(h, n, k);
    if k > 0 {
      DroppedCounts(h, keys, n, k - 1);
      DropFirstCounts(Dropped(h, keys, n, k - 1), Point(h, n, k - 1));
      TakenOneByOne(multiset(keys), multiset(Points(h, n, k - 1)), Point(h, n, k - 1));
    }
  }

  lemma PointsCounts(h: HashFunc, n: string, k: int)
    ensures multiset(Points(h, n, k)) ==
            if k <= 0 then multiset{} else multiset(Points(h, n, k - 1)) + multiset{Point(h, n, k - 1)}
  {
  }

  lemma TakenOneByOne(a: multiset<int>, b: multiset<int>, p: int)
    ensures a - b - multiset{p} == a - (b + multiset{p})
  {
  }

  lemma {:induction false} DisownedPoints(h: HashFunc, owner: map<int, string>, n: string, k: int, p: int)
    ensures p in Disowned(h, owner, n, k) <==> p in owner && p !in Points(h, n, k)
    decreases k
  {
    if k > 0 {
      DisownedPoints(h, owner, n, k - 1, p);
    }
  }

  lemma {:induction false} OwnedPoints(h: HashFunc, owner: map<int, string>, n: string, k: int, p: int)
    ensures p in Owned(h, owner, n, k) <==> p in owner || p in Points(h, n, k)
    decreases k
  {
    if k > 0 {
      OwnedPoints(h, owner, n, k - 1, p);
    }
  }

  // Removing a node leaves a point without owner exactly when the ring holds
  // that point more often than the node does.
  lemma RemovalDangles(h: HashFunc, s: Ring, n: string, p: int)
    requires n != "" && n in s.replicas && s.replicas[n] > 0 && forall q :: q in s.keys ==> q in s.owner
    ensures Dangles(Left(h, s, n), p) <==>
            p in Points(h, n, s.replicas[n]) && multiset(s.keys)[p] > multiset(Points(h, n, s.replicas[n]))[p]
  {
    var k := s.replicas[n];
    DroppedCounts(h, s.keys, n, k);
    DisownedPoints(h, s.owner, n, k, p);
    assert p in Dropped(h, s.keys, n, k) <==> p in multiset(Dropped(h, s.keys, n, k));
    assert p in s.keys <==> p in multiset(s.keys);
    assert p in Points(h, n, k) <==> p in multiset(Points(h, n, k));
  }

  // ---- rings made by one Add ------------------------------------------------

  // The points of all names, in the order in which Add places them.
  function AllPoints(h: HashFunc, d: int, names: seq<string>): seq<int>
    decreases |names|
  {
    if names == [] then []
    else AllPoints(h, d, names[..|names| - 1]) + Points(h, names[|names| - 1], d)
  }

  const EMPTY := Ring([], map[], map[], map[])

  lemma {:induction false} PlacedAll(h: HashFunc, d: int, names: seq<string>)
    requires "" !in names
    ensures var s := Placed(h, d, EMPTY, names);
            && s.keys == AllPoints(h, d, names)
            && (forall p :: p in s.owner <==> p in s.keys)
            && (forall n :: n in s.replicas <==> n in names)
            && (forall n :: n in s.replicas ==> s.replicas[n] == d)
    decreases |names|
  {
    hide Owned, Points;
    if names != [] {
      var front, n := names[..|names| - 1], names[|names| - 1];
      assert names == front + [n];
      PlacedAll(h, d, front);
      forall p ensures p in Placed(h, d, EMPTY, names).owner <==> p in Placed(h, d, EMPTY, names).keys {
        OwnedPoints(h, Placed(h, d, EMPTY, front).owner, n, d, p);
      }
    }
  }

  // All points but those of n, each as often as the other names have it.
  lemma {:induction false} OthersShare(h: HashFunc, d: int, names: seq<string>, n: string, p: int)
    requires Prelude.Distinct(names)
    ensures if n in names then
              (multiset(AllPoints(h, d, names))[p] > multiset(Points(h, n, d))[p] <==>
               exists n' :: n' in names && n' != n && p in Points(h, n', d))
            else
              (multiset(AllPoints(h, d, names))[p] > 0 <==> exists n' :: n' in names && p in Points(h, n', d))
    ensures n in names ==> multiset(AllPoints(h, d, names))[p] >= multiset(Points(h, n, d))[p]
    decreases |names|
  {
    hide Points;
    if names != [] {
      var front, last := names[..|names| - 1], names[|names| - 1];
      assert names == front + [last];
      assert Prelude.Distinct(front) && last !in front;
      OthersShare(h, d, front, n, p);
      OthersShare(h, d, front, last, p);
      assert p in Points(h, last, d) <==> multiset(Points(h, last, d))[p] > 0;
    }
  }

  // On a ring made by adding different nodes, removing one of them leaves a
  // point without owner exactly when it shares that point with another one.
  lemma SharedPointDangles(h: HashFunc, d: int, names: seq<string>, n: string, p: int)
    requires d > 0 && Prelude.Distinct(names) && "" !in names && n in names
    ensures Dangles(Left(h, Joined(h, d, EMPTY, names), n), p) <==>
            p in Points(h, n, d) && exists n' :: n' in names && n' != n && p in Points(h, n', d)
  {
    hide Points, Owned, AllPoints;
    var s := Placed(h, d, EMPTY, names);
    PlacedAll(h, d, names);
    var t := Joined(h, d, EMPTY, names);
    SortIntsSorts(s.keys);
    forall q | q in t.keys ensures q in t.owner {
      assert q in multiset(t.keys) && q in multiset(s.keys);
    }
    RemovalDangles(h, t, n, p);
    OthersShare(h, d, names, n, p);
  }

  function Seven(s: string): uint32 {
    7
  }

  lemma OnePoint(n: string)
    ensures Points(Seven, n, 1) == [7]
  {
    assert Points(Seven, n, 0) == [];
  }

  // Two nodes on the same point, one of them removed.
  lemma HalfRemoved()
    ensures var s := Left(Seven, Joined(Seven, 1, EMPTY, ["a", "b"]), "b");
            Sorted(s.keys) && s.keys != [] && (forall p :: p in s.keys ==> p !in s.owner) && "" !in s.counts
  {
    hide Owned, Disowned, Points;
    var names := ["a", "b"];
    assert names[..1] == ["a"] && names[..1][..0] == [];
    OnePoint("a");
    OnePoint("b");
    PlacedAll(Seven, 1, names);
    var s := Placed(Seven, 1, EMPTY, names);
    assert Placed(Seven, 1, EMPTY, []) == EMPTY && Placed(Seven, 1, EMPTY, ["a"]) == With(Seven, EMPTY, "a", 1);
    assert s.keys == [7, 7];
    assert SortInts([7, 7]) == [7, 7];
    assert DropFirst([7, 7], 7) == [7];
    var t := Joined(Seven, 1, EMPTY, names);
    assert Dropped(Seven, t.keys, "b", 0) == t.keys;
    DisownedPoints(Seven, t.owner, "b", 1, 7);
  }

  // Every request then fails.
  method Collide(key: string) returns (a: Answer)
    requires key != ""
    ensures a == NilCounter
  {
    hide Joined, Left;
    var m := new Map(Seven, Config(1, 1, 1, 0.25));
    var added := m.Add(["a", "b"]);
    var removed := m.Remove("b");
    HalfRemoved();
    a := m.Get(key);
  }
}
