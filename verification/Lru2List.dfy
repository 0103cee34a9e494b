// The fixed-capacity list behind each level of the LRU-2 store: first as
// operations on a plain most-recent-first sequence, then as the class that
// keeps that sequence in index arrays.
module Lru2List {
  import opened Prelude

  // One slot: expireAt <= 0 marks a logically deleted entry.
  datatype Node = Node(k: Key, v: Value, expireAt: int64) {
    predicate Live() { expireAt > 0 }
  }

  // ---- the abstract list --------------------------------------------------

  ghost predicate DistinctKeys(s: seq<Node>) {
    forall i, j :: 0 <= i < j < |s| ==> s[i].k != s[j].k
  }

  // Position of key k in s, or |s| when no entry has it.
  function Find(s: seq<Node>, k: Key): (i: nat)
    ensures i <= |s|
    ensures i < |s| ==> s[i].k == k
    ensures forall j :: 0 <= j < i ==> s[j].k != k
  {
    if s == [] then 0 else if s[0].k == k then 0 else 1 + Find(s[1..], k)
  }

  // The live entry of key k, if there is one.
  function Lookup(s: seq<Node>, k: Key): Option<Node> {
    var i := Find(s, k);
    if i < |s| && s[i].Live() then Some(s[i]) else None
  }

  // The list after put of key k.
  function Stored(cap: nat, s: seq<Node>, k: Key, v: Value, e: int64): seq<Node>
    requires cap > 0
  {
    var i := Find(s, k);
    var rest :=
      if i < |s| then Without(s, i)
      else if |s| >= cap then s[..|s| - 1]
      else s;
    [Node(k, v, e)] + rest
  }

  // the entry storing key k overwrites to make room, if there is one.
  function Victim(cap: nat, s: seq<Node>, k: Key): Option<Node>
    requires cap > 0
  {
    if Find(s, k) == |s| && |s| >= cap then Some(s[|s| - 1]) else None
  }

  // The list after get of key k.
  function Touched(s: seq<Node>, k: Key): seq<Node> {
    var i := Find(s, k);
    if i < |s| then [s[i]] + Without(s, i) else s
  }

  // The list after del of key k.
  function Killed(s: seq<Node>, k: Key): seq<Node> {
    var i := Find(s, k);
    if i < |s| && s[i].Live() then Without(s, i) + [s[i].(expireAt := 0)] else s
  }

  // Calls walker on the live entries in list order, threading acc through,
  // until walker answers false.
  function Walked<A>(s: seq<Node>, acc: A, walker: (A, Node) -> (A, bool)): A {
    if s == [] then acc
    else if !s[0].Live() then Walked(s[1..], acc, walker)
    else
      var (next, more) := walker(acc, s[0]);
      if more then Walked(s[1..], next, walker) else next
  }

  lemma FindUnique(s: seq<Node>, k: Key, j: nat)
    requires DistinctKeys(s) && j < |s| && s[j].k == k
    ensures Find(s, k) == j
  {
  }

  // ---- doubly linked columns ----------------------------------------------

  // Element i of s, or the sentinel 0 past either end.
  function At(s: seq<uint16>, i: int): uint16 {
    if 0 <= i < |s| then s[i] else 0
  }

  // The slots of s are distinct rows of a table with n rows; row 0 is the sentinel.
  ghost predicate Slots(s: seq<uint16>, n: nat) {
    && Distinct(s)
    && forall i {:trigger s[i]} :: 0 <= i < |s| ==> 0 < s[i] as int < n
  }

  // Following column next from the sentinel visits s in order and returns to
  // the sentinel; column prev leads back.
  ghost predicate Linked(prev: seq<uint16>, next: seq<uint16>, s: seq<uint16>) {
    && |prev| == |next| > 0
    && Slots(s, |next|)
    && next[0] == At(s, 0)
    && prev[0] == At(s, |s| - 1)
    && (forall i {:trigger next[s[i]]} :: 0 <= i < |s| ==> next[s[i]] == At(s, i + 1))
    && (forall i {:trigger prev[s[i]]} :: 0 <= i < |s| ==> prev[s[i]] == At(s, i - 1))
  }

  lemma LinkedMirror(prev: seq<uint16>, next: seq<uint16>, s: seq<uint16>)
    requires Linked(prev, next, s)
    ensures Linked(next, prev, Rev(s))
  {
  }

  // n distinct slots below n + 1 are all of 1..n.
  lemma SlotsCover(s: seq<uint16>, n: nat, x: uint16)
    requires Slots(s, n + 1) && |s| == n && 0 < x as int <= n
    ensures x in s
  {
    var all := UpTo(n);
    var used := set i | 0 <= i < |s| :: s[i] as int;
    DistinctSize(s);
    if x !in s {
      assert used <= all - {x as int};
      SubsetSize(used, all - {x as int});
    }
  }

  ghost function UpTo(n: nat): (r: set<int>)
    ensures forall i :: i in r <==> 0 < i <= n
    ensures |r| == n
  {
    if n == 0 then {} else UpTo(n - 1) + {n}
  }

  lemma {:induction false} DistinctSize(s: seq<uint16>)
    requires Distinct(s)
    ensures |set i | 0 <= i < |s| :: s[i] as int| == |s|
  {
    if s != [] {
      var t := s[..|s| - 1];
      DistinctSize(t);
      assert (set i | 0 <= i < |s| :: s[i] as int) == (set i | 0 <= i < |t| :: t[i] as int) + {s[|s| - 1] as int};
    }
  }

  lemma RevMove(s: seq<uint16>, j: nat)
    requires j < |s|
    ensures Rev([s[j]] + Without(Rev(s), |s| - 1 - j)) == Without(s, j) + [s[j]]
  {
  }

  lemma SlotsWithout(s: seq<uint16>, n: nat, j: nat)
    requires Slots(s, n) && j < |s|
    ensures Slots(Without(s, j), n) && s[j] !in Without(s, j)
  {
  }

  // Splicing a slot out joins its two neighbours, in both columns.
  lemma LinkedRemove(prev: seq<uint16>, next: seq<uint16>, s: seq<uint16>, j: nat)
    requires Linked(prev, next, s) && j < |s|
    ensures var p', n' := prev[next[s[j]] := prev[s[j]]], next[prev[s[j]] := next[s[j]]];
            Linked(p', n', Without(s, j))
    ensures next[s[j]] == At(s, j + 1) && prev[s[j]] == At(s, j - 1)
  {
  }

  lemma SlotsPush(s: seq<uint16>, n: nat, x: uint16)
    requires Slots(s, n) && x !in s && 0 < x as int < n
    ensures Slots([x] + s, n)
  {
  }

  // Hanging a slot that is not in the list between the sentinel and the head.
  lemma LinkedPush(prev: seq<uint16>, next: seq<uint16>, s: seq<uint16>, x: uint16)
    requires Linked(prev, next, s) && x !in s && 0 < x as int < |next|
    ensures var p', n' := prev[x := 0][next[0] := x], next[x := next[0]][0 := x];
            Linked(p', n', [x] + s)
  {
    var p', n' := prev[x := 0][next[0] := x], next[x := next[0]][0 := x];
    var r := [x] + s;
    SlotsPush(s, |next|, x);
    assert forall i :: 0 <= i < |s| ==> r[i + 1] == s[i];
    forall i | 0 <= i < |r| ensures n'[r[i]] == At(r, i + 1) && p'[r[i]] == At(r, i - 1) {
      if i > 0 {
        assert r[i] == s[i - 1];
        assert next[s[i - 1]] == At(s, i);
        assert prev[s[i - 1]] == At(s, i - 2);
      }
    }
  }

  // ---- the index arrays ---------------------------------------------------

  const P: nat := 0
  const N: nat := 1

  class Cache {
    const dlnk: array2<uint16>
    const m: array<Node>
    var hmap: map<Key, uint16>
    var last: uint16
    // Slot numbers from the head of the list to its tail.
    ghost var order: seq<uint16>

    ghost function Column(c: nat): (r: seq<uint16>)
      requires c < 2 && dlnk.Length1 == 2
      reads dlnk
      ensures |r| == dlnk.Length0
      ensures forall i {:trigger r[i]} :: 0 <= i < |r| ==> r[i] == dlnk[i, c]
    {
      seq(dlnk.Length0, i requires 0 <= i < dlnk.Length0 reads dlnk => dlnk[i, c])
    }

    method SetLink(row: uint16, c: nat, v: uint16)
      requires c < 2 && dlnk.Length1 == 2 && row as int < dlnk.Length0
      modifies dlnk
      ensures Column(c) == old(Column(c))[row := v]
      ensures Column(1 - c) == old(Column(1 - c))
    {
      dlnk[row, c] := v;
    }

    method Adjust(idx: uint16, f: nat, t: nat, ghost s: seq<uint16>, ghost j: nat)
      requires f < 2 && t == 1 - f
      requires dlnk.Length1 == 2
      requires Linked(Column(f), Column(t), s)
      requires j < |s| && s[j] == idx
      modifies dlnk
      ensures Linked(Column(f), Column(t), [idx] + Without(s, j))
    {
      if dlnk[idx, f] != 0 {
        assert Column(f)[s[j]] == At(s, j - 1);
        ghost var prev, next := Column(f), Column(t);
        LinkedRemove(prev, next, s, j);
        ghost var p1, n1 := prev[next[idx] := prev[idx]], next[prev[idx] := next[idx]];
        assert next[idx] == At(s, j + 1) != idx && prev[idx] == At(s, j - 1) != idx;
        SetLink(dlnk[idx, t], f, dlnk[idx, f]);
        assert Column(f)[idx] == prev[idx] && Column(t)[idx] == next[idx];
        SetLink(dlnk[idx, f], t, dlnk[idx, t]);
        assert Column(f) == p1 && Column(t) == n1;
        ghost var w := Without(s, j);
        assert idx !in w;
        LinkedPush(p1, n1, w, idx);
        SetLink(idx, f, 0);
        assert Column(t)[0] == n1[0];
        SetLink(idx, t, dlnk[0, t]);
        assert Column(t)[0] == n1[0];
        SetLink(dlnk[0, t], f, idx);
        SetLink(0, t, idx);
      } else {
        assert j == 0 by {
          assert Column(f)[s[j]] == At(s, j - 1);
        }
        assert [idx] + Without(s, j) == s;
      }
    }

    // The entries from the head of the list to its tail.
    ghost function Contents(): (r: seq<Node>)
      reads this, m
    {
      Entries(order, m[..])
    }

    ghost predicate Valid()
      reads this, dlnk, m
    {
      && 0 < m.Length < 0xFFFF
      && dlnk.Length0 == m.Length + 1 && dlnk.Length1 == 2
      && |order| == last as int <= m.Length
      && Linked(Column(P), Column(N), order)
      && Slots(order, last as int + 1)
      && Indexed(last, m[..], hmap)
    }

    // Length of the link table: the sum is taken in 16 bits.
    static function Rows(cap: uint16): nat {
      (cap as int + 1) % 0x1_0000
    }

    constructor (cap: uint16)
      ensures fresh(dlnk) && fresh(m)
      ensures m.Length == cap as int
      ensures Valid() <==> 0 < cap < 0xFFFF
      ensures Valid() ==> Contents() == []
    {
      dlnk := new uint16[Rows(cap), 2]((_, _) => 0);
      m := new Node[cap as int](_ => Node([], Nil, 0));
      hmap := map[];
      last := 0;
      order := [];
    }

    // Moves the slot at position j of the list to the head.
    method ToHead(idx: uint16, ghost j: nat)
      requires Valid() && j < |order| && order[j] == idx
      modifies dlnk, `order
      ensures Valid() && Contents() == [old(Contents())[j]] + Without(old(Contents()), j)
      ensures order == [idx] + Without(old(order), j)
    {
      hide Indexed, Slots, Entries, Without;
      ghost var o := order;
      Adjust(idx, P, N, o, j);
      order := [idx] + Without(o, j);
      MoveSlot(o, order, last, m[..], j);
    }

    // The mirror image: walking backwards, moving to the head is moving to the tail.
    method ToTail(idx: uint16, ghost j: nat)
      requires Valid() && j < |order| && order[j] == idx
      modifies dlnk, `order
      ensures Valid() && Contents() == Without(old(Contents()), j) + [old(Contents())[j]]
    {
      hide Indexed, Slots, Entries, Without;
      ghost var o := order;
      LinkedMirror(Column(P), Column(N), o);
      Adjust(idx, N, P, Rev(o), |o| - 1 - j);
      order := Without(o, j) + [idx];
      LinkedMirror(Column(N), Column(P), [idx] + Without(Rev(o), |o| - 1 - j));
      RevMove(o, j);
      MoveSlot(o, order, last, m[..], j);
    }

    ghost function Cap(): nat { m.Length }

    // put: refresh the entry of a known key, overwrite the tail of a full
    // list, or take the next free slot; in each case the entry ends up at the head.
    method Put(key: Key, val: Value, expireAt: int64)
      returns (added: int, evictedKey: Key, evictedValue: Value, evicted: bool)
      requires Valid()
      modifies this, dlnk, m
      ensures Valid() && Contents() == Stored(Cap(), old(Contents()), key, val, expireAt)
      ensures added == if Find(old(Contents()), key) < |old(Contents())| then 0 else 1
      ensures match Victim(Cap(), old(Contents()), key)
              case None => !evicted && evictedKey == [] && evictedValue == Nil
              case Some(n) => evicted == n.Live() && evictedKey == n.k && evictedValue == n.v
    {
      hide Linked, Indexed, Slots, Entries, Without;
      IndexedFind(order, last, m[..], hmap, key);
      if key in hmap {
        PutKnown(key, val, expireAt);
        return 0, [], Nil, false;
      }
      if last as int == m.Length {
        evictedKey, evictedValue, evicted := PutReuse(key, val, expireAt);
        return 1, evictedKey, evictedValue, evicted;
      }
      PutFree(key, val, expireAt);
      return 1, [], Nil, false;
    }

    // get: a hit moves the entry to the head, whether it is live or not.
    method Get(key: Key) returns (n: Option<Node>)
      requires Valid()
      modifies this, dlnk
      ensures Valid() && Contents() == Touched(old(Contents()), key)
      ensures var s := old(Contents()); var i := Find(s, key);
              n == if i < |s| then Some(s[i]) else None
    {
      hide Linked, Indexed, Slots, Entries, Without;
      ghost var s := Contents();
      IndexedFind(order, last, m[..], hmap, key);
      if key in hmap {
        var idx := hmap[key];
        ghost var j := Find(s, key);
        EntryOf(order, last, m[..], hmap, j);
        ToHead(idx, j);
        return Some(m[idx - 1]);
      }
      return None;
    }

    // del: a live entry is marked deleted and moved to the tail, to be reused first.
    method Del(key: Key) returns (n: Option<Node>, status: int, expireAt: int64)
      requires Valid()
      modifies this, dlnk, m
      ensures Valid() && Contents() == Killed(old(Contents()), key)
      ensures match Lookup(old(Contents()), key)
              case Some(x) => n == Some(x.(expireAt := 0)) && status == 1 && expireAt == x.expireAt
              case None => n == None && status == 0 && expireAt == 0 && Contents() == old(Contents())
    {
      hide Linked, Indexed, Slots, Entries, Without;
      ghost var was, s := m[..], Contents();
      IndexedFind(order, last, was, hmap, key);
      if key in hmap {
        ghost var j := Find(s, key);
        EntryOf(order, last, was, hmap, j);
        var idx := hmap[key];
        if m[idx - 1].expireAt > 0 {
          expireAt := m[idx - 1].expireAt;
          m[idx - 1] := m[idx - 1].(expireAt := 0);
          assert m[..] == was[idx - 1 := s[j].(expireAt := 0)];
          WriteSlot(order, last, was, hmap, j, s[j].(expireAt := 0));
          ghost var s1 := Contents();
          ToTail(idx, j);
          assert Contents() == Without(s1, j) + [s1[j]];
          return Some(m[idx - 1]), 1, expireAt;
        }
      }
      return None, 0, 0;
    }

    method Walk<A>(acc: A, walker: (A, Node) -> (A, bool)) returns (r: A)
      requires Valid()
      ensures r == Walked(Contents(), acc, walker)
    {
      ghost var i, s := 0, Contents();
      r := acc;
      var idx := dlnk[0, N];
      assert Column(N)[0] == At(order, 0);
      while idx != 0
        invariant 0 <= i <= |order| && idx == At(order, i)
        invariant Walked(s, acc, walker) == Walked(s[i..], r, walker)
        decreases |order| - i
      {
        assert s[i] == m[idx - 1] && s[i..][0] == s[i] && s[i..][1..] == s[i + 1..];
        if m[idx - 1].expireAt > 0 {
          var (next, more) := walker(r, m[idx - 1]);
          r := next;
          if !more {
            return;
          }
        }
        assert Column(N)[order[i]] == At(order, i + 1);
        idx := dlnk[idx, N];
        i := i + 1;
      }
    }

    // The branch of put for a key that has a slot.
    method PutKnown(key: Key, val: Value, expireAt: int64)
      requires Valid() && key in hmap
      modifies this, dlnk, m
      ensures Valid()
      ensures var s := old(Contents());
              Find(s, key) < |s| && Contents() == [Node(key, val, expireAt)] + Without(s, Find(s, key))
    {
      hide Linked, Indexed, Slots, Entries, Without;
      ghost var was, s := m[..], Contents();
      IndexedFind(order, last, was, hmap, key);
      ghost var j := Find(s, key);
      EntryOf(order, last, was, hmap, j);
      var idx := hmap[key];
      m[idx - 1] := m[idx - 1].(v := val, expireAt := expireAt);
      assert m[..] == was[idx - 1 := Node(key, val, expireAt)];
      WriteSlot(order, last, was, hmap, j, Node(key, val, expireAt));
      ToHead(idx, j);
    }

    // The branch of put for a full list.
    method PutReuse(key: Key, val: Value, expireAt: int64)
      returns (evictedKey: Key, evictedValue: Value, evicted: bool)
      requires Valid() && key !in hmap && last as int == m.Length
      modifies this, dlnk, m
      ensures Valid() && Contents() == [Node(key, val, expireAt)] + old(Contents())[..|old(Contents())| - 1]
      ensures old(last > 0)
      ensures evicted == old(Contents()[last - 1].Live())
      ensures evictedKey == old(Contents()[last - 1].k) && evictedValue == old(Contents()[last - 1].v)
    {
      hide Indexed, Slots, Entries, Without;
      ghost var o, was, h := order, m[..], hmap;
      var idx := dlnk[0, P];
      assert Column(P)[0] == o[|o| - 1];
      EntryOf(o, last, was, h, |o| - 1);
      var tail := m[idx - 1];
      evicted, evictedKey, evictedValue := tail.Live(), tail.k, tail.v;
      hmap := hmap - {tail.k};
      hmap := hmap[key := idx];
      m[idx - 1] := Node(key, val, expireAt);
      assert m[..] == was[idx - 1 := Node(key, val, expireAt)];
      ReuseSlot(o, last, was, h, Node(key, val, expireAt));
      ghost var s1 := Contents();
      ToHead(idx, |o| - 1);
      assert Contents() == [s1[|o| - 1]] + Without(s1, |o| - 1);
    }

    // The branch of put for a list with a free slot.
    method PutFree(key: Key, val: Value, expireAt: int64)
      requires Valid() && key !in hmap && last as int < m.Length
      modifies this, dlnk, m
      ensures Valid() && Contents() == [Node(key, val, expireAt)] + old(Contents())
    {
      hide Linked, Indexed, Slots, Entries, Without;
      ghost var o, was, h := order, m[..], hmap;
      IndexedEmpty(last, was, h);
      FreeSlot(o, last, was, h, Node(key, val, expireAt));
      last := last + 1;
      var empty := |hmap| <= 0;
      m[last - 1] := Node(key, val, expireAt);
      hmap := hmap[key := last];
      order := [last] + o;
      assert m[..] == was[last - 1 := Node(key, val, expireAt)];
      LinkFree(last, empty, o);
    }

    // The link updates of that branch: free row x becomes the head.
    method LinkFree(x: uint16, empty: bool, ghost s: seq<uint16>)
      requires dlnk.Length1 == 2 && 0 < x as int < dlnk.Length0
      requires Linked(Column(P), Column(N), s) && x !in s && (empty <==> s == [])
      modifies dlnk
      ensures Linked(Column(P), Column(N), [x] + s)
    {
      ghost var prev, next := Column(P), Column(N);
      assert next[0] == At(s, 0);
      if empty {
        SetLink(0, P, x);
      } else {
        SetLink(dlnk[0, N], P, x);
      }
      assert Column(N)[0] == next[0];
      SetLink(x, P, 0);
      assert Column(N)[0] == next[0];
      SetLink(x, N, dlnk[0, N]);
      SetLink(0, N, x);
      LinkedPush(prev, next, s, x);
      assert Column(P) == prev[x := 0][next[0] := x];
    }
  }

  // Overwriting value and expiry of the slot at position j changes one entry.
  lemma WriteSlot(order: seq<uint16>, last: uint16, m: seq<Node>, hmap: map<Key, uint16>, j: nat, x: Node)
    requires Indexed(last, m, hmap) && Slots(order, last as int + 1)
    requires j < |order| && x.k == m[order[j] - 1].k
    ensures var m' := m[order[j] - 1 := x];
            Indexed(last, m', hmap) && Entries(order, m') == Entries(order, m)[j := x]
            && Without(Entries(order, m'), j) == Without(Entries(order, m), j)
  {
    var m' := m[order[j] - 1 := x];
    assert Entries(order, m') == Entries(order, m)[j := x];
  }

  // Overwriting the tail slot with a new key keeps the index exact.
  lemma ReuseSlot(order: seq<uint16>, last: uint16, m: seq<Node>, hmap: map<Key, uint16>, x: Node)
    requires Indexed(last, m, hmap) && Slots(order, last as int + 1) && |order| == last as int > 0
    requires x.k !in hmap
    ensures var idx := order[last - 1];
            var m' := m[idx - 1 := x];
            && Indexed(last, m', (hmap - {m[idx - 1].k})[x.k := idx])
            && Entries(order, m')[last - 1] == x
            && Without(Entries(order, m'), last as int - 1) == Entries(order, m)[..last as int - 1]
  {
  }

  // Filling the next free slot and listing it first.
  lemma FreeSlot(order: seq<uint16>, last: uint16, m: seq<Node>, hmap: map<Key, uint16>, x: Node)
    requires Indexed(last, m, hmap) && Slots(order, last as int + 1) && (last as int) < |m| < 0xFFFF
    requires x.k !in hmap
    ensures var o', m' := [last + 1] + order, m[last := x];
            && Slots(o', last as int + 2)
            && Indexed(last + 1, m', hmap[x.k := last + 1])
            && Entries(o', m') == [x] + Entries(order, m)
    ensures last + 1 !in order
  {
    SlotsWiden(order, last as int + 1);
    SlotsPush(order, last as int + 2, last + 1);
    FreeIndexed(last, m, hmap, x);
    FreeEntries(order, last, m, x);
  }

  lemma SlotsWiden(s: seq<uint16>, n: nat)
    requires Slots(s, n)
    ensures Slots(s, n + 1) && forall x: uint16 :: x as int >= n ==> x !in s
  {
  }

  lemma FreeIndexed(last: uint16, m: seq<Node>, hmap: map<Key, uint16>, x: Node)
    requires Indexed(last, m, hmap) && (last as int) < |m| < 0xFFFF && x.k !in hmap
    ensures Indexed(last + 1, m[last := x], hmap[x.k := last + 1])
  {
  }

  lemma FreeEntries(order: seq<uint16>, last: uint16, m: seq<Node>, x: Node)
    requires Slots(order, last as int + 1) && (last as int) < |m| < 0xFFFF
    ensures Entries([last + 1] + order, m[last := x]) == [x] + Entries(order, m)
  {
  }

  lemma EntryOf(order: seq<uint16>, last: uint16, m: seq<Node>, hmap: map<Key, uint16>, j: nat)
    requires Indexed(last, m, hmap) && Slots(order, last as int + 1) && j < |order|
    ensures 0 < order[j] <= last
    ensures Entries(order, m)[j] == m[order[j] - 1]
    ensures m[order[j] - 1].k in hmap && hmap[m[order[j] - 1].k] == order[j]
  {
  }

  lemma IndexedEmpty(last: uint16, m: seq<Node>, hmap: map<Key, uint16>)
    requires Indexed(last, m, hmap)
    ensures hmap == map[] <==> last == 0
  {
    if last > 0 {
      assert m[0].k in hmap;
    }
  }

  // The entries held by the slots of order.
  ghost function Entries(order: seq<uint16>, m: seq<Node>): (r: seq<Node>)
    ensures |r| == |order|
  {
    seq(|order|, i requires 0 <= i < |order| => EntryAt(m, order[i]))
  }

  function EntryAt(m: seq<Node>, x: uint16): Node {
    if 0 < x as int <= |m| then m[x - 1] else Node([], Nil, 0)
  }

  // hmap sends the keys of slots 1..last to these slots, and has no other keys.
  ghost predicate Indexed(last: uint16, m: seq<Node>, hmap: map<Key, uint16>) {
    && last as int <= |m|
    && (forall x {:trigger m[x]} :: 0 <= x < last as int ==> m[x].k in hmap && hmap[m[x].k] as int == x + 1)
    && (forall k {:trigger hmap[k]} {:trigger k in hmap} :: k in hmap ==> 0 < hmap[k] <= last && m[hmap[k] - 1].k == k)
  }

  lemma EntriesDistinct(order: seq<uint16>, last: uint16, m: seq<Node>, hmap: map<Key, uint16>)
    requires Indexed(last, m, hmap) && Slots(order, last as int + 1)
    ensures DistinctKeys(Entries(order, m))
  {
  }

  lemma IndexedFind(order: seq<uint16>, last: uint16, m: seq<Node>, hmap: map<Key, uint16>, k: Key)
    requires Indexed(last, m, hmap) && Slots(order, last as int + 1) && |order| == last as int
    ensures var j := Find(Entries(order, m), k);
            if k in hmap then j < |order| && order[j] == hmap[k] else j == |order|
  {
    var s := Entries(order, m);
    EntriesDistinct(order, last, m, hmap);
    if k in hmap {
      SlotsCover(order, last as int, hmap[k]);
      var j :| 0 <= j < |order| && order[j] == hmap[k];
      assert s[j] == m[order[j] - 1];
      FindUnique(s, k, j);
    } else {
      forall j | 0 <= j < |order| ensures s[j].k != k {
        assert s[j] == m[order[j] - 1];
      }
    }
  }

  // Moving one slot of the list to either end.
  lemma MoveSlot(order: seq<uint16>, order': seq<uint16>, last: uint16, m: seq<Node>, j: nat)
    requires Slots(order, last as int + 1) && j < |order| && last as int <= |m|
    requires order' == [order[j]] + Without(order, j) || order' == Without(order, j) + [order[j]]
    ensures Slots(order', last as int + 1)
    ensures var s := Entries(order, m);
            && (order' == [order[j]] + Without(order, j) ==> Entries(order', m) == [s[j]] + Without(s, j))
            && (order' == Without(order, j) + [order[j]] ==> Entries(order', m) == Without(s, j) + [s[j]])
  {
    SlotsWithout(order, last as int + 1, j);
    MoveEntries(order, m, j);
    if order' == [order[j]] + Without(order, j) {
      SlotsPush(Without(order, j), last as int + 1, order[j]);
    } else {
      SlotsAppend(Without(order, j), last as int + 1, order[j]);
    }
  }

  lemma SlotsAppend(s: seq<uint16>, n: nat, x: uint16)
    requires Slots(s, n) && x !in s && 0 < x as int < n
    ensures Slots(s + [x], n)
  {
  }

  lemma MoveEntries(order: seq<uint16>, m: seq<Node>, j: nat)
    requires j < |order|
    ensures var s := Entries(order, m);
            && Entries([order[j]] + Without(order, j), m) == [s[j]] + Without(s, j)
            && Entries(Without(order, j) + [order[j]], m) == Without(s, j) + [s[j]]
  {
  }
}
