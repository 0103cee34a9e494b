// The byte-bounded LRU store as a value: a recency list of elements (oldest
// first), an index by key, expiry times and a byte counter.
module ByteLruSpec {
  import opened Prelude

  type Elem = nat
  type Time = int

  datatype Entry = Entry(key: Key, value: Value)

  // entries also remembers elements already taken off the list: a reader may
  // still hold one. next is the name of the next element to be created.
  datatype Lru = Lru(list: seq<Elem>, entries: map<Elem, Entry>, items: map<Key, Elem>,
                     expires: map<Key, Time>, max: int, used: int, next: Elem)

  function Len(v: Value): nat {
    match v case Nil => 0 case View(b) => |b|
  }

  function SizeOf(entries: map<Elem, Entry>, e: Elem): nat {
    if e in entries then |entries[e].key| + Len(entries[e].value) else 0
  }

  // Bytes of the listed entries: keys and values.
  function Bytes(list: seq<Elem>, entries: map<Elem, Entry>): nat {
    if list == [] then 0 else SizeOf(entries, list[0]) + Bytes(list[1..], entries)
  }

  // The list without element e.
  function Minus(list: seq<Elem>, e: Elem): seq<Elem> {
    if list == [] then [] else if list[0] == e then Minus(list[1..], e) else [list[0]] + Minus(list[1..], e)
  }

  // List and index are inverse to each other, only indexed keys expire, and the
  // byte counter is exact.
  ghost predicate Inv(s: Lru) {
    && Distinct(s.list)
    && (forall e {:trigger e in s.list} :: e in s.list ==>
         e in s.entries && s.entries[e].key in s.items && s.items[s.entries[e].key] == e)
    && (forall k {:trigger s.items[k]} {:trigger k in s.items} :: k in s.items ==>
         s.items[k] in s.list && s.items[k] in s.entries && s.entries[s.items[k]].key == k)
    && (forall e {:trigger e in s.entries} :: e in s.entries ==> e < s.next)
    && s.expires.Keys <= s.items.Keys
    && s.used == Bytes(s.list, s.entries)
  }

  // s cut down to the elements of list.
  function Cut(s: Lru, list: seq<Elem>): Lru {
    s.(list := list,
       items := map k | k in s.items && s.items[k] in list :: s.items[k],
       expires := map k | k in s.expires && k in s.items && s.items[k] in list :: s.expires[k],
       used := Bytes(list, s.entries))
  }

  lemma {:induction false} MinusMembers(list: seq<Elem>, e: Elem)
    ensures forall x :: x in Minus(list, e) <==> x in list && x != e
    ensures Distinct(list) ==> Distinct(Minus(list, e))
  {
    if list != [] {
      var t := list[1..];
      MinusMembers(t, e);
      assert list == [list[0]] + t;
      var m := Minus(t, e);
      if Distinct(list) {
        assert Distinct(t);
        HeadNotIn(list);
        PrependDistinct(list[0], m);
      }
    }
  }

  lemma HeadNotIn(list: seq<Elem>)
    requires list != [] && Distinct(list)
    ensures list[0] !in list[1..]
  {
  }

  lemma PrependDistinct(a: Elem, m: seq<Elem>)
    requires Distinct(m) && a !in m
    ensures Distinct([a] + m)
  {
  }

  lemma {:induction false} MinusAbsent(list: seq<Elem>, e: Elem)
    requires e !in list
    ensures Minus(list, e) == list
  {
    if list != [] {
      MinusAbsent(list[1..], e);
    }
  }

  lemma {:induction false} MinusBytes(list: seq<Elem>, e: Elem, entries: map<Elem, Entry>)
    requires Distinct(list) && e in list
    ensures Bytes(Minus(list, e), entries) == Bytes(list, entries) - SizeOf(entries, e)
  {
    HeadNotIn(list);
    if list[0] == e {
      MinusAbsent(list[1..], e);
    } else {
      assert e in list[1..];
      MinusBytes(list[1..], e, entries);
      var m := Minus(list[1..], e);
      assert ([list[0]] + m)[1..] == m;
    }
  }

  lemma {:induction false} AppendBytes(list: seq<Elem>, e: Elem, entries: map<Elem, Entry>)
    ensures Bytes(list + [e], entries) == Bytes(list, entries) + SizeOf(entries, e)
  {
    if list != [] {
      assert (list + [e])[1..] == list[1..] + [e];
      AppendBytes(list[1..], e, entries);
    }
  }

  // Cutting to some of the elements keeps the invariant.
  lemma CutInv(s: Lru, list: seq<Elem>)
    requires Inv(s) && Distinct(list) && forall e :: e in list ==> e in s.list
    ensures Inv(Cut(s, list))
  {
  }

  lemma CutCut(s: Lru, list: seq<Elem>, list': seq<Elem>)
    requires forall e :: e in list' ==> e in list
    ensures Cut(Cut(s, list), list') == Cut(s, list')
  {
  }

  lemma CutSelf(s: Lru)
    requires Inv(s)
    ensures Cut(s, s.list) == s
  {
  }

  // removeElement: off the list, the index and the expiry map, and the bytes given back.
  function Unlinked(s: Lru, e: Elem): Lru {
    if e in s.entries then
      var k := s.entries[e].key;
      s.(list := Minus(s.list, e), items := s.items - {k}, expires := s.expires - {k},
        used := s.used - SizeOf(s.entries, e))
    else s
  }

  // Only the removed element's own key loses its element.
  lemma UnlinkedKeys(s: Lru, e: Elem, list: seq<Elem>)
    requires Inv(s) && e in s.list && forall x :: x in list <==> x in s.list && x != e
    ensures forall k {:trigger s.items[k]} {:trigger k in s.items} :: k in s.items ==>
              (s.items[k] in list <==> k != s.entries[e].key)
    ensures e in s.entries && s.expires.Keys <= s.items.Keys && Distinct(s.list) && s.used == Bytes(s.list, s.entries)
  {
  }

  lemma UnlinkedItems(s: Lru, e: Elem, list: seq<Elem>)
    requires Inv(s) && e in s.list && forall x :: x in list <==> x in s.list && x != e
    ensures e in s.entries && s.items - {s.entries[e].key} == Cut(s, list).items
  {
  }

  lemma UnlinkedExpires(s: Lru, e: Elem, list: seq<Elem>)
    requires Inv(s) && e in s.list && forall x :: x in list <==> x in s.list && x != e
    ensures e in s.entries && s.expires - {s.entries[e].key} == Cut(s, list).expires
  {
  }

  lemma UnlinkedIsCut(s: Lru, e: Elem)
    requires Inv(s) && e in s.list
    ensures Unlinked(s, e) == Cut(s, Minus(s.list, e))
  {
    hide Inv, Distinct, Bytes, Minus, SizeOf;
    MinusMembers(s.list, e);
    UnlinkedKeys(s, e, Minus(s.list, e));
    UnlinkedItems(s, e, Minus(s.list, e));
    UnlinkedExpires(s, e, Minus(s.list, e));
    MinusBytes(s.list, e, s.entries);
  }

  lemma UnlinkedInv(s: Lru, e: Elem)
    requires Inv(s) && e in s.list
    ensures Inv(Unlinked(s, e))
  {
    hide Inv;
    assert Distinct(s.list) by { ListDistinct(s); }
    UnlinkedIsCut(s, e);
    MinusMembers(s.list, e);
    CutInv(s, Minus(s.list, e));
  }

  lemma ListDistinct(s: Lru)
    requires Inv(s)
    ensures Distinct(s.list)
  {
  }

  // ---- evict --------------------------------------------------------------

  // The elements whose key is not in gone.
  function Keep(list: seq<Elem>, entries: map<Elem, Entry>, gone: set<Key>): seq<Elem> {
    if list == [] then []
    else if list[0] in entries && entries[list[0]].key in gone then Keep(list[1..], entries, gone)
    else [list[0]] + Keep(list[1..], entries, gone)
  }

  // Keys expired at time now.
  function Overdue(s: Lru, now: Time): set<Key> {
    set k | k in s.expires && now > s.expires[k]
  }

  // The longest suffix that fits: the oldest entries go first.
  function Fit(list: seq<Elem>, entries: map<Elem, Entry>, max: int): seq<Elem> {
    if max > 0 && Bytes(list, entries) > max && list != [] then Fit(list[1..], entries, max) else list
  }

  function Evicted(s: Lru, now: Time): Lru {
    Cut(s, Fit(Keep(s.list, s.entries, Overdue(s, now)), s.entries, s.max))
  }

  lemma {:induction false} KeepMembers(list: seq<Elem>, entries: map<Elem, Entry>, gone: set<Key>)
    ensures forall x :: x in Keep(list, entries, gone) <==> x in list && !(x in entries && entries[x].key in gone)
    ensures Distinct(list) ==> Distinct(Keep(list, entries, gone))
  {
    if list != [] {
      var t := list[1..];
      KeepMembers(t, entries, gone);
      assert list == [list[0]] + t;
      if Distinct(list) {
        assert Distinct(t);
        HeadNotIn(list);
        PrependDistinct(list[0], Keep(t, entries, gone));
      }
    }
  }

  // Removing one more key's element from what is kept.
  lemma {:induction false} KeepOneLess(list: seq<Elem>, entries: map<Elem, Entry>, gone: set<Key>, e: Elem)
    requires e in entries && forall x :: x in list ==> x in entries && (entries[x].key == entries[e].key ==> x == e)
    ensures Keep(list, entries, gone + {entries[e].key}) == Minus(Keep(list, entries, gone), e)
  {
    if list != [] {
      KeepOneLess(list[1..], entries, gone, e);
      if list[0] in entries && entries[list[0]].key in gone {
      } else {
        var t := Keep(list[1..], entries, gone);
        assert ([list[0]] + t)[1..] == t;
      }
    }
  }

  lemma {:induction false} FitIsSuffix(list: seq<Elem>, entries: map<Elem, Entry>, max: int) returns (n: nat)
    ensures n <= |list| && Fit(list, entries, max) == list[n..]
    ensures max > 0 ==> Bytes(list[n..], entries) <= max
    ensures forall i :: 0 <= i < n ==> max > 0 && Bytes(list[i..], entries) > max
  {
    if max > 0 && Bytes(list, entries) > max && list != [] {
      var n' := FitIsSuffix(list[1..], entries, max);
      n := n' + 1;
      assert forall i :: 0 < i <= |list| ==> list[i..] == list[1..][i - 1..];
      assert list[0..] == list;
    } else {
      n := 0;
      assert list[0..] == list;
    }
  }

  // evict leaves nothing expired at its time and stays within a positive
  // limit; the survivors are the unexpired entries, in order, minus the
  // shortest prefix whose removal makes them fit.
  lemma EvictedMeaning(s: Lru, now: Time) returns (n: nat)
    requires Inv(s)
    ensures var t := Evicted(s, now); var kept := Keep(s.list, s.entries, Overdue(s, now));
            && Inv(t)
            && (t.max > 0 ==> t.used <= t.max)
            && Overdue(t, now) == {}
            && n <= |kept| && t.list == kept[n..]
            && forall i :: 0 <= i < n ==> s.max > 0 && Bytes(kept[i..], s.entries) > s.max
  {
    var kept := Keep(s.list, s.entries, Overdue(s, now));
    KeepMembers(s.list, s.entries, Overdue(s, now));
    n := FitIsSuffix(kept, s.entries, s.max);
    var t := Evicted(s, now);
    assert forall e :: e in kept[n..] ==> e in kept;
    CutInv(s, kept[n..]);
    forall k | k in t.expires ensures now <= t.expires[k] {
      assert s.items[k] in kept;
    }
  }

  // ---- the other critical sections ----------------------------------------

  // Expired at time now.
  predicate IsOverdue(s: Lru, k: Key, now: Time) {
    k in s.expires && now > s.expires[k]
  }

  // list.MoveToBack: nothing happens to an element that is not on the list.
  function MovedBack(list: seq<Elem>, e: Elem): seq<Elem> {
    if e in list then Minus(list, e) + [e] else list
  }

  // Second phase of Get, with the element the first phase found.
  function Touched(s: Lru, k: Key, e: Elem): Lru {
    if k in s.items then s.(list := MovedBack(s.list, e)) else s
  }

  function Deleted(s: Lru, k: Key): Lru {
    if k in s.items then Unlinked(s, s.items[k]) else s
  }

  // The new deadline of key k: none for a ttl that is not positive.
  function Timed(s: Lru, k: Key, now: Time, ttl: int): map<Key, Time> {
    if ttl > 0 then s.expires[k := now + ttl] else s.expires - {k}
  }

  // A new entry at the back, before eviction.
  function Pushed(s: Lru, k: Key, v: Value, now: Time, ttl: int): Lru {
    s.(list := s.list + [s.next], entries := s.entries[s.next := Entry(k, v)], items := s.items[k := s.next],
       expires := Timed(s, k, now, ttl), used := s.used + |k| + Len(v), next := s.next + 1)
  }

  // A new value for a stored key: no eviction follows.
  function Updated(s: Lru, k: Key, v: Value, now: Time, ttl: int): Lru
    requires k in s.items && s.items[k] in s.entries
  {
    var e := s.items[k];
    s.(list := MovedBack(s.list, e), entries := s.entries[e := Entry(s.entries[e].key, v)],
       expires := Timed(s, k, now, ttl), used := s.used + Len(v) - Len(s.entries[e].value))
  }

  // SetWithExpiration: now for the deadline, now2 for the eviction.
  function Written(s: Lru, k: Key, v: Value, now: Time, ttl: int, now2: Time): Lru {
    if v == Nil then Deleted(s, k)
    else if k in s.items && s.items[k] in s.entries then Updated(s, k, v, now, ttl)
    else Evicted(Pushed(s, k, v, now, ttl), now2)
  }

  function Cleared(s: Lru): Lru {
    s.(list := [], items := map[], expires := map[], used := 0)
  }

  lemma MoveInv(s: Lru, e: Elem)
    requires Inv(s)
    ensures Inv(s.(list := MovedBack(s.list, e)))
    ensures e in s.list ==> forall x :: x in MovedBack(s.list, e) <==> x in s.list
  {
    if e in s.list {
      MinusMembers(s.list, e);
      var m := Minus(s.list, e);
      AppendDistinct(m, e);
      AppendBytes(m, e, s.entries);
      MinusBytes(s.list, e, s.entries);
    }
  }

  lemma AppendDistinct(m: seq<Elem>, e: Elem)
    requires Distinct(m) && e !in m
    ensures Distinct(m + [e])
    ensures forall x :: x in m + [e] <==> x in m || x == e
  {
  }

  lemma {:induction false} OtherBytes(list: seq<Elem>, entries: map<Elem, Entry>, e: Elem, x: Entry)
    requires e !in list
    ensures Bytes(list, entries[e := x]) == Bytes(list, entries)
  {
    if list != [] {
      OtherBytes(list[1..], entries, e, x);
    }
  }

  lemma PushedInv(s: Lru, k: Key, v: Value, now: Time, ttl: int)
    requires Inv(s) && k !in s.items
    ensures Inv(Pushed(s, k, v, now, ttl))
  {
    var e := s.next;
    assert e !in s.list;
    AppendDistinct(s.list, e);
    AppendBytes(s.list, e, s.entries[e := Entry(k, v)]);
    OtherBytes(s.list, s.entries, e, Entry(k, v));
  }

  lemma UpdatedInv(s: Lru, k: Key, v: Value, now: Time, ttl: int)
    requires Inv(s) && k in s.items
    ensures Inv(Updated(s, k, v, now, ttl))
  {
    var e := s.items[k];
    MoveInv(s, e);
    var m := Minus(s.list, e);
    MinusMembers(s.list, e);
    MinusBytes(s.list, e, s.entries);
    AppendDistinct(m, e);
    OtherBytes(m, s.entries, e, Entry(k, v));
    AppendBytes(m, e, s.entries[e := Entry(k, v)]);
  }

  lemma WrittenInv(s: Lru, k: Key, v: Value, now: Time, ttl: int, now2: Time)
    requires Inv(s)
    ensures Inv(Written(s, k, v, now, ttl, now2))
  {
    if v == Nil {
      if k in s.items { UnlinkedInv(s, s.items[k]); }
    } else if k in s.items {
      UpdatedInv(s, k, v, now, ttl);
    } else {
      PushedInv(s, k, v, now, ttl);
      var n := EvictedMeaning(Pushed(s, k, v, now, ttl), now2);
    }
  }

  // ---- what a write guarantees --------------------------------------------

  // After storing a new key the byte limit holds. After storing a known key it
  // holds exactly when the change in length leaves it so: no eviction is made.
  lemma BoundAfterWrite(s: Lru, k: Key, v: Value, now: Time, ttl: int, now2: Time)
    requires Inv(s) && v != Nil && s.max > 0
    ensures var t := Written(s, k, v, now, ttl, now2);
            t.used <= t.max <==>
              k !in s.items || s.used + Len(v) - Len(s.entries[s.items[k]].value) <= s.max
  {
    if k !in s.items {
      PushedInv(s, k, v, now, ttl);
      var n := EvictedMeaning(Pushed(s, k, v, now, ttl), now2);
    }
  }

  // One byte too many: the stored value of the only key grows past the limit.
  lemma UpdateOverflows(k: Key, now: Time)
    ensures var s := Written(Lru([], map[], map[], map[], |k| + 1, 0, 0), k, View([0]), now, 0, now);
            var t := Written(s, k, View([0, 0]), now, 0, now);
            Inv(s) && s.used == s.max && t.used == t.max + 1
  {
    var s0 := Lru([], map[], map[], map[], |k| + 1, 0, 0);
    var s := Written(s0, k, View([0]), now, 0, now);
    WrittenInv(s0, k, View([0]), now, 0, now);
    NewEntrySurvives(s0, k, View([0]), now, 0, now);
    BoundAfterWrite(s0, k, View([0]), now, 0, now);
    var e := s.items[k];
    MinusBytes(s.list, e, s.entries);
  }

  // A new entry survives its own eviction exactly when it fits on its own and
  // has not expired by then.
  lemma NewEntrySurvives(s: Lru, k: Key, v: Value, now: Time, ttl: int, now2: Time)
    requires Inv(s) && v != Nil && k !in s.items
    ensures k in Written(s, k, v, now, ttl, now2).items <==>
              (s.max <= 0 || |k| + Len(v) <= s.max) && !(ttl > 0 && now2 > now + ttl)
  {
    var p := Pushed(s, k, v, now, ttl);
    PushedInv(s, k, v, now, ttl);
    var e := s.next;
    var gone := Overdue(p, now2);
    KeepMembers(p.list, p.entries, gone);
    var kept := Keep(p.list, p.entries, gone);
    var n := FitIsSuffix(kept, p.entries, p.max);
    if k !in gone {
      KeepLast(s.list, p.entries, gone, e);
      LastFits(kept, p.entries, p.max, n);
    }
  }

  lemma {:induction false} KeepLast(list: seq<Elem>, entries: map<Elem, Entry>, gone: set<Key>, e: Elem)
    requires e in entries && entries[e].key !in gone
    ensures Keep(list + [e], entries, gone) == Keep(list, entries, gone) + [e]
  {
    if list == [] {
      assert [e][1..] == [] && list + [e] == [e];
    } else {
      assert (list + [e])[1..] == list[1..] + [e];
      KeepLast(list[1..], entries, gone, e);
    }
  }

  lemma LastFits(list: seq<Elem>, entries: map<Elem, Entry>, max: int, n: nat)
    requires list != [] && Distinct(list) && n <= |list|
    requires max > 0 ==> Bytes(list[n..], entries) <= max
    requires forall i :: 0 <= i < n ==> max > 0 && Bytes(list[i..], entries) > max
    ensures list[|list| - 1] in list[n..] <==> max <= 0 || SizeOf(entries, list[|list| - 1]) <= max
  {
    var l := |list| - 1;
    var last := list[l..];
    assert last == [list[l]] && last[1..] == [];
    assert Bytes(last, entries) == SizeOf(entries, list[l]);
    if n <= l {
      assert list[n..][l - n] == list[l];
      SuffixBytes(list, n, l, entries);
    } else {
      assert list[n..] == [];
    }
  }

  lemma {:induction false} SuffixBytes(list: seq<Elem>, i: nat, j: nat, entries: map<Elem, Entry>)
    requires i <= j <= |list|
    ensures Bytes(list[j..], entries) <= Bytes(list[i..], entries)
    decreases j - i
  {
    if i < j {
      assert list[i..][1..] == list[i + 1..];
      SuffixBytes(list, i + 1, j, entries);
    }
  }

  // ---- what is stored -----------------------------------------------------

  // The value stored under key k.
  function ValueOf(s: Lru, k: Key): Option<Value> {
    if k in s.items && s.items[k] in s.entries then Some(s.entries[s.items[k]].value) else None
  }

  lemma StoredHasValue(s: Lru, k: Key)
    requires Inv(s)
    ensures k in s.items <==> ValueOf(s, k).Some?
  {
  }

  // Eviction changes no value: it keeps a key as it is or drops it.
  lemma EvictedValues(s: Lru, now: Time, k: Key)
    ensures ValueOf(Evicted(s, now), k) == ValueOf(s, k)
            || (k !in Evicted(s, now).items && ValueOf(Evicted(s, now), k) == None)
  {
    hide Keep, Fit, Overdue, Bytes;
  }

  lemma DeletedValues(s: Lru, k: Key, k': Key)
    requires Inv(s)
    ensures k !in Deleted(s, k).items
    ensures ValueOf(Deleted(s, k), k') == if k' == k then None else ValueOf(s, k')
  {
    hide Minus, Bytes, SizeOf;
  }

  // After a write of a value, its key has that value if it is stored; a known key
  // stays stored, and then no other key changes; for a new key the others keep
  // their values or are evicted. A write of nil only removes its key.
  lemma WrittenValues(s: Lru, k: Key, v: Value, now: Time, ttl: int, now2: Time, k': Key)
    requires Inv(s)
    ensures var t := Written(s, k, v, now, ttl, now2);
            && (v == Nil ==> ValueOf(t, k') == if k' == k then None else ValueOf(s, k'))
            && (v != Nil && k in s.items ==> ValueOf(t, k') == if k' == k then Some(v) else ValueOf(s, k'))
            && (v != Nil && k' == k ==> ValueOf(t, k) == Some(v) || (k !in s.items && k !in t.items))
            && (v != Nil && k' != k ==> ValueOf(t, k') == ValueOf(s, k') || (k !in s.items && k' !in t.items))
  {
    hide Evicted, Deleted, Minus, Bytes, SizeOf;
    if v == Nil {
      DeletedValues(s, k, k');
    } else if k !in s.items {
      EvictedValues(Pushed(s, k, v, now, ttl), now2, k');
    }
  }

  // Afterwards nothing is stored, nothing expires, and no byte is used.
  lemma ClearedEmpty(s: Lru, k: Key)
    ensures var t := Cleared(s);
            && t.list == [] && t.items == map[] && t.expires == map[] && t.used == 0 && t.max == s.max
            && ValueOf(t, k) == None && (Inv(s) ==> Inv(t))
  {
  }
}
