// The byte-bounded LRU store as an object. Each method is one critical section
// of the program, so Get is two of them: a lookup under the read lock and a move
// under the write lock.
module ByteLru {
  import opened Prelude
  import opened ByteLruSpec

  // What the first phase of Get finds.
  datatype Look = Miss | Late | Hit(elem: Elem, value: Value)

  // Pairs listed, with multiplicity.
  function Pairs(list: seq<Elem>, entries: map<Elem, Entry>): multiset<(Key, Value)> {
    if list == [] then multiset{}
    else (if list[0] in entries then multiset{(entries[list[0]].key, entries[list[0]].value)} else multiset{})
         + Pairs(list[1..], entries)
  }

  lemma {:induction false} MinusPairs(list: seq<Elem>, e: Elem, entries: map<Elem, Entry>)
    requires Distinct(list) && e in list && e in entries
    ensures Pairs(list, entries) == Pairs(Minus(list, e), entries) + multiset{(entries[e].key, entries[e].value)}
  {
    HeadNotIn(list);
    if list[0] == e {
      MinusAbsent(list[1..], e);
    } else {
      MinusPairs(list[1..], e, entries);
      var m := Minus(list[1..], e);
      assert ([list[0]] + m)[1..] == m;
    }
  }

  lemma {:induction false} AppendPairs(list: seq<Elem>, e: Elem, entries: map<Elem, Entry>)
    requires e in entries
    ensures Pairs(list + [e], entries) == Pairs(list, entries) + multiset{(entries[e].key, entries[e].value)}
  {
    if list == [] {
      assert [e][1..] == [] && list + [e] == [e];
    } else {
      assert (list + [e])[1..] == list[1..] + [e];
      AppendPairs(list[1..], e, entries);
    }
  }

  lemma {:induction false} OtherPairs(list: seq<Elem>, entries: map<Elem, Entry>, e: Elem, x: Entry)
    requires e !in list
    ensures Pairs(list, entries[e := x]) == Pairs(list, entries)
  {
    if list != [] {
      OtherPairs(list[1..], entries, e, x);
    }
  }

  // A new entry adds its own pair.
  lemma PushPairs(s: Lru, key: Key, value: Value)
    requires Inv(s)
    ensures Pairs(s.list + [s.next], s.entries[s.next := Entry(key, value)])
            == Pairs(s.list, s.entries) + multiset{(key, value)}
  {
    assert s.next !in s.list;
    AppendPairs(s.list, s.next, s.entries[s.next := Entry(key, value)]);
    OtherPairs(s.list, s.entries, s.next, Entry(key, value));
  }

  // An entry taken off the list and reported stays accounted for.
  lemma ReportMoves(list: seq<Elem>, e: Elem, entries: map<Elem, Entry>, log: seq<(Key, Value)>)
    requires Distinct(list) && e in list && e in entries
    ensures Pairs(Minus(list, e), entries) + multiset(log + [(entries[e].key, entries[e].value)])
            == Pairs(list, entries) + multiset(log)
  {
    MinusPairs(list, e, entries);
  }

  lemma HasMember(list: seq<Elem>)
    requires list != []
    ensures exists e :: e in list
  {
    assert list[0] in list;
  }

  lemma PairKey(list: seq<Elem>, entries: map<Elem, Entry>, k: Key, v: Value)
    ensures (k, v) in Pairs(list, entries) <==>
              exists e :: e in list && e in entries && entries[e] == Entry(k, v)
  {
    if list != [] {
      PairKey(list[1..], entries, k, v);
      assert forall e :: e in list <==> e == list[0] || e in list[1..];
    }
  }

  // In a sound store a pair is listed exactly when it is a key with its value,
  // and then once.
  lemma StoredPairs(s: Lru, k: Key, v: Value)
    requires Inv(s)
    ensures Pairs(s.list, s.entries)[(k, v)] == if ValueOf(s, k) == Some(v) then 1 else 0
  {
    if ValueOf(s, k) == Some(v) {
      var e := s.items[k];
      MinusPairs(s.list, e, s.entries);
      MinusMembers(s.list, e);
      PairKey(Minus(s.list, e), s.entries, k, v);
    } else {
      PairKey(s.list, s.entries, k, v);
    }
  }

  class Cache {
    var list: seq<Elem>
    var entries: map<Elem, Entry>
    var items: map<Key, Elem>
    var expires: map<Key, Time>
    var maxBytes: int
    var usedBytes: int
    var next: Elem
    // Calls of the eviction callback so far.
    var evictions: seq<(Key, Value)>

    ghost function State(): Lru
      reads this
    {
      Lru(list, entries, items, expires, maxBytes, usedBytes, next)
    }

    ghost predicate Valid()
      reads this
    {
      Inv(State())
    }

    // Entries still stored and entries reported, together.
    ghost function Accounted(): multiset<(Key, Value)>
      reads this
    {
      Pairs(list, entries) + multiset(evictions)
    }

    constructor (maxBytes: int)
      ensures Valid() && State() == Lru([], map[], map[], map[], maxBytes, 0, 0) && evictions == []
    {
      list, entries, items, expires := [], map[], map[], map[];
      this.maxBytes := maxBytes;
      usedBytes, next, evictions := 0, 0, [];
    }

    // Get, under the read lock.
    method Lookup(key: Key, now: Time) returns (r: Look)
      requires Valid()
      ensures r == if key !in items then Miss
                   else if IsOverdue(State(), key, now) then Late
                   else Hit(items[key], entries[items[key]].value)
    {
      if key !in items {
        return Miss;
      }
      var elem := items[key];
      if key in expires && now > expires[key] {
        return Late;
      }
      return Hit(elem, entries[elem].value);
    }

    // Get, under the write lock.
    method Touch(key: Key, elem: Elem)
      requires Valid()
      modifies `list
      ensures Valid() && State() == Touched(old(State()), key, elem)
    {
      MoveInv(State(), elem);
      if key in items {
        list := if elem in list then Minus(list, elem) + [elem] else list;
      }
    }

    method RemoveElement(elem: Elem)
      requires Valid() && elem in list
      modifies `list, `items, `expires, `usedBytes, `evictions
      ensures Valid() && State() == Unlinked(old(State()), elem)
      ensures Accounted() == old(Accounted())
    {
      ghost var s := State();
      assert Distinct(list) && elem in entries;
      hide Inv, Minus, Bytes, Distinct, Pairs;
      UnlinkedInv(s, elem);
      ReportMoves(list, elem, entries, evictions);
      var entry := entries[elem];
      list := Minus(list, elem);
      items := items - {entry.key};
      expires := expires - {entry.key};
      usedBytes := usedBytes - (|entry.key| + Len(entry.value));
      assert State() == Unlinked(s, elem);
      hide Unlinked, SizeOf;
      evictions := evictions + [(entry.key, entry.value)];
    }

    method Delete(key: Key) returns (found: bool)
      requires Valid()
      modifies `list, `items, `expires, `usedBytes, `evictions
      ensures Valid() && State() == Deleted(old(State()), key) && found == (key in old(items))
      ensures Accounted() == old(Accounted())
    {
      found := key in items;
      if found {
        RemoveElement(items[key]);
      }
    }

    // Expired keys are removed in any order, then the oldest entries until the
    // rest fits.
    method Evict(now: Time)
      requires Valid()
      modifies `list, `items, `expires, `usedBytes, `evictions
      ensures Valid() && State() == Evicted(old(State()), now)
      ensures Accounted() == old(Accounted())
    {
      ghost var s := State();
      PurgeExpired(now);
      ghost var kept := list;
      CutCutEvicted(s, now);
      TrimToFit();
    }

    method PurgeExpired(now: Time)
      requires Valid()
      modifies `list, `items, `expires, `usedBytes, `evictions
      ensures Valid() && State() == Cut(old(State()), Keep(old(list), entries, Overdue(old(State()), now)))
      ensures Accounted() == old(Accounted())
    {
      ghost var s := State();
      var todo := expires.Keys;
      ghost var gone: set<Key> := {};
      KeepNone(list, entries);
      CutSelf(s);
      while todo != {}
        invariant Valid() && Accounted() == old(Accounted())
        invariant gone <= Overdue(s, now) <= gone + todo && todo !! gone && todo <= s.expires.Keys
        invariant State() == Cut(s, Keep(s.list, s.entries, gone))
        decreases |todo|
      {
        var key :| key in todo;
        todo := todo - {key};
        PurgeKey(s, gone, key, now);
        gone := if now > s.expires[key] then gone + {key} else gone;
      }
      assert gone == Overdue(s, now);
    }

    // One round over an expiring key.
    method PurgeKey(ghost s: Lru, ghost gone: set<Key>, key: Key, now: Time)
      requires Valid() && Inv(s) && key in s.expires && key !in gone
      requires State() == Cut(s, Keep(s.list, s.entries, gone))
      modifies `list, `items, `expires, `usedBytes, `evictions
      ensures Valid() && Accounted() == old(Accounted())
      ensures State() == Cut(s, Keep(s.list, s.entries, if now > s.expires[key] then gone + {key} else gone))
    {
      ghost var e := s.items[key];
      KeepMembers(s.list, s.entries, gone);
      KeepOneLess(s.list, s.entries, gone, e);
      if now > expires[key] {
        if key in items {
          ghost var cut := State();
          UnlinkedIsCut(cut, e);
          MinusMembers(cut.list, e);
          CutCut(s, cut.list, Minus(cut.list, e));
          RemoveElement(items[key]);
        }
      }
    }

    method TrimToFit()
      requires Valid()
      modifies `list, `items, `expires, `usedBytes, `evictions
      ensures Valid() && State() == Cut(old(State()), Fit(old(list), entries, maxBytes))
      ensures Accounted() == old(Accounted())
    {
      ghost var s := State();
      CutSelf(s);
      while maxBytes > 0 && usedBytes > maxBytes && |list| > 0
        invariant Valid() && Accounted() == old(Accounted())
        invariant State() == Cut(s, list)
        invariant Fit(list, entries, maxBytes) == Fit(s.list, s.entries, maxBytes)
        decreases |list|
      {
        DropFront(s);
      }
    }

    method DropFront(ghost s: Lru)
      requires Valid() && list != [] && State() == Cut(s, list)
      modifies `list, `items, `expires, `usedBytes, `evictions
      ensures Valid() && Accounted() == old(Accounted())
      ensures list == old(list)[1..] && State() == Cut(s, list)
    {
      ghost var cut := State();
      HeadNotIn(list);
      MinusAbsent(list[1..], list[0]);
      UnlinkedIsCut(cut, list[0]);
      CutCut(s, list, list[1..]);
      RemoveElement(list[0]);
    }

    method SetWithExpiration(key: Key, value: Value, now: Time, ttl: int, now2: Time)
      requires Valid()
      modifies this
      ensures Valid() && State() == Written(old(State()), key, value, now, ttl, now2)
      ensures value == Nil ==> Accounted() == old(Accounted())
      ensures value != Nil && key in old(items) ==> evictions == old(evictions)
      ensures value != Nil && key !in old(items) ==> Accounted() == old(Accounted()) + multiset{(key, value)}
    {
      if value == Nil {
        var _ := Delete(key);
        return;
      }
      ghost var s := State();
      assert key in items ==> items[key] in entries;
      hide Inv, Minus, Bytes, Evicted, SizeOf, Pairs;
      SetExpiry(key, now, ttl);
      assert State() == s.(expires := Timed(s, key, now, ttl));
      if key in items {
        UpdatedInv(s, key, value, now, ttl);
        Rewrite(key, value);
      } else {
        Insert(s, key, value, now, ttl, now2);
      }
    }

    // A key not stored yet, its deadline already set.
    method Insert(ghost s: Lru, key: Key, value: Value, ghost now: Time, ghost ttl: int, now2: Time)
      requires Inv(s) && key !in s.items && State() == s.(expires := Timed(s, key, now, ttl))
      modifies this
      ensures Valid() && State() == Evicted(Pushed(s, key, value, now, ttl), now2)
      ensures Accounted() == old(Accounted()) + multiset{(key, value)}
    {
      hide Inv, Evicted, Pairs;
      PushedInv(s, key, value, now, ttl);
      PushPairs(s, key, value);
      PushBack(key, value);
      assert State() == Pushed(s, key, value, now, ttl);
      Evict(now2);
    }

    method SetExpiry(key: Key, now: Time, ttl: int)
      modifies `expires
      ensures expires == Timed(old(State()), key, now, ttl)
    {
      if ttl > 0 {
        expires := expires[key := now + ttl];
      } else {
        expires := expires - {key};
      }
    }

    // A new value for the element of a stored key, which becomes the newest.
    method Rewrite(key: Key, value: Value)
      requires key in items && items[key] in entries
      modifies `list, `entries, `usedBytes
      ensures var s := old(State()); var e := s.items[key];
              State() == s.(list := MovedBack(s.list, e), entries := s.entries[e := Entry(s.entries[e].key, value)],
                            used := s.used + Len(value) - Len(s.entries[e].value))
    {
      var elem := items[key];
      usedBytes := usedBytes + (Len(value) - Len(entries[elem].value));
      entries := entries[elem := Entry(entries[elem].key, value)];
      list := if elem in list then Minus(list, elem) + [elem] else list;
    }

    // A new element at the back of the list.
    method PushBack(key: Key, value: Value)
      modifies `list, `entries, `items, `usedBytes, `next
      ensures var s := old(State());
              State() == s.(list := s.list + [s.next], entries := s.entries[s.next := Entry(key, value)],
                            items := s.items[key := s.next], used := s.used + |key| + Len(value), next := s.next + 1)
    {
      var elem := next;
      entries := entries[elem := Entry(key, value)];
      list := list + [elem];
      items := items[key := elem];
      usedBytes := usedBytes + (|key| + Len(value));
      next := next + 1;
    }

    method Clear()
      requires Valid()
      modifies this
      ensures Valid() && State() == Cleared(old(State()))
      ensures list == [] && items == map[] && expires == map[] && usedBytes == 0 && maxBytes == old(maxBytes)
      ensures multiset(evictions) == multiset(old(evictions)) + Pairs(old(list), old(entries))
      ensures Accounted() == old(Accounted())
    {
      ReportAll();
      list, items, expires, usedBytes := [], map[], map[], 0;
    }

    // The callback loop of Clear, over the index in any order.
    method ReportAll()
      requires Valid()
      modifies `evictions
      ensures multiset(evictions) == multiset(old(evictions)) + Pairs(list, entries)
    {
      hide Inv, Minus, Distinct;
      var todo := items.Keys;
      ghost var rest := list;
      LeftAll();
      while todo != {}
        invariant Left(todo, rest)
        invariant multiset(evictions) + Pairs(rest, entries) == multiset(old(evictions)) + Pairs(list, entries)
        decreases |todo|
      {
        var key :| key in todo;
        LeftStep(todo, rest, key);
        todo := todo - {key};
        var elem := items[key];
        rest := Minus(rest, elem);
        evictions := evictions + [(entries[elem].key, entries[elem].value)];
      }
      LeftNone(rest);
    }

    // The elements of the keys still to be reported.
    ghost predicate Left(todo: set<Key>, rest: seq<Elem>)
      reads `items, `list
    {
      && todo <= items.Keys && Distinct(rest)
      && (forall e :: e in rest ==> e in list)
      && forall k {:trigger items[k]} :: k in items ==> (k in todo <==> items[k] in rest)
    }

    lemma LeftAll()
      requires Valid()
      ensures Left(items.Keys, list)
    {
    }

    lemma LeftStep(todo: set<Key>, rest: seq<Elem>, key: Key)
      requires Valid() && Left(todo, rest) && key in todo
      ensures items[key] in rest && items[key] in entries
      ensures Left(todo - {key}, Minus(rest, items[key]))
      ensures Pairs(rest, entries) == Pairs(Minus(rest, items[key]), entries)
              + multiset{(entries[items[key]].key, entries[items[key]].value)}
    {
      MinusMembers(rest, items[key]);
      MinusPairs(rest, items[key], entries);
    }

    lemma LeftNone(rest: seq<Elem>)
      requires Valid() && Left({}, rest)
      ensures rest == []
    {
      if rest != [] {
        HasMember(rest);
      }
    }

    method UpdateExpiration(key: Key, now: Time, ttl: int) returns (found: bool)
      requires Valid()
      modifies `expires
      ensures Valid() && found == (key in items)
      ensures State() == if found then old(State()).(expires := Timed(old(State()), key, now, ttl)) else old(State())
    {
      if key !in items {
        return false;
      }
      SetExpiry(key, now, ttl);
      return true;
    }

    method SetMaxBytes(max: int, now: Time)
      requires Valid()
      modifies this
      ensures Valid()
      ensures State() == var s := old(State()).(max := max); if max > 0 then Evicted(s, now) else s
      ensures Accounted() == old(Accounted())
    {
      maxBytes := max;
      if max > 0 {
        Evict(now);
      }
    }
  }

  // Both phases of evict together.
  lemma CutCutEvicted(s: Lru, now: Time)
    requires Inv(s)
    ensures var kept := Keep(s.list, s.entries, Overdue(s, now));
            Cut(Cut(s, kept), Fit(kept, s.entries, s.max)) == Evicted(s, now)
  {
    var kept := Keep(s.list, s.entries, Overdue(s, now));
    var n := FitIsSuffix(kept, s.entries, s.max);
    assert forall e :: e in kept[n..] ==> e in kept;
    CutCut(s, kept, kept[n..]);
  }

  lemma {:induction false} KeepNone(list: seq<Elem>, entries: map<Elem, Entry>)
    ensures Keep(list, entries, {}) == list
  {
    if list != [] {
      KeepNone(list[1..], entries);
    }
  }
}
