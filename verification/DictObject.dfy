/** The mutable dictionary of src/dict.c. Each method works in place, with the loops of the source, and is
    proved to compute the state function of the same name in DictTables and DictScan. */
module DictObject {
  import opened Words
  import opened Options
  import opened DictTables
  import opened DictScan
  import opened DictScanOnce

  /** The key-value map a state stands for. */
  ghost function Bindings<K(!new), V>(d: State<K, V>): imap<K, V>
    requires Core(d)
  {
    imap k | Lookup(d, k).Some? :: Lookup(d, k).value
  }

  lemma SameBindings<K(!new), V>(d: State<K, V>, e: State<K, V>)
    requires Core(d) && Core(e) && SameMap(d, e)
    ensures Bindings(d) == Bindings(e)
  {
  }

  /** AddRefines, said of the map. */
  lemma AddBindings<K(!new), V>(d: State<K, V>, k: K, v: V, canResize: bool)
    requires Valid(d)
    ensures var (r, added) := Add(d, k, v, canResize);
            && Valid(r) && Valid(RehashStep(d))
            && (added <==> k !in Bindings(d) && !AtCapacity(RehashStep(d), canResize))
            && Bindings(r) == if added then Bindings(d)[k := v] else Bindings(d)
  {
    hide Add, Core, TableFind, Lookup, RehashStep, AtCapacity;
    AddRefines(d, k, v, canResize);
  }

  lemma DeleteBindings<K(!new), V>(d: State<K, V>, k: K)
    requires Valid(d)
    ensures var (r, was) := Delete(d, k);
            && Valid(r) && Bindings(r) == Bindings(d) - {k}
            && was == if k in Bindings(d) then Some(Bindings(d)[k]) else None
  {
    hide Delete, Core, TableFind, Lookup;
    DeleteRefines(d, k);
  }

  lemma ReplaceBindings<K(!new), V>(d: State<K, V>, k: K, v: V, canResize: bool)
    requires Valid(d)
    ensures Valid(RehashStep(d))
    ensures var (r, added) := Replace(d, k, v, canResize); var full := AtCapacity(RehashStep(d), canResize);
            && Valid(r) && added == (if full then None else Some(k !in Bindings(d)))
            && Bindings(r) == if full then Bindings(d) else Bindings(d)[k := v]
  {
    hide Replace, Core, TableFind, Lookup, RehashStep, AtCapacity;
    ReplaceRefines(d, k, v, canResize);
  }

  /** `_dictNextPower`. */
  method NextPowerOf(size: nat) returns (i: nat)
    ensures i == NextPower(size)
  {
    Pow2Top();
    if size >= LONG_MAX { return LONG_MAX + 1; }
    i := DICT_HT_INITIAL_SIZE;
    ghost var k: nat := 2;
    assert Pow2(2) == 4;
    while i < size
      invariant k <= 63 && i == Pow2(k) && (i == 4 || i / 2 < size)
      invariant NextPower(size) == NextPowerFrom(k, size)
      decreases 63 - k
    {
      assert k < 63;
      i, k := i * 2, k + 1;
    }
  }

  /** Walk a chain to the entry of k: its index, or the length of the chain. */
  method WalkChain<K(==), V>(c: seq<Entry<K, V>>, k: K) returns (i: nat)
    ensures i <= |c|
    ensures i < |c| ==> c[i].key == k && ChainFind(c, k) == Some(c[i].val)
                        && ChainRemove(c, k) == c[..i] + c[i + 1..]
                        && forall v :: ChainSet(c, k, v) == c[i := Entry(k, v)]
    ensures i == |c| ==> ChainFind(c, k).None? && ChainRemove(c, k) == c
  {
    i := 0;
    while i < |c| && c[i].key != k
      invariant i <= |c| && forall j | 0 <= j < i :: c[j].key != k
    {
      i := i + 1;
    }
    WalkFacts(c, k, i);
  }

  lemma {:induction false} WalkFacts<K, V>(c: seq<Entry<K, V>>, k: K, i: nat)
    requires i <= |c| && (forall j | 0 <= j < i :: c[j].key != k)
    requires i < |c| ==> c[i].key == k
    ensures i < |c| ==> ChainFind(c, k) == Some(c[i].val)
                        && ChainRemove(c, k) == c[..i] + c[i + 1..]
                        && forall v :: ChainSet(c, k, v) == c[i := Entry(k, v)]
    ensures i == |c| ==> ChainFind(c, k).None? && ChainRemove(c, k) == c
  {
    if i > 0 {
      var t := c[1..];
      assert forall j | 0 <= j < i - 1 :: t[j] == c[j + 1];
      WalkFacts(t, k, i - 1);
      if i < |c| {
        assert c[..i] + c[i + 1..] == [c[0]] + (t[..i - 1] + t[i..]);
        forall v ensures ChainSet(c, k, v) == c[i := Entry(k, v)] {
          assert c[i := Entry(k, v)] == [c[0]] + t[i - 1 := Entry(k, v)];
        }
      } else {
        assert c == [c[0]] + t;
      }
    }
  }

  class Dict<K(!new, ==), V> {
    const hash: K -> u64
    var ht0: Table<K, V>
    var ht1: Table<K, V>
    var rehashidx: int
    var iterators: nat

    ghost function View(): State<K, V>
      reads this
    {
      State(hash, ht0, ht1, rehashidx, iterators)
    }

    ghost predicate Ok()
      reads this
    {
      Valid(View())
    }

    ghost function Contents(): imap<K, V>
      requires Ok()
      reads this
    {
      Bindings(View())
    }

    /** `dictCreate`. */
    constructor (hash: K -> u64)
      ensures Ok() && Contents() == imap[] && View() == State(hash, EmptyTable(), EmptyTable(), -1, 0)
    {
      this.hash := hash;
      ht0, ht1, rehashidx, iterators := EmptyTable(), EmptyTable(), -1, 0;
    }

    /** Move the chain at `rehashidx` to the new table, entry by entry, and step over the bucket. */
    method MoveOne()
      requires Core(View()) && Rehashing(View()) && rehashidx < |ht0.buckets|
      modifies this
      ensures View() == MoveBucket(old(View()))
    {
      ghost var was := View();
      var de := ht0.buckets[rehashidx];
      ghost var c := de;
      CountUpdate(ht0.buckets, rehashidx, []);
      while de != []
        invariant IsSize(|ht1.buckets|) && |de| <= |c|
        invariant ht0 == was.ht0.(used := was.ht0.used - (|c| - |de|)) && was.ht0.used >= |c|
        invariant MoveChain(hash, de, ht1) == MoveChain(hash, c, was.ht1)
        invariant rehashidx == was.rehashidx && iterators == was.iterators
        decreases |de|
      {
        var h := Slot(hash(de[0].key), |ht1.buckets|);
        ht1 := Table(ht1.buckets[h := [de[0]] + ht1.buckets[h]], ht1.used + 1);
        ht0 := ht0.(used := ht0.used - 1);
        de := de[1..];
      }
      ht0 := ht0.(buckets := ht0.buckets[rehashidx := []]);
      rehashidx := rehashidx + 1;
    }

    /** Step over empty buckets; stop early when the visit budget is spent. */
    method SkipEmpty(ghost left: nat, visits: nat) returns (budget: nat)
      requires Core(View()) && Rehashing(View()) && ht0.used != 0 && left > 0 && visits > 0
      modifies this`rehashidx
      ensures Core(View()) && Rehashing(View())
      ensures budget == 0 ==> RehashLoop(old(View()), left, visits) == (View(), true)
      ensures budget > 0 ==> rehashidx < |ht0.buckets| && ht0.buckets[rehashidx] != []
                             && RehashLoop(old(View()), left, visits) == RehashLoop(View(), left, budget)
    {
      hide TableOk, TableFind, Count, MoveBucket;
      budget := visits;
      RehashIndexInside(View());
      while ht0.buckets[rehashidx] == []
        invariant Core(View()) && Rehashing(View()) && budget > 0 && rehashidx < |ht0.buckets|
        invariant RehashLoop(View(), left, budget) == RehashLoop(old(View()), left, visits)
        decreases |ht0.buckets| - rehashidx
      {
        RehashIndexInside(View());
        rehashidx := rehashidx + 1;
        budget := budget - 1;
        if budget == 0 { return; }
      }
    }

    /** The loops of `dictRehash`. */
    method RehashRun(n: nat) returns (more: bool)
      requires Ok()
      modifies this
      ensures (View(), more) == Rehash(old(View()), n)
    {
      hide TableOk, TableFind, Count, MoveChain;
      if rehashidx == -1 { return false; }
      var left: nat, visits: nat := n, n * 10;
      while left > 0 && ht0.used != 0
        invariant Core(View()) && Rehashing(View()) && (left > 0 ==> visits > 0)
        invariant RehashLoop(View(), left, visits) == RehashLoop(old(View()), n, n * 10)
        decreases left
      {
        visits := SkipEmpty(left, visits);
        if visits == 0 { return true; }
        MoveBucketKeeps(View());
        MoveOne();
        left := left - 1;
      }
      if ht0.used == 0 {
        ht0, ht1, rehashidx := ht1, EmptyTable(), -1;
        return false;
      }
      return true;
    }

    /** `dictRehash`: move up to n buckets, skipping at most 10n empty ones. The map does not change. */
    method RehashBuckets(n: nat) returns (more: bool)
      requires Ok()
      modifies this
      ensures Ok() && (View(), more) == Rehash(old(View()), n)
      ensures Contents() == old(Contents())
      ensures more && n > 0 ==> rehashidx > old(rehashidx)
    {
      RehashKeeps(View(), n);
      SameBindings(View(), Rehash(View(), n).0);
      more := RehashRun(n);
    }

    /** `_dictRehashStep`. */
    method Step()
      requires Ok()
      modifies this
      ensures Ok() && View() == RehashStep(old(View())) && Contents() == old(Contents())
    {
      if rehashidx != -1 && iterators == 0 {
        var _ := RehashBuckets(1);
      }
    }

    /** `dictExpand`. */
    method ExpandTo(size: nat) returns (ok: bool)
      requires Ok()
      modifies this
      ensures Ok() && (View(), ok) == Expand(old(View()), size) && Contents() == old(Contents())
    {
      ExpandKeeps(View(), size);
      SameBindings(View(), Expand(View(), size).0);
      if rehashidx != -1 || ht0.used > size { return false; }
      var realsize := NextPowerOf(size);
      if realsize == |ht0.buckets| { return false; }
      var n := NewTable(realsize);
      if ht0.buckets == [] {
        ht0 := n;
      } else {
        ht1, rehashidx := n, 0;
      }
      return true;
    }

    /** `dictResize`: shrink to fit. */
    method Shrink(canResize: bool) returns (ok: bool)
      requires Ok()
      modifies this
      ensures Ok() && (View(), ok) == Resize(old(View()), canResize) && Contents() == old(Contents())
    {
      if !canResize || rehashidx != -1 { return false; }
      ok := ExpandTo(if ht0.used < DICT_HT_INITIAL_SIZE then DICT_HT_INITIAL_SIZE else ht0.used);
    }

    /** `_dictExpandIfNeeded`. */
    method Grow(canResize: bool) returns (ok: bool)
      requires Ok()
      modifies this
      ensures Ok() && (View(), ok) == ExpandIfNeeded(old(View()), canResize) && Contents() == old(Contents())
    {
      if rehashidx != -1 { return true; }
      if ht0.buckets == [] {
        ok := ExpandTo(DICT_HT_INITIAL_SIZE);
      } else if ht0.used >= |ht0.buckets|
                && (canResize || ht0.used / |ht0.buckets| > DICT_FORCE_RESIZE_RATIO) {
        ok := ExpandTo(ht0.used * 2);
      } else {
        ok := true;
      }
    }

    /** The table loop of `dictFind` and `_dictKeyIndex`. */
    method Locate(k: K) returns (r: Option<V>)
      requires Ok()
      ensures r == Search(View(), k) == Lookup(View(), k)
    {
      if ht0.buckets == [] { return None; }
      var table := 0;
      while table <= 1
        invariant 0 <= table <= 2 && (table >= 1 ==> Rehashing(View()))
        invariant table >= 1 ==> TableFind(ht0, hash, k).None?
        invariant table == 2 ==> TableFind(ht1, hash, k).None?
      {
        var bs := if table == 0 then ht0.buckets else ht1.buckets;
        var he := bs[Slot(hash(k), |bs|)];
        var i := WalkChain(he, k);
        if i < |he| { return Some(he[i].val); }
        if rehashidx == -1 { return None; }
        table := table + 1;
      }
      return None;
    }

    /** `dictAdd`: false when the key is already present (or a table of 2^63 buckets is full). */
    method AddEntry(k: K, v: V, canResize: bool) returns (added: bool)
      requires Ok()
      modifies this
      ensures Ok() && (View(), added) == Add(old(View()), k, v, canResize)
      ensures added <==> k !in old(Contents()) && !AtCapacity(RehashStep(old(View())), canResize)
      ensures Contents() == if added then old(Contents())[k := v] else old(Contents())
    {
      AddBindings(View(), k, v, canResize);
      hide *;
      var existing;
      added, existing := AddRaw(k, v, canResize);
    }

    /** `dictAddRaw` followed by setting the value: also reports the existing entry, if it got as far as finding it. */
    method AddRaw(k: K, v: V, canResize: bool) returns (added: bool, existing: Option<V>)
      requires Ok()
      modifies this
      ensures (View(), added) == Add(old(View()), k, v, canResize) && existing == Existing(old(View()), k, canResize)
    {
      AddBindings(View(), k, v, canResize);
      hide TableOk, TableFind, Lookup, Bindings, AtCapacity, Insert, RehashStep, ExpandIfNeeded, Search;
      Step();
      ghost var d1 := View();
      var ok := Grow(canResize);
      ExpandIfNeededKeeps(d1, canResize);
      if !ok { return false, None; }
      var r := Locate(k);
      if r.Some? { return false, r; }
      InsertEntry(k, v);
      return true, None;
    }

    /** Link a new entry at the head of its bucket. */
    method InsertEntry(k: K, v: V)
      requires Ok() && ht0.buckets != []
      modifies this
      ensures View() == Insert(old(View()), k, v)
    {
      if rehashidx != -1 {
        var h := Slot(hash(k), |ht1.buckets|);
        ht1 := Table(ht1.buckets[h := [Entry(k, v)] + ht1.buckets[h]], ht1.used + 1);
      } else {
        var h := Slot(hash(k), |ht0.buckets|);
        ht0 := Table(ht0.buckets[h := [Entry(k, v)] + ht0.buckets[h]], ht0.used + 1);
      }
    }

    /** `dictFind`. */
    method FindEntry(k: K) returns (r: Option<V>)
      requires Ok()
      modifies this
      ensures Ok() && (View(), r) == Find(old(View()), k) && Contents() == old(Contents())
      ensures r == if k in old(Contents()) then Some(old(Contents())[k]) else None
    {
      FindRefines(View(), k);
      if ht0.used + ht1.used == 0 { return None; }
      Step();
      r := Locate(k);
    }

    /** `dictGenericDelete`. */
    method DeleteEntry(k: K) returns (r: Option<V>)
      requires Ok()
      modifies this
      ensures Ok() && (View(), r) == Delete(old(View()), k)
      ensures r == if k in old(Contents()) then Some(old(Contents())[k]) else None
      ensures Contents() == old(Contents()) - {k}
    {
      DeleteBindings(View(), k);
      hide TableOk, TableFind, Lookup, Bindings, Unlink, Search, RehashStep;
      if ht0.used == 0 && ht1.used == 0 { return None; }
      StepKeeps(View());
      Step();
      SizeZero(View());
      r := UnlinkEntry(k);
    }

    /** The table loop of the delete: unlink from ht[0], else, while rehashing, from ht[1]. */
    method UnlinkEntry(k: K) returns (r: Option<V>)
      requires Ok() && ht0.buckets != []
      modifies this
      ensures View() == Unlink(old(View()), k) && r == Search(old(View()), k)
    {
      ChainIn(ht0, hash, k);
      var b := Slot(hash(k), |ht0.buckets|);
      var c := ht0.buckets[b];
      var i := WalkChain(c, k);
      if i < |c| {
        r := Some(c[i].val);
        ht0 := Table(ht0.buckets[b := c[..i] + c[i + 1..]], ht0.used - 1);
      } else if rehashidx == -1 {
        r := None;
      } else {
        ChainIn(ht1, hash, k);
        b := Slot(hash(k), |ht1.buckets|);
        c := ht1.buckets[b];
        i := WalkChain(c, k);
        if i < |c| {
          r := Some(c[i].val);
          ht1 := Table(ht1.buckets[b := c[..i] + c[i + 1..]], ht1.used - 1);
        } else {
          r := None;
          assert ht1.buckets[b := c] == ht1.buckets;
        }
      }
    }

    /** `dictReplace`: add, or overwrite the value of the existing entry, which is None when it is NULL. */
    method ReplaceEntry(k: K, v: V, canResize: bool) returns (added: Option<bool>)
      requires Ok()
      modifies this
      ensures Ok() && (View(), added) == Replace(old(View()), k, v, canResize)
      ensures added.None? <==> AtCapacity(RehashStep(old(View())), canResize)
      ensures added.Some? ==> added.value == (k !in old(Contents()))
      ensures Contents() == if added.None? then old(Contents()) else old(Contents())[k := v]
    {
      ReplaceBindings(View(), k, v, canResize);
      AddRefines(View(), k, v, canResize);
      ExistingMeans(View(), k, canResize);
      hide TableOk, TableFind, Bindings, SetValue, AtCapacity, RehashStep, Add, Existing;
      var isNew, existing := AddRaw(k, v, canResize);
      if isNew { return Some(true); }
      if existing.None? { return None; }
      Overwrite(k, v);
      return Some(false);
    }

    /** Set the value of an existing entry. */
    method Overwrite(k: K, v: V)
      requires Ok() && Lookup(View(), k).Some?
      modifies this
      ensures ht0.buckets != [] && old(ht0.buckets) != [] && View() == SetValue(old(View()), k, v)
    {
      ChainIn(ht0, hash, k);
      var b := Slot(hash(k), |ht0.buckets|);
      var c := ht0.buckets[b];
      var i := WalkChain(c, k);
      if i < |c| {
        ht0 := ht0.(buckets := ht0.buckets[b := c[i := Entry(k, v)]]);
      } else {
        ChainIn(ht1, hash, k);
        b := Slot(hash(k), |ht1.buckets|);
        c := ht1.buckets[b];
        i := WalkChain(c, k);
        ht1 := ht1.(buckets := ht1.buckets[b := c[i := Entry(k, v)]]);
      }
    }

    /** `dictScan`: the entries handed to the callback, in order, and the next cursor. */
    method ScanFrom(cursor: u64) returns (emitted: seq<Entry<K, V>>, v: u64)
      requires Ok()
      ensures (emitted, v) == Scan(View(), cursor)
      ensures v == 0 || Rev(v) > Rev(cursor)
      ensures Distinct(emitted) && forall e | e in emitted :: Lookup(View(), e.key) == Some(e.val)
    {
      hide NextCursor, ScanPair, Pow2, Bit, Rev, Valid, Slot, IsSize;
      ScanAdvances(View(), cursor);
      ScanEmits(View(), cursor);
      if ht0.used + ht1.used == 0 { return [], 0; }
      ScanSizes(View());
      if rehashidx == -1 {
        emitted := ht0.buckets[Slot(cursor, |ht0.buckets|)];
        v := Advance(cursor, |ht0.buckets| - 1);
      } else if |ht0.buckets| > |ht1.buckets| {
        emitted, v := ScanTwo(ht1.buckets, ht0.buckets, cursor);
      } else {
        emitted, v := ScanTwo(ht0.buckets, ht1.buckets, cursor);
      }
    }

    /** The rehashing case, the smaller table first. */
    static method ScanTwo(small: seq<seq<Entry<K, V>>>, large: seq<seq<Entry<K, V>>>, cursor: u64)
      returns (emitted: seq<Entry<K, V>>, v: u64)
      requires InWord(|small|) && InWord(|large|)
      ensures (emitted, v) == ScanPair(small, large, cursor)
    {
      hide ScanLarge, Slot;
      emitted, v := ScanExpansions(large, cursor, |small| - 1, |large| - 1);
      emitted := small[Slot(cursor, |small|)] + emitted;
    }

    /** The cursor increment, through two calls of `rev`. */
    static method Advance(cursor: u64, mask: u64) returns (v: u64)
      ensures v == NextCursor(cursor, mask)
    {
      v := Or(cursor, Not(mask));
      v := ReverseBits(v);
      v := (v + 1) % WORD;
      v := ReverseBits(v);
    }

    /** The do-while loop over the larger table. */
    static method ScanExpansions(large: seq<seq<Entry<K, V>>>, cursor: u64, m0: u64, m1: u64)
      returns (emitted: seq<Entry<K, V>>, v: u64)
      requires IsSize(|large|) && m1 == |large| - 1
      ensures (emitted, v) == ScanLarge(large, cursor, m0, m1)
    {
      hide Rev, NextCursor, Pow2, Bit, And, Xor, Slot, ScanLarge;
      ghost var goal := ScanLarge(large, cursor, m0, m1);
      emitted, v := [], cursor;
      var more := true;
      while more
        invariant more ==> goal.0 == emitted + ScanLarge(large, v, m0, m1).0
                           && goal.1 == ScanLarge(large, v, m0, m1).1
        invariant !more ==> goal == (emitted, v)
        decreases more, WORD - Rev(v)
      {
        ExpansionStep(large, v, m0, m1);
        ghost var rest := ScanLarge(large, NextCursor(v, m1), m0, m1).0;
        assert (emitted + large[Slot(v, |large|)]) + rest == emitted + (large[Slot(v, |large|)] + rest);
        emitted := emitted + large[Slot(v, |large|)];
        v := Advance(v, m1);
        more := And(v, Xor(m0, m1)) != 0;
      }
    }
  }

  /** One round of the expansion loop. */
  lemma ExpansionStep<K, V>(large: seq<seq<Entry<K, V>>>, v: u64, m0: u64, m1: u64)
    requires IsSize(|large|) && m1 == |large| - 1
    ensures var n := NextCursor(v, m1); var here := large[Slot(v, |large|)];
            if And(n, Xor(m0, m1)) != 0 then
              && Rev(n) > Rev(v)
              && ScanLarge(large, v, m0, m1).0 == here + ScanLarge(large, n, m0, m1).0
              && ScanLarge(large, v, m0, m1).1 == ScanLarge(large, n, m0, m1).1
            else ScanLarge(large, v, m0, m1) == (here, n)
  {
    var k := LogOf(|large|);
    hide Rev, NextCursor, Pow2, Bit, And, Xor, Slot;
    CursorAdvances(v, k, m1);
    AndZero(Xor(m0, m1));
  }
}
