/** The two-table hash table of src/dict.c as a value: what one state is, what it stores, and what
    each operation does to it. The class in DictObject.dfy is proved against these functions. */
module DictTables {
  import opened Words
  import opened Options

  datatype Entry<K, V> = Entry(key: K, val: V)

  /** One `dictht`: its bucket chains and its `used` counter. No bucket at all is the NULL table. */
  datatype Table<K, V> = Table(buckets: seq<seq<Entry<K, V>>>, used: nat)

  /** A `dict`: the hash function of its type, both tables, `rehashidx` and the iterator count. */
  datatype State<!K, V> = State(hash: K -> u64, ht0: Table<K, V>, ht1: Table<K, V>,
                                rehashidx: int, iterators: nat)

  const DICT_HT_INITIAL_SIZE: nat := 4
  const DICT_FORCE_RESIZE_RATIO: nat := 5
  const LONG_MAX: nat := 0x7FFF_FFFF_FFFF_FFFF

  function EmptyTable<K, V>(): Table<K, V> { Table([], 0) }

  // ---- sizes, masks and bucket indices ----

  /** Table sizes are powers of two up to 2^63. */
  ghost predicate IsSize(n: nat) {
    exists k: nat :: k <= 63 && n == Pow2(k)
  }

  lemma LogOf(n: nat) returns (k: nat)
    requires IsSize(n)
    ensures k <= 63 && n == Pow2(k)
  {
    hide Pow2;
    k :| k <= 63 && n == Pow2(k);
  }

  /** The bucket of a hash: `h & sizemask`. */
  function Slot(h: u64, size: nat): (b: nat)
    requires IsSize(size)
    ensures b < size
  {
    assert 1 <= size <= WORD && And(h, size - 1) < size by {
      var k := LogOf(size);
      AndMask(h, k);
    }
    And(h, size - 1)
  }

  /** Masking with size - 1 is the remainder by the size. */
  lemma SlotIsMod(h: u64, k: nat)
    requires k <= 63
    ensures IsSize(Pow2(k)) && Slot(h, Pow2(k)) == h % Pow2(k)
  {
    AndMask(h, k);
  }

  /** `_dictNextPower`: the least power of two that is at least 4 and at least size. */
  function NextPower(size: nat): (r: nat)
    ensures IsSize(r) && r >= DICT_HT_INITIAL_SIZE
    ensures size < LONG_MAX ==> r >= size && (r == DICT_HT_INITIAL_SIZE || r / 2 < size)
    ensures size >= LONG_MAX ==> r == LONG_MAX + 1
  {
    Pow2Top();
    if size >= LONG_MAX then
      assert IsSize(LONG_MAX + 1);
      LONG_MAX + 1
    else
      assert Pow2(2) == 4;
      NextPowerFrom(2, size)
  }

  function NextPowerFrom(k: nat, size: nat): (r: nat)
    requires k <= 63 && size <= Pow2(63)
    requires Pow2(k) == 4 || Pow2(k) / 2 < size
    ensures IsSize(r) && r >= Pow2(k) && r >= size && (r == 4 || r / 2 < size)
    decreases 63 - k
  {
    if Pow2(k) >= size then Pow2(k) else
      assert k < 63;
      NextPowerFrom(k + 1, size)
  }

  lemma Pow2Top()
    ensures Pow2(63) == LONG_MAX + 1
  {
    Pow2WordFact();
    assert Pow2(64) == 2 * Pow2(63);
  }

  // ---- chains ----

  function ChainFind<K(==), V>(c: seq<Entry<K, V>>, k: K): (r: Option<V>) {
    if c == [] then None
    else if c[0].key == k then Some(c[0].val)
    else ChainFind(c[1..], k)
  }

  function ChainRemove<K(==), V>(c: seq<Entry<K, V>>, k: K): (r: seq<Entry<K, V>>) {
    if c == [] then []
    else if c[0].key == k then c[1..]
    else [c[0]] + ChainRemove(c[1..], k)
  }

  function ChainSet<K(==), V>(c: seq<Entry<K, V>>, k: K, v: V): (r: seq<Entry<K, V>>) {
    if c == [] then []
    else if c[0].key == k then [Entry(k, v)] + c[1..]
    else [c[0]] + ChainSet(c[1..], k, v)
  }

  ghost predicate Distinct<K, V>(c: seq<Entry<K, V>>) {
    forall i, j | 0 <= i < j < |c| :: c[i].key != c[j].key
  }

  /** A key is found in a chain exactly when some entry carries it. */
  lemma {:induction false} FindIndex<K, V>(c: seq<Entry<K, V>>, k: K)
    ensures ChainFind(c, k).None? <==> forall i | 0 <= i < |c| :: c[i].key != k
    ensures forall i | 0 <= i < |c| && Distinct(c) && c[i].key == k :: ChainFind(c, k) == Some(c[i].val)
  {
    if c != [] {
      FindIndex(c[1..], k);
      assert forall i | 1 <= i < |c| :: c[i] == c[1..][i - 1];
    }
  }

  /** Unlinking a key keeps the order of the others, and removes exactly that key. */
  lemma {:induction false} RemoveFacts<K, V>(c: seq<Entry<K, V>>, k: K)
    requires Distinct(c)
    ensures var r := ChainRemove(c, k);
            && Distinct(r)
            && |r| == (if ChainFind(c, k).Some? then |c| - 1 else |c|)
            && (forall e | e in r :: e in c)
            && (forall q :: ChainFind(r, q) == if q == k then None else ChainFind(c, q))
  {
    if c != [] {
      var t := c[1..];
      RemoveFacts(t, k);
      var r := ChainRemove(c, k);
      forall q ensures ChainFind(r, q) == if q == k then None else ChainFind(c, q) {
        FindIndex(t, q);
        FindIndex(t, k);
        FindIndex(c, q);
        if c[0].key != k { assert r[1..] == ChainRemove(t, k); }
      }
      if c[0].key == k {
        FindIndex(t, k);
      } else {
        var s := ChainRemove(t, k);
        assert forall i | 0 <= i < |s| :: s[i] in t;
        assert forall i, j | 0 <= i < j < |r| :: r[i].key != r[j].key by {
          forall i, j | 0 <= i < j < |r| ensures r[i].key != r[j].key {
            assert r[j] == s[j - 1];
            if i == 0 { assert s[j - 1] in t; } else { assert r[i] == s[i - 1]; }
          }
        }
      }
    }
  }

  /** Overwriting the value of a present key changes that binding and nothing else. */
  lemma {:induction false} SetFacts<K, V>(c: seq<Entry<K, V>>, k: K, v: V)
    ensures var r := ChainSet(c, k, v);
            && |r| == |c|
            && (forall i | 0 <= i < |c| :: r[i].key == c[i].key)
            && (forall q :: ChainFind(r, q) ==
                  if q == k && ChainFind(c, k).Some? then Some(v) else ChainFind(c, q))
  {
    if c != [] {
      SetFacts(c[1..], k, v);
      var r := ChainSet(c, k, v);
      assert r[1..] == if c[0].key == k then c[1..] else ChainSet(c[1..], k, v);
    }
  }

  // ---- tables ----

  /** The number of entries in all chains. */
  function Count<K, V>(bs: seq<seq<Entry<K, V>>>): nat {
    if bs == [] then 0 else |bs[0]| + Count(bs[1..])
  }

  lemma {:induction false} CountUpdate<K, V>(bs: seq<seq<Entry<K, V>>>, b: nat, c: seq<Entry<K, V>>)
    requires b < |bs|
    ensures Count(bs[b := c]) == Count(bs) - |bs[b]| + |c|
    ensures Count(bs) >= |bs[b]|
  {
    if b == 0 {
      assert bs[b := c][1..] == bs[1..];
    } else {
      CountUpdate(bs[1..], b - 1, c);
      assert bs[b := c][1..] == bs[1..][b - 1 := c];
    }
  }

  lemma {:induction false} CountZero<K, V>(bs: seq<seq<Entry<K, V>>>)
    ensures Count(bs) == 0 <==> forall b | 0 <= b < |bs| :: bs[b] == []
  {
    if bs != [] {
      CountZero(bs[1..]);
      assert forall b | 1 <= b < |bs| :: bs[b] == bs[1..][b - 1];
    }
  }

  /** A freshly allocated table: n empty chains. */
  function NewTable<K, V>(n: nat): (t: Table<K, V>)
    ensures |t.buckets| == n && t.used == Count(t.buckets)
    ensures forall b | 0 <= b < n :: t.buckets[b] == []
  {
    var t := Table(seq(n, (i: nat) => []), 0);
    CountZero(t.buckets);
    t
  }

  /** Every entry of bucket b hashes to b, and no key occurs twice in it. */
  ghost predicate BucketOk<K, V>(c: seq<Entry<K, V>>, b: nat, size: nat, hash: K -> u64)
    requires IsSize(size)
  {
    Distinct(c) && forall i | 0 <= i < |c| :: Slot(hash(c[i].key), size) == b
  }

  ghost predicate TableOk<K, V>(t: Table<K, V>, hash: K -> u64) {
    && (t.buckets == [] || IsSize(|t.buckets|))
    && t.used == Count(t.buckets)
    && forall b | 0 <= b < |t.buckets| :: BucketOk(t.buckets[b], b, |t.buckets|, hash)
  }

  ghost function TableFind<K, V>(t: Table<K, V>, hash: K -> u64, k: K): Option<V>
    requires t.buckets == [] || IsSize(|t.buckets|)
  {
    if t.buckets == [] then None else ChainFind(t.buckets[Slot(hash(k), |t.buckets|)], k)
  }

  /** Replacing one chain by another that is in order for that bucket. */
  lemma ReplaceChain<K, V>(t: Table<K, V>, hash: K -> u64, b: nat, c: seq<Entry<K, V>>)
    requires TableOk(t, hash) && b < |t.buckets|
    requires BucketOk(c, b, |t.buckets|, hash)
    ensures t.used - |t.buckets[b]| + |c| >= 0
    ensures var t' := Table(t.buckets[b := c], t.used - |t.buckets[b]| + |c|);
            && TableOk(t', hash)
            && forall k :: TableFind(t', hash, k) ==
                 if Slot(hash(k), |t.buckets|) == b then ChainFind(c, k) else TableFind(t, hash, k)
  {
    CountUpdate(t.buckets, b, c);
  }

  /** Insert an entry at the head of its bucket. */
  function Push<K, V>(hash: K -> u64, t: Table<K, V>, e: Entry<K, V>): Table<K, V>
    requires IsSize(|t.buckets|)
  {
    var b := Slot(hash(e.key), |t.buckets|);
    Table(t.buckets[b := [e] + t.buckets[b]], t.used + 1)
  }

  lemma PushFacts<K, V>(hash: K -> u64, t: Table<K, V>, e: Entry<K, V>)
    requires TableOk(t, hash) && t.buckets != []
    requires TableFind(t, hash, e.key).None?
    ensures var t' := Push(hash, t, e);
            && TableOk(t', hash) && |t'.buckets| == |t.buckets|
            && forall k :: TableFind(t', hash, k) ==
                 if k == e.key then Some(e.val) else TableFind(t, hash, k)
  {
    var b := Slot(hash(e.key), |t.buckets|);
    var c := [e] + t.buckets[b];
    FindIndex(t.buckets[b], e.key);
    assert BucketOk(t.buckets[b], b, |t.buckets|, hash);
    ReplaceChain(t, hash, b, c);
    assert c[1..] == t.buckets[b];
  }

  /** Move a whole chain, entry by entry from its head, into another table. */
  function MoveChain<K, V>(hash: K -> u64, c: seq<Entry<K, V>>, t: Table<K, V>): (r: Table<K, V>)
    requires IsSize(|t.buckets|)
    ensures |r.buckets| == |t.buckets|
    decreases |c|
  {
    if c == [] then t else MoveChain(hash, c[1..], Push(hash, t, c[0]))
  }

  lemma {:induction false} MoveChainFacts<K, V>(hash: K -> u64, c: seq<Entry<K, V>>, t: Table<K, V>)
    requires TableOk(t, hash) && t.buckets != [] && Distinct(c)
    requires forall k :: ChainFind(c, k).Some? ==> TableFind(t, hash, k).None?
    ensures var r := MoveChain(hash, c, t);
            && TableOk(r, hash) && r.used == t.used + |c|
            && forall k :: TableFind(r, hash, k) ==
                 if ChainFind(c, k).Some? then ChainFind(c, k) else TableFind(t, hash, k)
    decreases |c|
  {
    if c != [] {
      var t1 := Push(hash, t, c[0]);
      assert ChainFind(c, c[0].key).Some?;
      PushFacts(hash, t, c[0]);
      forall k ensures ChainFind(c[1..], k).Some? ==> k != c[0].key && ChainFind(c, k) == ChainFind(c[1..], k) {
        FindIndex(c[1..], k);
      }
      MoveChainFacts(hash, c[1..], t1);
    }
  }

  // ---- the whole dictionary ----

  predicate Rehashing<K, V>(d: State<K, V>) { d.rehashidx != -1 }

  /** What holds even between two bucket moves of one rehash call. */
  ghost predicate Core<K(!new), V>(d: State<K, V>) {
    && TableOk(d.ht0, d.hash) && TableOk(d.ht1, d.hash)
    && (forall k :: TableFind(d.ht0, d.hash, k).Some? ==> TableFind(d.ht1, d.hash, k).None?)
    && (!Rehashing(d) ==> d.ht1 == EmptyTable())
    && (Rehashing(d) ==>
          && d.ht0.buckets != [] && d.ht1.buckets != []
          && 0 <= d.rehashidx <= |d.ht0.buckets|
          && forall b | 0 <= b < d.rehashidx :: d.ht0.buckets[b] == [])
  }

  /** The invariant of every state between API calls. */
  ghost predicate Valid<K(!new), V>(d: State<K, V>) {
    Core(d) && (Rehashing(d) ==> d.rehashidx < |d.ht0.buckets|)
  }

  /** The binding a dictionary holds for a key, wherever the entry currently sits. */
  ghost function Lookup<K(!new), V>(d: State<K, V>, k: K): Option<V>
    requires Core(d)
  {
    var r := TableFind(d.ht0, d.hash, k);
    if r.Some? then r else TableFind(d.ht1, d.hash, k)
  }

  function Size<K, V>(d: State<K, V>): nat { d.ht0.used + d.ht1.used }

  /** While entries remain in the old table, `rehashidx` points inside it and a full bucket is ahead. */
  lemma RehashIndexInside<K(!new), V>(d: State<K, V>)
    requires Core(d) && Rehashing(d) && d.ht0.used != 0
    ensures d.rehashidx < |d.ht0.buckets|
    ensures d.ht0.buckets[d.rehashidx] == [] ==> d.rehashidx + 1 < |d.ht0.buckets|
  {
    CountZero(d.ht0.buckets);
  }

  /** A dictionary is empty exactly when both counters are zero. */
  lemma SizeZero<K(!new), V>(d: State<K, V>)
    requires Core(d)
    ensures Size(d) == 0 <==> forall k :: Lookup(d, k).None?
  {
    CountZero(d.ht0.buckets);
    CountZero(d.ht1.buckets);
    if Size(d) != 0 {
      var t := if d.ht0.used != 0 then d.ht0 else d.ht1;
      var b :| 0 <= b < |t.buckets| && t.buckets[b] != [];
      var k := t.buckets[b][0].key;
      assert BucketOk(t.buckets[b], b, |t.buckets|, d.hash);
      assert TableFind(t, d.hash, k).Some?;
      assert Lookup(d, k).Some?;
    }
  }

  // ---- incremental rehashing ----

  function MoveBucket<K(!new), V>(d: State<K, V>): State<K, V>
    requires Core(d) && Rehashing(d) && d.rehashidx < |d.ht0.buckets|
  {
    var c := d.ht0.buckets[d.rehashidx];
    CountUpdate(d.ht0.buckets, d.rehashidx, []);
    d.(ht0 := Table(d.ht0.buckets[d.rehashidx := []], d.ht0.used - |c|),
       ht1 := MoveChain(d.hash, c, d.ht1),
       rehashidx := d.rehashidx + 1)
  }

  lemma MoveBucketKeeps<K(!new), V>(d: State<K, V>)
    requires Core(d) && Rehashing(d) && d.rehashidx < |d.ht0.buckets|
    ensures Core(MoveBucket(d))
    ensures forall k :: Lookup(MoveBucket(d), k) == Lookup(d, k)
  {
    var i := d.rehashidx;
    var c := d.ht0.buckets[i];
    var size := |d.ht0.buckets|;
    assert BucketOk(c, i, size, d.hash);
    forall k ensures ChainFind(c, k).Some? ==>
        Slot(d.hash(k), size) == i && TableFind(d.ht0, d.hash, k) == ChainFind(c, k) {
      FindIndex(c, k);
    }
    MoveChainFacts(d.hash, c, d.ht1);
    ReplaceChain(d.ht0, d.hash, i, []);
  }

  /** The end of `dictRehash`: drop the old table once nothing is left in it. */
  function FinishRehash<K, V>(d: State<K, V>): (State<K, V>, bool) {
    if d.ht0.used == 0 then (d.(ht0 := d.ht1, ht1 := EmptyTable(), rehashidx := -1), false)
    else (d, true)
  }

  /** The two nested loops of `dictRehash`, with n buckets to move and visits empty ones to skip. */
  function RehashLoop<K(!new), V>(d: State<K, V>, n: nat, visits: nat): (State<K, V>, bool)
    requires Core(d) && Rehashing(d) && (n > 0 ==> visits > 0)
    decreases n, |d.ht0.buckets| - d.rehashidx
  {
    if n == 0 || d.ht0.used == 0 then FinishRehash(d)
    else
      RehashIndexInside(d);
      if d.ht0.buckets[d.rehashidx] == [] then
        var d1 := d.(rehashidx := d.rehashidx + 1);
        if visits == 1 then (d1, true) else RehashLoop(d1, n, visits - 1)
      else
        MoveBucketKeeps(d);
        RehashLoop(MoveBucket(d), n - 1, visits)
  }

  /** `dictRehash`: up to n bucket moves, at most 10n empty buckets visited. */
  function Rehash<K(!new), V>(d: State<K, V>, n: nat): (State<K, V>, bool)
    requires Valid(d)
  {
    if !Rehashing(d) then (d, false) else RehashLoop(d, n, n * 10)
  }

  /** Same key-value map, same hash function, same iterator count. */
  ghost predicate SameMap<K(!new), V>(d: State<K, V>, e: State<K, V>)
    requires Core(d) && Core(e)
  {
    && d.hash == e.hash && d.iterators == e.iterators
    && forall k :: Lookup(d, k) == Lookup(e, k)
  }

  /** What a rehash from d that ended in r, with more to do or not, must satisfy. */
  ghost predicate RehashPost<K(!new), V>(d: State<K, V>, r: State<K, V>, more: bool)
    requires Core(d)
  {
    && Valid(r) && SameMap(d, r) && Size(r) == Size(d)
    && (more <==> Rehashing(r))
    && (more ==> |r.ht0.buckets| == |d.ht0.buckets| && r.rehashidx >= d.rehashidx)
  }

  lemma FinishKeeps<K(!new), V>(d: State<K, V>)
    requires Core(d) && Rehashing(d)
    ensures var (r, more) := FinishRehash(d);
            RehashPost(d, r, more) && (more ==> r == d)
  {
    if d.ht0.used == 0 {
      CountZero(d.ht0.buckets);
    } else {
      RehashIndexInside(d);
    }
  }

  lemma SkipKeeps<K(!new), V>(d: State<K, V>)
    requires Core(d) && Rehashing(d) && d.ht0.used != 0
    requires d.rehashidx < |d.ht0.buckets| && d.ht0.buckets[d.rehashidx] == []
    ensures RehashPost(d, d.(rehashidx := d.rehashidx + 1), true)
  {
    RehashIndexInside(d);
  }

  lemma {:induction false} RehashLoopKeeps<K(!new), V>(d: State<K, V>, n: nat, visits: nat)
    requires Core(d) && Rehashing(d) && (n > 0 ==> visits > 0)
    ensures var (r, more) := RehashLoop(d, n, visits);
            RehashPost(d, r, more) && (more && n > 0 ==> r.rehashidx > d.rehashidx)
    decreases n, |d.ht0.buckets| - d.rehashidx
  {
    hide TableFind, Count, TableOk, MoveChain, IsSize;
    if n == 0 || d.ht0.used == 0 {
      FinishKeeps(d);
    } else {
      RehashIndexInside(d);
      if d.ht0.buckets[d.rehashidx] == [] {
        SkipKeeps(d);
        if visits != 1 { RehashLoopKeeps(d.(rehashidx := d.rehashidx + 1), n, visits - 1); }
      } else {
        MoveBucketKeeps(d);
        MoveSize(d);
        RehashLoopKeeps(MoveBucket(d), n - 1, visits);
      }
    }
  }

  lemma MoveSize<K(!new), V>(d: State<K, V>)
    requires Core(d) && Rehashing(d) && d.rehashidx < |d.ht0.buckets|
    ensures Size(MoveBucket(d)) == Size(d)
  {
    var c := d.ht0.buckets[d.rehashidx];
    assert BucketOk(c, d.rehashidx, |d.ht0.buckets|, d.hash);
    forall k ensures ChainFind(c, k).Some? ==> TableFind(d.ht0, d.hash, k).Some? {
      FindIndex(c, k);
    }
    MoveChainFacts(d.hash, c, d.ht1);
    CountUpdate(d.ht0.buckets, d.rehashidx, []);
  }

  /** Rehashing by any amount keeps the map; it either ends or moves `rehashidx` forward. */
  lemma RehashKeeps<K(!new), V>(d: State<K, V>, n: nat)
    requires Valid(d)
    ensures var (r, more) := Rehash(d, n);
            RehashPost(d, r, more) && (more && n > 0 ==> r.rehashidx > d.rehashidx)
  {
    if Rehashing(d) { RehashLoopKeeps(d, n, n * 10); }
  }

  /** The number of buckets from i up to j that are not empty. */
  function Full<K, V>(bs: seq<seq<Entry<K, V>>>, i: nat, j: nat): nat
    requires j <= |bs|
    decreases j - i
  {
    if i >= j then 0 else (if bs[i] == [] then 0 else 1) + Full(bs, i + 1, j)
  }

  lemma {:induction false} FullSame<K, V>(bs: seq<seq<Entry<K, V>>>, cs: seq<seq<Entry<K, V>>>, i: nat, j: nat)
    requires j <= |bs| == |cs| && forall b | i <= b < j :: bs[b] == cs[b]
    ensures Full(bs, i, j) == Full(cs, i, j)
    decreases j - i
  {
    if i < j { FullSame(bs, cs, i + 1, j); }
  }

  lemma {:induction false} FullZero<K, V>(bs: seq<seq<Entry<K, V>>>, i: nat, j: nat)
    requires j <= |bs| && forall b | i <= b < j :: bs[b] == []
    ensures Full(bs, i, j) == 0
    decreases j - i
  {
    if i < j { FullZero(bs, i + 1, j); }
  }

  /** The buckets a rehash passed: it stops after n full ones or after as many empty ones as it may visit, and is done
      only if no more than n full ones were left. */
  ghost predicate Amount<K(!new), V>(d: State<K, V>, r: State<K, V>, more: bool, n: nat, visits: nat)
    requires Core(d) && Rehashing(d)
  {
    if !more then Full(d.ht0.buckets, d.rehashidx, |d.ht0.buckets|) <= n
    else
      && d.rehashidx <= r.rehashidx <= |d.ht0.buckets|
      && var full := Full(d.ht0.buckets, d.rehashidx, r.rehashidx);
         var empty := r.rehashidx - d.rehashidx - full;
         (full == n && empty < visits) || (full < n && empty == visits)
  }

  lemma SkipAmount<K(!new), V>(d: State<K, V>, d1: State<K, V>, r: State<K, V>, more: bool, n: nat, visits: nat)
    requires Core(d) && Rehashing(d) && d.rehashidx < |d.ht0.buckets| && d.ht0.buckets[d.rehashidx] == []
    requires d1 == d.(rehashidx := d.rehashidx + 1) && Core(d1) && Rehashing(d1) && Amount(d1, r, more, n, visits)
    ensures Amount(d, r, more, n, visits + 1)
  {
    hide Core;
    InRange(d);
  }

  lemma MoveAmount<K(!new), V>(d: State<K, V>, d1: State<K, V>, r: State<K, V>, more: bool, n: nat, visits: nat)
    requires Core(d) && Rehashing(d) && d.rehashidx < |d.ht0.buckets| && d.ht0.buckets[d.rehashidx] != []
    requires d1.rehashidx == d.rehashidx + 1 && d1.ht0.buckets == d.ht0.buckets[d.rehashidx := []]
    requires Core(d1) && Rehashing(d1) && Amount(d1, r, more, n, visits)
    ensures Amount(d, r, more, n + 1, visits)
  {
    hide Core;
    InRange(d);
    FullSame(d.ht0.buckets, d1.ht0.buckets, d.rehashidx + 1, if more then r.rehashidx else |d.ht0.buckets|);
  }

  lemma DoneAmount<K(!new), V>(d: State<K, V>, n: nat, visits: nat)
    requires Core(d) && Rehashing(d) && visits > 0
    ensures d.ht0.used == 0 ==> Amount(d, FinishRehash(d).0, false, n, visits)
    ensures Amount(d, d, true, 0, visits)
  {
    if d.ht0.used == 0 { NothingLeft(d); }
    InRange(d);
    hide Core, FinishRehash;
    assert Full(d.ht0.buckets, d.rehashidx, d.rehashidx) == 0;
  }

  lemma GiveUpAmount<K(!new), V>(d: State<K, V>, n: nat)
    requires Core(d) && Rehashing(d) && n > 0 && d.rehashidx < |d.ht0.buckets| && d.ht0.buckets[d.rehashidx] == []
    ensures Amount(d, d.(rehashidx := d.rehashidx + 1), true, n, 1)
  {
    InRange(d);
    hide Core;
    assert Full(d.ht0.buckets, d.rehashidx + 1, d.rehashidx + 1) == 0;
    assert Full(d.ht0.buckets, d.rehashidx, d.rehashidx + 1) == 0;
  }

  lemma {:induction false} RehashLoopAmount<K(!new), V>(d: State<K, V>, n: nat, visits: nat)
    requires Core(d) && Rehashing(d) && visits > 0
    ensures var (r, more) := RehashLoop(d, n, visits); Amount(d, r, more, n, visits)
    decreases n, |d.ht0.buckets| - d.rehashidx
  {
    DoneAmount(d, n, visits);
    if n > 0 && d.ht0.used != 0 {
      RehashIndexInside(d);
      InRange(d);
      if d.ht0.buckets[d.rehashidx] == [] {
        GiveUpAmount(d, n);
        if visits > 1 {
          var d1 := d.(rehashidx := d.rehashidx + 1);
          hide Core, Amount, MoveBucket;
          assert Core(d1) by { SkipCore(d); }
          RehashLoopAmount(d1, n, visits - 1);
          var (r, more) := RehashLoop(d1, n, visits - 1);
          SkipAmount(d, d1, r, more, n, visits - 1);
        }
      } else {
        MoveBucketKeeps(d);
        var d1 := MoveBucket(d);
        hide Core, Amount, MoveChain;
        RehashLoopAmount(d1, n - 1, visits);
        var (r, more) := RehashLoop(d1, n - 1, visits);
        MoveAmount(d, d1, r, more, n - 1, visits);
      }
    }
  }

  lemma SkipCore<K(!new), V>(d: State<K, V>)
    requires Core(d) && Rehashing(d) && d.rehashidx < |d.ht0.buckets| && d.ht0.buckets[d.rehashidx] == []
    ensures Core(d.(rehashidx := d.rehashidx + 1))
  {
  }

  lemma InRange<K(!new), V>(d: State<K, V>)
    requires Core(d) && Rehashing(d)
    ensures 0 <= d.rehashidx <= |d.ht0.buckets|
  {
  }

  lemma NothingLeft<K(!new), V>(d: State<K, V>)
    requires Core(d) && Rehashing(d) && d.ht0.used == 0
    ensures Full(d.ht0.buckets, d.rehashidx, |d.ht0.buckets|) == 0
  {
    CountZero(d.ht0.buckets);
    FullZero(d.ht0.buckets, d.rehashidx, |d.ht0.buckets|);
  }

  /** `dictRehash` moves n full buckets or passes 10n empty ones, unless it is done before. */
  lemma RehashAmount<K(!new), V>(d: State<K, V>, n: nat)
    requires Valid(d) && Rehashing(d) && n > 0
    ensures var (r, more) := Rehash(d, n); Amount(d, r, more, n, 10 * n)
  {
    RehashLoopAmount(d, n, n * 10);
  }

  /** `_dictRehashStep`: one bucket, unless a safe iterator is open. */
  function RehashStep<K(!new), V>(d: State<K, V>): State<K, V>
    requires Valid(d)
  {
    if Rehashing(d) && d.iterators == 0 then Rehash(d, 1).0 else d
  }

  // ---- resizing ----

  /** `dictExpand`. The flag is false for DICT_ERR. */
  function Expand<K, V>(d: State<K, V>, size: nat): (State<K, V>, bool) {
    if Rehashing(d) || d.ht0.used > size then (d, false)
    else
      var realsize := NextPower(size);
      if realsize == |d.ht0.buckets| then (d, false)
      else
        var n := NewTable(realsize);
        if d.ht0.buckets == [] then (d.(ht0 := n), true)
        else (d.(ht1 := n, rehashidx := 0), true)
  }

  lemma ExpandKeeps<K(!new), V>(d: State<K, V>, size: nat)
    requires Valid(d)
    ensures Valid(Expand(d, size).0) && SameMap(d, Expand(d, size).0) && Size(Expand(d, size).0) == Size(d)
  {
    var n: Table<K, V> := NewTable(NextPower(size));
    assert TableOk(n, d.hash);
    assert forall k :: TableFind(n, d.hash, k).None?;
  }

  /** `dictResize`, the only operation that shrinks. */
  function Resize<K, V>(d: State<K, V>, canResize: bool): (State<K, V>, bool) {
    if !canResize || Rehashing(d) then (d, false)
    else Expand(d, if d.ht0.used < DICT_HT_INITIAL_SIZE then DICT_HT_INITIAL_SIZE else d.ht0.used)
  }

  /** `_dictExpandIfNeeded`. */
  function ExpandIfNeeded<K, V>(d: State<K, V>, canResize: bool): (State<K, V>, bool) {
    if Rehashing(d) then (d, true)
    else if d.ht0.buckets == [] then Expand(d, DICT_HT_INITIAL_SIZE)
    else if d.ht0.used >= |d.ht0.buckets|
            && (canResize || d.ht0.used / |d.ht0.buckets| > DICT_FORCE_RESIZE_RATIO) then
      Expand(d, d.ht0.used * 2)
    else (d, true)
  }

  /** Growth is refused only when the table already has 2^63 buckets. */
  ghost predicate AtCapacity<K, V>(d: State<K, V>, canResize: bool) {
    && !Rehashing(d) && |d.ht0.buckets| == LONG_MAX + 1 && d.ht0.used >= |d.ht0.buckets|
    && (canResize || d.ht0.used / |d.ht0.buckets| > DICT_FORCE_RESIZE_RATIO)
  }

  lemma ExpandIfNeededKeeps<K(!new), V>(d: State<K, V>, canResize: bool)
    requires Valid(d)
    ensures var (r, ok) := ExpandIfNeeded(d, canResize);
            && Valid(r) && SameMap(d, r) && Size(r) == Size(d)
            && (ok <==> !AtCapacity(d, canResize))
            && (ok ==> r.ht0.buckets != [])
  {
    hide TableFind, Pow2;
    ExpandKeeps(d, d.ht0.used * 2);
    ExpandKeeps(d, DICT_HT_INITIAL_SIZE);
    if !Rehashing(d) && d.ht0.buckets != [] && d.ht0.used >= |d.ht0.buckets| {
      var k := LogOf(|d.ht0.buckets|);
      Pow2Mono(k, 63);
      Pow2Top();
    }
  }

  // ---- the size of the new table ----

  /** No smaller power of two, of at least 4, would do. */
  lemma NextPowerLeast(size: nat, p: nat)
    requires IsSize(p) && p >= DICT_HT_INITIAL_SIZE && p >= size
    ensures NextPower(size) <= p
  {
    hide NextPower, Pow2;
    var r := NextPower(size);
    var a := LogOf(r);
    var b := LogOf(p);
    Pow2Top();
    if a > b {
      Pow2Mono(b + 1, a);
      Pow2Mono(b + 1, 63);
      DoublePow2(b);
      assert false;
    }
    Pow2Mono(a, b);
  }

  lemma DoublePow2(b: nat)
    ensures Pow2(b + 1) == 2 * Pow2(b)
  {
  }

  /** The table that a resize allocated. */
  function Allocated<K, V>(d: State<K, V>, r: State<K, V>): nat {
    if d.ht0.buckets == [] then |r.ht0.buckets| else |r.ht1.buckets|
  }

  /** A table grows when it is as full as it has buckets (or five times, where resizing is to be avoided), to at least
      two and less than four buckets an entry. */
  lemma GrowthSize<K(!new), V>(d: State<K, V>, canResize: bool)
    requires Valid(d) && !Rehashing(d)
    ensures var r, used, size := ExpandIfNeeded(d, canResize).0, d.ht0.used, |d.ht0.buckets|;
      if size == 0 then !Rehashing(r) && |r.ht0.buckets| == DICT_HT_INITIAL_SIZE
      else if used >= size && size <= LONG_MAX && (canResize || used / size > DICT_FORCE_RESIZE_RATIO) then
        && Rehashing(r) && r.ht0 == d.ht0 && |r.ht1.buckets| > size
        && (|r.ht1.buckets| == LONG_MAX + 1
            || (2 * used <= |r.ht1.buckets| && (|r.ht1.buckets| == DICT_HT_INITIAL_SIZE || |r.ht1.buckets| < 4 * used)))
      else r == d
  {
    hide Pow2;
    if d.ht0.buckets != [] {
      var k := LogOf(|d.ht0.buckets|);
      Pow2Mono(k, 63);
      Pow2Top();
    } else {
      CountZero(d.ht0.buckets);
      FourIsLeast();
    }
    hide NextPower;
  }

  lemma FourIsLeast()
    ensures NextPower(DICT_HT_INITIAL_SIZE) == DICT_HT_INITIAL_SIZE
  {
    assert Pow2(2) == 4;
    assert IsSize(4);
    NextPowerLeast(4, 4);
  }

  /** `dictResize` allocates the least table that holds the entries, and refuses if the table is that one already. So
      it shrinks every other table that holds them. */
  lemma ShrinkSize<K(!new), V>(d: State<K, V>, canResize: bool)
    requires Valid(d)
    ensures var (r, ok) := Resize(d, canResize);
      var n := if ok then Allocated(d, r) else |d.ht0.buckets|;
      && (ok ==> canResize && !Rehashing(d) && n != |d.ht0.buckets|)
      && (canResize && !Rehashing(d) ==>
            && IsSize(n) && n >= DICT_HT_INITIAL_SIZE && (d.ht0.used <= LONG_MAX + 1 ==> n >= d.ht0.used)
            && (forall p: nat | IsSize(p) && p >= DICT_HT_INITIAL_SIZE && p >= d.ht0.used :: n <= p)
            && (ok && DICT_HT_INITIAL_SIZE <= |d.ht0.buckets| && d.ht0.used <= |d.ht0.buckets| ==>
                  n < |d.ht0.buckets|))
  {
    hide NextPower, Pow2, IsSize;
    var used := d.ht0.used;
    var size := if used < DICT_HT_INITIAL_SIZE then DICT_HT_INITIAL_SIZE else used;
    forall p: nat | IsSize(p) && p >= DICT_HT_INITIAL_SIZE && p >= used ensures NextPower(size) <= p {
      NextPowerLeast(size, p);
    }
  }

  // ---- the map operations ----

  /** `dictAddRaw` followed by setting the value. The flag says whether the key was added. */
  function Add<K(!new, ==), V>(d: State<K, V>, k: K, v: V, canResize: bool): (State<K, V>, bool)
    requires Valid(d)
  {
    StepKeeps(d);
    var d1 := RehashStep(d);
    ExpandIfNeededKeeps(d1, canResize);
    var (d2, ok) := ExpandIfNeeded(d1, canResize);
    if !ok || Search(d2, k).Some? then (d2, false) else (Insert(d2, k, v), true)
  }

  /** A new entry goes to the new table while rehashing, else to the only one. */
  function Insert<K(!new), V>(d: State<K, V>, k: K, v: V): State<K, V>
    requires Valid(d) && d.ht0.buckets != []
  {
    if Rehashing(d) then d.(ht1 := Push(d.hash, d.ht1, Entry(k, v)))
    else d.(ht0 := Push(d.hash, d.ht0, Entry(k, v)))
  }

  lemma InsertKeeps<K(!new), V>(d: State<K, V>, k: K, v: V)
    requires Valid(d) && d.ht0.buckets != [] && Lookup(d, k).None?
    ensures var r := Insert(d, k, v);
            && Valid(r) && Size(r) == Size(d) + 1
            && forall q :: Lookup(r, q) == if q == k then Some(v) else Lookup(d, q)
  {
    PushFacts(d.hash, if Rehashing(d) then d.ht1 else d.ht0, Entry(k, v));
  }

  /** The search loop shared by `dictFind`, `_dictKeyIndex` and `dictGenericDelete`. */
  function Search<K(!new, ==), V>(d: State<K, V>, k: K): (r: Option<V>)
    requires Valid(d)
    ensures r == Lookup(d, k)
  {
    if d.ht0.buckets == [] then None
    else
      var r := ChainFind(d.ht0.buckets[Slot(d.hash(k), |d.ht0.buckets|)], k);
      if r.Some? || !Rehashing(d) then r
      else ChainFind(d.ht1.buckets[Slot(d.hash(k), |d.ht1.buckets|)], k)
  }

  /** Add succeeds exactly when the key is new (and the table can still grow), and then binds it. */
  lemma AddRefines<K(!new), V>(d: State<K, V>, k: K, v: V, canResize: bool)
    requires Valid(d)
    ensures var (r, added) := Add(d, k, v, canResize);
            && Valid(r) && r.hash == d.hash && r.iterators == d.iterators
            && Valid(RehashStep(d))
            && (added <==> Lookup(d, k).None? && !AtCapacity(RehashStep(d), canResize))
            && Size(r) == Size(d) + (if added then 1 else 0)
            && forall q :: Lookup(r, q) == if added && q == k then Some(v) else Lookup(d, q)
  {
    StepKeeps(d);
    var d1 := RehashStep(d);
    ExpandIfNeededKeeps(d1, canResize);
    var (d2, ok) := ExpandIfNeeded(d1, canResize);
    hide Core, TableFind, Lookup, Insert, RehashStep, ExpandIfNeeded, AtCapacity;
    if ok && Search(d2, k).None? { InsertKeeps(d2, k, v); }
  }

  lemma StepKeeps<K(!new), V>(d: State<K, V>)
    requires Valid(d)
    ensures Valid(RehashStep(d)) && SameMap(d, RehashStep(d)) && Size(RehashStep(d)) == Size(d)
    ensures d.iterators > 0 || !Rehashing(d) ==> RehashStep(d) == d
    ensures d.iterators == 0 && Rehashing(d) ==> !Rehashing(RehashStep(d)) || RehashStep(d).rehashidx > d.rehashidx
  {
    RehashKeeps(d, 1);
  }

  /** `dictFind`: a lookup that also performs one rehash step, unless the dictionary is empty. */
  function Find<K(!new, ==), V>(d: State<K, V>, k: K): (State<K, V>, Option<V>)
    requires Valid(d)
  {
    if Size(d) == 0 then (d, None)
    else
      StepKeeps(d);
      (RehashStep(d), Search(RehashStep(d), k))
  }

  lemma FindRefines<K(!new), V>(d: State<K, V>, k: K)
    requires Valid(d)
    ensures var (r, found) := Find(d, k);
            Valid(r) && SameMap(d, r) && Size(r) == Size(d) && found == Lookup(d, k)
  {
    SizeZero(d);
    StepKeeps(d);
  }

  /** Apply a change to the chain of k in whichever table holds k. */
  function WithChain<K, V>(t: Table<K, V>, b: nat, c: seq<Entry<K, V>>): Table<K, V>
    requires b < |t.buckets| && t.used - |t.buckets[b]| + |c| >= 0
  {
    Table(t.buckets[b := c], t.used - |t.buckets[b]| + |c|)
  }

  lemma ChainIn<K(!new), V>(t: Table<K, V>, hash: K -> u64, k: K)
    requires TableOk(t, hash) && t.buckets != []
    ensures var b := Slot(hash(k), |t.buckets|);
            && t.used >= |t.buckets[b]|
            && BucketOk(ChainRemove(t.buckets[b], k), b, |t.buckets|, hash)
            && forall v :: BucketOk(ChainSet(t.buckets[b], k, v), b, |t.buckets|, hash)
                           && |ChainSet(t.buckets[b], k, v)| == |t.buckets[b]|
  {
    var b := Slot(hash(k), |t.buckets|);
    var c := t.buckets[b];
    assert BucketOk(c, b, |t.buckets|, hash);
    CountUpdate(t.buckets, b, []);
    RemoveFacts(c, k);
    var r := ChainRemove(c, k);
    forall i | 0 <= i < |r| ensures Slot(hash(r[i].key), |t.buckets|) == b { assert r[i] in c; }
    forall v ensures BucketOk(ChainSet(c, k, v), b, |t.buckets|, hash) && |ChainSet(c, k, v)| == |c| {
      SetFacts(c, k, v);
    }
  }

  /** Unlink k from whichever table holds it. */
  function Unlink<K(!new, ==), V>(d: State<K, V>, k: K): State<K, V>
    requires Valid(d) && d.ht0.buckets != []
  {
    ChainIn(d.ht0, d.hash, k);
    var b0 := Slot(d.hash(k), |d.ht0.buckets|);
    var c0 := d.ht0.buckets[b0];
    if ChainFind(c0, k).Some? then d.(ht0 := WithChain(d.ht0, b0, ChainRemove(c0, k)))
    else if !Rehashing(d) then d
    else
      ChainIn(d.ht1, d.hash, k);
      var b1 := Slot(d.hash(k), |d.ht1.buckets|);
      d.(ht1 := WithChain(d.ht1, b1, ChainRemove(d.ht1.buckets[b1], k)))
  }

  lemma RemoveFromTable<K(!new), V>(t: Table<K, V>, hash: K -> u64, k: K)
    requires TableOk(t, hash) && t.buckets != []
    ensures var b := Slot(hash(k), |t.buckets|);
            && t.used >= |t.buckets[b]|
            && var t' := WithChain(t, b, ChainRemove(t.buckets[b], k));
            && TableOk(t', hash) && |t'.buckets| == |t.buckets|
            && (forall i | 0 <= i < |t.buckets| && t.buckets[i] == [] :: t'.buckets[i] == [])
            && t'.used == t.used - (if TableFind(t, hash, k).Some? then 1 else 0)
            && forall q :: TableFind(t', hash, q) == if q == k then None else TableFind(t, hash, q)
  {
    var b := Slot(hash(k), |t.buckets|);
    ChainIn(t, hash, k);
    assert BucketOk(t.buckets[b], b, |t.buckets|, hash);
    RemoveFacts(t.buckets[b], k);
    ReplaceChain(t, hash, b, ChainRemove(t.buckets[b], k));
  }

  lemma UnlinkKeeps<K(!new), V>(d: State<K, V>, k: K)
    requires Valid(d) && d.ht0.buckets != []
    ensures var r := Unlink(d, k);
            && Valid(r) && Size(r) == Size(d) - (if Lookup(d, k).Some? then 1 else 0)
            && forall q :: Lookup(r, q) == if q == k then None else Lookup(d, q)
  {
    if TableFind(d.ht0, d.hash, k).Some? {
      RemoveFromTable(d.ht0, d.hash, k);
    } else if Rehashing(d) {
      RemoveFromTable(d.ht1, d.hash, k);
    }
  }

  /** `dictGenericDelete`: unlink the entry of k, if any, and return its value. */
  function Delete<K(!new, ==), V>(d: State<K, V>, k: K): (State<K, V>, Option<V>)
    requires Valid(d)
  {
    if Size(d) == 0 then (d, None)
    else
      StepKeeps(d);
      var d1 := RehashStep(d);
      SizeZero(d1);
      (Unlink(d1, k), Search(d1, k))
  }

  /** Delete returns the old binding of k, removes it and leaves every other binding alone. */
  lemma DeleteRefines<K(!new), V>(d: State<K, V>, k: K)
    requires Valid(d)
    ensures var (r, was) := Delete(d, k);
            && Valid(r) && r.hash == d.hash && r.iterators == d.iterators
            && was == Lookup(d, k)
            && Size(r) == Size(d) - (if was.Some? then 1 else 0)
            && forall q :: Lookup(r, q) == if q == k then None else Lookup(d, q)
  {
    SizeZero(d);
    if Size(d) != 0 {
      StepKeeps(d);
      SizeZero(RehashStep(d));
      UnlinkKeeps(RehashStep(d), k);
    }
  }

  /** Overwrite the value of k where it sits. */
  function SetValue<K(!new, ==), V>(d: State<K, V>, k: K, v: V): State<K, V>
    requires Valid(d) && d.ht0.buckets != []
  {
    ChainIn(d.ht0, d.hash, k);
    var b0 := Slot(d.hash(k), |d.ht0.buckets|);
    var c0 := d.ht0.buckets[b0];
    if ChainFind(c0, k).Some? || !Rehashing(d) then d.(ht0 := WithChain(d.ht0, b0, ChainSet(c0, k, v)))
    else
      ChainIn(d.ht1, d.hash, k);
      var b1 := Slot(d.hash(k), |d.ht1.buckets|);
      d.(ht1 := WithChain(d.ht1, b1, ChainSet(d.ht1.buckets[b1], k, v)))
  }

  lemma SetInTable<K(!new), V>(t: Table<K, V>, hash: K -> u64, k: K, v: V)
    requires TableOk(t, hash) && t.buckets != []
    ensures var b := Slot(hash(k), |t.buckets|);
            && t.used >= |t.buckets[b]|
            && |ChainSet(t.buckets[b], k, v)| == |t.buckets[b]|
            && var t' := WithChain(t, b, ChainSet(t.buckets[b], k, v));
            && TableOk(t', hash) && |t'.buckets| == |t.buckets| && t'.used == t.used
            && (forall i | 0 <= i < |t.buckets| && t.buckets[i] == [] :: t'.buckets[i] == [])
            && forall q :: TableFind(t', hash, q) ==
                 if q == k && TableFind(t, hash, k).Some? then Some(v) else TableFind(t, hash, q)
  {
    var b := Slot(hash(k), |t.buckets|);
    ChainIn(t, hash, k);
    SetFacts(t.buckets[b], k, v);
    ReplaceChain(t, hash, b, ChainSet(t.buckets[b], k, v));
  }

  lemma SetValueKeeps<K(!new), V>(d: State<K, V>, k: K, v: V)
    requires Valid(d) && d.ht0.buckets != []
    ensures var r := SetValue(d, k, v);
            && Valid(r) && Size(r) == Size(d)
            && forall q :: Lookup(r, q) == if q == k && Lookup(d, k).Some? then Some(v) else Lookup(d, q)
  {
    if TableFind(d.ht0, d.hash, k).Some? || !Rehashing(d) {
      SetInTable(d.ht0, d.hash, k, v);
    } else {
      SetInTable(d.ht1, d.hash, k, v);
    }
  }

  /** The entry `dictAddRaw` reports as existing: none if the table refuses to grow, which comes before the search. */
  function Existing<K(!new, ==), V>(d: State<K, V>, k: K, canResize: bool): Option<V>
    requires Valid(d)
  {
    StepKeeps(d);
    var d1 := RehashStep(d);
    ExpandIfNeededKeeps(d1, canResize);
    var (d2, ok) := ExpandIfNeeded(d1, canResize);
    if ok then Search(d2, k) else None
  }

  /** `dictReplace`: add, or overwrite the value in place. The flag is true when the key was new; there is none when
      the existing entry that is then overwritten is NULL. */
  function Replace<K(!new, ==), V>(d: State<K, V>, k: K, v: V, canResize: bool): (State<K, V>, Option<bool>)
    requires Valid(d)
  {
    AddRefines(d, k, v, canResize);
    ExistingMeans(d, k, canResize);
    var (d1, added) := Add(d, k, v, canResize);
    if added then (d1, Some(true))
    else if Existing(d, k, canResize).None? then (d1, None)
    else SizeZero(d1); (SetValue(d1, k, v), Some(false))
  }

  lemma ExistingMeans<K(!new), V>(d: State<K, V>, k: K, canResize: bool)
    requires Valid(d)
    ensures Valid(RehashStep(d))
    ensures Existing(d, k, canResize) == if AtCapacity(RehashStep(d), canResize) then None else Lookup(d, k)
  {
    StepKeeps(d);
    ExpandIfNeededKeeps(RehashStep(d), canResize);
  }

  /** Replace binds k to v whether or not it was present, unless the table is at capacity: then there is no entry to
      overwrite, even if the key is present. */
  lemma ReplaceRefines<K(!new), V>(d: State<K, V>, k: K, v: V, canResize: bool)
    requires Valid(d)
    ensures Valid(RehashStep(d))
    ensures var (r, added) := Replace(d, k, v, canResize); var full := AtCapacity(RehashStep(d), canResize);
            && Valid(r) && r.hash == d.hash && r.iterators == d.iterators
            && added == (if full then None else Some(Lookup(d, k).None?))
            && forall q :: Lookup(r, q) == if q == k && !full then Some(v) else Lookup(d, q)
  {
    AddRefines(d, k, v, canResize);
    ExistingMeans(d, k, canResize);
    var (d1, added) := Add(d, k, v, canResize);
    if !added && Existing(d, k, canResize).Some? { SetValueKeeps(d1, k, v); }
  }
}
