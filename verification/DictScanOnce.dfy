/** What `dictScan` emits: only bindings, none twice in one call, and over an unchanging dictionary, rehashing or not,
    each binding exactly once. */
module DictScanOnce {
  import opened Words
  import opened Options
  import opened DictTables
  import opened DictScan

  lemma DistinctJoin<K, V>(c: seq<Entry<K, V>>, d: seq<Entry<K, V>>)
    requires Distinct(c) && Distinct(d)
    requires forall e, f | e in c && f in d :: e.key != f.key
    ensures Distinct(c + d)
  {
    forall i, j | 0 <= i < j < |c + d| ensures (c + d)[i].key != (c + d)[j].key {
      if i < |c| <= j { assert c[i] in c && d[j - |c|] in d; }
    }
  }

  /** The entry is in its bucket. */
  ghost predicate Holds<K, V>(bs: seq<seq<Entry<K, V>>>, hash: K -> u64, e: Entry<K, V>)
    requires IsSize(|bs|)
  {
    e in bs[Slot(hash(e.key), |bs|)]
  }

  /** An entry of its bucket in a table of 2^b, in the top-a block of the cursor and not before it. */
  ghost predicate InBlock<K, V>(bs: seq<seq<Entry<K, V>>>, hash: K -> u64, v: u64, a: nat, b: nat, e: Entry<K, V>)
    requires IsSize(|bs|) && a <= 64 && b <= 64
  {
    var h := hash(e.key);
    Holds(bs, hash, e) && Top(Rev(v), b) <= Top(Rev(h), b) && Top(Rev(h), a) == Top(Rev(v), a)
  }

  ghost predicate AllInBlock<K, V>(bs: seq<seq<Entry<K, V>>>, hash: K -> u64, v: u64, a: nat, b: nat,
                                   c: seq<Entry<K, V>>)
    requires IsSize(|bs|) && a <= 64 && b <= 64
  {
    forall e | e in c :: InBlock(bs, hash, v, a, b, e)
  }

  lemma ShorterTop(x: u64, y: u64, a: nat, b: nat)
    requires a <= b <= 64 && Top(x, b) == Top(y, b)
    ensures Top(x, a) == Top(y, a)
  {
    hide Halve;
    HalveTwice(x, 64 - b, b - a);
    HalveTwice(y, 64 - b, b - a);
  }

  ghost predicate BucketsOk<K, V>(bs: seq<seq<Entry<K, V>>>, hash: K -> u64) {
    IsSize(|bs|) && forall i | 0 <= i < |bs| :: BucketOk(bs[i], i, |bs|, hash)
  }

  /** One bucket. */
  lemma BucketInBlock<K, V>(bs: seq<seq<Entry<K, V>>>, hash: K -> u64, v: u64, a: nat, b: nat)
    requires a <= b <= 63 && BucketsOk(bs, hash) && |bs| == Pow2(b)
    ensures var c := bs[Slot(v, |bs|)];
      Distinct(c) && AllInBlock(bs, hash, v, a, b, c) && forall e | e in c :: Top(Rev(hash(e.key)), b) == Top(Rev(v), b)
  {
    var c := bs[Slot(v, |bs|)];
    assert BucketOk(c, Slot(v, |bs|), |bs|, hash);
    hide Pow2, Rev, Top, Slot, IsSize;
    forall e | e in c ensures InBlock(bs, hash, v, a, b, e) && Top(Rev(hash(e.key)), b) == Top(Rev(v), b) {
      PrefixIsBucket(hash(e.key), v, b);
      ShorterTop(Rev(hash(e.key)), Rev(v), a, b);
    }
  }

  /** While the loop over the larger table goes on, it is one bucket further and in the same bucket of the smaller. */
  lemma LoopGoesOn(v: u64, a: nat, b: nat, m0: u64, m1: u64)
    requires a <= b <= 63 && m0 == Pow2(a) - 1 && m1 == Pow2(b) - 1
    ensures var n := NextCursor(v, m1);
      And(n, Xor(m0, m1)) != 0 ==>
        Rev(n) > Rev(v) && Top(Rev(n), b) == Top(Rev(v), b) + 1 && Top(Rev(n), a) == Top(Rev(v), a)
  {
    hide LowZero, Halve, Pow2, Successor, Rev, Bit, And, Xor, NextCursor;
    var n := NextCursor(v, m1);
    if And(n, Xor(m0, m1)) != 0 {
      AndZero(Xor(m0, m1));
      CursorStep(v, b, m1);
      BlockStep(v, a, b, m0, m1);
      LoopTest(n, a, b, m0, m1);
    }
  }

  /** The expansions of the cursor: every entry once, from its own bucket, all in one bucket of the smaller table. */
  lemma {:induction false} LargeEmits<K, V>(bs: seq<seq<Entry<K, V>>>, hash: K -> u64, v: u64, a: nat, b: nat,
                                            m0: u64, m1: u64)
    requires a <= b <= 63 && BucketsOk(bs, hash) && |bs| == Pow2(b) && m0 == Pow2(a) - 1 && m1 == Pow2(b) - 1
    ensures var c := ScanLarge(bs, v, m0, m1).0; Distinct(c) && AllInBlock(bs, hash, v, a, b, c)
    decreases WORD - Rev(v)
  {
    assert IsSize(|bs|);
    hide Halve, Pow2, Rev, Bit, And, Xor, NextCursor, Top, Slot, IsSize, Distinct, BucketsOk;
    var n := NextCursor(v, m1);
    var here := bs[Slot(v, |bs|)];
    BucketInBlock(bs, hash, v, a, b);
    LoopGoesOn(v, a, b, m0, m1);
    if And(n, Xor(m0, m1)) != 0 {
      LargeEmits(bs, hash, n, a, b, m0, m1);
      var rest := ScanLarge(bs, n, m0, m1).0;
      assert forall e | e in rest :: InBlock(bs, hash, n, a, b, e);
      DistinctJoin(here, rest);
    }
  }

  /** The dictionary binds the entry, and it belongs to the cursor's bucket in the smaller table. */
  ghost predicate Due<K(!new), V>(d: State<K, V>, v: u64, k: nat, e: Entry<K, V>)
    requires Valid(d) && k <= 64
  {
    Lookup(d, e.key) == Some(e.val) && Top(Rev(d.hash(e.key)), k) == Top(Rev(v), k)
  }

  /** What the buckets bind a key to. */
  ghost function FoundIn<K, V>(bs: seq<seq<Entry<K, V>>>, hash: K -> u64, k: K): Option<V>
    requires IsSize(|bs|)
  {
    ChainFind(bs[Slot(hash(k), |bs|)], k)
  }

  lemma HeldFound<K, V>(bs: seq<seq<Entry<K, V>>>, hash: K -> u64, e: Entry<K, V>)
    requires BucketsOk(bs, hash) && Holds(bs, hash, e)
    ensures FoundIn(bs, hash, e.key) == Some(e.val)
  {
    var b := Slot(hash(e.key), |bs|);
    assert BucketOk(bs[b], b, |bs|, hash);
    FindIndex(bs[b], e.key);
  }

  /** The two tables share no key. */
  ghost predicate Apart<K(!new), V>(small: seq<seq<Entry<K, V>>>, large: seq<seq<Entry<K, V>>>, hash: K -> u64)
    requires IsSize(|small|) && IsSize(|large|)
  {
    forall k :: FoundIn(small, hash, k).Some? ==> FoundIn(large, hash, k).None?
  }

  /** What the table holds is bound. */
  ghost predicate Bound<K(!new), V>(d: State<K, V>, bs: seq<seq<Entry<K, V>>>)
    requires Valid(d) && IsSize(|bs|)
  {
    forall k :: FoundIn(bs, d.hash, k).Some? ==> Lookup(d, k) == FoundIn(bs, d.hash, k)
  }

  lemma BothBound<K(!new), V>(d: State<K, V>)
    requires Valid(d) && Rehashing(d)
    ensures BucketsOk(d.ht0.buckets, d.hash) && BucketsOk(d.ht1.buckets, d.hash)
    ensures Bound(d, d.ht0.buckets) && Bound(d, d.ht1.buckets)
    ensures Apart(d.ht0.buckets, d.ht1.buckets, d.hash) && Apart(d.ht1.buckets, d.ht0.buckets, d.hash)
  {
    assert forall k :: FoundIn(d.ht0.buckets, d.hash, k) == TableFind(d.ht0, d.hash, k);
    assert forall k :: FoundIn(d.ht1.buckets, d.hash, k) == TableFind(d.ht1, d.hash, k);
    hide FoundIn, TableFind;
  }

  lemma PairEmits<K(!new), V>(small: seq<seq<Entry<K, V>>>, large: seq<seq<Entry<K, V>>>, hash: K -> u64, v: u64,
                        a: nat, b: nat)
    requires a <= b <= 63 && |small| == Pow2(a) && |large| == Pow2(b) && InWord(|small|) && InWord(|large|)
    requires BucketsOk(small, hash) && BucketsOk(large, hash)
    requires Apart(small, large, hash)
    ensures var c := ScanPair(small, large, v).0;
      && Distinct(c)
      && forall e | e in c ::
           && (FoundIn(small, hash, e.key) == Some(e.val) || FoundIn(large, hash, e.key) == Some(e.val))
           && Top(Rev(hash(e.key)), a) == Top(Rev(v), a)
  {
    hide Halve, Pow2, Rev, Bit, NextCursor, Top, Slot, IsSize, Distinct, BucketsOk, ScanLarge, FoundIn, Holds;
    BucketInBlock(small, hash, v, a, a);
    LargeEmits(large, hash, v, a, b, |small| - 1, |large| - 1);
    var c, d := small[Slot(v, |small|)], ScanLarge(large, v, |small| - 1, |large| - 1).0;
    forall e | e in c ensures InBlock(small, hash, v, a, a, e) && FoundIn(small, hash, e.key) == Some(e.val) {
      HeldFound(small, hash, e);
    }
    forall e | e in d ensures InBlock(large, hash, v, a, b, e) && FoundIn(large, hash, e.key) == Some(e.val) {
      HeldFound(large, hash, e);
    }
    DistinctJoin(c, d);
  }

  lemma PairDue<K(!new), V>(d: State<K, V>, small: seq<seq<Entry<K, V>>>, large: seq<seq<Entry<K, V>>>, v: u64,
                                  k: nat)
    requires Valid(d) && InWord(|small|) && InWord(|large|) && k <= 63 && |small| == Pow2(k) && |small| <= |large|
    requires BucketsOk(small, d.hash) && BucketsOk(large, d.hash) && Apart(small, large, d.hash)
    requires Bound(d, small) && Bound(d, large)
    ensures var c := ScanPair(small, large, v).0; Distinct(c) && forall e | e in c :: Due(d, v, k, e)
  {
    hide ScanPair, Slot, Pow2, Rev, Top, Valid, Lookup, BucketsOk, IsSize, Distinct, FoundIn;
    var b := LogOf(|large|);
    Pow2Inj(k, b);
    PairEmits(small, large, d.hash, v, k, b);
  }

  lemma RehashingEmits<K(!new), V>(d: State<K, V>, v: u64, k: nat)
    requires Valid(d) && Size(d) != 0 && Rehashing(d) && k <= 63 && ScanSize(d) == Pow2(k)
    ensures Distinct(Scan(d, v).0) && forall e | e in Scan(d, v).0 :: Due(d, v, k, e)
  {
    ScanSizes(d);
    BothBound(d);
    hide ScanPair, Pow2, Due, Valid, BucketsOk, IsSize, Distinct, Apart, Bound;
    if |d.ht0.buckets| > |d.ht1.buckets| {
      PairDue(d, d.ht1.buckets, d.ht0.buckets, v, k);
    } else {
      PairDue(d, d.ht0.buckets, d.ht1.buckets, v, k);
    }
  }

  lemma CallEmits<K(!new), V>(d: State<K, V>, v: u64, k: nat)
    requires Valid(d) && Size(d) != 0 && k <= 63 && ScanSize(d) == Pow2(k)
    ensures Distinct(Scan(d, v).0) && forall e | e in Scan(d, v).0 :: Due(d, v, k, e)
  {
    if Rehashing(d) {
      RehashingEmits(d, v, k);
    } else {
      ScanSizes(d);
      assert BucketsOk(d.ht0.buckets, d.hash);
      hide Slot, Pow2, Rev, Top, BucketsOk, IsSize, Distinct;
      BucketInBlock(d.ht0.buckets, d.hash, v, k, k);
      forall e | e in Scan(d, v).0 ensures Due(d, v, k, e) {
        assert InBlock(d.ht0.buckets, d.hash, v, k, k, e);
        HeldFound(d.ht0.buckets, d.hash, e);
      }
    }
  }

  /** One call emits only bindings, and no key twice, whether the dictionary is being rehashed or not. */
  lemma ScanEmits<K(!new), V>(d: State<K, V>, v: u64)
    requires Valid(d)
    ensures Distinct(Scan(d, v).0)
    ensures forall e | e in Scan(d, v).0 :: Lookup(d, e.key) == Some(e.val)
  {
    if Size(d) != 0 {
      ScanNext(d, v);
      hide Scan, Valid, Pow2;
      var k := LogOf(ScanSize(d));
      CallEmits(d, v, k);
    }
  }

  // ---- whole scans of an unchanging dictionary ----

  /** All that is emitted from cursor v until the cursor comes back to 0. */
  function ScanAll<K(!new), V>(d: State<K, V>, v: u64): seq<Entry<K, V>>
    requires Valid(d)
    decreases WORD - Rev(v)
  {
    ScanAdvances(d, v);
    var (here, n) := Scan(d, v);
    if n == 0 then here else here + ScanAll(d, n)
  }

  /** From cursor v on nothing is emitted twice, and nothing of earlier buckets is emitted. */
  lemma {:induction false} ScanAllOnce<K(!new), V>(d: State<K, V>, v: u64, k: nat)
    requires Valid(d) && Size(d) != 0 && k <= 63 && ScanSize(d) == Pow2(k)
    ensures Distinct(ScanAll(d, v))
    ensures forall e | e in ScanAll(d, v) ::
              Lookup(d, e.key) == Some(e.val) && Top(Rev(d.hash(e.key)), k) >= Top(Rev(v), k)
    decreases WORD - Rev(v)
  {
    hide Scan, Valid, Pow2, Rev, Top, NextCursor, Successor, LowZero, Halve, Distinct, Lookup;
    ScanAdvances(d, v);
    CallEmits(d, v, k);
    var (here, n) := Scan(d, v);
    assert forall e | e in here :: Due(d, v, k, e);
    if n != 0 {
      ScanAllOnce(d, n, k);
      TopAdvances(d, v, k);
      DistinctJoin(here, ScanAll(d, n));
    }
  }

  lemma TopAdvances<K(!new), V>(d: State<K, V>, v: u64, k: nat)
    requires Valid(d) && Size(d) != 0 && k <= 63 && ScanSize(d) == Pow2(k) && Scan(d, v).1 != 0
    ensures Top(Rev(Scan(d, v).1), k) == Top(Rev(v), k) + 1
  {
    hide Scan, Valid, Pow2, Rev, NextCursor, Successor, LowZero, Halve;
    ScanNext(d, v);
    CursorStep(v, k, ScanSize(d) - 1);
  }

  lemma {:induction false} ScanAllCovers<K(!new), V>(d: State<K, V>, v: u64, q: K)
    requires Valid(d) && Lookup(d, q).Some? && Rev(v) <= Rev(d.hash(q))
    ensures Entry(q, Lookup(d, q).value) in ScanAll(d, v)
    decreases WORD - Rev(v)
  {
    hide Scan, Valid, Lookup, Rev;
    ScanAdvances(d, v);
    var n := Scan(d, v).1;
    if n == 0 || Rev(d.hash(q)) < Rev(n) {
      ScanCovers(d, v, q);
    } else {
      ScanAllCovers(d, n, q);
    }
  }

  /** A scan of an unchanging dictionary, rehashing or not, emits its bindings, each exactly once, and nothing else. */
  lemma ScanExact<K(!new), V>(d: State<K, V>)
    requires Valid(d)
    ensures Distinct(ScanAll(d, 0))
    ensures forall e: Entry<K, V> :: e in ScanAll(d, 0) <==> Lookup(d, e.key) == Some(e.val)
  {
    SizeZero(d);
    if Size(d) != 0 {
      ScanNext(d, 0);
      hide Scan, Valid, Pow2, ScanAll, Lookup, Rev, Distinct, Top;
      var k := LogOf(ScanSize(d));
      ScanAllOnce(d, 0, k);
      forall e: Entry<K, V> | Lookup(d, e.key) == Some(e.val) ensures e in ScanAll(d, 0) {
        RevZero(0);
        ScanAllCovers(d, 0, e.key);
      }
    }
  }
}
