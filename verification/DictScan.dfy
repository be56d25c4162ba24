/** `dictScan` of src/dict.c: the reverse-binary cursor and why it misses nothing.

    The proof measures cursors and hashes by their bit reversal. A call at cursor v emits every entry
    whose reversed hash lies between rev(v) and the reversed next cursor, whatever the sizes of the
    tables, so nothing depends on the tables staying the same from call to call. */
module DictScan {
  import opened Words
  import opened Options
  import opened DictTables

  // ---- bit reversal ----

  /** The word with its 64 bits in the opposite order. */
  function Rev(x: u64): (r: u64)
    ensures forall i: nat :: Bit(r, i) == (i < 64 && Bit(x, 63 - i))
  {
    Pow2WordFact();
    Value(seq(64, (i: nat) => i < 64 && Bit(x, 63 - i)))
  }

  lemma RevRev(x: u64)
    ensures Rev(Rev(x)) == x
  {
    WordsEqual(Rev(Rev(x)), x);
  }

  lemma RevZero(x: u64)
    ensures Rev(x) == 0 <==> x == 0
  {
    forall i: nat | i < 64 ensures !Bit(0, i) && Bit(Rev(0), i) == Bit(0, i) {
      ZeroBit(i);
      ZeroBit(63 - i);
    }
    WordsEqual(Rev(0), 0);
    RevRev(x);
  }

  ghost predicate IsStage(s: nat) { s == 1 || s == 2 || s == 4 || s == 8 || s == 16 || s == 32 }

  /** The mask of stage s selects the lower half of every block of 2s bits. */
  ghost predicate InMask(i: nat, s: nat)
    requires s > 0
  {
    i % (2 * s) < s
  }

  /** Where the stages down to s have brought bit i from: its position with all weights from s up flipped. */
  ghost function Flip(i: nat, s: nat): int
    requires s > 0
  {
    64 - s - i + 2 * (i % s)
  }

  /** A block of 2s positions stays inside the word. */
  lemma BlockInside(i: nat, t: nat, n: nat)
    requires t > 0 && i < 64 && 64 == n * t
    ensures (i / t) * t + t <= 64
  {
    var q := i / t;
    assert i == q * t + i % t;
    if q >= n { MulMono(n, q, t); assert false; }
    MulMono(q + 1, n, t);
  }

  /** The two halves of a block of 2s positions. */
  lemma Halves(i: nat, s: nat, n: nat)
    requires s > 0 && i < 64 && 64 == n * (2 * s)
    ensures i % (2 * s) < s ==> i + s < 64 && i % s == i % (2 * s) && (i + s) % (2 * s) == i % (2 * s) + s
    ensures i % (2 * s) >= s ==> i >= s && i % s == i % (2 * s) - s && (i - s) % (2 * s) == i % (2 * s) - s
  {
    HalvesOf(i, s, 2 * s, n);
  }

  lemma HalvesOf(i: nat, s: nat, t: nat, n: nat)
    requires s > 0 && i < 64 && t == 2 * s && 64 == n * t
    ensures i % t < s ==> i + s < 64 && i % s == i % t && (i + s) % t == i % t + s
    ensures i % t >= s ==> i >= s && i % s == i % t - s && (i - s) % t == i % t - s
  {
    var q, l := i / t, i % t;
    assert i == q * t + l;
    BlockInside(i, t, n);
    if l < s { LowHalf(i, s, t, q, l); } else { HighHalf(i, s, t, q, l); }
  }

  lemma LowHalf(i: nat, s: nat, t: nat, q: nat, l: nat)
    requires t == 2 * s && i == q * t + l && l < s
    ensures i % s == l && (i + s) % t == l + s
  {
    assert q * t == (2 * q) * s;
    DivModUnique(i, s, 2 * q, l);
    DivModUnique(i + s, t, q, l + s);
  }

  lemma HighHalf(i: nat, s: nat, t: nat, q: nat, l: nat)
    requires t == 2 * s && i == q * t + l && s <= l < t
    ensures i >= s && i % s == l - s && (i - s) % t == l - s
  {
    MulNonNeg(q, t);
    assert q * t + s == (2 * q + 1) * s;
    DivModUnique(i, s, 2 * q + 1, l - s);
    DivModUnique(i - s, t, q, l - s);
  }

  lemma FlipStage(i: nat, s: nat)
    requires i < 64 && IsStage(s)
    ensures InMask(i, s) ==> i + s < 64 && Flip(i, s) == Flip(i + s, 2 * s)
    ensures !InMask(i, s) ==> i >= s && Flip(i, s) == Flip(i - s, 2 * s)
  {
    Halves(i, s, 32 / s);
  }

  lemma MaskStageBit(i: nat, s: nat)
    requires i < 64 && IsStage(s)
    ensures InMask(i, s) == (InMask(i, 2 * s) != (i >= s && InMask(i - s, 2 * s)))
  {
    if s == 32 {
      DivModUnique(i, 2 * s, 0, i);
      DivModUnique(i, 2 * (2 * s), 0, i);
    } else {
      Halves(i, 2 * s, 16 / s);
    }
    Quarter(i, s);
  }

  lemma Quarter(i: nat, s: nat)
    requires s > 0
    ensures var l := i % (2 * (2 * s));
            i >= s ==> (i - s) % (2 * (2 * s)) == if l >= s then l - s else l + 3 * s
  {
    var t := 2 * (2 * s);
    var q, l := i / t, i % t;
    assert i == q * t + l;
    if l >= s {
      DivModUnique(i - s, t, q, l - s);
    } else if i >= s {
      assert (q - 1) * t + t == q * t;
      DivModUnique(i - s, t, q - 1, l + 3 * s);
    }
  }

  lemma MaskStage(mask: u64, s: nat)
    requires IsStage(s)
    requires forall i: nat | i < 64 :: Bit(mask, i) == InMask(i, 2 * s)
    ensures forall i: nat | i < 64 :: Bit(Xor(mask, Shl(mask, s)), i) == InMask(i, s)
  {
    var r := Xor(mask, Shl(mask, s));
    forall i: nat | i < 64 ensures Bit(r, i) == InMask(i, s) {
      hide InMask;
      hide Bit;
      MaskStageBit(i, s);
    }
  }

  /** One swap stage of `rev`. */
  function SwapStage(v: u64, mask: u64, s: nat): u64 {
    Or(And(Shr(v, s), mask), And(Shl(v, s), Not(mask)))
  }

  lemma SwapStageBit(v: u64, mask: u64, s: nat, i: nat)
    requires i < 64
    ensures Bit(SwapStage(v, mask, s), i) == if Bit(mask, i) then Bit(v, i + s) else i >= s && Bit(v, i - s)
  {
  }

  /** After the stages down to s, bit i of v is the bit of x that Flip names. */
  ghost predicate Permuted(x: u64, v: u64, s: nat)
    requires s > 0
  {
    forall i: nat | i < 64 :: 0 <= Flip(i, s) < 64 && Bit(v, i) == Bit(x, Flip(i, s))
  }

  lemma StageKeeps(x: u64, v: u64, mask: u64, s: nat)
    requires IsStage(s)
    requires forall i: nat | i < 64 :: Bit(mask, i) == InMask(i, s)
    requires Permuted(x, v, 2 * s)
    ensures Permuted(x, SwapStage(v, mask, s), s)
  {
    var r := SwapStage(v, mask, s);
    forall i: nat | i < 64 ensures 0 <= Flip(i, s) < 64 && Bit(r, i) == Bit(x, Flip(i, s)) {
      SwapStageBit(v, mask, s, i);
      FlipStage(i, s);
    }
  }

  lemma FirstStage(x: u64, mask: u64)
    requires forall i: nat | i < 64 :: Bit(mask, i)
    ensures Permuted(x, x, 64) && forall i: nat | i < 64 :: Bit(mask, i) == InMask(i, 64)
  {
    hide Bit;
    forall i: nat | i < 64 ensures Flip(i, 64) == i && InMask(i, 64) {
      DivModUnique(i, 64, 0, i);
      DivModUnique(i, 2 * 64, 0, i);
    }
  }

  lemma LastStage(x: u64, v: u64)
    requires Permuted(x, v, 1)
    ensures v == Rev(x)
  {
    forall i: nat | i < 64 ensures Bit(v, i) == Bit(Rev(x), i) {
      assert Flip(i, 1) == 63 - i;
    }
    WordsEqual(v, Rev(x));
  }

  /** `rev`: reversal by parallel swaps of halves, quarters, and so on down to single bits. */
  method ReverseBits(x: u64) returns (v: u64)
    ensures v == Rev(x)
  {
    var s: nat := 64;
    v := x;
    var mask: u64 := 0xFFFF_FFFF_FFFF_FFFF;
    AllOnes();
    FirstStage(x, mask);
    while s > 1
      invariant s == 64 || IsStage(s)
      invariant forall i: nat | i < 64 :: Bit(mask, i) == InMask(i, s)
      invariant Permuted(x, v, s)
    {
      hide Permuted;
      hide InMask;
      hide Bit;
      s := s / 2;
      MaskStage(mask, s);
      mask := Xor(mask, Shl(mask, s));
      StageKeeps(x, v, mask, s);
      v := SwapStage(v, mask, s);
    }
    LastStage(x, v);
  }

  lemma AllOnes()
    ensures forall i: nat | i < 64 :: Bit(0xFFFF_FFFF_FFFF_FFFF, i)
  {
    Pow2WordFact();
    var ones: u64 := Pow2(64) - 1;
    forall i: nat | i < 64 ensures Bit(ones, i) { MaskBit(64, i); }
  }

  // ---- the cursor ----

  /** `v |= ~mask; v = rev(v); v++; v = rev(v);` */
  function NextCursor(v: u64, mask: u64): u64 {
    Rev((Rev(Or(v, Not(mask))) + 1) % WORD)
  }

  lemma HalveLe(x: nat, k: nat)
    ensures Halve(x, k) <= x
    decreases k
  {
  }

  lemma HalveMono(x: nat, y: nat, k: nat)
    requires x <= y
    ensures Halve(x, k) <= Halve(y, k)
    decreases k
  {
  }

  /** The low k bits are all zero. */
  predicate LowZero(x: nat, k: nat)
    decreases k
  {
    k == 0 || (x % 2 == 0 && LowZero(x / 2, k - 1))
  }

  /** Below a number with k low zeros, the quotient by 2^k is smaller. */
  lemma {:induction false} HalveBelow(x: nat, y: nat, k: nat)
    requires x < y && LowZero(y, k)
    ensures Halve(x, k) < Halve(y, k)
    decreases k
  {
    if k > 0 { HalveBelow(x / 2, y / 2, k - 1); }
  }

  lemma {:induction false} LowZeroUnique(x: nat, y: nat, k: nat)
    requires LowZero(x, k) && LowZero(y, k) && Halve(x, k) == Halve(y, k)
    ensures x == y
    decreases k
  {
    if k > 0 { LowZeroUnique(x / 2, y / 2, k - 1); }
  }

  lemma {:induction false} HalveTwice(x: nat, j: nat, k: nat)
    ensures Halve(x, j + k) == Halve(Halve(x, j), k)
    ensures LowZero(x, j) ==> (LowZero(x, j + k) <==> LowZero(Halve(x, j), k))
    decreases j
  {
    if j > 0 { HalveTwice(x / 2, j - 1, k); }
  }

  /** Adding one to k low ones carries into the quotient. */
  lemma {:induction false} SuccOfOnes(x: nat, k: nat)
    requires forall i: nat | i < k :: Bit(x, i)
    ensures LowZero(x + 1, k) && Halve(x + 1, k) == Halve(x, k) + 1
    decreases k
  {
    if k > 0 {
      assert Bit(x, 0);
      forall i: nat | i < k - 1 ensures Bit(x / 2, i) { assert Bit(x, i + 1); }
      SuccOfOnes(x / 2, k - 1);
    }
  }

  /** Adding one carries through the low k bits exactly when it clears them. */
  lemma {:induction false} SuccCarry(q: nat, k: nat)
    ensures Halve(q + 1, k) == Halve(q, k) + (if LowZero(q + 1, k) then 1 else 0)
    decreases k
  {
    if k > 0 { SuccCarry(q / 2, k - 1); }
  }

  lemma {:induction false} LowZeroBit(x: nat, k: nat, i: nat)
    requires LowZero(x, k) && i < k
    ensures !Bit(x, i)
    decreases k
  {
    if i > 0 { LowZeroBit(x / 2, k - 1, i - 1); }
  }

  lemma {:induction false} LowZeroFromBits(x: nat, k: nat)
    requires forall i: nat | i < k :: !Bit(x, i)
    ensures LowZero(x, k)
    decreases k
  {
    if k > 0 {
      assert !Bit(x, 0);
      var h := x / 2;
      forall i: nat | i < k - 1 ensures !Bit(h, i) { assert !Bit(x, i + 1); }
      LowZeroFromBits(h, k - 1);
    }
  }

  lemma {:induction false} HalvePow2(n: nat, k: nat)
    requires k <= n
    ensures LowZero(Pow2(n), k) && Halve(Pow2(n), k) == Pow2(n - k)
    decreases k
  {
    if k > 0 {
      assert Pow2(n) / 2 == Pow2(n - 1) && Pow2(n) % 2 == 0;
      HalvePow2(n - 1, k - 1);
    }
  }

  lemma HalveWord(k: nat)
    requires k <= 64
    ensures LowZero(WORD, 64 - k) && Halve(WORD, 64 - k) == Pow2(k)
  {
    Pow2WordFact();
    HalvePow2(64, 64 - k);
  }

  /** The bucket number of a reversed word: its top k bits. */
  ghost function Top(x: u64, k: nat): (r: u64)
    requires k <= 64
  {
    HalveLe(x, 64 - k);
    Halve(x, 64 - k)
  }

  /** Setting the bits above the mask fills the low bits of the reversed cursor and keeps its top. */
  lemma FilledCursor(v: u64, k: nat, m: u64)
    requires k <= 64 && m == Pow2(k) - 1
    ensures var x := Rev(Or(v, Not(m)));
            Top(x, k) == Top(Rev(v), k) && forall i: nat | i < 64 - k :: Bit(x, i)
  {
    FilledTop(v, k, m);
    var x := Rev(Or(v, Not(m)));
    forall i: nat | i < 64 - k ensures Bit(x, i) { MaskBit(k, 63 - i); }
  }

  lemma FilledTop(v: u64, k: nat, m: u64)
    requires k <= 64 && m == Pow2(k) - 1
    ensures Top(Rev(Or(v, Not(m))), k) == Top(Rev(v), k)
  {
    var x, r := Rev(Or(v, Not(m))), Rev(v);
    var a, b := Top(x, k), Top(r, k);
    forall i: nat | i < 64 ensures Bit(a, i) == Bit(b, i) {
      HalveBit(x, 64 - k, i);
      HalveBit(r, 64 - k, i);
      if i < k { MaskBit(k, k - 1 - i); }
    }
    WordsEqual(a, b);
  }

  /** The number, possibly 2^64, that follows v's bucket in reversed order: the next one with 64-k low zeros. */
  ghost function Successor(v: u64, m: u64): nat {
    var x: nat := Rev(Or(v, Not(m)));
    x + 1
  }

  lemma SuccessorFacts(v: u64, k: nat, m: u64)
    requires k <= 63 && m == Pow2(k) - 1
    ensures var y := Successor(v, m);
            && LowZero(y, 64 - k) && Halve(y, 64 - k) == Top(Rev(v), k) + 1
            && Rev(v) < y <= WORD
  {
    hide Bit, Pow2, LowZero, Rev, Halve;
    var x: nat := Rev(Or(v, Not(m)));
    FilledCursor(v, k, m);
    SuccOfOnes(x, 64 - k);
    if x + 1 <= Rev(v) { HalveMono(x + 1, Rev(v), 64 - k); }
  }

  lemma NextIsSuccessor(v: u64, m: u64)
    ensures var y := Successor(v, m); var n := NextCursor(v, m);
            if y < WORD then Rev(n) == y && n != 0 else n == 0
  {
    hide Bit;
    hide Rev;
    var y := Successor(v, m);
    RevRev(y % WORD);
    RevZero(NextCursor(v, m));
    RevZero(y % WORD);
  }

  lemma CursorStep(v: u64, k: nat, m: u64)
    requires k <= 63 && m == Pow2(k) - 1
    ensures var y := Successor(v, m); var n := NextCursor(v, m);
            && LowZero(y, 64 - k) && Halve(y, 64 - k) == Top(Rev(v), k) + 1
            && Rev(v) < y <= WORD
            && (if y < WORD then Rev(n) == y && n != 0 else n == 0)
  {
    hide *;
    SuccessorFacts(v, k, m);
    NextIsSuccessor(v, m);
  }

  /** Bit i of a bucket number is bit k-1-i of the top of the reversed hash. */
  lemma TopBit(h: u64, k: nat, i: nat)
    requires k <= 64
    ensures Bit(Top(Rev(h), k), i) == (i < k && Bit(h, k - 1 - i))
  {
    HalveBit(Rev(h), 64 - k, i);
  }

  lemma TopGivesBucket(h: u64, v: u64, k: nat)
    requires k <= 63 && Top(Rev(h), k) == Top(Rev(v), k)
    ensures h % Pow2(k) == v % Pow2(k)
  {
    hide Bit, Top, Pow2, Rev;
    var p: nat := Pow2(k);
    var c: nat, d: nat := h % p, v % p;
    forall i: nat | i < k ensures Bit(c, i) == Bit(d, i) {
      TopBit(h, k, k - 1 - i);
      TopBit(v, k, k - 1 - i);
      ModBit(h, k, i);
      ModBit(v, k, i);
    }
    SameBits(k, c, d);
  }

  lemma BucketGivesTop(h: u64, v: u64, k: nat)
    requires k <= 63 && h % Pow2(k) == v % Pow2(k)
    ensures Top(Rev(h), k) == Top(Rev(v), k)
  {
    hide Bit, Top, Pow2, Rev;
    var a, b := Top(Rev(h), k), Top(Rev(v), k);
    forall i: nat | i < 64 ensures Bit(a, i) == Bit(b, i) {
      TopBit(h, k, i);
      TopBit(v, k, i);
      if i < k {
        ModBit(h, k, k - 1 - i);
        ModBit(v, k, k - 1 - i);
      }
    }
    WordsEqual(a, b);
  }

  /** Reversed hashes with the same top k bits belong to the same bucket of a table of 2^k, and conversely. */
  lemma PrefixIsBucket(h: u64, v: u64, k: nat)
    requires k <= 63
    ensures IsSize(Pow2(k)) && (Top(Rev(h), k) == Top(Rev(v), k) <==> Slot(h, Pow2(k)) == Slot(v, Pow2(k)))
  {
    hide *;
    SlotIsMod(h, k);
    SlotIsMod(v, k);
    if Top(Rev(h), k) == Top(Rev(v), k) { TopGivesBucket(h, v, k); }
    if h % Pow2(k) == v % Pow2(k) { BucketGivesTop(h, v, k); }
  }

  /** The cursor moves forward in reversed order or wraps to 0. */
  lemma CursorAdvances(v: u64, k: nat, m: u64)
    requires k <= 63 && m == Pow2(k) - 1
    ensures NextCursor(v, m) == 0 || Rev(NextCursor(v, m)) > Rev(v)
  {
    hide *;
    CursorStep(v, k, m);
  }

  /** Reversed, h lies from cursor v up to, but not including, the next cursor n. */
  ghost predicate Passed(v: u64, n: u64, h: u64) {
    Rev(v) <= Rev(h) && (n == 0 || Rev(h) < Rev(n))
  }

  /** From cursor v on, a step passes exactly the hashes of the bucket it leaves. */
  lemma CursorSkips(v: u64, k: nat, m: u64, h: u64)
    requires k <= 63 && m == Pow2(k) - 1
    ensures IsSize(Pow2(k))
    ensures Passed(v, NextCursor(v, m), h) <==> Rev(v) <= Rev(h) && Slot(h, Pow2(k)) == Slot(v, Pow2(k))
  {
    hide Slot, Rev, Successor, NextCursor, Pow2, Bit, LowZero, Halve, IsSize;
    CursorStep(v, k, m);
    PrefixIsBucket(h, v, k);
    if Passed(v, NextCursor(v, m), h) {
      HalveMono(Rev(v), Rev(h), 64 - k);
      HalveBelow(Rev(h), Successor(v, m), 64 - k);
    } else if Rev(v) <= Rev(h) {
      HalveMono(Successor(v, m), Rev(h), 64 - k);
    }
  }

  // ---- one call of dictScan ----

  /** The do-while loop over the expansions of the cursor in the larger table. */
  function ScanLarge<K, V>(bs: seq<seq<Entry<K, V>>>, v: u64, m0: u64, m1: u64): (seq<Entry<K, V>>, u64)
    requires IsSize(|bs|) && m1 == |bs| - 1
    decreases WORD - Rev(v)
  {
    var here := bs[Slot(v, |bs|)];
    var n := NextCursor(v, m1);
    if And(n, Xor(m0, m1)) != 0 then
      assert Rev(n) > Rev(v) by {
        var k := LogOf(|bs|);
        CursorAdvances(v, k, m1);
        if n == 0 { AndZero(Xor(m0, m1)); }
      }
      var (rest, last) := ScanLarge(bs, n, m0, m1);
      (here + rest, last)
    else (here, n)
  }

  lemma AndZero(y: u64)
    ensures And(0, y) == 0
  {
    forall i: nat | i < 64 ensures Bit(And(0, y), i) == Bit(0, i) { ZeroBit(i); }
    WordsEqual(And(0, y), 0);
  }

  ghost predicate InWord(size: nat) { IsSize(size) && 1 <= size <= WORD }

  lemma SizeInWord(size: nat)
    requires IsSize(size)
    ensures InWord(size)
  {
    var k := LogOf(size);
    MaskFits(k);
  }

  /** The rehashing case: the bucket in the smaller table, then its expansions in the larger. */
  function ScanPair<K, V>(small: seq<seq<Entry<K, V>>>, large: seq<seq<Entry<K, V>>>, v: u64): (seq<Entry<K, V>>, u64)
    requires InWord(|small|) && InWord(|large|)
  {
    var r := ScanLarge(large, v, |small| - 1, |large| - 1);
    (small[Slot(v, |small|)] + r.0, r.1)
  }

  /** `dictScan`: the entries emitted at cursor v, and the next cursor. */
  function Scan<K(!new), V>(d: State<K, V>, v: u64): (seq<Entry<K, V>>, u64)
    requires Valid(d)
  {
    if Size(d) == 0 then ([], 0)
    else
      ScanSizes(d);
      if !Rehashing(d) then
        (d.ht0.buckets[Slot(v, |d.ht0.buckets|)], NextCursor(v, |d.ht0.buckets| - 1))
      else if |d.ht0.buckets| > |d.ht1.buckets| then ScanPair(d.ht1.buckets, d.ht0.buckets, v)
      else ScanPair(d.ht0.buckets, d.ht1.buckets, v)
  }

  lemma ScanSizes<K(!new), V>(d: State<K, V>)
    requires Valid(d) && Size(d) != 0
    ensures InWord(|d.ht0.buckets|) && (Rehashing(d) ==> InWord(|d.ht1.buckets|))
  {
    SizeZero(d);
    SizeInWord(|d.ht0.buckets|);
    if Rehashing(d) { SizeInWord(|d.ht1.buckets|); }
  }

  // ---- the loop over the larger table advances exactly one bucket of the smaller one ----

  /** The loop test reads whether the cursor has come to a multiple of 2^(64-a) in reversed order. */
  lemma LoopTest(n: u64, a: nat, b: nat, m0: u64, m1: u64)
    requires a <= b <= 63 && m0 == Pow2(a) - 1 && m1 == Pow2(b) - 1
    requires LowZero(Rev(n), 64 - b)
    ensures And(n, Xor(m0, m1)) == 0 <==> LowZero(Rev(n), 64 - a)
  {
    hide Bit, Pow2, LowZero;
    var w, r := And(n, Xor(m0, m1)), Rev(n);
    forall i: nat | i < 64 ensures Bit(w, i) == (a <= i && Bit(n, i)) {
      MaskBit(a, i);
      MaskBit(b, i);
      if i >= b { LowZeroBit(r, 64 - b, 63 - i); }
    }
    if w == 0 {
      forall i: nat | i < 64 - a ensures !Bit(r, i) { ZeroBit(63 - i); }
      LowZeroFromBits(r, 64 - a);
    }
    if LowZero(r, 64 - a) {
      forall i: nat | i < 64 ensures Bit(w, i) == Bit(0, i) {
        ZeroBit(i);
        if i >= a { LowZeroBit(r, 64 - a, 63 - i); }
      }
      WordsEqual(w, 0);
    }
  }

  /** One step in the larger table either completes the step of the smaller one or stays inside it. */
  lemma BlockStep(v: u64, a: nat, b: nat, m0: u64, m1: u64)
    requires a <= b <= 63 && m0 == Pow2(a) - 1 && m1 == Pow2(b) - 1
    ensures var y := Successor(v, m1);
            if LowZero(y, 64 - a) then y == Successor(v, m0)
            else y < WORD && Top(y, a) == Top(Rev(v), a)
  {
    hide LowZero, Halve, Pow2, Successor, Rev, NextCursor, Bit;
    var y, r := Successor(v, m1), Rev(v);
    var j, d := 64 - b, b - a;
    SuccessorFacts(v, a, m0);
    SuccessorFacts(v, b, m1);
    HalveTwice(y, j, d);
    HalveTwice(r, j, d);
    SuccCarry(Halve(r, j), d);
    HalveWord(a);
    if LowZero(y, 64 - a) { LowZeroUnique(y, Successor(v, m0), 64 - a); }
  }

  /** The expansion loop ends at the cursor that follows v in the smaller table, and emits all it passes. */
  lemma {:induction false} ScanLargeFacts<K, V>(bs: seq<seq<Entry<K, V>>>, v: u64, a: nat, b: nat,
                                                m0: u64, m1: u64, h: u64)
    requires a <= b <= 63 && IsSize(|bs|) && |bs| == Pow2(b)
    requires m0 == Pow2(a) - 1 && m1 == Pow2(b) - 1
    ensures ScanLarge(bs, v, m0, m1).1 == NextCursor(v, m0)
    ensures Passed(v, NextCursor(v, m0), h) ==>
              forall e | e in bs[Slot(h, |bs|)] :: e in ScanLarge(bs, v, m0, m1).0
    decreases WORD - Rev(v)
  {
    hide LowZero, Halve, Pow2, Successor, Rev, Bit, And, Xor, NextCursor, Top, Slot, IsSize;
    var n1 := NextCursor(v, m1);
    CursorAdvances(v, b, m1);
    NextInSmaller(v, a, b, m0, m1);
    if Passed(v, n1, h) { CursorSkips(v, b, m1, h); }
    AndZero(Xor(m0, m1));
    if And(n1, Xor(m0, m1)) != 0 {
      ScanLargeFacts(bs, n1, a, b, m0, m1, h);
    }
  }

  /** While the loop goes on, the next cursor of the smaller table is still the same; when it stops, it is reached. */
  lemma NextInSmaller(v: u64, a: nat, b: nat, m0: u64, m1: u64)
    requires a <= b <= 63 && m0 == Pow2(a) - 1 && m1 == Pow2(b) - 1
    ensures var n1 := NextCursor(v, m1);
            NextCursor(v, m0) == if And(n1, Xor(m0, m1)) != 0 then NextCursor(n1, m0) else n1
  {
    hide LowZero, Halve, Pow2, Successor, Rev, Bit, And, Xor, NextCursor, Top;
    var n1 := NextCursor(v, m1);
    CursorStep(v, b, m1);
    CursorStep(v, a, m0);
    BlockStep(v, a, b, m0, m1);
    RevRev(n1);
    RevRev(NextCursor(v, m0));
    if n1 == 0 {
      AndZero(Xor(m0, m1));
      HalveWord(a);
    } else {
      LoopTest(n1, a, b, m0, m1);
      if And(n1, Xor(m0, m1)) != 0 { SameNext(v, n1, a, m0); }
    }
  }

  lemma SameNext(v: u64, n1: u64, a: nat, m0: u64)
    requires a <= 63 && m0 == Pow2(a) - 1
    requires Top(Rev(n1), a) == Top(Rev(v), a)
    ensures NextCursor(n1, m0) == NextCursor(v, m0)
  {
    hide Bit, Pow2, LowZero, Rev, Halve, Top;
    CursorStep(v, a, m0);
    CursorStep(n1, a, m0);
    LowZeroUnique(Successor(v, m0), Successor(n1, m0), 64 - a);
  }

  // ---- what one call guarantees ----

  /** The smallest table in use: the one whose buckets the cursor counts. */
  function ScanSize<K, V>(d: State<K, V>): nat {
    if Rehashing(d) && |d.ht1.buckets| < |d.ht0.buckets| then |d.ht1.buckets| else |d.ht0.buckets|
  }

  lemma Pow2Inj(a: nat, b: nat)
    requires Pow2(a) <= Pow2(b)
    ensures a <= b
  {
    if a > b { Pow2Mono(b + 1, a); }
  }

  /** Scanning two tables: the next cursor is that of the smaller one. */
  lemma ScanPairNext<K, V>(small: seq<seq<Entry<K, V>>>, large: seq<seq<Entry<K, V>>>, v: u64)
    requires InWord(|small|) && InWord(|large|) && |small| <= |large|
    ensures ScanPair(small, large, v).1 == NextCursor(v, |small| - 1)
  {
    hide Pow2, Slot, Rev, NextCursor, ScanLarge, Passed, IsSize;
    var a := LogOf(|small|);
    var b := LogOf(|large|);
    Pow2Inj(a, b);
    ScanLargeFacts(large, v, a, b, |small| - 1, |large| - 1, v);
  }

  /** Scanning two tables: every passed bucket of the larger one is emitted. */
  lemma ScanPairLarge<K, V>(small: seq<seq<Entry<K, V>>>, large: seq<seq<Entry<K, V>>>, v: u64, h: u64, e: Entry<K, V>)
    requires InWord(|small|) && InWord(|large|) && |small| <= |large|
    requires Passed(v, NextCursor(v, |small| - 1), h) && e in large[Slot(h, |large|)]
    ensures e in ScanPair(small, large, v).0
  {
    hide Pow2, Slot, Rev, NextCursor, ScanLarge, Passed, IsSize;
    var a := LogOf(|small|);
    var b := LogOf(|large|);
    Pow2Inj(a, b);
    ScanLargeFacts(large, v, a, b, |small| - 1, |large| - 1, h);
  }

  /** Even in the middle of a rehash the next cursor is that of the smaller table alone. */
  lemma ScanNext<K(!new), V>(d: State<K, V>, v: u64)
    requires Valid(d) && Size(d) != 0
    ensures InWord(ScanSize(d)) && Scan(d, v).1 == NextCursor(v, ScanSize(d) - 1)
  {
    hide NextCursor, ScanPair, Pow2, Bit, Valid, Slot;
    ScanSizes(d);
    if Rehashing(d) {
      if |d.ht0.buckets| > |d.ht1.buckets| {
        ScanPairNext(d.ht1.buckets, d.ht0.buckets, v);
      } else {
        ScanPairNext(d.ht0.buckets, d.ht1.buckets, v);
      }
    }
  }

  /** The reversed cursor strictly increases until the scan ends with cursor 0. */
  lemma ScanAdvances<K(!new), V>(d: State<K, V>, v: u64)
    requires Valid(d)
    ensures Scan(d, v).1 == 0 || Rev(Scan(d, v).1) > Rev(v)
  {
    hide Rev, Bit, Pow2, NextCursor, ScanLarge, Valid;
    if Size(d) != 0 {
      ScanNext(d, v);
      var k := LogOf(ScanSize(d));
      CursorAdvances(v, k, ScanSize(d) - 1);
    }
  }

  lemma TableEntry<K(!new), V>(t: Table<K, V>, hash: K -> u64, k: K)
    requires TableOk(t, hash) && TableFind(t, hash, k).Some?
    ensures Entry(k, TableFind(t, hash, k).value) in t.buckets[Slot(hash(k), |t.buckets|)]
  {
    var c := t.buckets[Slot(hash(k), |t.buckets|)];
    assert BucketOk(c, Slot(hash(k), |t.buckets|), |t.buckets|, hash);
    FindIndex(c, k);
    var i :| 0 <= i < |c| && c[i].key == k;
    assert c[i] == Entry(k, TableFind(t, hash, k).value);
  }

  /** Scanning two tables emits an entry of either passed bucket. */
  lemma ScanPairSmall<K, V>(small: seq<seq<Entry<K, V>>>, large: seq<seq<Entry<K, V>>>, v: u64, h: u64, e: Entry<K, V>)
    requires InWord(|small|) && InWord(|large|) && |small| <= |large|
    requires Passed(v, NextCursor(v, |small| - 1), h) && e in small[Slot(h, |small|)]
    ensures e in ScanPair(small, large, v).0
  {
    SameBucket(|small|, v, h);
    hide NextCursor, Pow2, Rev, Slot, Passed, ScanLarge, IsSize;
  }

  lemma SameBucket(size: nat, v: u64, h: u64)
    requires InWord(size) && Passed(v, NextCursor(v, size - 1), h)
    ensures Slot(h, size) == Slot(v, size)
  {
    hide NextCursor, Pow2, Rev, Slot, Passed, IsSize;
    var k := LogOf(size);
    CursorSkips(v, k, size - 1, h);
  }

  lemma ScanPairEmits<K, V>(small: seq<seq<Entry<K, V>>>, large: seq<seq<Entry<K, V>>>, v: u64, h: u64, e: Entry<K, V>)
    requires InWord(|small|) && InWord(|large|) && |small| <= |large|
    requires Passed(v, NextCursor(v, |small| - 1), h)
    requires e in small[Slot(h, |small|)] || e in large[Slot(h, |large|)]
    ensures e in ScanPair(small, large, v).0
  {
    if e in large[Slot(h, |large|)] {
      hide *;
      ScanPairLarge(small, large, v, h, e);
    } else {
      hide *;
      ScanPairSmall(small, large, v, h, e);
    }
  }

  /** The bucket of h is emitted, in whichever table. */
  lemma BucketEmitted<K(!new), V>(d: State<K, V>, v: u64, h: u64, e: Entry<K, V>)
    requires Valid(d) && Size(d) != 0 && Passed(v, Scan(d, v).1, h)
    requires InWord(|d.ht0.buckets|) && (Rehashing(d) ==> InWord(|d.ht1.buckets|))
    requires e in d.ht0.buckets[Slot(h, |d.ht0.buckets|)]
             || (Rehashing(d) && e in d.ht1.buckets[Slot(h, |d.ht1.buckets|)])
    ensures e in Scan(d, v).0
  {
    hide NextCursor, ScanPair, Pow2, Bit, Rev, Valid, Slot, Passed, IsSize;
    ScanNext(d, v);
    if !Rehashing(d) {
      var k := LogOf(|d.ht0.buckets|);
      CursorSkips(v, k, |d.ht0.buckets| - 1, h);
    } else if |d.ht0.buckets| > |d.ht1.buckets| {
      ScanPairEmits(d.ht1.buckets, d.ht0.buckets, v, h, e);
    } else {
      ScanPairEmits(d.ht0.buckets, d.ht1.buckets, v, h, e);
    }
  }

  /** A call emits every binding whose reversed hash lies from the cursor up to the next cursor. */
  lemma ScanCovers<K(!new), V>(d: State<K, V>, v: u64, k: K)
    requires Valid(d) && Lookup(d, k).Some?
    requires Passed(v, Scan(d, v).1, d.hash(k))
    ensures Entry(k, Lookup(d, k).value) in Scan(d, v).0
  {
    SizeZero(d);
    ScanSizes(d);
    if TableFind(d.ht0, d.hash, k).Some? { TableEntry(d.ht0, d.hash, k); } else { TableEntry(d.ht1, d.hash, k); }
    hide Scan, TableOk, Slot, Passed, TableFind;
    BucketEmitted(d, v, d.hash(k), Entry(k, Lookup(d, k).value));
  }

  // ---- whole scans ----

  /** A finished scan: calls from cursor 0 until 0 comes back. Between the calls anything may happen to
      the dictionary, as long as each call finds some valid state with the same hash function. */
  ghost predicate FullScan<K(!new), V>(ds: seq<State<K, V>>, cs: seq<u64>) {
    && |ds| > 0 && |cs| == |ds| + 1
    && cs[0] == 0 && cs[|ds|] == 0
    && (forall i | 0 <= i < |ds| :: Valid(ds[i]) && ds[i].hash == ds[0].hash)
    && (forall i | 0 <= i < |ds| :: cs[i + 1] == Scan(ds[i], cs[i]).1)
  }

  lemma {:induction false} NotYetEmitted<K(!new), V>(ds: seq<State<K, V>>, cs: seq<u64>, k: K, i: nat)
    requires FullScan(ds, cs) && i < |ds|
    requires forall j | 0 <= j < |ds| :: Lookup(ds[j], k).Some?
    requires forall j | 0 <= j < i :: Entry(k, Lookup(ds[j], k).value) !in Scan(ds[j], cs[j]).0
    ensures Rev(cs[i]) <= Rev(ds[0].hash(k))
  {
    if i == 0 {
      RevZero(0);
    } else {
      NotYetEmitted(ds, cs, k, i - 1);
      if Rev(cs[i]) > Rev(ds[0].hash(k)) {
        ScanCovers(ds[i - 1], cs[i - 1], k);
        assert false;
      }
    }
  }

  /** Scan completeness: a key present at every call of a full scan is emitted, with its value, by some call. */
  lemma ScanComplete<K(!new), V>(ds: seq<State<K, V>>, cs: seq<u64>, k: K)
    requires FullScan(ds, cs)
    requires forall i | 0 <= i < |ds| :: Lookup(ds[i], k).Some?
    ensures exists i :: 0 <= i < |ds| && Entry(k, Lookup(ds[i], k).value) in Scan(ds[i], cs[i]).0
  {
    if forall i | 0 <= i < |ds| :: Entry(k, Lookup(ds[i], k).value) !in Scan(ds[i], cs[i]).0 {
      var last := |ds| - 1;
      NotYetEmitted(ds, cs, k, last);
      ScanCovers(ds[last], cs[last], k);
      assert false;
    }
  }

  // ---- a scan of one fixed table ----

  /** The cursor after i calls on an unchanging dictionary. */
  function CursorAfter<K(!new), V>(d: State<K, V>, i: nat): u64
    requires Valid(d)
  {
    if i == 0 then 0 else Scan(d, CursorAfter(d, i - 1)).1
  }

  /** The bucket visited by call number i on an unchanging table. */
  function Visited<K(!new), V>(d: State<K, V>, i: nat): (b: nat)
    requires Valid(d) && d.ht0.buckets != []
    ensures b < |d.ht0.buckets|
  {
    Slot(CursorAfter(d, i), |d.ht0.buckets|)
  }

  lemma {:induction false} CursorAfterFacts<K(!new), V>(d: State<K, V>, k: nat, i: nat)
    requires Valid(d) && Size(d) != 0 && !Rehashing(d)
    requires k <= 63 && |d.ht0.buckets| == Pow2(k) && i < Pow2(k)
    ensures Top(Rev(CursorAfter(d, i)), k) == i
    ensures i > 0 ==> CursorAfter(d, i) != 0
  {
    hide Rev, Bit, Halve, Pow2, Scan;
    if i == 0 {
      RevZero(0);
      HalveLe(0, 64 - k);
    } else {
      CursorAfterFacts(d, k, i - 1);
      AfterStep(d, k, CursorAfter(d, i - 1));
    }
  }

  lemma AfterStep<K(!new), V>(d: State<K, V>, k: nat, c: u64)
    requires Valid(d) && Size(d) != 0 && !Rehashing(d)
    requires k <= 63 && |d.ht0.buckets| == Pow2(k)
    ensures var n := Scan(d, c).1; var t := Top(Rev(c), k) + 1;
            && (t < Pow2(k) ==> n != 0 && Top(Rev(n), k) == t)
            && (t == Pow2(k) ==> n == 0)
  {
    hide Rev, Bit, Pow2, NextCursor, Scan, Valid, Halve, LowZero, Successor;
    ScanNext(d, c);
    var m: u64 := |d.ht0.buckets| - 1;
    CursorStep(c, k, m);
    HalveWord(k);
    if Successor(c, m) < WORD { HalveBelow(Successor(c, m), WORD, 64 - k); }
  }

  lemma VisitsDiffer<K(!new), V>(d: State<K, V>, k: nat, i: nat, j: nat)
    requires Valid(d) && Size(d) != 0 && !Rehashing(d)
    requires k <= 63 && |d.ht0.buckets| == Pow2(k) && i < j < Pow2(k)
    ensures Visited(d, i) != Visited(d, j)
  {
    hide Rev, Bit, Pow2, Scan, Valid, Top, And;
    CursorAfterFacts(d, k, i);
    CursorAfterFacts(d, k, j);
    PrefixIsBucket(CursorAfter(d, i), CursorAfter(d, j), k);
  }

  /** The call that visits bucket b. */
  lemma VisitOf<K(!new), V>(d: State<K, V>, k: nat, b: nat) returns (i: nat)
    requires Valid(d) && Size(d) != 0 && !Rehashing(d)
    requires k <= 63 && |d.ht0.buckets| == Pow2(k) && b < Pow2(k)
    ensures i < Pow2(k) && Visited(d, i) == b
  {
    SizeInWord(|d.ht0.buckets|);
    hide Rev, Bit, Pow2, Scan, Valid, And, Halve, LowZero;
    i := Top(Rev(b), k);
    HalveWord(k);
    HalveBelow(Rev(b), WORD, 64 - k);
    CursorAfterFacts(d, k, i);
    PrefixIsBucket(CursorAfter(d, i), b, k);
    SlotIsMod(b, k);
    DivModUnique(b, |d.ht0.buckets|, 0, b);
  }

  ghost predicate IsVisited<K(!new), V>(d: State<K, V>, b: nat)
    requires Valid(d) && d.ht0.buckets != []
  {
    exists i: nat :: i < |d.ht0.buckets| && Visited(d, i) == b
  }

  lemma BucketVisited<K(!new), V>(d: State<K, V>, k: nat, b: nat)
    requires Valid(d) && Size(d) != 0 && !Rehashing(d)
    requires k <= 63 && |d.ht0.buckets| == Pow2(k) && b < Pow2(k)
    ensures IsVisited(d, b)
  {
    hide Valid, Pow2, Visited;
    var i := VisitOf(d, k, b);
  }

  lemma EndsAfter<K(!new), V>(d: State<K, V>, k: nat)
    requires Valid(d) && Size(d) != 0 && !Rehashing(d)
    requires k <= 63 && |d.ht0.buckets| == Pow2(k)
    ensures CursorAfter(d, Pow2(k)) == 0
  {
    hide Scan, Valid, Pow2;
    CursorAfterFacts(d, k, Pow2(k) - 1);
    AfterStep(d, k, CursorAfter(d, Pow2(k) - 1));
  }

  lemma SizeLog<K(!new), V>(d: State<K, V>) returns (k: nat)
    requires Valid(d) && Size(d) != 0
    ensures k <= 63 && |d.ht0.buckets| == Pow2(k)
  {
    SizeZero(d);
    k := LogOf(|d.ht0.buckets|);
  }

  /** Over a fixed table that is not rehashing, the scan takes one call per bucket, returns 0 exactly at
      the end, and visits each bucket exactly once. */
  lemma FixedTableScan<K(!new), V>(d: State<K, V>)
    requires Valid(d) && Size(d) != 0 && !Rehashing(d)
    ensures d.ht0.buckets != []
    ensures CursorAfter(d, |d.ht0.buckets|) == 0
    ensures forall i: nat | 0 < i < |d.ht0.buckets| :: CursorAfter(d, i) != 0
    ensures forall i: nat, j: nat | i < j < |d.ht0.buckets| :: Visited(d, i) != Visited(d, j)
    ensures forall b: nat | b < |d.ht0.buckets| :: IsVisited(d, b)
  {
    var k := SizeLog(d);
    hide *;
    EndsAfter(d, k);
    forall i: nat | 0 < i < |d.ht0.buckets| ensures CursorAfter(d, i) != 0 { CursorAfterFacts(d, k, i); }
    forall i: nat, j: nat | i < j < |d.ht0.buckets| ensures Visited(d, i) != Visited(d, j) { VisitsDiffer(d, k, i, j); }
    forall b: nat | b < |d.ht0.buckets| ensures IsVisited(d, b) { BucketVisited(d, k, b); }
  }
}
