/** BITPOS: `redisBitpos` skips bytes and words without the bit and scans the first word that has it. */
module Bitpos {
  import opened Words
  import opened BitStrings
  import BitOp

  /** Bit i of the string continued with zeros. */
  predicate PadBit(s: seq<bv8>, i: nat) { i < 8 * |s| && GetBit(s, i) }

  /** The byte that cannot contain the bit. */
  function Skip(bit: bool): bv8 { if bit then 0 else 0xff }

  lemma MaskFacts(k: nat)
    requires k < 8
    ensures (0 as bv8) & Mask(k) == 0 && (0xff as bv8) & Mask(k) != 0
  {
  }

  /** A byte to skip has none of the bits. */
  lemma SkipByte(s: seq<bv8>, i: nat, bit: bool, k: nat)
    requires i < |s| && s[i] == Skip(bit) && k < 8
    ensures GetBit(s, 8 * i + k) != bit
  {
    assert (8 * i + k) / 8 == i && (8 * i + k) % 8 == k;
    MaskFacts(7 - k);
  }

  /** Any other byte has one. */
  lemma OtherByte(s: seq<bv8>, i: nat, bit: bool) returns (k: nat)
    requires i < |s| && s[i] != Skip(bit)
    ensures k < 8 && GetBit(s, 8 * i + k) == bit
  {
    k := SomeBit(s[i], bit);
    assert (8 * i + k) / 8 == i && (8 * i + k) % 8 == k;
  }

  lemma SomeBit(x: bv8, bit: bool) returns (k: nat)
    requires x != Skip(bit)
    ensures k < 8 && (x & Mask(7 - k) != 0) == bit
  {
    if (x & 0x80 != 0) == bit { k := 0; }
    else if (x & 0x40 != 0) == bit { k := 1; }
    else if (x & 0x20 != 0) == bit { k := 2; }
    else if (x & 0x10 != 0) == bit { k := 3; }
    else if (x & 0x08 != 0) == bit { k := 4; }
    else if (x & 0x04 != 0) == bit { k := 5; }
    else if (x & 0x02 != 0) == bit { k := 6; }
    else { k := 7; }
  }

  /** None of the first n bits is `bit`. */
  ghost predicate NoneBefore(s: seq<bv8>, n: nat, bit: bool)
  {
    forall i: nat | i < n :: PadBit(s, i) != bit
  }

  lemma NoneByte(s: seq<bv8>, i: nat, bit: bool)
    requires i < |s| && NoneBefore(s, 8 * i, bit) && s[i] == Skip(bit)
    ensures NoneBefore(s, 8 * (i + 1), bit)
  {
    hide GetBit;
    forall j: nat | j < 8 * (i + 1) ensures PadBit(s, j) != bit {
      if j >= 8 * i { SkipByte(s, i, bit, j - 8 * i); }
    }
  }

  lemma {:induction false} NoneBytes(s: seq<bv8>, i: nat, n: nat, bit: bool)
    requires i + n <= |s| && NoneBefore(s, 8 * i, bit) && forall j | i <= j < i + n :: s[j] == Skip(bit)
    ensures NoneBefore(s, 8 * (i + n), bit)
    decreases n
  {
    if n > 0 {
      NoneByte(s, i, bit);
      NoneBytes(s, i + 1, n - 1, bit);
    }
  }

  // ---- the word ----

  function Val(x: bv8): nat { x as nat }

  lemma HalfByte(x: bv8)
    ensures Val(x >> 1) == Val(x) / 2 && (Val(x) % 2 == 1 <==> x & 0x01 != 0)
  {
  }

  lemma HalfMask(x: bv8, k: nat)
    requires 0 < k < 8
    ensures (x >> 1) & Mask(k - 1) != 0 <==> x & Mask(k) != 0
  {
    match k
    case 1 => assert (x >> 1) & 0x01 != 0 <==> x & 0x02 != 0;
    case 2 => assert (x >> 1) & 0x02 != 0 <==> x & 0x04 != 0;
    case 3 => assert (x >> 1) & 0x04 != 0 <==> x & 0x08 != 0;
    case 4 => assert (x >> 1) & 0x08 != 0 <==> x & 0x10 != 0;
    case 5 => assert (x >> 1) & 0x10 != 0 <==> x & 0x20 != 0;
    case 6 => assert (x >> 1) & 0x20 != 0 <==> x & 0x40 != 0;
    case _ => assert (x >> 1) & 0x40 != 0 <==> x & 0x80 != 0;
  }

  /** A byte as a number has the same bits. */
  lemma {:induction false} ByteBit(x: bv8, k: nat)
    requires k < 8
    ensures Bit(Val(x), k) == (x & Mask(k) != 0)
    decreases k
  {
    HalfByte(x);
    hide Val;
    if k > 0 {
      HalfMask(x, k);
      ByteBit(x >> 1, k - 1);
    }
  }

  /** The word holds j bytes from position i on, the first as its most significant, zeros past the end. */
  ghost predicate Loaded(s: seq<bv8>, i: nat, j: nat, word: nat) {
    word < Pow2(8 * j) && forall b: nat | b < 8 * j :: Bit(word, b) == PadBit(s, 8 * i + 8 * j - 1 - b)
  }

  function ByteAt(s: seq<bv8>, i: nat): (v: nat)
    ensures v < 256
  {
    if i < |s| then Val(s[i]) else 0
  }

  lemma Placed(i: nat, b: nat)
    requires b < 8
    ensures (8 * i + 7 - b) / 8 == i && (8 * i + 7 - b) % 8 == 7 - b
  {
  }

  lemma ByteAtBit(s: seq<bv8>, i: nat, b: nat)
    requires b < 8
    ensures Bit(ByteAt(s, i), b) == PadBit(s, 8 * i + 7 - b)
  {
    if i < |s| {
      ByteBit(s[i], b);
      Placed(i, b);
      hide Bit, Val, Mask;
    } else {
      ZeroBit(b);
    }
  }

  lemma Pow2Eight(j: nat)
    ensures Pow2(8) == 256 && Pow2(8 * (j + 1)) == 256 * Pow2(8 * j)
  {
    Pow2Add(8, 8 * j);
  }

  lemma LoadMore(s: seq<bv8>, i: nat, j: nat, word: nat)
    requires Loaded(s, i, j, word)
    ensures Loaded(s, i, j + 1, word * 256 + ByteAt(s, i + j))
  {
    var v := ByteAt(s, i + j);
    var now := word * 256 + v;
    Pow2Eight(j);
    hide ByteAt, PadBit, Bit, Pow2;
    forall b: nat | b < 8 * (j + 1) ensures Bit(now, b) == PadBit(s, 8 * i + 8 * (j + 1) - 1 - b) {
      BitsOfSum(word, v, 8, b);
      if b < 8 {
        ByteAtBit(s, i + j, b);
      } else {
        assert Bit(word, b - 8) == PadBit(s, 8 * i + 8 * j - 1 - (b - 8));
      }
    }
  }

  /** Load eight bytes, the first as the most significant, zeros past the end. */
  method LoadWord(s: seq<bv8>, i: nat) returns (word: nat)
    ensures Loaded(s, i, 8, word)
  {
    word := 0;
    NothingLoaded(s, i);
    for j := 0 to 8
      invariant Loaded(s, i, j, word)
    {
      LoadMore(s, i, j, word);
      hide Loaded;
      word := word * 256 + ByteAt(s, i + j);
    }
  }

  lemma NothingLoaded(s: seq<bv8>, i: nat)
    ensures Loaded(s, i, 0, 0)
  {
  }

  lemma WordBit(s: seq<bv8>, i: nat, word: nat, k: nat)
    requires Loaded(s, i, 8, word) && k < 64
    ensures Bit(word, 63 - k) == PadBit(s, 8 * i + k)
  {
    assert Bit(word, 63 - k) == PadBit(s, 8 * i + 8 * 8 - 1 - (63 - k));
  }

  // ---- the search ----

  /** What BITPOS promises: the first position of the bit in the string continued with zeros, or -1 when a set bit
      is looked for and there is none. */
  ghost predicate First(s: seq<bv8>, bit: bool, pos: int) {
    if pos == -1 then bit && NoneBefore(s, 8 * |s|, bit)
    else pos >= 0 && NoneBefore(s, pos, bit) && PadBit(s, pos) == bit && (bit ==> pos < 8 * |s|) && pos <= 8 * |s|
  }

  /** There is a byte ahead that ends the search inside the word: one that has the bit, or, for a clear bit, the end
      of the string. */
  ghost predicate Ahead(s: seq<bv8>, i: nat, bit: bool) {
    (exists p: nat :: 8 * i <= p < 8 * i + 64 && PadBit(s, p) == bit) || (bit && i + 8 > |s|)
  }

  /** Skip bytes up to a word boundary; stops at a byte with the bit. */
  method SkipToBoundary(s: seq<bv8>, addr: nat, bit: bool) returns (i: nat, found: bool)
    ensures i <= |s| && NoneBefore(s, 8 * i, bit)
    ensures found ==> i < |s| && s[i] != Skip(bit)
  {
    hide NoneBefore;
    i, found := 0, false;
    NoneYet(s, bit);
    while (addr + i) % 8 != 0 && i < |s|
      invariant i <= |s| && NoneBefore(s, 8 * i, bit)
      decreases |s| - i
    {
      if s[i] != Skip(bit) { return i, true; }
      NoneByte(s, i, bit);
      i := i + 1;
    }
  }

  lemma NoneYet(s: seq<bv8>, bit: bool)
    ensures NoneBefore(s, 0, bit)
  {
  }

  /** Skip whole words in which every byte is the one to skip. */
  method SkipWords(s: seq<bv8>, start: nat, bit: bool) returns (i: nat)
    requires start <= |s| && NoneBefore(s, 8 * start, bit)
    ensures start <= i <= |s| && NoneBefore(s, 8 * i, bit)
    ensures i + 8 > |s| || exists j :: i <= j < i + 8 && s[j] != Skip(bit)
  {
    hide NoneBefore;
    i := start;
    var skipval := SkipWord(bit);
    while |s| - i >= 8
      invariant start <= i <= |s| && NoneBefore(s, 8 * i, bit)
    {
      SkipWordIff(s, i, bit);
      hide SkipWord, BitOp.WordAt;
      if BitOp.WordAt(s, i) != skipval { return; }
      NoneBytes(s, i, 8, bit);
      i := i + 8;
    }
  }

  /** The word that cannot contain the bit. */
  function SkipWord(bit: bool): bv64 { if bit then 0 else 0xffff_ffff_ffff_ffff }

  lemma SkipWordIs(bit: bool)
    ensures var b := Skip(bit); SkipWord(bit) == BitOp.Word(b, b, b, b, b, b, b, b)
  {
  }

  /** A word is that one if and only if each of its bytes is the one to skip. */
  lemma SkipWordIff(s: seq<bv8>, i: nat, bit: bool)
    requires i + 8 <= |s|
    ensures BitOp.WordAt(s, i) == SkipWord(bit) <==> forall j | i <= j < i + 8 :: s[j] == Skip(bit)
  {
    hide BitOp.Word, BitOp.Bytes, Skip, SkipWord;
    var b := Skip(bit);
    SkipWordIs(bit);
    BitOp.WordBytes(b, b, b, b, b, b, b, b);
    BitOp.WordBytes(s[i], s[i + 1], s[i + 2], s[i + 3], s[i + 4], s[i + 5], s[i + 6], s[i + 7]);
    if BitOp.WordAt(s, i) == SkipWord(bit) {
      var x := [s[i], s[i + 1], s[i + 2], s[i + 3], s[i + 4], s[i + 5], s[i + 6], s[i + 7]];
      var y := [b, b, b, b, b, b, b, b];
      assert x == y;
      forall j | i <= j < i + 8 ensures s[j] == b { assert x[j - i] == y[j - i]; }
    }
  }

  lemma AheadByte(s: seq<bv8>, i: nat, j: nat, bit: bool)
    requires i <= j < i + 8 && j < |s| && s[j] != Skip(bit)
    ensures Ahead(s, i, bit)
  {
    hide GetBit;
    var k := OtherByte(s, j, bit);
    assert PadBit(s, 8 * j + k) == bit;
  }

  lemma AheadEnd(s: seq<bv8>, i: nat, bit: bool)
    requires i <= |s| < i + 8
    ensures Ahead(s, i, bit)
  {
    if !bit { assert PadBit(s, 8 * |s|) == bit; }
  }

  /** `redisBitpos` on a string at address `addr`. The panic at its end is never reached. */
  method RedisBitpos(s: seq<bv8>, addr: nat, bit: bool) returns (pos: int)
    ensures First(s, bit, pos)
  {
    hide NoneBefore, Loaded, Ahead;
    var i, found := SkipToBoundary(s, addr, bit);
    if found {
      AheadByte(s, i, i, bit);
    } else {
      i := SkipWords(s, i, bit);
      if i + 8 > |s| { AheadEnd(s, i, bit); }
      else {
        ghost var j :| i <= j < i + 8 && s[j] != Skip(bit);
        AheadByte(s, i, j, bit);
      }
    }
    var word := LoadWord(s, i);
    pos := ScanWord(s, i, word, bit);
  }

  lemma ZeroWord(s: seq<bv8>, i: nat)
    requires i <= |s| && NoneBefore(s, 8 * i, true) && Loaded(s, i, 8, 0) && Ahead(s, i, true)
    ensures NoneBefore(s, 8 * |s|, true)
  {
    hide GetBit, Bit;
    forall p: nat | 8 * i <= p < 8 * i + 64 ensures !PadBit(s, p) {
      WordBit(s, i, 0, p - 8 * i);
      ZeroBit(63 - (p - 8 * i));
    }
  }

  lemma SetBit(word: nat) returns (b: nat)
    requires 0 < word < Pow2(64)
    ensures b < 64 && Bit(word, b)
  {
    if forall i: nat | i < 64 :: !Bit(word, i) {
      forall i: nat | i < 64 ensures Bit(word, i) == Bit(0, i) { ZeroBit(i); }
      SameBits(64, word, 0);
    }
    b :| b < 64 && Bit(word, b);
  }

  lemma SomeInWord(s: seq<bv8>, i: nat, word: nat, bit: bool) returns (p: nat)
    requires Loaded(s, i, 8, word) && Ahead(s, i, bit) && (bit ==> word != 0)
    ensures 8 * i <= p < 8 * i + 64 && PadBit(s, p) == bit
  {
    hide GetBit, Bit, Pow2;
    if bit {
      var b := SetBit(word);
      p := 8 * i + (63 - b);
      WordBit(s, i, word, 63 - b);
    } else {
      p :| 8 * i <= p < 8 * i + 64 && PadBit(s, p) == bit;
    }
  }

  lemma FoundFirst(s: seq<bv8>, pos: nat, bit: bool)
    requires NoneBefore(s, pos, bit) && PadBit(s, pos) == bit
    ensures First(s, bit, pos)
  {
    if !bit { assert pos > 8 * |s| ==> PadBit(s, 8 * |s|) != bit; }
  }

  /** The word is scanned bit by bit, unless it is zero and a set bit is looked for. */
  method ScanWord(s: seq<bv8>, i: nat, word: nat, bit: bool) returns (pos: int)
    requires i <= |s| && NoneBefore(s, 8 * i, bit) && Loaded(s, i, 8, word) && Ahead(s, i, bit)
    ensures First(s, bit, pos)
  {
    hide GetBit, Bit, Ahead, Pow2;
    if bit && word == 0 {
      ZeroWord(s, i);
      return -1;
    }
    ghost var at := SomeInWord(s, i, word, bit);
    for k := 0 to 64
      invariant NoneBefore(s, 8 * i + k, bit)
    {
      WordBit(s, i, word, k);
      if Bit(word, 63 - k) == bit {
        FoundFirst(s, 8 * i + k, bit);
        return 8 * i + k;
      }
    }
    assert false;
  }
}
