/** What BITOP does to the single bits of the strings. */
module BitOpBits {
  import opened BitStrings
  import Bitpos
  import opened BitOp

  /** How many of the first n strings, continued with zeros, have bit i. */
  function Having(srcs: seq<seq<bv8>>, i: nat, n: nat): nat
    requires n <= |srcs|
  {
    if n == 0 then 0 else Having(srcs, i, n - 1) + if Bitpos.PadBit(srcs[n - 1], i) then 1 else 0
  }

  /** AND: all strings have the bit; OR: some; XOR: an odd number; NOT: the string does not. */
  predicate BitOf(op: Op, having: nat, n: nat) {
    match op
    case And => having == n
    case Or => having > 0
    case Xor => having % 2 == 1
    case Not => having == 0
  }

  lemma AndMask(x: bv8, y: bv8, m: bv8)
    requires OneBit(m)
    ensures (x & y) & m != 0 <==> x & m != 0 && y & m != 0
  {
  }

  lemma OrMask(x: bv8, y: bv8, m: bv8)
    requires OneBit(m)
    ensures (x | y) & m != 0 <==> x & m != 0 || y & m != 0
  {
  }

  lemma XorMask(x: bv8, y: bv8, m: bv8)
    requires OneBit(m)
    ensures (x ^ y) & m != 0 <==> (x & m != 0) != (y & m != 0)
  {
  }

  lemma NotMask(x: bv8, m: bv8)
    requires OneBit(m)
    ensures !x & m != 0 <==> x & m == 0
    ensures (0 as bv8) & m == 0
  {
  }

  lemma AndBit(x: bv8, y: bv8, k: nat)
    requires k < 8
    ensures HasBit(x & y, k) <==> HasBit(x, k) && HasBit(y, k)
  {
    MaskOne(k);
    hide Mask, OneBit;
    AndMask(x, y, Mask(k));
  }

  lemma OrBit(x: bv8, y: bv8, k: nat)
    requires k < 8
    ensures HasBit(x | y, k) <==> HasBit(x, k) || HasBit(y, k)
  {
    MaskOne(k);
    hide Mask, OneBit;
    OrMask(x, y, Mask(k));
  }

  lemma XorBit(x: bv8, y: bv8, k: nat)
    requires k < 8
    ensures HasBit(x ^ y, k) <==> HasBit(x, k) != HasBit(y, k)
  {
    MaskOne(k);
    hide Mask, OneBit;
    XorMask(x, y, Mask(k));
  }

  lemma NotBit(x: bv8, k: nat)
    requires k < 8
    ensures HasBit(NotByte(x), k) <==> !HasBit(x, k)
    ensures !HasBit(0, k)
  {
    MaskOne(k);
    hide Mask, OneBit;
    NotMask(x, Mask(k));
  }

  lemma BothBit(op: Op, x: bv8, y: bv8, k: nat)
    requires k < 8 && !op.Not?
    ensures HasBit(Both(op, x, y), k) <==>
            match op
            case And => HasBit(x, k) && HasBit(y, k)
            case Or => HasBit(x, k) || HasBit(y, k)
            case _ => HasBit(x, k) != HasBit(y, k)
  {
    hide HasBit;
    match op
    case And => AndBit(x, y, k);
    case Or => OrBit(x, y, k);
    case Xor => XorBit(x, y, k);
  }

  lemma PadBitIs(s: seq<bv8>, i: nat)
    ensures Bitpos.PadBit(s, i) <==> HasBit(PadByte(s, i / 8), 7 - i % 8)
  {
    if i >= 8 * |s| { NotBit(0, 7 - i % 8); }
  }

  lemma {:induction false} HavingBound(srcs: seq<seq<bv8>>, i: nat, n: nat)
    requires n <= |srcs|
    ensures Having(srcs, i, n) <= n
  {
    if n > 0 { HavingBound(srcs, i, n - 1); }
  }

  lemma {:induction false} FoldBit(op: Op, srcs: seq<seq<bv8>>, i: nat, n: nat)
    requires 1 <= n <= |srcs| && (op.Not? ==> n == 1)
    ensures HasBit(Fold(op, srcs, i / 8, n), 7 - i % 8) <==> BitOf(op, Having(srcs, i, n), n)
  {
    var k := 7 - i % 8;
    PadBitIs(srcs[n - 1], i);
    HavingBound(srcs, i, n - 1);
    if n == 1 {
      NotBit(PadByte(srcs[0], i / 8), k);
      assert Having(srcs, i, 0) == 0;
    } else {
      BothBit(op, Fold(op, srcs, i / 8, n - 1), PadByte(srcs[n - 1], i / 8), k);
      FoldBit(op, srcs, i, n - 1);
    }
    hide HasBit, Both, NotByte, PadByte;
  }

  /** Every bit of the result. */
  lemma ResultBit(op: Op, srcs: seq<seq<bv8>>, res: seq<bv8>, i: nat)
    requires Result(op, srcs, res) && (op.Not? ==> |srcs| == 1) && i < 8 * |res|
    ensures GetBit(res, i) <==> BitOf(op, Having(srcs, i, |srcs|), |srcs|)
  {
    FoldBit(op, srcs, i, |srcs|);
  }
}
