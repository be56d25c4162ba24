/** Strings as rows of bits, the first bit being the most significant one of the first byte. */
module BitStrings {
  import opened Words

  /** The byte with only bit k set, bit 0 being the least significant. */
  function Mask(k: nat): bv8
    requires k < 8
  {
    match k
    case 0 => 0x01 case 1 => 0x02 case 2 => 0x04 case 3 => 0x08
    case 4 => 0x10 case 5 => 0x20 case 6 => 0x40 case _ => 0x80
  }

  predicate HasBit(x: bv8, k: nat)
    requires k < 8
  {
    x & Mask(k) != 0
  }

  /** Bit i of the string. */
  predicate GetBit(s: seq<bv8>, i: nat)
    requires i < 8 * |s|
  {
    HasBit(s[i / 8], 7 - i % 8)
  }

  /** The first bit of a byte is its most significant one, the last its least. */
  lemma BitOrder(x: bv8)
    ensures GetBit([x], 0) <==> x >= 0x80
    ensures GetBit([x], 7) <==> x & 1 == 1
  {
  }

  /** The byte with bit k replaced: `byteval &= ~(1 << k); byteval |= b << k`. */
  function PutBit(x: bv8, k: nat, b: bool): bv8
    requires k < 8
  {
    (x & !Mask(k)) | if b then Mask(k) else 0
  }

  predicate OneBit(a: bv8) {
    a == 0x01 || a == 0x02 || a == 0x04 || a == 0x08 || a == 0x10 || a == 0x20 || a == 0x40 || a == 0x80
  }

  lemma PutMask(x: bv8, a: bv8, c: bv8)
    requires OneBit(a) && OneBit(c)
    ensures ((x & !a) | a) & c != 0 <==> a == c || x & c != 0
    ensures ((x & !a) | 0) & c != 0 <==> a != c && x & c != 0
  {
  }

  lemma MaskOne(k: nat)
    requires k < 8
    ensures OneBit(Mask(k))
  {
  }

  lemma MaskInjective(k: nat, m: nat)
    requires k < 8 && m < 8 && Mask(k) == Mask(m)
    ensures k == m
  {
  }

  /** Replacing a bit of a byte replaces that bit only. */
  lemma PutBitTest(x: bv8, k: nat, b: bool, m: nat)
    requires k < 8 && m < 8
    ensures HasBit(PutBit(x, k, b), m) <==> if k == m then b else HasBit(x, m)
  {
    MaskOne(k);
    MaskOne(m);
    if Mask(k) == Mask(m) { MaskInjective(k, m); }
    hide Mask;
    PutMask(x, Mask(k), Mask(m));
  }

  /** Bit k of a byte: `(byteval >> k) & 1`. */
  lemma ShiftTest(x: bv8, k: nat)
    requires k < 8
    ensures (x >> k) & 1 == 1 <==> HasBit(x, k)
  {
    match k
    case 0 => assert (x >> 0) & 1 == 1 <==> x & 0x01 != 0;
    case 1 => assert (x >> 1) & 1 == 1 <==> x & 0x02 != 0;
    case 2 => assert (x >> 2) & 1 == 1 <==> x & 0x04 != 0;
    case 3 => assert (x >> 3) & 1 == 1 <==> x & 0x08 != 0;
    case 4 => assert (x >> 4) & 1 == 1 <==> x & 0x10 != 0;
    case 5 => assert (x >> 5) & 1 == 1 <==> x & 0x20 != 0;
    case 6 => assert (x >> 6) & 1 == 1 <==> x & 0x40 != 0;
    case _ => assert (x >> 7) & 1 == 1 <==> x & 0x80 != 0;
  }

  lemma SamePlace(i: nat, j: nat)
    ensures i == j <==> i / 8 == j / 8 && 7 - i % 8 == 7 - j % 8
  {
  }

  /** A string with bit i replaced. */
  function WithBit(s: seq<bv8>, i: nat, b: bool): seq<bv8>
    requires i < 8 * |s|
  {
    s[i / 8 := PutBit(s[i / 8], 7 - i % 8, b)]
  }

  lemma WithBitTest(s: seq<bv8>, i: nat, b: bool, j: nat)
    requires i < 8 * |s| && j < 8 * |s|
    ensures GetBit(WithBit(s, i, b), j) == if i == j then b else GetBit(s, j)
  {
    hide HasBit, PutBit;
    SamePlace(i, j);
    if i / 8 == j / 8 {
      assert WithBit(s, i, b)[j / 8] == PutBit(s[i / 8], 7 - i % 8, b);
      PutBitTest(s[i / 8], 7 - i % 8, b, 7 - j % 8);
    } else {
      assert WithBit(s, i, b)[j / 8] == s[j / 8];
    }
  }

  // ---- numbers, most significant bit first ----

  /** The number with these bits, the first being the most significant. */
  function MsbValue(bs: seq<bool>): nat {
    if bs == [] then 0 else 2 * MsbValue(bs[..|bs| - 1]) + if bs[|bs| - 1] then 1 else 0
  }

  lemma {:induction false} MsbValueBound(bs: seq<bool>)
    ensures MsbValue(bs) < Pow2(|bs|)
  {
    if bs != [] { MsbValueBound(bs[..|bs| - 1]); }
  }

  /** The low n bits of v, most significant first. */
  function MsbBits(v: nat, n: nat): (bs: seq<bool>)
    ensures |bs| == n
  {
    seq(n, (j: nat) requires j < n => Bit(v, n - 1 - j))
  }

  lemma MsbBitsHalf(v: nat, n: nat)
    requires n > 0
    ensures MsbBits(v, n)[..n - 1] == MsbBits(v / 2, n - 1) && MsbBits(v, n)[n - 1] == (v % 2 == 1)
  {
    var a, b := MsbBits(v, n), MsbBits(v / 2, n - 1);
    forall j: nat | j < n - 1 ensures a[j] == b[j] { BitHalf(v, n - 1 - j); }
    assert a[n - 1] == Bit(v, 0);
  }

  lemma BitHalf(v: nat, i: nat)
    requires i > 0
    ensures Bit(v, i) == Bit(v / 2, i - 1)
  {
  }

  lemma {:induction false} MsbRoundTrip(v: nat, n: nat)
    ensures MsbValue(MsbBits(v, n)) == v % Pow2(n)
    decreases n
  {
    hide MsbBits;
    if n == 0 {
      assert v % 1 == 0;
    } else {
      MsbBitsHalf(v, n);
      MsbRoundTrip(v / 2, n - 1);
      HalfDivMod(v, n - 1);
      hide Pow2;
    }
  }
}
