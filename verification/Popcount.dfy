/** BITCOUNT: `redisPopcount` counts 28 bytes at a time inside 32-bit words; here it is proved to count bits. */
module Popcount {
  import opened BitStrings

  // ---- the definition ----

  /** How many of the first n bits of the string are set. */
  ghost function Ones(s: seq<bv8>, n: nat): nat
    requires n <= 8 * |s|
  {
    if n == 0 then 0 else Ones(s, n - 1) + One(GetBit(s, n - 1))
  }

  function One(b: bool): nat { if b then 1 else 0 }

  // ---- bytes ----

  /** The entry of the table `bitsinbyte`. */
  function CountByte(x: bv8): bv8 {
    (x & 1) + ((x >> 1) & 1) + ((x >> 2) & 1) + ((x >> 3) & 1) + ((x >> 4) & 1) + ((x >> 5) & 1) + ((x >> 6) & 1)
        + (x >> 7)
  }

  function Nat(x: bv8): nat { x as nat }

  function CountBits(s: seq<bv8>): nat {
    if s == [] then 0 else CountBits(s[..|s| - 1]) + Nat(CountByte(s[|s| - 1]))
  }

  lemma {:induction false} CountBitsAppend(a: seq<bv8>, b: seq<bv8>)
    ensures CountBits(a + b) == CountBits(a) + CountBits(b)
    decreases |b|
  {
    hide CountByte, Nat;
    if b == [] {
      assert a + b == a;
    } else {
      var n := |b| - 1;
      CountBitsAppend(a, b[..n]);
      assert (a + b)[..|a + b| - 1] == a + b[..n];
    }
  }

  /** One more byte, bit by bit. */
  lemma ByteOnes(s: seq<bv8>, i: nat)
    requires i < |s|
    ensures Ones(s, 8 * i + 8) == Ones(s, 8 * i) + Nat(CountByte(s[i]))
  {
    hide GetBit, CountByte, Nat, Ones;
    OnesStep(s, 8 * i);
    ByteBits(s, i);
    ByteSum(s[i]);
  }

  lemma ByteBits(s: seq<bv8>, i: nat)
    requires i < |s|
    ensures var x, n := s[i], 8 * i;
      && GetBit(s, n) == (x & 0x80 != 0) && GetBit(s, n + 1) == (x & 0x40 != 0) && GetBit(s, n + 2) == (x & 0x20 != 0)
      && GetBit(s, n + 3) == (x & 0x10 != 0) && GetBit(s, n + 4) == (x & 0x08 != 0)
          && GetBit(s, n + 5) == (x & 0x04 != 0)
      && GetBit(s, n + 6) == (x & 0x02 != 0) && GetBit(s, n + 7) == (x & 0x01 != 0)
  {
    hide GetBit;
    BitAt(s, i, 0);
    BitAt(s, i, 1);
    BitAt(s, i, 2);
    BitAt(s, i, 3);
    BitAt(s, i, 4);
    BitAt(s, i, 5);
    BitAt(s, i, 6);
    BitAt(s, i, 7);
  }

  lemma BitAt(s: seq<bv8>, i: nat, k: nat)
    requires i < |s| && k < 8
    ensures GetBit(s, 8 * i + k) == (s[i] & Mask(7 - k) != 0)
  {
    assert (8 * i + k) / 8 == i && (8 * i + k) % 8 == k;
  }

  lemma OnesStep(s: seq<bv8>, n: nat)
    requires n + 8 <= 8 * |s|
    ensures Ones(s, n + 8)
        == Ones(s, n) + One(GetBit(s, n)) + One(GetBit(s, n + 1)) + One(GetBit(s, n + 2)) + One(GetBit(s, n + 3))
              + One(GetBit(s, n + 4)) + One(GetBit(s, n + 5)) + One(GetBit(s, n + 6)) + One(GetBit(s, n + 7))
  {
    hide GetBit;
    assert Ones(s, n + 2) == Ones(s, n) + One(GetBit(s, n)) + One(GetBit(s, n + 1));
    assert Ones(s, n + 4) == Ones(s, n + 2) + One(GetBit(s, n + 2)) + One(GetBit(s, n + 3));
    assert Ones(s, n + 6) == Ones(s, n + 4) + One(GetBit(s, n + 4)) + One(GetBit(s, n + 5));
    assert Ones(s, n + 8) == Ones(s, n + 6) + One(GetBit(s, n + 6)) + One(GetBit(s, n + 7));
  }

  lemma ByteSum(x: bv8)
    ensures Nat(CountByte(x)) == One(x & 0x80 != 0) + One(x & 0x40 != 0) + One(x & 0x20 != 0) + One(x & 0x10 != 0)
              + One(x & 0x08 != 0) + One(x & 0x04 != 0) + One(x & 0x02 != 0) + One(x & 0x01 != 0)
  {
  }

  /** Counting by bytes counts bits. */
  lemma {:induction false} CountIsOnes(s: seq<bv8>, n: nat)
    requires n <= |s|
    ensures CountBits(s[..n]) == Ones(s, 8 * n)
  {
    hide CountByte, Nat, GetBit;
    if n > 0 {
      CountIsOnes(s, n - 1);
      ByteOnes(s, n - 1);
      assert s[..n][..n - 1] == s[..n - 1];
    }
  }

  // ---- four bytes in a word ----

  /** A word loaded from four bytes. */
  function Load(a: bv8, b: bv8, c: bv8, d: bv8): bv32 {
    (a as bv32) | ((b as bv32) << 8) | ((c as bv32) << 16) | ((d as bv32) << 24)
  }

  function Pairs(x: bv32): bv32 { x - ((x >> 1) & 0x55555555) }

  function Nibbles(x: bv32): bv32 { (x & 0x33333333) + ((x >> 2) & 0x33333333) }

  function Octets(x: bv32): bv32 { (x + (x >> 4)) & 0x0F0F0F0F }

  /** The three steps inside one byte. */
  function Pairs8(x: bv8): bv8 { (x & 0x55) + ((x >> 1) & 0x55) }

  function Nibbles8(x: bv8): bv8 { (x & 0x33) + ((x >> 2) & 0x33) }

  function Octets8(x: bv8): bv8 { (x + (x >> 4)) & 0x0F }

  lemma PairsLanes(a: bv8, b: bv8, c: bv8, d: bv8)
    ensures Pairs(Load(a, b, c, d)) == Load(Pairs8(a), Pairs8(b), Pairs8(c), Pairs8(d))
  {
    PairsSum(Load(a, b, c, d));
  }

  /** Subtracting the high bit of each pair once leaves the two bits added. */
  lemma PairsSum(x: bv32)
    ensures Pairs(x) == (x & 0x55555555) + ((x >> 1) & 0x55555555)
  {
    assert x == (x & 0x55555555) + (x & 0xAAAAAAAA);
    assert (x & 0xAAAAAAAA) == ((x >> 1) & 0x55555555) + ((x >> 1) & 0x55555555);
  }

  lemma NibblesLanes(a: bv8, b: bv8, c: bv8, d: bv8)
    ensures Nibbles(Load(a, b, c, d)) == Load(Nibbles8(a), Nibbles8(b), Nibbles8(c), Nibbles8(d))
  {
  }

  lemma OctetsLanes(a: bv8, b: bv8, c: bv8, d: bv8)
    requires a & 0x88 == 0 && b & 0x88 == 0 && c & 0x88 == 0 && d & 0x88 == 0
    ensures Octets(Load(a, b, c, d)) == Load(Octets8(a), Octets8(b), Octets8(c), Octets8(d))
  {
  }

  lemma ByteSteps(x: bv8)
    ensures Octets8(Nibbles8(Pairs8(x))) == CountByte(x) && CountByte(x) <= 8 && Nibbles8(Pairs8(x)) & 0x88 == 0
  {
  }

  /** All bytes of a word are counted side by side. */
  lemma WordCounts(a: bv8, b: bv8, c: bv8, d: bv8)
    ensures Octets(Nibbles(Pairs(Load(a, b, c, d)))) == Load(CountByte(a), CountByte(b), CountByte(c), CountByte(d))
  {
    PairsLanes(a, b, c, d);
    NibblesLanes(Pairs8(a), Pairs8(b), Pairs8(c), Pairs8(d));
    ByteSteps(a);
    ByteSteps(b);
    ByteSteps(c);
    ByteSteps(d);
    OctetsLanes(Nibbles8(Pairs8(a)), Nibbles8(Pairs8(b)), Nibbles8(Pairs8(c)), Nibbles8(Pairs8(d)));
    hide Load, Pairs, Nibbles, Octets, Pairs8, Nibbles8, Octets8, CountByte;
  }

  // ---- seven words ----

  function Plus(x: bv32, y: bv32): bv32 { x + y }

  function Up8(y: bv32): bv32 { y << 8 }

  function Up16(y: bv32): bv32 { y << 16 }

  function Up24(y: bv32): bv32 { y << 24 }

  function Top(y: bv32): bv32 { y >> 24 }

  function Times(y: bv32): bv32 { y * 0x01010101 }

  /** The multiplication by 0x01010101 is a sum of shifts. */
  lemma MulIsShifts(y: bv32)
    ensures Times(y) == Plus(y + (y << 8) + (y << 16), y << 24)
  {
  }

  lemma TwoShifts(y: bv32)
    ensures y + (y << 8) + (y << 16) == Plus(y + (y << 8), y << 16)
  {
  }

  lemma OneShift(y: bv32)
    ensures y + (y << 8) == Plus(y, y << 8)
  {
  }

  lemma UpsAreShifts(y: bv32)
    ensures Up8(y) == y << 8 && Up16(y) == y << 16 && Up24(y) == y << 24
  {
  }

  lemma TimesIsSum(y: bv32)
    ensures Times(y) == Plus(Plus(Plus(y, Up8(y)), Up16(y)), Up24(y))
  {
    hide Times, Plus, Up8, Up16, Up24;
    UpsAreShifts(y);
    OneShift(y);
    TwoShifts(y);
    MulIsShifts(y);
  }

  /** c is a + b, and no bit of it is lost. */
  predicate Sum(a: bv8, b: bv8, c: bv8) { a <= 168 && b <= 56 && c == a + b }

  /** Adding does not carry from one byte into the next. */
  lemma AddBytes(a: bv8, b: bv8, c: bv8, d: bv8, e: bv8, f: bv8, g: bv8, h: bv8)
    requires a <= 168 && b <= 168 && c <= 168 && d <= 168 && e <= 56 && f <= 56 && g <= 56 && h <= 56
    ensures Plus((a as bv32) | ((b as bv32) << 8) | ((c as bv32) << 16) | ((d as bv32) << 24),
                 (e as bv32) | ((f as bv32) << 8) | ((g as bv32) << 16) | ((h as bv32) << 24))
            == ((a + e) as bv32) | (((b + f) as bv32) << 8) | (((c + g) as bv32) << 16) | (((d + h) as bv32) << 24)
  {
  }

  lemma LoadIs(a: bv8, b: bv8, c: bv8, d: bv8)
    ensures Load(a, b, c, d) == (a as bv32) | ((b as bv32) << 8) | ((c as bv32) << 16) | ((d as bv32) << 24)
  {
  }

  lemma AddLanes(a: bv8, b: bv8, c: bv8, d: bv8, e: bv8, f: bv8, g: bv8, h: bv8, i: bv8, j: bv8, k: bv8, l: bv8)
    requires Sum(a, e, i) && Sum(b, f, j) && Sum(c, g, k) && Sum(d, h, l)
    ensures Plus(Load(a, b, c, d), Load(e, f, g, h)) == Load(i, j, k, l)
  {
    hide Plus, Load;
    LoadIs(a, b, c, d);
    LoadIs(e, f, g, h);
    LoadIs(i, j, k, l);
    AddBytes(a, b, c, d, e, f, g, h);
  }

  lemma ShiftLanes(a: bv8, b: bv8, c: bv8, d: bv8)
    ensures Up8(Load(a, b, c, d)) == Load(0, a, b, c)
    ensures Up16(Load(a, b, c, d)) == Load(0, 0, a, b)
    ensures Up24(Load(a, b, c, d)) == Load(0, 0, 0, a)
  {
  }

  lemma TopLane(a: bv8, b: bv8, c: bv8, d: bv8)
    ensures Top(Load(a, b, c, d)) == d as bv32
  {
  }

  lemma Sums(a: bv8, b: bv8, c: bv8, d: bv8, p: bv8, q: bv8, r: bv8, u: bv8, v: bv8, w: bv8)
    requires a <= 56 && b <= 56 && c <= 56 && d <= 56
    requires p == b + a && q == c + b && r == d + c && u == q + a && v == r + b && w == v + a
    ensures Sum(a, 0, a) && Sum(b, a, p) && Sum(c, b, q) && Sum(d, c, r)
    ensures Sum(p, 0, p) && Sum(q, a, u) && Sum(r, b, v) && Sum(u, 0, u) && Sum(v, a, w)
  {
  }

  /** The multiplication adds the four bytes into the topmost. */
  lemma MulLanes(a: bv8, b: bv8, c: bv8, d: bv8, p: bv8, q: bv8, r: bv8, u: bv8, v: bv8, w: bv8)
    requires a <= 56 && b <= 56 && c <= 56 && d <= 56
    requires p == b + a && q == c + b && r == d + c && u == q + a && v == r + b && w == v + a
    ensures Top(Times(Load(a, b, c, d))) == w as bv32
  {
    hide Load, Plus, Up8, Up16, Up24, Top, Sum, Times;
    TimesIsSum(Load(a, b, c, d));
    ShiftLanes(a, b, c, d);
    Sums(a, b, c, d, p, q, r, u, v, w);
    AddLanes(a, b, c, d, 0, a, b, c, a, p, q, r);
    AddLanes(a, p, q, r, 0, 0, a, b, a, p, u, v);
    AddLanes(a, p, u, v, 0, 0, 0, a, a, p, u, w);
    TopLane(a, p, u, w);
  }

  // ---- sums of bytes as numbers ----

  lemma AddLow(a: bv8, b: bv8)
    requires a <= 191 && b & 0x03 == b
    ensures Nat(a + b) == Nat(a) + Nat(b) && a + b <= 194
  {
  }

  lemma AddMiddle(a: bv8, b: bv8)
    requires a <= 194 && b & 0x0c == b
    ensures Nat(a + b) == Nat(a) + Nat(b) && a + b <= 206
  {
  }

  lemma AddHigh(a: bv8, b: bv8)
    requires a <= 206 && b & 0x30 == b
    ensures Nat(a + b) == Nat(a) + Nat(b)
  {
  }

  lemma Parts(b: bv8)
    requires b <= 63
    ensures b == (b & 0x03) + (b & 0x0c) + (b & 0x30) && Nat(b) == Nat(b & 0x03) + Nat(b & 0x0c) + Nat(b & 0x30)
    ensures (b & 0x03) & 0x03 == b & 0x03 && (b & 0x0c) & 0x0c == b & 0x0c && (b & 0x30) & 0x30 == b & 0x30
  {
  }

  lemma Regroup(a: bv8, p: bv8, q: bv8, r: bv8)
    ensures a + (p + q + r) == a + p + q + r
  {
  }

  lemma Join(a: bv8, b: bv8, p: bv8, q: bv8, r: bv8)
    requires a <= 191 && b == p + q + r && p & 0x03 == p && q & 0x0c == q && r & 0x30 == r
    requires Nat(b) == Nat(p) + Nat(q) + Nat(r)
    ensures Nat(a + b) == Nat(a) + Nat(b)
  {
    hide Nat;
    AddLow(a, p);
    AddMiddle(a + p, q);
    AddHigh(a + p + q, r);
    Regroup(a, p, q, r);
  }

  lemma SumNat(a: bv8, b: bv8, c: bv8)
    requires Sum(a, b, c)
    ensures Nat(c) == Nat(a) + Nat(b)
  {
    hide Nat;
    Parts(b);
    Join(a, b, b & 0x03, b & 0x0c, b & 0x30);
  }

  // ---- 28 bytes ----

  /** One word of the string, counted. */
  function WordAt(s: seq<bv8>, i: nat): bv32
    requires i + 4 <= |s|
  {
    Octets(Nibbles(Pairs(Load(s[i], s[i + 1], s[i + 2], s[i + 3]))))
  }

  /** The counts of m words added up. */
  function Words(s: seq<bv8>, i: nat, m: nat): bv32
    requires i + 4 * m <= |s|
  {
    if m == 0 then 0 else Plus(Words(s, i, m - 1), WordAt(s, i + 4 * (m - 1)))
  }

  /** After m words each byte of the sum holds at most 8m, and the bytes together hold the count. */
  lemma {:induction false} WordsLanes(s: seq<bv8>, i: nat, m: nat) returns (a: bv8, b: bv8, c: bv8, d: bv8, cap: bv8)
    requires i + 4 * m <= |s| && m <= 7
    ensures Words(s, i, m) == Load(a, b, c, d)
    ensures a <= cap && b <= cap && c <= cap && d <= cap && Nat(cap) == 8 * m
    ensures Nat(a) + Nat(b) + Nat(c) + Nat(d) == CountBits(s[i..i + 4 * m])
  {
    hide Load, Nat, CountByte, Plus, Octets, Nibbles, Pairs, CountBits;
    if m == 0 {
      a, b, c, d, cap := 0, 0, 0, 0, 0;
      assert s[i..i + 4 * m] == [];
      Nothing();
    } else {
      var a0, b0, c0, d0, cap0 := WordsLanes(s, i, m - 1);
      var k := i + 4 * (m - 1);
      a, b, c, d, cap := OneWord(s[k], s[k + 1], s[k + 2], s[k + 3], a0, b0, c0, d0, cap0);
      FourBytes(s, i, k);
    }
  }

  lemma Nothing()
    ensures Load(0, 0, 0, 0) == 0 && Nat(0) == 0 && CountBits([]) == 0
  {
  }

  lemma NextByte(s: seq<bv8>, i: nat, k: nat)
    requires i <= k < |s|
    ensures CountBits(s[i..k + 1]) == CountBits(s[i..k]) + Nat(CountByte(s[k]))
  {
    hide Nat, CountByte;
    assert s[i..k + 1][..k - i] == s[i..k];
  }

  lemma FourBytes(s: seq<bv8>, i: nat, k: nat)
    requires i <= k && k + 4 <= |s|
    ensures CountBits(s[i..k + 4]) == CountBits(s[i..k]) + Nat(CountByte(s[k])) + Nat(CountByte(s[k + 1]))
                                      + Nat(CountByte(s[k + 2])) + Nat(CountByte(s[k + 3]))
  {
    hide Nat, CountByte, CountBits;
    NextByte(s, i, k);
    NextByte(s, i, k + 1);
    NextByte(s, i, k + 2);
    NextByte(s, i, k + 3);
  }

  lemma OneWord(x: bv8, y: bv8, z: bv8, t: bv8, a0: bv8, b0: bv8, c0: bv8, d0: bv8, cap0: bv8)
    returns (a: bv8, b: bv8, c: bv8, d: bv8, cap: bv8)
    requires a0 <= cap0 && b0 <= cap0 && c0 <= cap0 && d0 <= cap0 && Nat(cap0) <= 48
    ensures Plus(Load(a0, b0, c0, d0), Octets(Nibbles(Pairs(Load(x, y, z, t))))) == Load(a, b, c, d)
    ensures a <= cap && b <= cap && c <= cap && d <= cap && Nat(cap) == Nat(cap0) + 8
    ensures Nat(a) + Nat(b) + Nat(c) + Nat(d) == Nat(a0) + Nat(b0) + Nat(c0) + Nat(d0)
            + Nat(CountByte(x)) + Nat(CountByte(y)) + Nat(CountByte(z)) + Nat(CountByte(t))
  {
    hide Load, Nat, CountByte, Plus, Octets, Nibbles, Pairs;
    WordCounts(x, y, z, t);
    SmallCounts(x, y, z, t);
    a, b, c, d, cap := OneSum(CountByte(x), CountByte(y), CountByte(z), CountByte(t), a0, b0, c0, d0, cap0);
  }

  lemma OneSum(e: bv8, f: bv8, g: bv8, h: bv8, a0: bv8, b0: bv8, c0: bv8, d0: bv8, cap0: bv8)
    returns (a: bv8, b: bv8, c: bv8, d: bv8, cap: bv8)
    requires a0 <= cap0 && b0 <= cap0 && c0 <= cap0 && d0 <= cap0 && Nat(cap0) <= 48
    requires e <= 8 && f <= 8 && g <= 8 && h <= 8
    ensures Plus(Load(a0, b0, c0, d0), Load(e, f, g, h)) == Load(a, b, c, d)
    ensures a <= cap && b <= cap && c <= cap && d <= cap && Nat(cap) == Nat(cap0) + 8
    ensures Nat(a) + Nat(b) + Nat(c) + Nat(d)
        == Nat(a0) + Nat(b0) + Nat(c0) + Nat(d0) + Nat(e) + Nat(f) + Nat(g) + Nat(h)
  {
    hide Load, Nat, Plus, Sum;
    CapSmall(cap0);
    a, b, c, d, cap := a0 + e, b0 + f, c0 + g, d0 + h, cap0 + 8;
    StepSums(a0, b0, c0, d0, cap0, e, f, g, h);
    AddLanes(a0, b0, c0, d0, e, f, g, h, a, b, c, d);
    AllNat(a0, b0, c0, d0, cap0, e, f, g, h, a, b, c, d, cap);
  }

  lemma AllNat(a0: bv8, b0: bv8, c0: bv8, d0: bv8, cap0: bv8, e: bv8, f: bv8, g: bv8, h: bv8,
               a: bv8, b: bv8, c: bv8, d: bv8, cap: bv8)
    requires Sum(a0, e, a) && Sum(b0, f, b) && Sum(c0, g, c) && Sum(d0, h, d) && Sum(cap0, 8, cap)
    ensures Nat(a) + Nat(b) + Nat(c) + Nat(d)
        == Nat(a0) + Nat(b0) + Nat(c0) + Nat(d0) + Nat(e) + Nat(f) + Nat(g) + Nat(h)
    ensures Nat(cap) == Nat(cap0) + 8
  {
    hide Nat, Sum;
    SumNat(a0, e, a);
    SumNat(b0, f, b);
    SumNat(c0, g, c);
    SumNat(d0, h, d);
    SumNat(cap0, 8, cap);
    EightNat();
  }

  lemma EightNat()
    ensures Nat(8) == 8
  {
  }

  lemma CapSmall(cap: bv8)
    requires Nat(cap) <= 48
    ensures cap <= 48
  {
  }

  lemma SmallCounts(x: bv8, y: bv8, z: bv8, t: bv8)
    ensures CountByte(x) <= 8 && CountByte(y) <= 8 && CountByte(z) <= 8 && CountByte(t) <= 8
  {
    ByteSteps(x);
    ByteSteps(y);
    ByteSteps(z);
    ByteSteps(t);
    hide CountByte, Octets8, Nibbles8, Pairs8;
  }

  lemma StepSums(a: bv8, b: bv8, c: bv8, d: bv8, cap: bv8, e: bv8, f: bv8, g: bv8, h: bv8)
    requires a <= cap && b <= cap && c <= cap && d <= cap && cap <= 48 && e <= 8 && f <= 8 && g <= 8 && h <= 8
    ensures Sum(a, e, a + e) && Sum(b, f, b + f) && Sum(c, g, c + g) && Sum(d, h, d + h) && Sum(cap, 8, cap + 8)
    ensures a + e <= cap + 8 && b + f <= cap + 8 && c + g <= cap + 8 && d + h <= cap + 8
  {
  }

  /** Seven words at once: the number added is the number of bits set in the 28 bytes. */
  lemma Count28(s: seq<bv8>, i: nat)
    requires i + 28 <= |s|
    ensures Top(Times(Words(s, i, 7))) as nat == CountBits(s[i..i + 28])
  {
    hide Load, Plus, Nat, Times, Top, CountByte, CountBits, Words;
    var a, b, c, d, cap := WordsLanes(s, i, 7);
    CapBound(cap);
    var w := Horizontal(a, b, c, d);
    WideNat(w);
  }

  lemma CapBound(cap: bv8)
    requires Nat(cap) == 56
    ensures cap <= 56
  {
  }

  lemma Horizontal(a: bv8, b: bv8, c: bv8, d: bv8) returns (w: bv8)
    requires a <= 56 && b <= 56 && c <= 56 && d <= 56
    ensures Top(Times(Load(a, b, c, d))) == w as bv32 && Nat(w) == Nat(a) + Nat(b) + Nat(c) + Nat(d)
  {
    hide Load, Times, Top, Nat, Sum;
    var p, q, r := b + a, c + b, d + c;
    var u, v := q + a, r + b;
    w := v + a;
    Sums(a, b, c, d, p, q, r, u, v, w);
    MulLanes(a, b, c, d, p, q, r, u, v, w);
    SumNat(d, c, r);
    SumNat(r, b, v);
    SumNat(v, a, w);
  }

  lemma WideNat(w: bv8)
    ensures (w as bv32) as nat == Nat(w)
  {
  }

  // ---- the function ----

  /** `redisPopcount` on a string at address `addr`: bytes up to a word boundary, then 28 at a time, then the rest. */
  method RedisPopcount(s: seq<bv8>, addr: nat) returns (bits: nat)
    ensures bits == Ones(s, 8 * |s|)
  {
    hide Nat, CountByte, CountBits, Words, Times, Top, Ones;
    bits := 0;
    var i := 0;
    NoBytes(s);
    while (addr + i) % 4 != 0 && i < |s|
      invariant i <= |s| && bits == CountBits(s[..i])
      decreases |s| - i
    {
      PrefixByte(s, i);
      bits := bits + Nat(CountByte(s[i]));
      i := i + 1;
    }
    while |s| - i >= 28
      invariant i <= |s| && bits == CountBits(s[..i])
    {
      Count28(s, i);
      Prefix28(s, i);
      bits := bits + (Top(Times(Words(s, i, 7))) as nat);
      i := i + 28;
    }
    while i < |s|
      invariant i <= |s| && bits == CountBits(s[..i])
    {
      PrefixByte(s, i);
      bits := bits + Nat(CountByte(s[i]));
      i := i + 1;
    }
    CountIsOnes(s, |s|);
  }

  lemma NoBytes(s: seq<bv8>)
    ensures CountBits(s[..0]) == 0
  {
  }

  lemma PrefixByte(s: seq<bv8>, i: nat)
    requires i < |s|
    ensures CountBits(s[..i + 1]) == CountBits(s[..i]) + Nat(CountByte(s[i]))
  {
    hide Nat, CountByte;
    assert s[..i + 1][..i] == s[..i];
  }

  lemma Prefix28(s: seq<bv8>, i: nat)
    requires i + 28 <= |s|
    ensures CountBits(s[..i + 28]) == CountBits(s[..i]) + CountBits(s[i..i + 28])
  {
    assert s[..i + 28] == s[..i] + s[i..i + 28];
    CountBitsAppend(s[..i], s[i..i + 28]);
  }
}
