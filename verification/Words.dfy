/** Machine words as naturals: 64-bit unsigned longs, their bits, and the C operators on them.

    A word is a natural below 2^64. `Bit` reads one bit, `Value` builds a word from its bits,
    and every C operator is given by what it does to each bit, so that proofs go bit by bit and
    meet arithmetic only through `Pow2`. */
module Words {

  function Pow2(n: nat): (p: nat)
    ensures p >= 1
  {
    if n == 0 then 1 else 2 * Pow2(n - 1)
  }

  const WORD: nat := 0x1_0000_0000_0000_0000

  type u64 = x: nat | x < 0x1_0000_0000_0000_0000

  /** Bit i of x, bit 0 being the least significant. */
  predicate Bit(x: nat, i: nat)
    decreases i
  {
    if i == 0 then x % 2 == 1 else Bit(x / 2, i - 1)
  }

  /** The number with the given bits, least significant first. */
  function Value(s: seq<bool>): (x: nat)
    ensures x < Pow2(|s|)
    ensures forall i: nat :: Bit(x, i) == (i < |s| && s[i])
  {
    if s == [] then
      assert forall i: nat :: !Bit(0, i) by {
        forall i: nat ensures !Bit(0, i) { ZeroBit(i); }
      }
      0
    else
      var rest := Value(s[1..]);
      var x := (if s[0] then 1 else 0) + 2 * rest;
      assert x / 2 == rest && (x % 2 == 1 <==> s[0]);
      assert forall i: nat :: Bit(x, i) == (i < |s| && s[i]) by {
        forall i: nat ensures Bit(x, i) == (i < |s| && s[i]) {
          if i > 0 { assert Bit(x, i) == Bit(rest, i - 1); }
        }
      }
      x
  }

  lemma ZeroBit(i: nat)
    ensures !Bit(0, i)
    decreases i
  {
  }

  /** Words with the same bits are equal. */
  lemma {:induction false} SameBits(n: nat, x: nat, y: nat)
    requires x < Pow2(n) && y < Pow2(n)
    requires forall i: nat | i < n :: Bit(x, i) == Bit(y, i)
    ensures x == y
    decreases n
  {
    if n > 0 {
      forall i: nat | i < n - 1 ensures Bit(x / 2, i) == Bit(y / 2, i) {
        assert Bit(x, i + 1) == Bit(y, i + 1);
      }
      SameBits(n - 1, x / 2, y / 2);
      assert Bit(x, 0) == Bit(y, 0);
    }
  }

  lemma Pow2WordFact()
    ensures Pow2(64) == 0x1_0000_0000_0000_0000
  {
    assert Pow2(2) == 4;
    hide Pow2;
    Pow2Square(2, 4);
    Pow2Square(4, 16);
    Pow2Square(8, 0x100);
    Pow2Square(16, 0x1_0000);
    Pow2Square(32, 0x1_0000_0000);
  }

  lemma Pow2Square(n: nat, x: nat)
    requires Pow2(n) == x
    ensures Pow2(2 * n) == x * x
  {
    hide Pow2;
    Pow2Add(n, n);
  }

  lemma {:induction false} Pow2Add(a: nat, b: nat)
    ensures Pow2(a + b) == Pow2(a) * Pow2(b)
    decreases a
  {
    if a > 0 {
      Pow2Add(a - 1, b);
      assert Pow2(a + b) == 2 * Pow2(a - 1 + b);
      assert 2 * (Pow2(a - 1) * Pow2(b)) == (2 * Pow2(a - 1)) * Pow2(b);
    }
  }

  lemma {:induction false} Pow2Mono(a: nat, b: nat)
    requires a <= b
    ensures Pow2(a) <= Pow2(b)
    decreases b
  {
    if a < b { Pow2Mono(a, b - 1); }
  }

  // ---- quotient and remainder by a power of two, bit by bit ----

  /** The quotient and remainder of x by d are the only q and r with x == q*d + r and r < d. */
  lemma DivModUnique(x: int, d: int, q: int, r: int)
    requires d > 0 && 0 <= r < d && x == q * d + r
    ensures x / d == q && x % d == r
  {
    var q1, r1 := x / d, x % d;
    assert x == q1 * d + r1;
    assert (q1 - q) * d == r - r1;
    if q1 > q {
      MulAtLeast(q1 - q, d);
      assert false;
    } else if q1 < q {
      MulAtLeast(q - q1, d);
      assert false;
    }
  }

  lemma MulAtLeast(a: int, d: int)
    requires a >= 1 && d > 0
    ensures a * d >= d
  {
    assert a * d == (a - 1) * d + d;
    MulNonNeg(a - 1, d);
  }

  lemma MulNonNeg(a: int, d: int)
    requires a >= 0 && d >= 0
    ensures a * d >= 0
  {
  }

  lemma MulMono(a: int, b: int, d: int)
    requires a <= b && d >= 0
    ensures a * d <= b * d
  {
    assert b * d - a * d == (b - a) * d;
    MulNonNeg(b - a, d);
  }

  lemma HalfDivMod(x: nat, k: nat)
    ensures x / Pow2(k + 1) == (x / 2) / Pow2(k)
    ensures x % Pow2(k + 1) == 2 * ((x / 2) % Pow2(k)) + x % 2
  {
    var d := Pow2(k);
    var h := x / 2;
    var q, r := h / d, h % d;
    assert h == q * d + r;
    assert x == 2 * h + x % 2;
    assert 2 * (q * d) == q * (2 * d);
    DivModUnique(x, 2 * d, q, 2 * r + x % 2);
  }

  /** Halving k times. */
  function Halve(x: nat, k: nat): nat
    decreases k
  {
    if k == 0 then x else Halve(x / 2, k - 1)
  }

  lemma {:induction false} HalveIsDiv(x: nat, k: nat)
    ensures Halve(x, k) == x / Pow2(k)
    decreases k
  {
    if k > 0 {
      HalveIsDiv(x / 2, k - 1);
      HalfDivMod(x, k - 1);
    }
  }

  lemma {:induction false} HalveBit(x: nat, k: nat, i: nat)
    ensures Bit(Halve(x, k), i) == Bit(x, i + k)
    decreases k
  {
    if k > 0 { HalveBit(x / 2, k - 1, i); }
  }

  lemma {:induction false} ModBit(x: nat, k: nat, i: nat)
    ensures Bit(x % Pow2(k), i) == (i < k && Bit(x, i))
    decreases k
  {
    if k == 0 {
      assert x % 1 == 0;
      ZeroBit(i);
    } else {
      HalfDivMod(x, k - 1);
      var m := x % Pow2(k);
      assert m / 2 == (x / 2) % Pow2(k - 1) && m % 2 == x % 2;
      if i > 0 { ModBit(x / 2, k - 1, i - 1); }
    }
  }

  lemma {:induction false} MaskBit(k: nat, i: nat)
    ensures Bit(Pow2(k) - 1, i) == (i < k)
    decreases k
  {
    if k == 0 {
      ZeroBit(i);
    } else if i > 0 {
      assert (Pow2(k) - 1) / 2 == Pow2(k - 1) - 1;
      MaskBit(k - 1, i - 1);
    }
  }

  /** The bits of a number with r below 2^k and q above. */
  lemma BitsOfSum(q: nat, r: nat, k: nat, i: nat)
    requires r < Pow2(k)
    ensures q * Pow2(k) + r >= 0
    ensures Bit(q * Pow2(k) + r, i) == if i < k then Bit(r, i) else Bit(q, i - k)
  {
    var x: nat := q * Pow2(k) + r;
    DivModUnique(x, Pow2(k), q, r);
    hide Pow2;
    if i < k {
      ModBit(x, k, i);
    } else {
      HalveIsDiv(x, k);
      HalveBit(x, k, i - k);
    }
  }

  // ---- the C operators on unsigned long ----

  function And(x: u64, y: u64): (r: u64)
    ensures forall i: nat :: Bit(r, i) == (i < 64 && Bit(x, i) && Bit(y, i))
  {
    Pow2WordFact();
    Value(seq(64, (i: nat) => Bit(x, i) && Bit(y, i)))
  }

  function Or(x: u64, y: u64): (r: u64)
    ensures forall i: nat :: Bit(r, i) == (i < 64 && (Bit(x, i) || Bit(y, i)))
  {
    Pow2WordFact();
    Value(seq(64, (i: nat) => Bit(x, i) || Bit(y, i)))
  }

  function Xor(x: u64, y: u64): (r: u64)
    ensures forall i: nat :: Bit(r, i) == (i < 64 && Bit(x, i) != Bit(y, i))
  {
    Pow2WordFact();
    Value(seq(64, (i: nat) => Bit(x, i) != Bit(y, i)))
  }

  function Not(x: u64): (r: u64)
    ensures forall i: nat :: Bit(r, i) == (i < 64 && !Bit(x, i))
  {
    Pow2WordFact();
    Value(seq(64, (i: nat) => !Bit(x, i)))
  }

  function Shl(x: u64, s: nat): (r: u64)
    ensures forall i: nat :: Bit(r, i) == (s <= i < 64 && Bit(x, i - s))
  {
    Pow2WordFact();
    Value(seq(64, (i: nat) => s <= i && Bit(x, i - s)))
  }

  function Shr(x: u64, s: nat): (r: u64)
    ensures forall i: nat :: Bit(r, i) == (i < 64 && Bit(x, i + s))
  {
    Pow2WordFact();
    Value(seq(64, (i: nat) => Bit(x, i + s)))
  }

  lemma WordsEqual(x: u64, y: u64)
    requires forall i: nat | i < 64 :: Bit(x, i) == Bit(y, i)
    ensures x == y
  {
    Pow2WordFact();
    SameBits(64, x, y);
  }

  lemma MaskFits(k: nat)
    requires k <= 64
    ensures Pow2(k) <= WORD
  {
    Pow2WordFact();
    Pow2Mono(k, 64);
  }

  /** Masking with 2^k - 1 keeps the remainder by 2^k. */
  lemma AndMask(x: u64, k: nat)
    requires k <= 64
    ensures Pow2(k) <= WORD && And(x, Pow2(k) - 1) == x % Pow2(k)
  {
    MaskFits(k);
    var p: nat := Pow2(k);
    var a := And(x, p - 1);
    var m: u64 := x % p;
    forall i: nat | i < 64 ensures Bit(a, i) == Bit(m, i) {
      MaskBit(k, i);
      ModBit(x, k, i);
    }
    WordsEqual(a, m);
  }
}
