/** Signed fields and the overflow rules of BITFIELD, with C's 64-bit arithmetic written out.

    Signed fields have up to 64 bits. For a field of 64 bits the code shifts `(uint64_t)-1` by 64, which C leaves
    undefined; `shift64` stands for whatever the target makes of it. */
module BitOverflow {
  import opened Words
  import opened Options
  import opened BitStrings
  import opened BitFields

  const HALF: nat := 0x8000_0000_0000_0000

  type i64 = x: int | -0x8000_0000_0000_0000 <= x < 0x8000_0000_0000_0000

  /** Conversions between `int64_t` and `uint64_t`. */
  function AsU64(x: i64): u64 { if x < 0 then x + WORD else x }

  /** Arithmetic on `uint64_t` wraps. */
  function ToU64(x: int): u64 { x % WORD }

  function AsI64(u: u64): i64 { if u >= HALF then u - WORD else u }

  /** The signed reading of an n-bit number. */
  function SignedOf(u: nat, n: nat): int
    requires n >= 1
  {
    if u >= Pow2(n - 1) then u - Pow2(n) else u
  }

  // ---- high bits ----

  lemma {:induction false} TopBit(u: nat, n: nat)
    requires n >= 1 && u < Pow2(n)
    ensures Bit(u, n - 1) <==> u >= Pow2(n - 1)
    decreases n
  {
    if n > 1 { TopBit(u / 2, n - 1); }
  }

  /** All bits from k up: `((uint64_t)-1) << k`. */
  function HighMask(k: nat): u64
    requires k <= 63
  {
    MaskFits(k);
    WORD - Pow2(k)
  }

  lemma HighMaskIs(k: nat)
    requires k <= 63
    ensures HighMask(k) == (Pow2(64 - k) - 1) * Pow2(k)
  {
    Pow2WordFact();
    Pow2Add(64 - k, k);
    hide Pow2;
    assert (Pow2(64 - k) - 1) * Pow2(k) == Pow2(64 - k) * Pow2(k) - Pow2(k);
  }

  lemma HighSumFits(c: u64, k: nat)
    requires k <= 63
    ensures 0 <= c % Pow2(k) + HighMask(k) < WORD
  {
    MaskFits(k);
  }

  /** The mask of the bits above a field, as the code computes it. */
  function Above(bits: nat, shift64: u64): u64
    requires bits <= 64
  {
    if bits == 64 then shift64 else HighMask(bits)
  }

  /** The shift does no harm: the field is narrower, or the shift gives no bit but the top one. */
  predicate CleanShift(bits: nat, shift64: u64) {
    bits < 64 || shift64 == 0 || shift64 == HALF
  }

  /** The sum as wrapping leaves it: the sign bit decides the bits above the field. */
  function Extended(c: u64, bits: nat, shift64: u64): i64
    requires 1 <= bits <= 64
  {
    AsI64(if Bit(c, bits - 1) then Or(c, Above(bits, shift64)) else And(c, Not(Above(bits, shift64))))
  }

  /** The field's bits as reading leaves them. */
  function SignRead(u: u64, bits: nat, shift64: u64): i64
    requires 1 <= bits <= 64
  {
    AsI64(if Bit(u, bits - 1) then Or(u, Above(bits, shift64)) else u)
  }

  lemma HighMaskBit(k: nat, i: nat)
    requires k <= 63 && i < 64
    ensures Bit(HighMask(k), i) == (k <= i)
  {
    HighMaskIs(k);
    BitsOfSum(Pow2(64 - k) - 1, 0, k, i);
    hide Pow2, HighMask;
    if k <= i { MaskBit(64 - k, i - k); } else { ZeroBit(i); }
  }

  /** Setting all bits from k up. */
  lemma OrHigh(c: u64, k: nat)
    requires k <= 63
    ensures Or(c, HighMask(k)) == c % Pow2(k) + HighMask(k)
  {
    HighSumFits(c, k);
    var x: u64 := c % Pow2(k) + HighMask(k);
    OrIs(c, k, x);
  }

  lemma OrIs(c: u64, k: nat, x: u64)
    requires k <= 63 && x == c % Pow2(k) + HighMask(k)
    ensures Or(c, HighMask(k)) == x
  {
    hide Or, HighMask, Pow2, Bit;
    var y := Or(c, HighMask(k));
    forall i: nat | i < 64 ensures Bit(y, i) == Bit(x, i) { OrIsAt(c, k, x, y, i); }
    WordsEqual(y, x);
  }

  lemma OrIsAt(c: u64, k: nat, x: u64, y: u64, i: nat)
    requires k <= 63 && i < 64 && x == c % Pow2(k) + HighMask(k) && y == Or(c, HighMask(k))
    ensures Bit(y, i) == Bit(x, i)
  {
    HighMaskBit(k, i);
    HighSumBit(c, k, i);
    hide Or, HighMask, Pow2, Bit;
  }

  lemma HighSumBit(c: u64, k: nat, i: nat)
    requires k <= 63 && i < 64
    ensures c % Pow2(k) + HighMask(k) >= 0
    ensures Bit(c % Pow2(k) + HighMask(k), i) == (k <= i || Bit(c, i))
  {
    HighMaskIs(k);
    BitsOfSum(Pow2(64 - k) - 1, c % Pow2(k), k, i);
    ModBit(c, k, i);
    hide Pow2, HighMask;
    if k <= i { MaskBit(64 - k, i - k); }
  }

  /** Clearing all bits from k up. */
  lemma AndLow(c: u64, k: nat)
    requires k <= 63
    ensures And(c, Not(HighMask(k))) == c % Pow2(k)
  {
    MaskFits(k);
    var x: u64 := c % Pow2(k);
    hide And, Not, HighMask, Pow2, Bit;
    forall i: nat | i < 64 ensures Bit(And(c, Not(HighMask(k))), i) == Bit(x, i) {
      HighMaskBit(k, i);
      ModBit(c, k, i);
    }
    WordsEqual(And(c, Not(HighMask(k))), x);
  }

  lemma TopWordBit(i: nat)
    ensures Bit(HALF, i) == (i == 63)
  {
    Pow2WordFact();
    assert HALF == Pow2(63);
    BitsOfSum(1, 0, 63, i);
    hide Pow2;
    if i < 63 { ZeroBit(i); } else if i > 63 { ZeroBit(i - 64); }
  }

  /** A clean shift has no bit but perhaps the top one. */
  lemma CleanBit(x: u64, i: nat)
    requires CleanShift(64, x) && i < 63
    ensures !Bit(x, i)
  {
    ZeroBit(i);
    TopWordBit(i);
  }

  lemma DirtyBit(x: u64) returns (i: nat)
    requires !CleanShift(64, x)
    ensures i < 63 && Bit(x, i)
  {
    i := 0;
    while i < 63 && !Bit(x, i)
      invariant i <= 63 && forall j: nat | j < i :: !Bit(x, j)
    {
      i := i + 1;
    }
    if i == 63 {
      var y: u64 := if Bit(x, 63) then HALF else 0;
      forall j: nat | j < 64 ensures Bit(x, j) == Bit(y, j) { ZeroBit(j); TopWordBit(j); }
      WordsEqual(x, y);
      assert false;
    }
  }

  /** A clean shift leaves a word alone when its top bit is set. */
  lemma CleanOr(c: u64, shift64: u64)
    requires CleanShift(64, shift64) && Bit(c, 63)
    ensures Or(c, shift64) == c
  {
    hide Or, Bit, CleanShift;
    forall i: nat | i < 64 ensures Bit(Or(c, shift64), i) == Bit(c, i) {
      if i < 63 { CleanBit(shift64, i); }
    }
    WordsEqual(Or(c, shift64), c);
  }

  lemma CleanAnd(c: u64, shift64: u64)
    requires CleanShift(64, shift64) && !Bit(c, 63)
    ensures And(c, Not(shift64)) == c
  {
    hide And, Not, Bit, CleanShift;
    forall i: nat | i < 64 ensures Bit(And(c, Not(shift64)), i) == Bit(c, i) {
      if i < 63 { CleanBit(shift64, i); }
    }
    WordsEqual(And(c, Not(shift64)), c);
  }

  // ---- remainders ----

  lemma Distribute(q: int, a: int, q2: int, d: int)
    ensures (q * a + q2) * d == q * (a * d) + q2 * d
  {
    assert (q * a + q2) * d == (q * a) * d + q2 * d;
  }

  lemma NestedMod(x: int, a: int, d: int)
    requires a > 0 && d > 0 && a * d > 0
    ensures (x % (a * d)) % d == x % d
  {
    var m := a * d;
    var q, r := x / m, x % m;
    var q2, r2 := r / d, r % d;
    assert x == q * m + r && r == q2 * d + r2;
    Distribute(q, a, q2, d);
    DivModUnique(x, d, q * a + q2, r2);
  }

  lemma ModOfWord(x: int, k: nat)
    requires k <= 64
    ensures ToU64(x) % Pow2(k) == x % Pow2(k)
  {
    Pow2WordFact();
    Pow2Add(64 - k, k);
    NestedMod(x, Pow2(64 - k), Pow2(k));
  }

  /** A negative number just below zero. */
  lemma ModBelow(x: int, d: int)
    requires -d <= x < 0
    ensures x % d == x + d
  {
    DivModUnique(x, d, -1, x + d);
  }

  lemma ModWithin(x: int, d: int)
    requires 0 <= x < d
    ensures x % d == x
  {
    DivModUnique(x, d, 0, x);
  }

  lemma AsU64Mod(x: i64)
    ensures AsU64(x) == ToU64(x)
  {
  }

  /** Adding after the conversion is converting the sum. */
  lemma SumU64(x: i64, y: i64)
    ensures ToU64(AsU64(x) + AsU64(y)) == ToU64(x + y)
  {
  }

  lemma SumMixed(x: u64, y: i64)
    ensures ToU64(x + AsU64(y)) == ToU64(x + y)
  {
  }

  /** A difference that is an `int64_t` comes out right. */
  lemma Exact(x: i64)
    ensures AsI64(ToU64(x)) == x
  {
  }

  // ---- signed fields ----

  /** Wrapping gives the signed reading of the low bits. */
  lemma ExtendedIs(c: u64, bits: nat, shift64: u64)
    requires 1 <= bits <= 64 && CleanShift(bits, shift64)
    ensures Extended(c, bits, shift64) == SignedOf(c % Pow2(bits), bits)
  {
    hide And, Or, Not, Bit, CleanShift;
    FieldFits(bits);
    ModBit(c, bits, bits - 1);
    TopBit(c % Pow2(bits), bits);
    if bits < 64 {
      OrHigh(c, bits);
      AndLow(c, bits);
    } else {
      hide Pow2;
      ModWithin(c, Pow2(64));
      if Bit(c, 63) { CleanOr(c, shift64); } else { CleanAnd(c, shift64); }
    }
  }

  /** Reading gives the signed reading of the field's bits. */
  lemma SignReadIs(u: u64, bits: nat, shift64: u64)
    requires 1 <= bits <= 64 && u < Pow2(bits) && CleanShift(bits, shift64)
    ensures SignRead(u, bits, shift64) == SignedOf(u, bits)
  {
    hide And, Or, Not, Bit, CleanShift;
    ExtendedIs(u, bits, shift64);
    ModWithin(u, Pow2(bits));
    FieldFits(bits);
    TopBit(u, bits);
  }

  /** For fields of 64 bits reading and wrapping are right for every field if and only if the shift is clean. */
  lemma WideFieldIff(shift64: u64)
    ensures (forall u: u64 :: SignRead(u, 64, shift64) == SignedOf(u, 64)) <==> CleanShift(64, shift64)
    ensures (forall u: u64 :: Extended(u, 64, shift64) == SignedOf(u, 64)) <==> CleanShift(64, shift64)
  {
    hide SignRead, Extended, CleanShift;
    Pow2WordFact();
    hide Pow2;
    if CleanShift(64, shift64) {
      forall u: u64 ensures SignRead(u, 64, shift64) == SignedOf(u, 64) && Extended(u, 64, shift64) == SignedOf(u, 64) {
        SignReadIs(u, 64, shift64);
        ExtendedIs(u, 64, shift64);
        ModWithin(u, Pow2(64));
      }
    } else {
      DirtyShift(shift64);
    }
  }

  /** The least 64-bit number shows a shift that is not clean. */
  lemma DirtyShift(shift64: u64)
    requires !CleanShift(64, shift64)
    ensures SignRead(HALF, 64, shift64) == Extended(HALF, 64, shift64) != SignedOf(HALF, 64)
  {
    hide Or, And, Not, Bit, CleanShift;
    FieldFits(64);
    TopWordBit(63);
    var i := DirtyBit(shift64);
    TopWordBit(i);
    assert Bit(Or(HALF, shift64), i);
  }

  lemma FieldFits(bits: nat)
    requires 1 <= bits <= 64
    ensures 1 <= Pow2(bits - 1) <= HALF && Pow2(bits) == 2 * Pow2(bits - 1) <= WORD
    ensures bits == 64 ==> Pow2(bits - 1) == HALF
  {
    Pow2Mono(bits - 1, 63);
    Pow2WordFact();
  }

  /** `getSignedBitfield`. */
  method GetSignedBitfield(p: seq<bv8>, offset: nat, bits: nat, shift64: u64) returns (value: i64)
    requires offset + bits <= 8 * |p| && 1 <= bits <= 64
    ensures Field(p, offset, bits) < WORD && value == SignRead(Field(p, offset, bits), bits, shift64)
    ensures CleanShift(bits, shift64) ==> value == SignedOf(Field(p, offset, bits), bits)
  {
    var u := GetUnsignedBitfield(p, offset, bits);
    hide CleanShift, Field, Or, Bit, Above;
    value := AsI64(u);
    if Bit(u, bits - 1) { value := AsI64(Or(u, Above(bits, shift64))); }
    if CleanShift(bits, shift64) { SignReadIs(u, bits, shift64); }
  }

  /** BITFIELD GET of a signed field, through the nine-byte window. */
  method GetSignedThroughWindow(src: seq<bv8>, offset: nat, bits: nat, shift64: u64) returns (value: i64)
    requires 1 <= bits <= 64
    ensures CleanShift(bits, shift64) ==> value == SignedOf(Field(Padded(src, offset / 8 + 9), offset, bits), bits)
  {
    hide CleanShift, Field, SignedOf, Padded;
    var b := offset / 8;
    var buf := CopyWindow(src, b);
    value := GetSignedBitfield(buf[..], offset - b * 8, bits, shift64);
    WindowField(src, offset, bits);
  }

  lemma SmallFits(u: nat, bits: nat)
    requires 1 <= bits <= 63 && u < Pow2(bits)
    ensures u % Pow2(bits) == u && Pow2(bits) <= HALF && Pow2(bits) == 2 * Pow2(bits - 1)
  {
    ModWithin(u, Pow2(bits));
    Pow2Mono(bits, 63);
    Pow2WordFact();
  }

  /** `setSignedBitfield`, in place. */
  method SetSignedBitfield(p: array<bv8>, offset: nat, bits: nat, value: i64)
    requires offset + bits <= 8 * p.Length && bits <= 64
    modifies p
    ensures FieldSet(old(p[..]), p[..], offset, bits, AsU64(value))
  {
    SetUnsignedBitfield(p, offset, bits, AsU64(value));
  }

  /** An in-range number survives being cut to the field and read back. */
  lemma SignedFits(value: int, bits: nat)
    requires 1 <= bits <= 64 && 0 - Pow2(bits - 1) <= value < Pow2(bits - 1)
    ensures SignedOf(value % Pow2(bits), bits) == value
  {
    assert Pow2(bits) == 2 * Pow2(bits - 1);
    if value >= 0 { ModWithin(value, Pow2(bits)); } else { ModBelow(value, Pow2(bits)); }
  }

  /** Signed round trip through the string. */
  lemma SignedGetAfterSet(s: seq<bv8>, s': seq<bv8>, offset: nat, bits: nat, value: i64)
    requires 1 <= bits <= 64 && FieldSet(s, s', offset, bits, AsU64(value))
    ensures SignedOf(Field(s', offset, bits), bits) == SignedOf(value % Pow2(bits), bits)
    ensures 0 - Pow2(bits - 1) <= value < Pow2(bits - 1) ==> SignedOf(Field(s', offset, bits), bits) == value
  {
    GetAfterSet(s, s', offset, bits, AsU64(value));
    AsU64Mod(value);
    ModOfWord(value, bits);
    if 0 - Pow2(bits - 1) <= value < Pow2(bits - 1) { SignedFits(value, bits); }
  }

  // ---- the overflow checks ----

  datatype Policy = Wrap | Sat | Fail

  /** `checkUnsignedBitfieldOverflow`: the result code, and the limit unless the policy is Fail. */
  function CheckUnsigned(value: u64, incr: i64, bits: nat, ow: Policy): (int, u64)
    requires 1 <= bits <= 63
  {
    MaskFits(bits);
    var max: u64 := Pow2(bits) - 1;
    var maxincr := AsI64(ToU64(max - value));
    var minincr := AsI64(ToU64(0 - value));
    var wrapped := And(ToU64(value + AsU64(incr)), max);
    UnsignedBranches(value, incr, max, maxincr, minincr, wrapped, ow)
  }

  function UnsignedBranches(value: u64, incr: i64, max: u64, maxincr: i64, minincr: i64, wrapped: u64,
      ow: Policy): (int, u64) {
    if value > max || (incr > 0 && incr > maxincr) then (1, if ow.Wrap? then wrapped else if ow.Sat? then max else 0)
    else if incr < 0 && incr < minincr then (if ow.Wrap? then (1, wrapped) else (-1, 0))
    else (0, 0)
  }

  /** `checkSignedBitfieldOverflow`, its subtractions wrapping as two's complement does. */
  function CheckSigned(value: i64, incr: i64, bits: nat, ow: Policy, shift64: u64): (int, i64)
    requires 1 <= bits <= 64
  {
    FieldFits(bits);
    var max: i64 := Pow2(bits - 1) - 1;
    var min: i64 := 0 - max - 1;
    var maxincr := AsI64(ToU64(max - value));
    var minincr := AsI64(ToU64(min - value));
    var wrapped := Extended(ToU64(AsU64(value) + AsU64(incr)), bits, shift64);
    SignedBranches(bits != 64, value, incr, max, min, maxincr, minincr, wrapped, ow)
  }

  function SignedBranches(
    narrow: bool, value: i64, incr: i64, max: i64, min: i64, maxincr: i64, minincr: i64, wrapped: i64,
        ow: Policy): (int, i64)
  {
    if value > max || (narrow && incr > maxincr) || (value >= 0 && incr > 0 && incr > maxincr)
    then (1, if ow.Wrap? then wrapped else if ow.Sat? then max else 0)
    else if value < min || (narrow && incr < minincr) || (value < 0 && incr < 0 && incr < minincr)
    then (if ow.Wrap? then (1, wrapped) else (-1, if ow.Sat? then min else 0))
    else (0, 0)
  }

  /** What a policy makes of an exact result in the range from min to max. */
  ghost function Settled(exact: int, min: int, max: int, wrapped: int, ow: Policy): int {
    if min <= exact <= max then exact
    else if ow.Wrap? then wrapped
    else if exact > max then max
    else min
  }

  /** A verdict on an exact result: reported if and only if it is out of range, on the right side, with the limit. */
  ghost predicate Correct(code: int, limit: int, exact: int, min: int, max: int, wrapped: int, ow: Policy) {
    && (code == 0 <==> min <= exact <= max)
    && (code == -1 ==> exact < min) && (code == 1 && !ow.Wrap? ==> exact > max)
    && (code != 0 && !ow.Fail? ==> limit == Settled(exact, min, max, wrapped, ow))
  }

  lemma UnsignedBranch(value: u64, incr: i64, max: u64, wrapped: u64, ow: Policy)
    requires value <= max < HALF
    ensures var r := UnsignedBranches(value, incr, max, max - value, 0 - value, wrapped, ow);
      Correct(r.0, r.1, value + incr, 0, max, wrapped, ow)
  {
  }

  lemma NarrowBranch(value: i64, incr: i64, max: i64, min: i64, wrapped: i64, ow: Policy)
    requires min <= value <= max && max - min < HALF
    ensures var r := SignedBranches(true, value, incr, max, min, max - value, min - value, wrapped, ow);
      Correct(r.0, r.1, value + incr, min, max, wrapped, ow)
  {
  }

  /** With 64 bits the subtractions may wrap, but are then not looked at. */
  lemma WideBranch(value: i64, incr: i64, maxincr: i64, minincr: i64, wrapped: i64, ow: Policy)
    requires value >= 0 ==> maxincr == HALF - 1 - value
    requires value < 0 ==> minincr == 0 - HALF - value
    ensures var r := SignedBranches(false, value, incr, HALF - 1, 0 - HALF, maxincr, minincr, wrapped, ow);
      Correct(r.0, r.1, value + incr, 0 - HALF, HALF - 1, wrapped, ow)
  {
  }

  /** Overflow is reported if and only if the exact sum leaves the range, on the right side; WRAP gives the sum
      modulo 2^bits and SAT the nearest bound. */
  lemma UnsignedCheck(value: u64, incr: i64, bits: nat, ow: Policy)
    requires 1 <= bits <= 63 && value < Pow2(bits)
    ensures var r := CheckUnsigned(value, incr, bits, ow);
      Correct(r.0, r.1, value + incr, 0, Pow2(bits) - 1, (value + incr) % Pow2(bits), ow)
  {
    hide And, Pow2, ToU64, AsI64, AsU64, Correct, UnsignedBranches;
    SmallFits(value, bits);
    UnsignedWrap(value, incr, bits);
    Exact(Pow2(bits) - 1 - value);
    Exact(0 - value);
    UnsignedBranch(value, incr, Pow2(bits) - 1, And(ToU64(value + AsU64(incr)), Pow2(bits) - 1), ow);
  }

  lemma UnsignedWrap(value: u64, incr: i64, bits: nat)
    requires 1 <= bits <= 63
    ensures Pow2(bits) <= WORD && And(ToU64(value + AsU64(incr)), Pow2(bits) - 1) == (value + incr) % Pow2(bits)
  {
    hide And, Pow2, ToU64, AsU64;
    AndMask(ToU64(value + AsU64(incr)), bits);
    SumMixed(value, incr);
    ModOfWord(value + incr, bits);
  }

  lemma SignedWrap(value: i64, incr: i64, bits: nat, shift64: u64)
    requires 1 <= bits <= 64 && CleanShift(bits, shift64)
    ensures Extended(ToU64(AsU64(value) + AsU64(incr)), bits, shift64) == SignedOf((value + incr) % Pow2(bits), bits)
  {
    hide Extended, CleanShift, ToU64, AsU64, Pow2, SignedOf;
    ExtendedIs(ToU64(AsU64(value) + AsU64(incr)), bits, shift64);
    SumU64(value, incr);
    ModOfWord(value + incr, bits);
  }

  /** The same for signed fields, when the old value is one the field can hold, as it is for INCRBY. The undefined
      shift plays no part in the verdict, nor in the limit of SAT. */
  lemma SignedCheck(value: i64, incr: i64, bits: nat, ow: Policy, shift64: u64)
    requires 1 <= bits <= 64 && 0 - Pow2(bits - 1) <= value < Pow2(bits - 1)
    ensures ow.Wrap? ==> CleanShift(bits, shift64) ==>
      var r := CheckSigned(value, incr, bits, ow, shift64);
      Correct(r.0, r.1, value + incr, 0 - Pow2(bits - 1), Pow2(bits - 1) - 1,
          SignedOf((value + incr) % Pow2(bits), bits), ow)
    ensures !ow.Wrap? ==>
      var r := CheckSigned(value, incr, bits, ow, shift64);
      Correct(r.0, r.1, value + incr, 0 - Pow2(bits - 1), Pow2(bits - 1) - 1, 0, ow)
  {
    hide CheckSigned, Extended, CleanShift, Pow2, ToU64, AsU64, SignedOf, Correct;
    var wrapped := Extended(ToU64(AsU64(value) + AsU64(incr)), bits, shift64);
    VerdictRight(value, incr, bits, ow, shift64, wrapped);
    if CleanShift(bits, shift64) { SignedWrap(value, incr, bits, shift64); }
    var r := CheckSigned(value, incr, bits, ow, shift64);
    WrappedUnused(r.0, r.1, value + incr, 0 - Pow2(bits - 1), Pow2(bits - 1) - 1, wrapped, ow);
  }

  lemma WrappedUnused(code: int, limit: int, exact: int, min: int, max: int, wrapped: int, ow: Policy)
    ensures !ow.Wrap? ==>
      Correct(code, limit, exact, min, max, wrapped, ow) == Correct(code, limit, exact, min, max, 0, ow)
  {
  }

  lemma VerdictRight(value: i64, incr: i64, bits: nat, ow: Policy, shift64: u64, wrapped: i64)
    requires 1 <= bits <= 64 && 0 - Pow2(bits - 1) <= value < Pow2(bits - 1)
    requires wrapped == Extended(ToU64(AsU64(value) + AsU64(incr)), bits, shift64)
    ensures var r := CheckSigned(value, incr, bits, ow, shift64);
      Correct(r.0, r.1, value + incr, 0 - Pow2(bits - 1), Pow2(bits - 1) - 1, wrapped, ow)
  {
    hide Pow2, ToU64, AsI64, AsU64, Correct, SignedBranches, Extended;
    FieldFits(bits);
    var max, min := Pow2(bits - 1) - 1, 0 - Pow2(bits - 1);
    Difference(max, value);
    Difference(min, value);
    if bits < 64 {
      SmallFits(0, bits);
      NarrowBranch(value, incr, max, min, wrapped, ow);
    } else {
      WideBranch(value, incr, AsI64(ToU64(max - value)), AsI64(ToU64(min - value)), wrapped, ow);
    }
  }

  // ---- BITFIELD INCRBY ----

  /** What INCRBY stores and replies for an exact sum: nothing when it is out of range under FAIL. */
  ghost function Outcome(exact: int, min: int, max: int, wrapped: int, ow: Policy): Option<int> {
    if ow.Fail? && !(min <= exact <= max) then None else Some(Settled(exact, min, max, wrapped, ow))
  }

  /** BITFIELD INCRBY on an unsigned field. */
  method IncrByUnsigned(p: array<bv8>, offset: nat, bits: nat, incr: i64, ow: Policy) returns (r: Option<u64>)
    requires 1 <= bits <= 63 && offset + bits <= 8 * p.Length
    modifies p
    ensures var exact := Field(old(p[..]), offset, bits) + incr;
      var o := Outcome(exact, 0, Pow2(bits) - 1, exact % Pow2(bits), ow);
      match r
      case None => o.None? && p[..] == old(p[..])
      case Some(v) => o == Some(v) && FieldSet(old(p[..]), p[..], offset, bits, v)
  {
    hide FieldSet, CheckUnsigned, Field, Pow2, ToU64;
    var oldval := GetUnsignedBitfield(p[..], offset, bits);
    var check := CheckUnsigned(oldval, incr, bits, ow);
    UnsignedCheck(oldval, incr, bits, ow);
    var newval := ToU64(oldval + AsU64(incr));
    SumMixed(oldval, incr);
    SmallFits(0, bits);
    if check.0 == 0 { InRange(oldval + incr); }
    if check.0 != 0 { newval := check.1; }
    if check.0 != 0 && ow.Fail? { return None; }
    hide Correct, Settled;
    SetUnsignedBitfield(p, offset, bits, newval);
    return Some(newval);
  }

  lemma InRange(x: int)
    requires 0 <= x < HALF
    ensures ToU64(x) == x
  {
  }

  /** BITFIELD INCRBY on a signed field. */
  method IncrBySigned(p: array<bv8>, offset: nat, bits: nat, incr: i64, ow: Policy, shift64: u64)
      returns (r: Option<i64>)
    requires 1 <= bits <= 64 && offset + bits <= 8 * p.Length
    modifies p
    ensures CleanShift(bits, shift64) ==>
      var exact := SignedOf(Field(old(p[..]), offset, bits), bits) + incr;
      var o := Outcome(exact, 0 - Pow2(bits - 1), Pow2(bits - 1) - 1, SignedOf(exact % Pow2(bits), bits), ow);
      match r
      case None => o.None? && p[..] == old(p[..])
      case Some(v) => o == Some(v) && FieldSet(old(p[..]), p[..], offset, bits, AsU64(v))
  {
    hide FieldSet, CheckSigned, Field, Pow2, CleanShift;
    var oldval := GetSignedBitfield(p[..], offset, bits, shift64);
    SignedRange(p[..], offset, bits);
    var check := CheckSigned(oldval, incr, bits, ow, shift64);
    if CleanShift(bits, shift64) { SignedCheck(oldval, incr, bits, ow, shift64); }
    FieldFits(bits);
    hide SignedOf;
    var newval := AsI64(ToU64(oldval + incr));
    Difference(oldval, 0 - incr);
    if check.0 != 0 { newval := check.1; }
    if check.0 != 0 && ow.Fail? { return None; }
    hide Correct, Settled, ToU64, AsI64;
    SetSignedBitfield(p, offset, bits, newval);
    return Some(newval);
  }

  lemma SignedRange(s: seq<bv8>, offset: nat, bits: nat)
    requires 1 <= bits <= 64 && offset + bits <= 8 * |s|
    ensures 0 - Pow2(bits - 1) <= SignedOf(Field(s, offset, bits), bits) < Pow2(bits - 1)
  {
    MsbValueBound(FieldBits(s, offset, bits));
  }

  // ---- BITFIELD SET ----

  /** SET checks the new value itself, with no increment. For unsigned fields it is converted to `uint64_t` first; what
      the check sees then, it judges right. */
  lemma ConvertedSetCheck(value: u64, bits: nat, ow: Policy)
    requires 1 <= bits <= 63
    ensures var r := CheckUnsigned(value, 0, bits, ow);
      Correct(r.0, r.1, value, 0, Pow2(bits) - 1, value % Pow2(bits), ow)
  {
    hide And, ToU64, AsI64;
    SmallFits(0, bits);
    UnsignedWrap(value, 0, bits);
    if value < Pow2(bits) { UnsignedCheck(value, 0, bits, ow); }
  }

  /** Of the value SET was given, an overflow is reported if and only if it is out of range, and WRAP gives the value
      modulo 2^bits, under every policy. */
  lemma UnsignedSetVerdict(value: i64, bits: nat, ow: Policy)
    requires 1 <= bits <= 63
    ensures var r := CheckUnsigned(AsU64(value), 0, bits, ow);
      && (r.0 == 0 <==> 0 <= value < Pow2(bits))
      && (r.0 != 0 && ow.Wrap? ==> r.1 == value % Pow2(bits))
      && (r.0 != 0 && ow.Sat? ==> r.1 == Pow2(bits) - 1)
  {
    ConvertedSetCheck(AsU64(value), bits, ow);
    SmallFits(0, bits);
    AsU64Mod(value);
    ModOfWord(value, bits);
    hide CheckUnsigned, ToU64, Pow2;
  }

  /** A negative value becomes a large one by the conversion, and SAT then gives the maximum instead of 0. It is right
      if and only if the value is not negative. */
  lemma UnsignedSetCheckIff(value: i64, bits: nat)
    requires 1 <= bits <= 63
    ensures var r := CheckUnsigned(AsU64(value), 0, bits, Sat);
      Correct(r.0, r.1, value, 0, Pow2(bits) - 1, 0, Sat) <==> value >= 0
  {
    UnsignedSetVerdict(value, bits, Sat);
    ConvertedSetCheck(AsU64(value), bits, Sat);
    SmallFits(0, bits);
    hide CheckUnsigned, Pow2;
  }

  /** Setting an 8-bit unsigned field to -1 with OVERFLOW SAT stores 255. */
  lemma UnsignedSetExample()
    ensures CheckUnsigned(AsU64(-1), 0, 8, Sat) == (1, 255)
  {
    hide And;
    assert Pow2(8) == 256;
  }

  /** For signed fields the subtraction comes before the range check: a value so low that max - value leaves the
      64-bit range is taken for an overflow, and SAT then gives the maximum instead of the minimum. It is right if
      and only if the field is as wide as the value or the value is not that low. */
  lemma SignedSetCheckIff(value: i64, bits: nat, shift64: u64)
    requires 1 <= bits <= 64
    ensures var r := CheckSigned(value, 0, bits, Sat, shift64);
      Correct(r.0, r.1, value, 0 - Pow2(bits - 1), Pow2(bits - 1) - 1, 0, Sat) <==>
          bits == 64 || value >= Pow2(bits - 1) - HALF
  {
    hide Pow2, SignedOf, AsU64, Extended;
    FieldFits(bits);
    if bits < 64 { SmallFits(0, bits); }
    var max, min := Pow2(bits - 1) - 1, 0 - Pow2(bits - 1);
    Difference(max, value);
    Difference(min, value);
    hide ToU64, AsI64;
  }

  /** Whatever the policy, an overflow is reported if and only if the value is out of range, and WRAP gives the value
      modulo 2^bits: only the limit of SAT depends on the side. */
  lemma SignedSetVerdict(value: i64, bits: nat, ow: Policy, shift64: u64)
    requires 1 <= bits <= 64
    ensures var r := CheckSigned(value, 0, bits, ow, shift64);
      && (r.0 == 0 <==> 0 - Pow2(bits - 1) <= value < Pow2(bits - 1))
      && (r.0 != 0 && ow.Wrap? ==> r.1 == SignedOf(value % Pow2(bits), bits))
  {
    hide Pow2, SignedOf, AsU64, Extended;
    FieldFits(bits);
    if bits < 64 {
      SmallFits(0, bits);
      SignedWrap(value, 0, bits, shift64);
    }
    var max, min := Pow2(bits - 1) - 1, 0 - Pow2(bits - 1);
    Difference(max, value);
    Difference(min, value);
    hide ToU64, AsI64;
  }

  /** What SET stores: the value if it fits, else the value modulo 2^bits or the limit; nothing under FAIL. */
  ghost function Stored(value: int, min: int, max: int, wrapped: int, limit: int, ow: Policy): Option<int> {
    if min <= value <= max then Some(value)
    else match ow
      case Fail => None
      case Wrap => Some(wrapped)
      case Sat => Some(limit)
  }

  /** BITFIELD SET on an unsigned field: replies the old value. */
  method SetUnsigned(p: array<bv8>, offset: nat, bits: nat, value: i64, ow: Policy) returns (r: Option<u64>)
    requires 1 <= bits <= 63 && offset + bits <= 8 * p.Length
    modifies p
    ensures var o := Stored(value, 0, Pow2(bits) - 1, value % Pow2(bits), Pow2(bits) - 1, ow);
      match r
      case None => o.None? && p[..] == old(p[..])
      case Some(v) => v == Field(old(p[..]), offset, bits) && o.Some? && o.value >= 0
                      && FieldSet(old(p[..]), p[..], offset, bits, o.value)
  {
    hide FieldSet, CheckUnsigned, Field, Pow2, ToU64;
    var oldval := GetUnsignedBitfield(p[..], offset, bits);
    var newval := AsU64(value);
    var check := CheckUnsigned(newval, 0, bits, ow);
    UnsignedSetVerdict(value, bits, ow);
    if check.0 != 0 { newval := check.1; }
    if check.0 != 0 && ow.Fail? { return None; }
    SetUnsignedBitfield(p, offset, bits, newval);
    return Some(oldval);
  }

  /** BITFIELD SET on a signed field, with the limit of SAT that the check gives. */
  method SetSigned(p: array<bv8>, offset: nat, bits: nat, value: i64, ow: Policy, shift64: u64) returns (r: Option<i64>)
    requires 1 <= bits <= 64 && offset + bits <= 8 * p.Length
    modifies p
    ensures var max, min := Pow2(bits - 1) - 1, 0 - Pow2(bits - 1);
      var limit := if value > max || (bits != 64 && value < Pow2(bits - 1) - HALF) then max else min;
      var o := Stored(value, min, max, SignedOf(value % Pow2(bits), bits), limit, ow);
      match r
      case None => o.None? && p[..] == old(p[..])
      case Some(v) => && (CleanShift(bits, shift64) ==> v == SignedOf(Field(old(p[..]), offset, bits), bits))
                      && o.Some? && -0x8000_0000_0000_0000 <= o.value < 0x8000_0000_0000_0000
                      && FieldSet(old(p[..]), p[..], offset, bits, AsU64(o.value))
  {
    hide FieldSet, CheckSigned, Field, Pow2, SignedOf, CleanShift;
    var oldval := GetSignedBitfield(p[..], offset, bits, shift64);
    var newval := value;
    var check := CheckSigned(newval, 0, bits, ow, shift64);
    SignedSetVerdict(value, bits, ow, shift64);
    SignedSetLimit(value, bits, shift64);
    if check.0 != 0 { newval := check.1; }
    if check.0 != 0 && ow.Fail? { return None; }
    SetSignedBitfield(p, offset, bits, newval);
    return Some(oldval);
  }

  /** The limit SAT gives for a value out of range. */
  lemma SignedSetLimit(value: i64, bits: nat, shift64: u64)
    requires 1 <= bits <= 64
    ensures var r := CheckSigned(value, 0, bits, Sat, shift64); var max, min := Pow2(bits - 1) - 1, 0 - Pow2(bits - 1);
      r.0 != 0 ==> r.1 == if value > max || (bits != 64 && value < Pow2(bits - 1) - HALF) then max else min
  {
    hide Pow2, SignedOf, AsU64, Extended;
    FieldFits(bits);
    if bits < 64 { SmallFits(0, bits); }
    var max, min := Pow2(bits - 1) - 1, 0 - Pow2(bits - 1);
    Difference(max, value);
    Difference(min, value);
    hide ToU64, AsI64;
  }

  /** A difference, wrapping. */
  lemma Difference(a: int, b: int)
    requires 0 - HALF <= a < HALF && 0 - HALF <= b <= HALF
    ensures AsI64(ToU64(a - b))
            == if a - b >= HALF then a - b - WORD else if a - b < 0 - HALF then a - b + WORD else a - b
  {
  }

  /** Setting an 8-bit signed field to the least 64-bit number with OVERFLOW SAT stores 127. */
  lemma SignedSetExample(shift64: u64)
    ensures CheckSigned(0 - HALF, 0, 8, Sat, shift64) == (1, 127)
  {
    hide Extended;
    assert Pow2(7) == 128;
  }
}
