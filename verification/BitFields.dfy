/** The bit field commands of src/bitops.c, unsigned and as bits. */
module BitFields {
  import opened Words
  import opened BitStrings

  /** The bits of a field. */
  function FieldBits(s: seq<bv8>, offset: nat, n: nat): (bs: seq<bool>)
    requires offset + n <= 8 * |s|
    ensures |bs| == n
  {
    seq(n, (j: nat) requires j < n => GetBit(s, offset + j))
  }

  /** The field as an unsigned number. */
  function Field(s: seq<bv8>, offset: nat, n: nat): nat
    requires offset + n <= 8 * |s|
  {
    MsbValue(FieldBits(s, offset, n))
  }

  /** s' is s with a field set to the low n bits of value. */
  ghost predicate FieldSet(s: seq<bv8>, s': seq<bv8>, offset: nat, n: nat, value: nat) {
    && |s'| == |s| && offset + n <= 8 * |s|
    && forall i: nat | i < 8 * |s| ::
         GetBit(s', i) == if offset <= i < offset + n then Bit(value, n - 1 - (i - offset)) else GetBit(s, i)
  }

  // ---- setting and getting ----

  /** `setUnsignedBitfield`, in place. */
  method SetUnsignedBitfield(p: array<bv8>, offset: nat, bits: nat, value: u64)
    requires offset + bits <= 8 * p.Length && bits <= 64
    modifies p
    ensures FieldSet(old(p[..]), p[..], offset, bits, value)
  {
    ghost var was := p[..];
    for j := 0 to bits
      invariant PartSet(was, p[..], offset, bits, value, j)
    {
      var bitval := Bit(value, bits - 1 - j);
      PartSetMore(was, p[..], offset, bits, value, j);
      hide PartSet, GetBit, PutBit, WithBit, Bit;
      PutBitAt(p, offset + j, bitval);
    }
  }

  /** Set or clear one bit, in place. */
  method PutBitAt(p: array<bv8>, i: nat, bitval: bool)
    requires i < 8 * p.Length
    modifies p
    ensures p[..] == WithBit(old(p[..]), i, bitval)
  {
    hide PutBit;
    var byte, bit := i / 8, 7 - i % 8;
    p[byte] := PutBit(p[byte], bit, bitval);
  }

  /** The first j bits of the field are set. */
  ghost predicate PartSet(s: seq<bv8>, s': seq<bv8>, offset: nat, n: nat, value: nat, j: nat) {
    && |s'| == |s| && offset + n <= 8 * |s| && j <= n
    && forall i: nat | i < 8 * |s| ::
         GetBit(s', i) == if offset <= i < offset + j then Bit(value, n - 1 - (i - offset)) else GetBit(s, i)
  }

  lemma PartSetMore(s: seq<bv8>, s': seq<bv8>, offset: nat, n: nat, value: nat, j: nat)
    requires PartSet(s, s', offset, n, value, j) && j < n
    ensures PartSet(s, WithBit(s', offset + j, Bit(value, n - 1 - j)), offset, n, value, j + 1)
  {
    hide GetBit, WithBit, Bit;
    var now := WithBit(s', offset + j, Bit(value, n - 1 - j));
    WithBitSize(s', offset + j, Bit(value, n - 1 - j));
    forall i: nat | i < 8 * |s|
      ensures GetBit(now, i)
              == if offset <= i < offset + (j + 1) then Bit(value, n - 1 - (i - offset)) else GetBit(s, i)
    {
      WithBitTest(s', offset + j, Bit(value, n - 1 - j), i);
    }
  }

  lemma WithBitSize(s: seq<bv8>, i: nat, b: bool)
    requires i < 8 * |s|
    ensures |WithBit(s, i, b)| == |s|
  {
  }

  /** One bit as the getter reads it. */
  predicate ReadBit(p: seq<bv8>, i: nat)
    requires i < 8 * |p|
    ensures ReadBit(p, i) == GetBit(p, i)
  {
    ShiftTest(p[i / 8], 7 - i % 8);
    (p[i / 8] >> (7 - i % 8)) & 1 == 1
  }

  /** `getUnsignedBitfield`. */
  method GetUnsignedBitfield(p: seq<bv8>, offset: nat, bits: nat) returns (value: u64)
    requires offset + bits <= 8 * |p| && bits <= 64
    ensures value == Field(p, offset, bits) && value < Pow2(bits)
  {
    hide GetBit, ReadBit, Pow2;
    value := 0;
    ghost var all := FieldBits(p, offset, bits);
    for j := 0 to bits
      invariant value == MsbValue(all[..j])
    {
      var bitval := ReadBit(p, offset + j);
      assert bitval == all[j];
      assert all[..j + 1][..j] == all[..j];
      MsbValueBound(all[..j + 1]);
      Pow2Mono(j + 1, 64);
      Pow2WordFact();
      hide FieldBits;
      value := 2 * value + if bitval then 1 else 0;
    }
    assert all[..bits] == all;
    MsbValueBound(all);
  }

  /** Reading a field that was set gives the value modulo 2^bits. */
  lemma GetAfterSet(s: seq<bv8>, s': seq<bv8>, offset: nat, bits: nat, value: nat)
    requires FieldSet(s, s', offset, bits, value)
    ensures Field(s', offset, bits) == value % Pow2(bits)
  {
    assert FieldBits(s', offset, bits) == MsbBits(value, bits);
    MsbRoundTrip(value, bits);
  }

  /** Fields that do not overlap keep their value. */
  lemma SetKeepsOthers(s: seq<bv8>, s': seq<bv8>, offset: nat, bits: nat, value: nat, offset2: nat, bits2: nat)
    requires FieldSet(s, s', offset, bits, value) && offset2 + bits2 <= 8 * |s|
    requires offset2 + bits2 <= offset || offset + bits <= offset2
    ensures Field(s', offset2, bits2) == Field(s, offset2, bits2)
  {
    hide GetBit;
    assert FieldBits(s', offset2, bits2) == FieldBits(s, offset2, bits2);
  }

  // ---- the window BITFIELD GET reads from ----

  /** Nine bytes from position b on, zeros past the end of the string. */
  function Window(src: seq<bv8>, b: nat): (w: seq<bv8>)
    ensures |w| == 9
  {
    seq(9, (i: nat) requires i < 9 => if b + i < |src| then src[b + i] else 0)
  }

  /** The string followed by enough zeros for n bytes. */
  function Padded(src: seq<bv8>, n: nat): (s: seq<bv8>)
    ensures |s| >= n
  {
    src + seq(n, (i: nat) => 0)
  }

  /** Copy up to nine bytes into a cleared buffer. */
  method CopyWindow(src: seq<bv8>, b: nat) returns (buf: array<bv8>)
    ensures fresh(buf) && buf[..] == Window(src, b)
  {
    buf := new bv8[9](_ => 0);
    var i := 0;
    while i < 9
      invariant 0 <= i <= 9
      invariant forall j | 0 <= j < 9 :: buf[j] == if j < i && b + j < |src| then src[b + j] else 0
    {
      if i + b >= |src| { break; }
      buf[i] := src[i + b];
      i := i + 1;
    }
  }

  /** BITFIELD GET of an unsigned field: the window holds the field wherever it lies, also past the end. */
  method GetThroughWindow(src: seq<bv8>, offset: nat, bits: nat) returns (value: u64)
    requires bits <= 64
    ensures value == Field(Padded(src, offset / 8 + 9), offset, bits)
  {
    var b := offset / 8;
    var buf := CopyWindow(src, b);
    value := GetUnsignedBitfield(buf[..], offset - b * 8, bits);
    WindowField(src, offset, bits);
  }

  lemma WindowField(src: seq<bv8>, offset: nat, bits: nat)
    requires bits <= 64
    ensures Field(Window(src, offset / 8), offset % 8, bits) == Field(Padded(src, offset / 8 + 9), offset, bits)
  {
    hide Window, Padded, GetBit;
    var w, s := Window(src, offset / 8), Padded(src, offset / 8 + 9);
    var a, b := FieldBits(w, offset % 8, bits), FieldBits(s, offset, bits);
    forall j: nat | j < bits ensures a[j] == b[j] { WindowBit(src, offset, j); }
    assert a == b;
  }

  lemma WindowBit(src: seq<bv8>, offset: nat, j: nat)
    requires j < 64
    ensures GetBit(Window(src, offset / 8), offset % 8 + j) == GetBit(Padded(src, offset / 8 + 9), offset + j)
  {
    hide Window, Padded, Mask;
    Place(offset, j);
    WindowByte(src, offset / 8, (offset % 8 + j) / 8);
  }

  lemma Place(offset: nat, j: nat)
    ensures (offset + j) / 8 == offset / 8 + (offset % 8 + j) / 8 && (offset + j) % 8 == (offset % 8 + j) % 8
  {
  }

  lemma WindowByte(src: seq<bv8>, b: nat, i: nat)
    requires i < 9
    ensures Window(src, b)[i] == Padded(src, b + 9)[b + i]
  {
  }
}
