/** The command format of the append-only file: RESP arrays of bulk strings, and decimal numbers. */
module AofFormat {
  import opened Bytes

  /** A command: its name and arguments. */
  type Argv = seq<bytes>

  const CR: byte := 13
  const LF: byte := 10
  const STAR: byte := 42
  const DOLLAR: byte := 36

  const CRLF: bytes := [CR, LF]

  predicate IsDigit(b: byte) { 48 <= b <= 57 }

  /** `ll2string` for non-negative numbers. */
  function Digits(n: nat): (s: bytes)
    ensures s != [] && forall b | b in s :: IsDigit(b)
  {
    if n < 10 then [48 + n] else Digits(n / 10) + [48 + n % 10]
  }

  /** A number after its type byte, with its line end. */
  function Header(kind: byte, n: nat): bytes { [kind] + Digits(n) + CRLF }

  function Bulk(s: bytes): bytes { Header(DOLLAR, |s|) + s + CRLF }

  function Bulks(argv: Argv): bytes {
    if argv == [] then [] else Bulk(argv[0]) + Bulks(argv[1..])
  }

  /** One command in the file. */
  function Print(argv: Argv): bytes { Header(STAR, |argv|) + Bulks(argv) }

  function PrintAll(cmds: seq<Argv>): bytes {
    if cmds == [] then [] else Print(cmds[0]) + PrintAll(cmds[1..])
  }

  lemma {:induction false} BulksAppend(a: Argv, b: Argv)
    ensures Bulks(a + b) == Bulks(a) + Bulks(b)
  {
    hide Bulk;
    if a == [] {
      assert a + b == b;
    } else {
      BulksAppend(a[1..], b);
      assert (a + b)[1..] == a[1..] + b && (a + b)[0] == a[0];
      Join(Bulk(a[0]), Bulks(a[1..]), Bulks(b));
    }
  }

  lemma {:induction false} PrintAllAppend(a: seq<Argv>, b: seq<Argv>)
    ensures PrintAll(a + b) == PrintAll(a) + PrintAll(b)
  {
    hide Print;
    if a == [] {
      assert a + b == b;
    } else {
      PrintAllAppend(a[1..], b);
      assert (a + b)[1..] == a[1..] + b && (a + b)[0] == a[0];
      Join(Print(a[0]), PrintAll(a[1..]), PrintAll(b));
    }
  }

  lemma BulksStep(argv: Argv, j: nat)
    requires j < |argv|
    ensures Bulks(argv[..j + 1]) == Bulks(argv[..j]) + Bulk(argv[j])
  {
    hide Bulk;
    assert argv[..j + 1] == argv[..j] + [argv[j]];
    BulksAppend(argv[..j], [argv[j]]);
  }

  /** `catAppendOnlyGenericCommand`. */
  method CatGenericCommand(dst: bytes, argv: Argv) returns (out: bytes)
    ensures out == dst + Print(argv)
  {
    hide Header, Digits;
    out := dst + Header(STAR, |argv|);
    for j := 0 to |argv|
      invariant out == dst + Header(STAR, |argv|) + Bulks(argv[..j])
    {
      BulksStep(argv, j);
      hide Bulks;
      out := out + Header(DOLLAR, |argv[j]|);
      out := out + argv[j];
      out := out + CRLF;
    }
    assert argv[..|argv|] == argv;
  }

  // ---- reading numbers back ----

  /** The C library's space characters. */
  predicate IsSpace(b: byte) { b == 32 || 9 <= b <= 13 }

  /** The digits at the start of s, after those that gave acc. */
  function Number(s: bytes, acc: nat): nat {
    if s == [] || !IsDigit(s[0]) then acc else Number(s[1..], 10 * acc + (s[0] - 48))
  }

  /** `atoi` and `strtol` in base 10: leading space, a sign, digits. */
  function Atoi(s: bytes): int {
    if s == [] then 0
    else if IsSpace(s[0]) then Atoi(s[1..])
    else if s[0] == 45 then 0 - Number(s[1..], 0)
    else if s[0] == 43 then Number(s[1..], 0)
    else Number(s, 0)
  }

  /** Reading a printed number gives it back, whatever non-digit follows. */
  lemma {:induction false} NumberDigits(n: nat, rest: bytes)
    ensures Number(Digits(n) + rest, 0) == Number(rest, n)
    decreases n
  {
    if n < 10 {
      assert (Digits(n) + rest)[1..] == rest;
    } else {
      var d: byte := 48 + n % 10;
      NumberDigits(n / 10, [d] + rest);
      assert Digits(n) + rest == Digits(n / 10) + ([d] + rest);
      assert ([d] + rest)[1..] == rest;
      assert 10 * (n / 10) + n % 10 == n;
    }
  }

  lemma AtoiDigits(n: nat, rest: bytes)
    requires rest == [] || !IsDigit(rest[0])
    ensures Atoi(Digits(n) + rest) == n
  {
    NumberDigits(n, rest);
    assert IsDigit((Digits(n) + rest)[0]);
  }

  lemma {:induction false} NumberGrows(s: bytes, acc: nat)
    ensures Number(s, acc) >= acc
    decreases s
  {
    if s != [] && IsDigit(s[0]) { NumberGrows(s[1..], 10 * acc + (s[0] - 48)); }
  }

  lemma {:induction false} NoLeadingZero(n: nat)
    requires n >= 1
    ensures Digits(n)[0] >= 49
    decreases n
  {
    if n >= 10 { NoLeadingZero(n / 10); }
  }

  /** The start of a printed positive number is still positive. */
  lemma AtoiCut(n: nat, p: bytes)
    requires n >= 1 && p != [] && p[0] == Digits(n)[0]
    ensures Atoi(p) >= 1
  {
    NoLeadingZero(n);
    NumberGrows(p[1..], p[0] - 48);
  }

  /** The length of a number of at most k digits. */
  lemma {:induction false} DigitsLength(n: nat, k: nat)
    requires k >= 1 && n < Pow10(k)
    ensures |Digits(n)| <= k
    decreases k
  {
    if n >= 10 { DigitsLength(n / 10, k - 1); }
  }

  function Pow10(k: nat): nat { if k == 0 then 1 else 10 * Pow10(k - 1) }

  /** PING, as the protocol has it: *1, $4, PING, each line ended by CR LF. Numbers are decimal. */
  lemma PrintedExample()
    ensures Print([[80, 73, 78, 71]]) == [42, 49, 13, 10, 36, 52, 13, 10, 80, 73, 78, 71, 13, 10]
    ensures Digits(3600) == [51, 54, 48, 48]
  {
    var ping: bytes := [80, 73, 78, 71];
    assert [ping][1..] == [];
    assert Bulk(ping) == [36, 52, 13, 10, 80, 73, 78, 71, 13, 10];
    assert Digits(36) == [51, 54];
    assert Digits(360) == [51, 54, 48];
  }
}
