/** Loading inverts printing, for every byte prefix of a printed log: exactly the complete commands take effect,
    and transactions take effect as a whole or not at all. */
module AofPrefix {
  import opened Bytes
  import opened Options
  import opened AofFormat
  import opened AofLoader

  /** A command that fits C's `int argc` and `long` lengths. */
  ghost predicate Sized(argv: Argv) {
    1 <= |argv| <= 0x7fff_ffff && forall a | a in argv :: |a| <= 0x7fff_ffff_ffff_ffff
  }

  // ---- lines ----

  lemma {:induction false} LineOf(pre: bytes, tail: bytes, max: nat)
    requires LF !in pre && |pre| < max
    ensures LineLength(pre + [LF] + tail, max) == |pre| + 1
    decreases |pre|
  {
    var s := pre + [LF] + tail;
    if pre != [] {
      LineOf(pre[1..], tail, max - 1);
      assert s[1..] == pre[1..] + [LF] + tail;
    }
  }

  lemma {:induction false} LineCut(p: bytes, max: nat)
    requires LF !in p && |p| <= max
    ensures LineLength(p, max) == |p|
    decreases |p|
  {
    if p != [] { LineCut(p[1..], max - 1); }
  }

  lemma Pow10Fact()
    ensures Pow10(19) == 10_000_000_000_000_000_000
  {
    assert Pow10(5) == 100_000;
    assert Pow10(10) == 10_000_000_000;
    assert Pow10(15) == 1_000_000_000_000_000;
  }

  /** A number line, up to its line feed, is short and has no line feed. */
  lemma HeaderShape(kind: byte, n: nat)
    requires kind != LF && n <= 0x7fff_ffff_ffff_ffff
    ensures Header(kind, n) == [kind] + Digits(n) + [CR] + [LF] && LF !in [kind] + Digits(n) + [CR]
    ensures |Header(kind, n)| <= 22
  {
    Pow10Fact();
    DigitsLength(n, 19);
  }

  /** The whole number line is read, with its number. */
  lemma HeaderRead(kind: byte, n: nat, tail: bytes)
    requires kind != LF && n <= 0x7fff_ffff_ffff_ffff
    ensures var h := Header(kind, n); var s := h + tail;
      LineLength(s, LINE_MAX) == |h| && s[0] == kind && Atoi(s[1..|h|]) == n && IsDigit(s[1])
  {
    var h := Header(kind, n);
    var s := h + tail;
    HeaderShape(kind, n);
    LineOf([kind] + Digits(n) + [CR], tail, LINE_MAX);
    assert s == [kind] + Digits(n) + [CR] + [LF] + tail;
    assert s[1..|h|] == Digits(n) + [CR, LF];
    AtoiDigits(n, [CR, LF]);
    assert s[1] == Digits(n)[0];
  }

  /** A cut number line is read to the end of the file. */
  lemma HeaderCut(kind: byte, n: nat, q: bytes)
    requires kind != LF && n <= 0x7fff_ffff_ffff_ffff && q < Header(kind, n) && q != []
    ensures LineLength(q, LINE_MAX) == |q| && q[0] == kind && HitEnd(q, |q|) && Atoi(q[1..]) >= 0
    ensures |q| > 1 && n >= 1 ==> Atoi(q[1..]) >= 1
    ensures |q| > 1 ==> IsDigit(q[1])
  {
    var h := Header(kind, n);
    HeaderShape(kind, n);
    assert LF !in q by {
      forall i | 0 <= i < |q| ensures q[i] != LF { assert q[i] == h[i] == ([kind] + Digits(n) + [CR])[i]; }
    }
    LineCut(q, LINE_MAX);
    if |q| > 1 {
      assert q[1] == h[1] == Digits(n)[0];
      assert q[1..][0] == Digits(n)[0];
      AtoiNonNegative(q[1..]);
      if n >= 1 { AtoiCut(n, q[1..]); }
    } else {
      assert q[1..] == [];
    }
  }

  lemma AtoiNonNegative(p: bytes)
    requires p != [] && IsDigit(p[0])
    ensures Atoi(p) >= 0
  {
  }

  // ---- arguments ----

  lemma ArgRead(a: bytes, tail: bytes)
    requires |a| <= 0x7fff_ffff_ffff_ffff
    ensures ReadArg(Bulk(a) + tail) == Command([a], tail)
  {
    var h := Header(DOLLAR, |a|);
    var s := Bulk(a) + tail;
    HeaderRead(DOLLAR, |a|, a + CRLF + tail);
    assert s == h + (a + CRLF + tail);
    hide Header, LineLength, Atoi;
    assert s[|h|..|h| + |a|] == a && s[|h| + |a| + 2..] == tail;
  }

  lemma ArgCut(a: bytes, q: bytes)
    requires |a| <= 0x7fff_ffff_ffff_ffff && q < Bulk(a)
    ensures ReadArg(q) == ShortRead
  {
    var h := Header(DOLLAR, |a|);
    if q == [] {
    } else if |q| < |h| {
      assert q == Bulk(a)[..|q|] == h[..|q|];
      HeaderCut(DOLLAR, |a|, q);
      assert q[1..|q|] == q[1..];
    } else {
      var part := q[|h|..];
      assert q == Bulk(a)[..|q|] && q[..|h|] == h;
      assert q == h + part;
      HeaderRead(DOLLAR, |a|, part);
    }
  }

  lemma {:induction false} ArgsRead(argv: Argv, tail: bytes)
    requires forall a | a in argv :: |a| <= 0x7fff_ffff_ffff_ffff
    ensures ReadArgs(Bulks(argv) + tail, |argv|) == Command(argv, tail)
    decreases |argv|
  {
    hide Bulk, ReadArg;
    if argv == [] {
      assert Bulks(argv) + tail == tail;
    } else {
      var more := Bulks(argv[1..]) + tail;
      assert Bulks(argv) + tail == Bulk(argv[0]) + more;
      ArgRead(argv[0], more);
      ArgsRead(argv[1..], tail);
      assert [argv[0]] + argv[1..] == argv;
    }
  }

  lemma {:induction false} ArgsCut(argv: Argv, q: bytes)
    requires forall a | a in argv :: |a| <= 0x7fff_ffff_ffff_ffff
    requires q < Bulks(argv)
    ensures ReadArgs(q, |argv|) == ShortRead
    decreases |argv|
  {
    hide Bulk, ReadArg;
    var b := Bulk(argv[0]);
    if |q| < |b| {
      assert q == Bulks(argv)[..|q|] == b[..|q|];
      ArgCut(argv[0], q);
    } else {
      var part := q[|b|..];
      assert q == Bulks(argv)[..|q|];
      assert q[..|b|] == b && q == b + part;
      assert part == Bulks(argv[1..])[..|part|];
      ArgRead(argv[0], part);
      ArgsCut(argv[1..], part);
    }
  }

  // ---- commands ----

  /** A printed command is read back, whatever follows it. */
  lemma CommandRead(argv: Argv, tail: bytes)
    requires Sized(argv)
    ensures ReadCommand(Print(argv) + tail) == Command(argv, tail)
  {
    var h := Header(STAR, |argv|);
    var s := Print(argv) + tail;
    HeaderRead(STAR, |argv|, Bulks(argv) + tail);
    assert s == h + (Bulks(argv) + tail);
    ArgsRead(argv, tail);
    hide Header, LineLength, Atoi, Bulks, ReadArgs;
    assert s[|h|..] == Bulks(argv) + tail;
  }

  /** A command cut short anywhere is a short read. */
  lemma CommandCut(argv: Argv, q: bytes)
    requires Sized(argv) && q < Print(argv) && q != []
    ensures ReadCommand(q) == ShortRead
  {
    var h := Header(STAR, |argv|);
    if |q| < |h| {
      assert q == Print(argv)[..|q|] == h[..|q|];
      HeaderCut(STAR, |argv|, q);
      if |q| > 1 {
        assert q[1..|q|] == q[1..] && q[|q|..] == [];
        assert ReadArgs([], Atoi(q[1..])) == ShortRead;
      }
    } else {
      var part := q[|h|..];
      assert q == Print(argv)[..|q|];
      assert q[..|h|] == h && q == h + part;
      assert part == Bulks(argv)[..|part|];
      HeaderRead(STAR, |argv|, part);
      ArgsCut(argv, part);
      hide Header, LineLength, Atoi, Bulks, ReadArgs;
      assert q[|h|..] == part;
    }
  }

  // ---- files ----

  /** The offsets and the client after a list of commands. */
  function Run(p: Progress, cmds: seq<Argv>, kind: bytes -> Kind): Progress
    decreases |cmds|
  {
    if cmds == [] then p
    else Run(Advance(p, cmds[0], KindOf(kind, cmds[0]), p.validUpTo + |Print(cmds[0])|), cmds[1..], kind)
  }

  function KindOf(kind: bytes -> Kind, argv: Argv): Kind { if argv == [] then Unknown else kind(argv[0]) }

  /** How many commands are complete in the first n bytes of their printed log. */
  function Complete(cmds: seq<Argv>, n: nat): (k: nat)
    ensures k <= |cmds|
  {
    if cmds == [] || n < |Print(cmds[0])| then 0 else 1 + Complete(cmds[1..], n - |Print(cmds[0])|)
  }

  /** What the end of the file gives, at the end of a command or inside one. */
  function Finish(p: Progress, boundary: bool, truncated: bool): Outcome {
    if boundary && !p.client.multi then Loaded(p.client.done, None)
    else Unexpected(p, truncated, if boundary then p.beforeMulti else p.validUpTo)
  }

  ghost predicate Loadable(cmds: seq<Argv>, kind: bytes -> Kind) {
    forall c | c in cmds :: Sized(c) && KindOf(kind, c) != Unknown
  }

  /** Every prefix of a printed log loads exactly its complete commands. */
  lemma {:induction false} PrefixLoads(cmds: seq<Argv>, n: nat, size: nat, p: Progress, kind: bytes -> Kind,
      truncated: bool)
    requires Loadable(cmds, kind) && n <= |PrintAll(cmds)| && size == p.validUpTo + n
    ensures var k := Complete(cmds, n);
      LoadFrom(PrintAll(cmds)[..n], size, p, kind, truncated)
      == Finish(Run(p, cmds[..k], kind), n == |PrintAll(cmds[..k])|, truncated)
    decreases |cmds|
  {
    hide Print, ReadCommand, Execute, Sized;
    var s := PrintAll(cmds)[..n];
    if s == [] {
      NothingLoads(cmds, n, size, p, kind, truncated);
    } else if n < |Print(cmds[0])| {
      assert s == Print(cmds[0])[..n];
      CommandCut(cmds[0], s);
    } else {
      var b := Print(cmds[0]);
      var tail := PrintAll(cmds[1..])[..n - |b|];
      assert s == b + tail;
      CommandRead(cmds[0], tail);
      var p' := Advance(p, cmds[0], KindOf(kind, cmds[0]), p.validUpTo + |b|);
      PrefixLoads(cmds[1..], n - |b|, size, p', kind, truncated);
      OneMore(cmds, Complete(cmds[1..], n - |b|), p, kind);
    }
  }

  lemma NothingLoads(cmds: seq<Argv>, n: nat, size: nat, p: Progress, kind: bytes -> Kind, truncated: bool)
    requires Loadable(cmds, kind) && n == 0 && size == p.validUpTo
    ensures Complete(cmds, n) == 0
    ensures LoadFrom([], size, p, kind, truncated)
        == Finish(Run(p, cmds[..0], kind), 0 == |PrintAll(cmds[..0])|, truncated)
  {
    assert cmds[..0] == [];
  }

  lemma OneMore(cmds: seq<Argv>, k: nat, p: Progress, kind: bytes -> Kind)
    requires cmds != [] && k <= |cmds| - 1
    ensures PrintAll(cmds[..k + 1]) == Print(cmds[0]) + PrintAll(cmds[1..][..k])
    ensures Run(p, cmds[..k + 1], kind)
            == Run(Advance(p, cmds[0], KindOf(kind, cmds[0]), p.validUpTo + |Print(cmds[0])|), cmds[1..][..k], kind)
  {
    hide Print, Advance;
    assert cmds[..k + 1][1..] == cmds[1..][..k];
  }

  // ---- what makes the server exit ----

  lemma {:induction false} LoadsThrough(cmds: seq<Argv>, tail: bytes, size: nat, p: Progress, kind: bytes -> Kind,
      truncated: bool)
    requires Loadable(cmds, kind) && size == p.validUpTo + |PrintAll(cmds)| + |tail|
    ensures |tail| <= size
    ensures LoadFrom(PrintAll(cmds) + tail, size, p, kind, truncated)
            == LoadFrom(tail, size, Run(p, cmds, kind), kind, truncated)
    decreases |cmds|
  {
    hide Print, ReadCommand, Execute, Sized;
    if cmds == [] {
      assert PrintAll(cmds) + tail == tail;
    } else {
      var b, more := Print(cmds[0]), PrintAll(cmds[1..]) + tail;
      assert PrintAll(cmds) + tail == b + more;
      CommandRead(cmds[0], more);
      var p' := Advance(p, cmds[0], KindOf(kind, cmds[0]), p.validUpTo + |b|);
      LoadsThrough(cmds[1..], tail, size, p', kind, truncated);
    }
  }

  lemma {:induction false} ArgsNeverEnd(s: bytes, n: nat)
    ensures !ReadArgs(s, n).End?
    decreases n
  {
    hide LineLength, Atoi;
    if n > 0 && ReadArg(s).Command? { ArgsNeverEnd(ReadArg(s).rest, n - 1); }
  }

  /** Only the end of the file ends it. */
  lemma EndIff(s: bytes)
    ensures ReadCommand(s) == End <==> s == []
  {
    hide LineLength, Atoi, ReadArgs;
    if s != [] {
      var k := LineLength(s, LINE_MAX);
      if Atoi(s[1..k]) >= 1 { ArgsNeverEnd(s[k..], Atoi(s[1..k])); }
    }
  }

  /** A count line that is less than one, followed by anything. */
  ghost predicate CountsNone(tail: bytes, num: bytes, more: bytes) {
    && tail == [STAR] + num + [LF] + more && num != [] && num[0] != 0 && LF !in num && |num| < LINE_MAX - 1
    && Atoi(num + [LF]) < 1
  }

  /** A count, and then something that is not an argument. */
  ghost predicate NoArgument(tail: bytes, n: nat, more: bytes) {
    tail == Header(STAR, n) + more && 1 <= n <= 0x7fff_ffff && more != [] && more[0] != DOLLAR
  }

  /** The file goes on with something that is not a command: another byte than a star, a count line that is less than
      one, or an argument without its dollar sign. */
  ghost predicate Damaged(tail: bytes) {
    || (tail != [] && tail[0] != STAR)
    || (exists num: bytes, more: bytes :: CountsNone(tail, num, more))
    || (exists n: nat, more: bytes :: NoArgument(tail, n, more))
  }

  lemma BadCount(tail: bytes, num: bytes, more: bytes)
    requires CountsNone(tail, num, more)
    ensures ReadCommand(tail) == BadFormat
  {
    LineOf([STAR] + num, more, LINE_MAX);
    hide LineLength, Atoi;
    assert tail[1..|num| + 2] == num + [LF];
  }

  lemma BadArgument(tail: bytes, n: nat, more: bytes)
    requires NoArgument(tail, n, more)
    ensures ReadCommand(tail) == BadFormat
  {
    var h := Header(STAR, n);
    HeaderRead(STAR, n, more);
    hide Header, LineLength, Atoi;
    assert tail[|h|..] == more;
    assert ReadArg(more) == BadFormat;
  }

  lemma DamagedBad(tail: bytes)
    requires Damaged(tail)
    ensures ReadCommand(tail) == BadFormat
  {
    hide LineLength, Atoi, CountsNone, NoArgument;
    if tail != [] && tail[0] != STAR {
    } else if num: bytes, more: bytes :| CountsNone(tail, num, more) {
      BadCount(tail, num, more);
    } else {
      var n: nat, more: bytes :| NoArgument(tail, n, more);
      BadArgument(tail, n, more);
    }
  }

  /** A file that is damaged after any number of commands, or at once, makes the server exit, whatever follows and
      whether or not it may load truncated files; so does an unknown command. */
  lemma DamageExits(cmds: seq<Argv>, tail: bytes, kind: bytes -> Kind, truncated: bool)
    requires Loadable(cmds, kind)
    ensures Damaged(tail) ==> Load(PrintAll(cmds) + tail, kind, truncated) == Exits(Format)
    ensures forall argv: Argv, more: bytes ::
      Sized(argv) && KindOf(kind, argv) == Unknown && tail == Print(argv) + more ==>
        Load(PrintAll(cmds) + tail, kind, truncated) == Exits(UnknownCommand)
  {
    var file, start := PrintAll(cmds) + tail, Progress(FRESH, 0, 0);
    hide Print, ReadCommand, Sized, Damaged, Loadable;
    LoadsThrough(cmds, tail, |file|, start, kind, truncated);
    if Damaged(tail) {
      DamagedBad(tail);
      EndIff(tail);
    }
    forall argv: Argv, more: bytes | Sized(argv) && KindOf(kind, argv) == Unknown && tail == Print(argv) + more
      ensures Load(file, kind, truncated) == Exits(UnknownCommand)
    {
      CommandRead(argv, more);
      EndIff(tail);
    }
  }
}
