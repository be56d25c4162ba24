/** Commands that set a relative expire are fed to the append-only file as commands that set an absolute one. */
module AofExpire {
  import opened Bytes
  import opened Options
  import opened AofFormat
  import opened AofRewrite
  import opened AofReplay

  /** Which command it is, as far as expires matter. */
  datatype Proc = Expire | PExpire | ExpireAt | SetEx | PSetEx | SetCmd | Plain

  const EX: bytes := [101, 120]
  const PX: bytes := [112, 120]

  function Lower(b: byte): byte { if 65 <= b <= 90 then b + 32 else b }

  /** `strcasecmp` finds them equal. */
  predicate SameName(a: bytes, b: bytes) {
    |a| == |b| && forall i | 0 <= i < |a| :: Lower(a[i]) == Lower(b[i])
  }

  /** The absolute time in milliseconds: seconds or milliseconds, from now unless the command says at. */
  function When(p: Proc, arg: bytes, now: int): int {
    (if p.Expire? || p.SetEx? || p.ExpireAt? then Atoi(arg) * 1000 else Atoi(arg)) + (if p.ExpireAt? then 0 else now)
  }

  /** The argument of the last option of that name among arguments 3 up to n. */
  function OptionArg(argv: Argv, name: bytes, n: nat): Option<bytes>
    requires n <= |argv|
  {
    if n <= 3 then None
    else if SameName(argv[n - 1], name) && n < |argv| then Some(argv[n])
    else OptionArg(argv, name, n - 1)
  }

  /** The time SET gives its key, if any. */
  function SetWhen(argv: Argv, now: int): Option<int> {
    var ex, px := OptionArg(argv, EX, |argv|), OptionArg(argv, PX, |argv|);
    if ex.Some? then Some(When(Expire, ex.value, now))
    else if px.Some? then Some(When(PExpire, px.value, now))
    else None
  }

  /** The time a command gives its key, if any. */
  function TimeOf(p: Proc, argv: Argv, now: int): Option<int>
    requires Complete(p, argv)
  {
    if p.Plain? then None else if p.SetCmd? then SetWhen(argv, now) else Some(When(p, argv[2], now))
  }

  predicate Complete(p: Proc, argv: Argv) {
    match p
    case SetEx | PSetEx => |argv| == 4
    case SetCmd => |argv| >= 3 && argv[0] == SET
        && (OptionArg(argv, EX, |argv|).None? || OptionArg(argv, PX, |argv|).None?)
    case Plain => true
    case _ => |argv| == 3
  }

  /** The command was accepted: it has its arguments, and its time is not before the epoch. */
  predicate Accepted(p: Proc, argv: Argv, now: int) {
    Complete(p, argv) && (TimeOf(p, argv, now).Some? ==> TimeOf(p, argv, now).value >= 0)
  }

  function Time(p: Proc, argv: Argv, now: int): Option<nat>
    requires Accepted(p, argv, now)
  {
    var t := TimeOf(p, argv, now);
    if t.None? then None else Some(t.value)
  }

  /** What is fed for a command. */
  function Translated(p: Proc, argv: Argv, now: int): seq<Argv>
    requires Accepted(p, argv, now)
  {
    match p
    case Plain => [argv]
    case SetCmd => [argv[..3]] + ExpireCommands(argv[1], Time(p, argv, now))
    case SetEx | PSetEx => [[SET, argv[1], argv[3]]] + ExpireCommands(argv[1], Time(p, argv, now))
    case _ => ExpireCommands(argv[1], Time(p, argv, now))
  }

  // ---- printing it ----

  lemma PrintedExpire(dst: bytes, key: bytes, when: nat)
    ensures dst + PrintAll(ExpireCommands(key, Some(when))) == dst + Print([PEXPIREAT, key, Digits(when)])
  {
    hide Print, Digits;
    assert [[PEXPIREAT, key, Digits(when)]][1..] == [];
    assert Print([PEXPIREAT, key, Digits(when)]) + [] == Print([PEXPIREAT, key, Digits(when)]);
  }

  lemma PrintedBefore(dst: bytes, c: Argv, rest: seq<Argv>)
    ensures dst + Print(c) + PrintAll(rest) == dst + PrintAll([c] + rest)
  {
    hide Print;
    assert ([c] + rest)[1..] == rest;
    assert dst + Print(c) + PrintAll(rest) == dst + (Print(c) + PrintAll(rest));
  }

  /** `catAppendOnlyExpireAtCommand`. */
  method CatExpireAt(dst: bytes, p: Proc, key: bytes, arg: bytes, now: int) returns (out: bytes)
    requires When(p, arg, now) >= 0
    ensures out == dst + PrintAll(ExpireCommands(key, Some(When(p, arg, now))))
  {
    var when := Atoi(arg);
    if p.Expire? || p.SetEx? || p.ExpireAt? { when := when * 1000; }
    if !p.ExpireAt? { when := when + now; }
    hide Print, Atoi, Digits;
    out := CatGenericCommand(dst, [PEXPIREAT, key, Digits(when)]);
    PrintedExpire(dst, key, when);
  }

  /** The option loop of SET. */
  method FindOptions(argv: Argv) returns (ex: Option<bytes>, px: Option<bytes>)
    requires |argv| >= 3
    ensures ex == OptionArg(argv, EX, |argv|) && px == OptionArg(argv, PX, |argv|)
  {
    hide SameName;
    ex, px := None, None;
    for i := 3 to |argv|
      invariant ex == OptionArg(argv, EX, i) && px == OptionArg(argv, PX, i)
    {
      if SameName(argv[i], EX) && i + 1 < |argv| { ex := Some(argv[i + 1]); }
      if SameName(argv[i], PX) && i + 1 < |argv| { px := Some(argv[i + 1]); }
    }
  }

  /** SET with options. */
  method CatSet(dst: bytes, argv: Argv, now: int) returns (out: bytes)
    requires Accepted(SetCmd, argv, now)
    ensures out == dst + PrintAll(Translated(SetCmd, argv, now))
  {
    hide Print, Digits, Atoi, ExpireCommands, OptionArg, PrintAll;
    out := CatGenericCommand(dst, argv[..3]);
    PrintedBefore(dst, argv[..3], ExpireCommands(argv[1], Time(SetCmd, argv, now)));
    var ex, px := FindOptions(argv);
    if ex.Some? { out := CatExpireAt(out, Expire, argv[1], ex.value, now); }
    if px.Some? { out := CatExpireAt(out, PExpire, argv[1], px.value, now); }
    NoExpire(argv[1]);
  }

  lemma NoExpire(key: bytes)
    ensures ExpireCommands(key, None) == [] && forall d: bytes :: d + PrintAll([]) == d
  {
  }

  /** The translation in `feedAppendOnlyFile`. */
  method CatTranslated(dst: bytes, p: Proc, argv: Argv, now: int) returns (out: bytes)
    requires Accepted(p, argv, now)
    ensures out == dst + PrintAll(Translated(p, argv, now))
  {
    hide Print, Digits, Atoi, ExpireCommands, OptionArg, PrintAll, SetWhen, When;
    match p {
      case Expire | PExpire | ExpireAt =>
        out := CatExpireAt(dst, p, argv[1], argv[2], now);
      case SetEx | PSetEx =>
        out := CatGenericCommand(dst, [SET, argv[1], argv[3]]);
        PrintedBefore(dst, [SET, argv[1], argv[3]], ExpireCommands(argv[1], Time(p, argv, now)));
        out := CatExpireAt(out, p, argv[1], argv[2], now);
      case SetCmd =>
        out := CatSet(dst, argv, now);
      case Plain =>
        out := CatGenericCommand(dst, argv);
        PrintedBefore(dst, argv, []);
        assert [argv] + [] == [argv];
        NoExpire([]);
        assert out + PrintAll([]) == out;
    }
  }

  // ---- the times, from the numbers a client sends ----

  lemma ReadsBack(n: nat)
    ensures Atoi(Digits(n)) == n
  {
    AtoiDigits(n, []);
    assert Digits(n) + [] == Digits(n);
  }

  /** EXPIRE counts seconds from now, PEXPIRE milliseconds from now, EXPIREAT seconds since the epoch. */
  lemma ExpireFed(name: bytes, k: bytes, n: nat, now: nat)
    ensures var argv := [name, k, Digits(n)];
      && Accepted(Expire, argv, now) && Translated(Expire, argv, now) == [[PEXPIREAT, k, Digits(now + 1000 * n)]]
      && Accepted(PExpire, argv, now) && Translated(PExpire, argv, now) == [[PEXPIREAT, k, Digits(now + n)]]
      && Accepted(ExpireAt, argv, now) && Translated(ExpireAt, argv, now) == [[PEXPIREAT, k, Digits(1000 * n)]]
  {
    ReadsBack(n);
    hide Atoi, Digits, OptionArg;
  }

  /** SETEX counts seconds, PSETEX milliseconds, both from now. */
  lemma SetExFed(name: bytes, k: bytes, n: nat, v: bytes, now: nat)
    ensures var argv := [name, k, Digits(n), v];
      && Accepted(SetEx, argv, now)
      && Translated(SetEx, argv, now) == [[SET, k, v], [PEXPIREAT, k, Digits(now + 1000 * n)]]
      && Accepted(PSetEx, argv, now)
      && Translated(PSetEx, argv, now) == [[SET, k, v], [PEXPIREAT, k, Digits(now + n)]]
  {
    ReadsBack(n);
    hide Atoi, Digits, OptionArg;
  }

  /** Argument i is the option, and no other argument is EX or PX. */
  ghost predicate OnlyOption(argv: Argv, name: bytes, i: nat) {
    && 3 <= i < |argv| - 1 && SameName(argv[i], name)
    && forall j | 3 <= j < |argv| && j != i :: !SameName(argv[j], EX) && !SameName(argv[j], PX)
  }

  lemma {:induction false} OptionFound(argv: Argv, name: bytes, i: nat, n: nat)
    requires 3 <= i < n <= |argv| && i + 1 < |argv| && SameName(argv[i], name)
    requires forall j | i < j < n :: !SameName(argv[j], name)
    ensures OptionArg(argv, name, n) == Some(argv[i + 1])
    decreases n
  {
    hide SameName;
    if i < n - 1 { OptionFound(argv, name, i, n - 1); }
  }

  lemma {:induction false} OptionAbsent(argv: Argv, name: bytes, n: nat)
    requires n <= |argv| && forall j | 3 <= j < n :: !SameName(argv[j], name)
    ensures OptionArg(argv, name, n) == None
    decreases n
  {
    hide SameName;
    if n > 3 { OptionAbsent(argv, name, n - 1); }
  }

  lemma OneName(a: bytes)
    ensures !(SameName(a, EX) && SameName(a, PX))
  {
    assert SameName(a, EX) ==> |a| == 2 && Lower(a[0]) == Lower(EX[0]);
    assert SameName(a, PX) ==> |a| == 2 && Lower(a[0]) == Lower(PX[0]);
  }

  /** SET with EX counts seconds, with PX milliseconds, wherever the option stands; without it sets no time. */
  lemma SetFed(argv: Argv, k: bytes, v: bytes, i: nat, n: nat, now: nat)
    requires |argv| >= 3 && argv[..3] == [SET, k, v]
    ensures OnlyOption(argv, EX, i) && argv[i + 1] == Digits(n) ==>
              && Accepted(SetCmd, argv, now)
              && Translated(SetCmd, argv, now) == [[SET, k, v], [PEXPIREAT, k, Digits(now + 1000 * n)]]
    ensures OnlyOption(argv, PX, i) && argv[i + 1] == Digits(n) ==>
              && Accepted(SetCmd, argv, now)
              && Translated(SetCmd, argv, now) == [[SET, k, v], [PEXPIREAT, k, Digits(now + n)]]
    ensures (forall j | 3 <= j < |argv| :: !SameName(argv[j], EX) && !SameName(argv[j], PX)) ==>
              Accepted(SetCmd, argv, now) && Translated(SetCmd, argv, now) == [[SET, k, v]]
  {
    assert argv[..3][0] == SET && argv[..3][1] == k;
    ReadsBack(n);
    hide Atoi, Digits, OptionArg, SameName;
    if OnlyOption(argv, EX, i) {
      OneName(argv[i]);
      OptionFound(argv, EX, i, |argv|);
      OptionAbsent(argv, PX, |argv|);
    } else if OnlyOption(argv, PX, i) {
      OneName(argv[i]);
      OptionFound(argv, PX, i, |argv|);
      OptionAbsent(argv, EX, |argv|);
    } else if forall j | 3 <= j < |argv| :: !SameName(argv[j], EX) && !SameName(argv[j], PX) {
      OptionAbsent(argv, EX, |argv|);
      OptionAbsent(argv, PX, |argv|);
    }
  }

  // ---- what it does ----

  /** What the command itself did to its database. */
  function Executed(db: Keyspace, p: Proc, argv: Argv, now: int): Keyspace
    requires Accepted(p, argv, now) && !p.Plain?
  {
    match p
    case SetCmd => db[argv[1] := Binding(StrV(argv[2]), Time(p, argv, now))]
    case SetEx | PSetEx => db[argv[1] := Binding(StrV(argv[3]), Time(p, argv, now))]
    case _ => if argv[1] in db then db[argv[1] := db[argv[1]].(expire := Time(p, argv, now))] else db
  }

  lemma SetReplays(st: Server, key: bytes, v: bytes, t: Option<nat>, other: Others)
    requires st.selected < |st.dbs|
    ensures ApplyAll(st, [[SET, key, v]] + ExpireCommands(key, t), other)
            == Now(st, st.dbs[st.selected][key := Binding(StrV(v), t)])
  {
    hide Digits, Atoi;
    var db := st.dbs[st.selected];
    var st1 := Now(st, db[key := Binding(StrV(v), None)]);
    assert [[SET, key, v]][1..] == [];
    assert ApplyAll(st, [[SET, key, v]], other) == st1;
    ApplyAppend(st, [[SET, key, v]], ExpireCommands(key, t), other);
    if t.Some? {
      ExpireReplays(st1, key, t.value, other);
      assert db[key := Binding(StrV(v), None)][key := Binding(StrV(v), t)] == db[key := Binding(StrV(v), t)];
    } else {
      assert ExpireCommands(key, t) == [];
    }
  }

  /** Replaying what was fed does what the command would have done at the time it was fed. */
  lemma TranslatedReplays(st: Server, p: Proc, argv: Argv, fed: int, other: Others)
    requires Accepted(p, argv, fed) && !p.Plain? && st.selected < |st.dbs|
    ensures ApplyAll(st, Translated(p, argv, fed), other) == Now(st, Executed(st.dbs[st.selected], p, argv, fed))
  {
    hide ApplyAll, Atoi, OptionArg, SetWhen, When;
    var t := Time(p, argv, fed);
    if p.SetCmd? {
      assert argv[..3] == [SET, argv[1], argv[2]];
      SetReplays(st, argv[1], argv[2], t, other);
    } else if p.SetEx? || p.PSetEx? {
      SetReplays(st, argv[1], argv[3], t, other);
    } else {
      ExpireReplays(st, argv[1], t.value, other);
    }
  }

  /** The command sets a time that counts from now. */
  predicate Relative(p: Proc, argv: Argv)
    requires Complete(p, argv)
  {
    !p.ExpireAt? && TimeOf(p, argv, 0).Some?
  }

  /** A command executed at one time and fed at another: a relative expire moves by the difference. */
  lemma FedLater(p: Proc, argv: Argv, now: int, fed: int)
    requires Accepted(p, argv, now) && Accepted(p, argv, fed)
    ensures Time(p, argv, now).Some? == Time(p, argv, fed).Some?
    ensures Time(p, argv, now).Some? ==>
      Time(p, argv, fed).value - Time(p, argv, now).value == if Relative(p, argv) then fed - now else 0
  {
    hide OptionArg, Atoi;
  }

  /** So what was fed restores the very data if and only if the time was not relative or the clock did not move, or
      there was nothing to expire. */
  lemma FedExactIff(db: Keyspace, p: Proc, argv: Argv, now: int, fed: int)
    requires Accepted(p, argv, now) && Accepted(p, argv, fed) && !p.Plain?
    ensures Executed(db, p, argv, now) == Executed(db, p, argv, fed)
            <==> now == fed || !Relative(p, argv) || (argv[1] !in db && (p.Expire? || p.PExpire?))
  {
    FedLater(p, argv, now, fed);
    var a, b := Executed(db, p, argv, now), Executed(db, p, argv, fed);
    if argv[1] in a && argv[1] in b {
      assert a == b ==> a[argv[1]].expire == b[argv[1]].expire;
    }
    hide OptionArg, Atoi, TimeOf;
  }
}
