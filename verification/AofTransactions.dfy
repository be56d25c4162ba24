/** A log of single commands and MULTI/EXEC transactions, cut at any byte: what loading it does, and where the file
    is truncated. */
module AofTransactions {
  import opened Bytes
  import opened Options
  import opened AofFormat
  import opened AofLoader
  import opened AofPrefix

  /** What the server feeds as a whole: one command, or a transaction. */
  datatype Unit = Single(cmd: Argv) | Txn(open: Argv, body: seq<Argv>, close: Argv)

  function Commands(u: Unit): seq<Argv> {
    if u.Single? then [u.cmd] else [u.open] + u.body + [u.close]
  }

  function AllCommands(us: seq<Unit>): seq<Argv> {
    if us == [] then [] else Commands(us[0]) + AllCommands(us[1..])
  }

  /** What a unit does to the data. */
  function Effect(u: Unit): seq<Argv> { if u.Single? then [u.cmd] else u.body }

  function Effects(us: seq<Unit>): seq<Argv> {
    if us == [] then [] else Effect(us[0]) + Effects(us[1..])
  }

  ghost predicate Plain(c: Argv, kind: bytes -> Kind) { Sized(c) && KindOf(kind, c) == Other }

  ghost predicate Proper(u: Unit, kind: bytes -> Kind) {
    match u
    case Single(c) => Plain(c, kind)
    case Txn(o, body, e) =>
      && Sized(o) && KindOf(kind, o) == Multi && Sized(e) && KindOf(kind, e) == Exec
      && forall c | c in body :: Plain(c, kind)
  }

  /** How many units are complete in the first k commands. */
  function Whole(us: seq<Unit>, k: nat): (j: nat)
    ensures j <= |us|
    decreases |us|
  {
    if us == [] || k < |Commands(us[0])| then 0 else 1 + Whole(us[1..], k - |Commands(us[0])|)
  }

  // ---- one unit ----

  lemma {:induction false} RunAppend(p: Progress, a: seq<Argv>, b: seq<Argv>, kind: bytes -> Kind)
    ensures Run(p, a + b, kind) == Run(Run(p, a, kind), b, kind)
    decreases |a|
  {
    hide Advance, Print;
    if a == [] {
      assert a + b == b;
    } else {
      RunAppend(Advance(p, a[0], KindOf(kind, a[0]), p.validUpTo + |Print(a[0])|), a[1..], b, kind);
      assert (a + b)[1..] == a[1..] + b;
    }
  }

  /** Inside MULTI, commands are queued. */
  lemma {:induction false} BodyQueues(p: Progress, body: seq<Argv>, kind: bytes -> Kind)
    requires p.client.multi && forall c | c in body :: Plain(c, kind)
    ensures Run(p, body, kind)
            == Progress(Client(true, p.client.queue + body, p.client.done), p.validUpTo + |PrintAll(body)|,
                p.beforeMulti)
    decreases |body|
  {
    hide Print, Sized;
    if body == [] {
      assert p.client.queue + body == p.client.queue;
    } else {
      var p' := Advance(p, body[0], Other, p.validUpTo + |Print(body[0])|);
      assert Plain(body[0], kind);
      BodyQueues(p', body[1..], kind);
      assert p.client.queue + [body[0]] + body[1..] == p.client.queue + body;
    }
  }

  lemma OpenRun(p: Progress, u: Unit, kind: bytes -> Kind)
    requires !p.client.multi && u.Txn? && Proper(u, kind)
    ensures Run(p, [u.open], kind)
            == Progress(Client(true, [], p.client.done), p.validUpTo + |Print(u.open)|, p.validUpTo)
  {
    hide Print;
    assert [u.open][1..] == [];
  }

  /** A whole unit takes effect. */
  lemma UnitRuns(p: Progress, u: Unit, kind: bytes -> Kind)
    requires p.client == Client(false, [], p.client.done) && Proper(u, kind)
    ensures var p' := Run(p, Commands(u), kind);
      p'.client == Client(false, [], p.client.done + Effect(u)) && p'.validUpTo == p.validUpTo + |PrintAll(Commands(u))|
  {
    hide Print;
    if u.Single? {
      assert [u.cmd][1..] == [];
    } else {
      OpenRun(p, u, kind);
      var p1 := Run(p, [u.open], kind);
      RunAppend(p, [u.open], u.body + [u.close], kind);
      assert Commands(u) == [u.open] + (u.body + [u.close]);
      BodyQueues(p1, u.body, kind);
      RunAppend(p1, u.body, [u.close], kind);
      assert [u.close][1..] == [] && [u.open][1..] == [] && [] + u.body == u.body;
      PrintAllAppend([u.open], u.body + [u.close]);
      PrintAllAppend(u.body, [u.close]);
    }
  }

  /** A cut unit takes no effect; inside a transaction the client is left in MULTI, which began at the unit. */
  lemma UnitCut(p: Progress, u: Unit, k: nat, kind: bytes -> Kind)
    requires p.client == Client(false, [], p.client.done) && Proper(u, kind) && k < |Commands(u)|
    ensures var p' := Run(p, Commands(u)[..k], kind);
      && p'.client.done == p.client.done && p'.client.multi == (k > 0)
      && p'.validUpTo == p.validUpTo + |PrintAll(Commands(u)[..k])|
      && (k > 0 ==> p'.beforeMulti == p.validUpTo)
  {
    hide Print;
    if k == 0 {
      assert Commands(u)[..k] == [];
    } else {
      var some := u.body[..k - 1];
      assert Commands(u)[..k] == [u.open] + some;
      RunAppend(p, [u.open], some, kind);
      OpenRun(p, u, kind);
      BodyQueues(Run(p, [u.open], kind), some, kind);
      PrintAllAppend([u.open], some);
      assert [u.open][1..] == [];
    }
  }

  // ---- the whole log ----

  /** Progress p' is what the first k commands of the log make of p: exactly the complete units took effect, and
      inside a transaction the offset before MULTI is the end of those. */
  ghost predicate Reached(p: Progress, p': Progress, us: seq<Unit>, k: nat)
    requires k <= |AllCommands(us)|
  {
    var whole := us[..Whole(us, k)];
    && p'.client.done == p.client.done + Effects(whole)
    && p'.validUpTo == p.validUpTo + |PrintAll(AllCommands(us)[..k])|
    && p'.client.multi == (k > |AllCommands(whole)|)
    && (p'.client.multi ==> p'.beforeMulti == p.validUpTo + |PrintAll(AllCommands(whole))|)
    && |AllCommands(whole)| <= k && AllCommands(whole) <= AllCommands(us)
  }

  lemma {:induction false} UnitsRun(p: Progress, us: seq<Unit>, k: nat, kind: bytes -> Kind)
    requires p.client == Client(false, [], p.client.done) && (forall u | u in us :: Proper(u, kind))
    requires k <= |AllCommands(us)|
    ensures Reached(p, Run(p, AllCommands(us)[..k], kind), us, k)
    decreases |us|
  {
    hide Run, Proper, Commands, Effect;
    if us == [] {
      NoUnits(p, us, k, kind);
    } else if k < |Commands(us[0])| {
      assert AllCommands(us)[..k] == Commands(us[0])[..k];
      UnitCut(p, us[0], k, kind);
      assert us[..0] == [];
    } else {
      var c, rest := Commands(us[0]), AllCommands(us[1..]);
      assert AllCommands(us)[..k] == c + rest[..k - |c|];
      RunAppend(p, c, rest[..k - |c|], kind);
      UnitRuns(p, us[0], kind);
      UnitsRun(Run(p, c, kind), us[1..], k - |c|, kind);
      hide Reached;
      ReachedMore(p, Run(p, c, kind), Run(p, AllCommands(us)[..k], kind), us, k);
    }
  }

  lemma ReachedMore(p: Progress, p1: Progress, p': Progress, us: seq<Unit>, k: nat)
    requires us != [] && |Commands(us[0])| <= k <= |AllCommands(us)|
    requires p1.client.done == p.client.done + Effect(us[0])
        && p1.validUpTo == p.validUpTo + |PrintAll(Commands(us[0]))|
    requires Reached(p1, p', us[1..], k - |Commands(us[0])|)
    ensures Reached(p, p', us, k)
  {
    hide Commands, Effect, PrintAll, AllCommands, Effects, Whole;
    var c, j := Commands(us[0]), Whole(us[1..], k - |Commands(us[0])|);
    WholeMore(us, k, j);
    WholePrints(us, k, j);
    assert AllCommands(us[..j + 1]) == c + AllCommands(us[1..][..j]);
  }

  lemma WholeMore(us: seq<Unit>, k: nat, j: nat)
    requires us != [] && |Commands(us[0])| <= k <= |AllCommands(us)| && j == Whole(us[1..], k - |Commands(us[0])|)
    ensures Whole(us, k) == j + 1 && AllCommands(us) == Commands(us[0]) + AllCommands(us[1..])
    ensures AllCommands(us[..j + 1]) == Commands(us[0]) + AllCommands(us[1..][..j])
    ensures Effects(us[..j + 1]) == Effect(us[0]) + Effects(us[1..][..j])
  {
    hide Commands, Effect;
    assert us[..j + 1][1..] == us[1..][..j];
  }

  lemma WholePrints(us: seq<Unit>, k: nat, j: nat)
    requires us != [] && |Commands(us[0])| <= k <= |AllCommands(us)| && j == Whole(us[1..], k - |Commands(us[0])|)
    ensures var c := Commands(us[0]);
      && PrintAll(AllCommands(us)[..k]) == PrintAll(c) + PrintAll(AllCommands(us[1..])[..k - |c|])
      && PrintAll(AllCommands(us[..j + 1])) == PrintAll(c) + PrintAll(AllCommands(us[1..][..j]))
  {
    WholeMore(us, k, j);
    hide Commands, Effect, PrintAll, AllCommands, Effects, Whole;
    var c, rest := Commands(us[0]), AllCommands(us[1..]);
    assert AllCommands(us)[..k] == c + rest[..k - |c|];
    PrintAllAppend(c, rest[..k - |c|]);
    PrintAllAppend(c, AllCommands(us[1..][..j]));
  }

  lemma NoUnits(p: Progress, us: seq<Unit>, k: nat, kind: bytes -> Kind)
    requires us == [] && k == 0
    ensures Run(p, AllCommands(us)[..k], kind) == p && us[..0] == [] && AllCommands(us)[..k] == []
  {
  }

  lemma {:induction false} AllLoadable(us: seq<Unit>, kind: bytes -> Kind)
    requires forall u | u in us :: Proper(u, kind)
    ensures Loadable(AllCommands(us), kind)
  {
    hide Sized;
    if us != [] {
      AllLoadable(us[1..], kind);
      assert Proper(us[0], kind);
      forall c | c in Commands(us[0]) ensures Sized(c) && KindOf(kind, c) != Unknown {
        if us[0].Txn? && c in us[0].body { assert Plain(c, kind); }
      }
    }
  }

  /** The printed log. */
  function Log(us: seq<Unit>): bytes { PrintAll(AllCommands(us)) }

  /** The units that are complete in the first n bytes of the log. */
  ghost function Survivors(us: seq<Unit>, n: nat): seq<Unit> {
    us[..Whole(us, Complete(AllCommands(us), n))]
  }

  /** The first n bytes end inside a command. */
  ghost predicate MidCommand(us: seq<Unit>, n: nat) {
    n != |PrintAll(AllCommands(us)[..Complete(AllCommands(us), n)])|
  }

  /** The first n bytes have begun a transaction that is not complete in them. */
  ghost predicate MidTransaction(us: seq<Unit>, n: nat) {
    Complete(AllCommands(us), n) > |AllCommands(Survivors(us, n))|
  }

  /** Cut anywhere, the log loads exactly its complete units, every transaction whole or not at all; the cut is
      noticed unless it falls between units, and without aof-load-truncated the server then refuses to start. */
  lemma CutLogLoads(us: seq<Unit>, n: nat, kind: bytes -> Kind, truncated: bool)
    requires (forall u | u in us :: Proper(u, kind)) && 0 < n <= |Log(us)|
    ensures var clean := !MidCommand(us, n) && !MidTransaction(us, n);
      var o := Load(Log(us)[..n], kind, truncated);
      if !clean && !truncated then o == Exits(UnexpectedEnd)
      else o.Loaded? && o.done == Effects(Survivors(us, n)) && (o.cut == None <==> clean)
  {
    var _ := LoadReaches(us, n, kind, truncated);
  }

  lemma LoadReaches(us: seq<Unit>, n: nat, kind: bytes -> Kind, truncated: bool) returns (p: Progress)
    requires (forall u | u in us :: Proper(u, kind)) && 0 < n <= |Log(us)|
    ensures Reached(Progress(FRESH, 0, 0), p, us, Complete(AllCommands(us), n))
    ensures Load(Log(us)[..n], kind, truncated) == Finish(p, !MidCommand(us, n), truncated)
  {
    hide Proper, Run, LoadFrom, Reached;
    var start, k := Progress(FRESH, 0, 0), Complete(AllCommands(us), n);
    AllLoadable(us, kind);
    PrefixLoads(AllCommands(us), n, n, start, kind, truncated);
    UnitsRun(start, us, k, kind);
    p := Run(start, AllCommands(us)[..k], kind);
  }

  /** The file is truncated to the end of the complete units, unless the cut falls inside a command of a
      transaction: then the opening MULTI stays in the file. */
  lemma CutOffsetIff(us: seq<Unit>, n: nat, kind: bytes -> Kind)
    requires (forall u | u in us :: Proper(u, kind)) && 0 < n <= |Log(us)|
        && (MidCommand(us, n) || MidTransaction(us, n))
    ensures var o := Load(Log(us)[..n], kind, true);
      && o.Loaded? && o.cut.Some?
      && (o.cut.value == |Log(Survivors(us, n))| <==> !(MidCommand(us, n) && MidTransaction(us, n)))
  {
    hide Load, Proper, Reached, PrintAll, Complete, Whole, AllCommands;
    var p := LoadReaches(us, n, kind, true);
    var k := Complete(AllCommands(us), n);
    ReachedOffsets(p, us, k);
  }

  /** Where the last command and, inside a transaction, its MULTI left the file. */
  lemma ReachedOffsets(p: Progress, us: seq<Unit>, k: nat)
    requires k <= |AllCommands(us)| && Reached(Progress(FRESH, 0, 0), p, us, k)
    ensures var all, whole := AllCommands(us), AllCommands(us[..Whole(us, k)]);
      && p.validUpTo == |PrintAll(all[..k])| && p.client.multi == (k > |whole|) && |whole| <= k
      && (p.client.multi ==> p.beforeMulti == |PrintAll(whole)| < p.validUpTo)
      && (!p.client.multi ==> |PrintAll(whole)| == p.validUpTo)
  {
    var all, whole := AllCommands(us), AllCommands(us[..Whole(us, k)]);
    assert whole == all[..|whole|];
    hide PrintAll, AllCommands, Whole, Effects;
    PrefixPrints(all, |whole|, k);
  }

  /** A longer prefix of the commands prints longer. */
  lemma PrefixPrints(cmds: seq<Argv>, a: nat, b: nat)
    requires a <= b <= |cmds|
    ensures |PrintAll(cmds[..a])| <= |PrintAll(cmds[..b])|
    ensures a < b ==> |PrintAll(cmds[..a])| < |PrintAll(cmds[..b])|
  {
    assert cmds[..b] == cmds[..a] + cmds[a..b];
    PrintAllAppend(cmds[..a], cmds[a..b]);
    if a < b { assert |PrintAll(cmds[a..b])| >= |Print(cmds[a])| > 0; }
  }

  /** Any transaction cut just inside the command after its MULTI: nothing takes effect, and MULTI stays. */
  lemma CutKeepsMulti(u: Unit, kind: bytes -> Kind)
    requires u.Txn? && Proper(u, kind)
    ensures |Print(u.open)| < |Log([u])|
    ensures Load(Log([u])[..|Print(u.open)| + 1], kind, true) == Loaded([], Some(|Print(u.open)|))
  {
    hide Print, Sized, LoadFrom, Run;
    var cmds, b := Commands(u), Print(u.open);
    assert [u][1..] == [] && AllCommands([u]) == cmds + [] == cmds;
    assert cmds[..1] == [u.open] && cmds[1..] == u.body + [u.close];
    assert PrintAll(cmds) == b + PrintAll(cmds[1..])
        && PrintAll(cmds[1..]) == Print(cmds[1]) + PrintAll(cmds[1..][1..]);
    PrintLong(cmds[1]);
    assert Complete(cmds[1..], 1) == 0 && Complete(cmds, |b| + 1) == 1;
    AllLoadable([u], kind);
    PrefixLoads(cmds, |b| + 1, |b| + 1, Progress(FRESH, 0, 0), kind, true);
    OpenRun(Progress(FRESH, 0, 0), u, kind);
    assert PrintAll([u.open]) == b;
  }

  lemma PrintLong(argv: Argv)
    ensures |Print(argv)| > 1
  {
  }

  // ---- what survives is the longest run of units that fits ----

  lemma {:induction false} CompleteBounds(cmds: seq<Argv>, n: nat)
    requires n <= |PrintAll(cmds)|
    ensures var k := Complete(cmds, n);
      |PrintAll(cmds[..k])| <= n && (k < |cmds| ==> n < |PrintAll(cmds[..k + 1])|)
    decreases |cmds|
  {
    hide Print;
    if cmds != [] && n >= |Print(cmds[0])| {
      var k := Complete(cmds[1..], n - |Print(cmds[0])|);
      CompleteBounds(cmds[1..], n - |Print(cmds[0])|);
      assert cmds[..k + 1][1..] == cmds[1..][..k];
      if k < |cmds| - 1 { assert cmds[..k + 2][1..] == cmds[1..][..k + 1]; }
    } else if cmds != [] {
      assert cmds[..1][1..] == [];
    }
  }

  lemma {:induction false} WholeBounds(us: seq<Unit>, k: nat)
    requires k <= |AllCommands(us)|
    ensures var j := Whole(us, k);
      |AllCommands(us[..j])| <= k && (j < |us| ==> k < |AllCommands(us[..j + 1])|)
    decreases |us|
  {
    hide Commands;
    if us != [] && k >= |Commands(us[0])| {
      var j := Whole(us[1..], k - |Commands(us[0])|);
      WholeBounds(us[1..], k - |Commands(us[0])|);
      assert us[..j + 1][1..] == us[1..][..j];
      if j < |us| - 1 { assert us[..j + 2][1..] == us[1..][..j + 1]; }
    } else if us != [] {
      assert us[..1][1..] == [];
    }
  }

  lemma {:induction false} UnitsPrefix(us: seq<Unit>, j: nat)
    requires j <= |us|
    ensures AllCommands(us[..j]) <= AllCommands(us)
    decreases |us|
  {
    hide Commands;
    if j > 0 {
      UnitsPrefix(us[1..], j - 1);
      assert us[..j][1..] == us[1..][..j - 1];
    }
  }

  /** The complete units are the most that fit into the n bytes. */
  lemma SurvivorsLongest(us: seq<Unit>, n: nat, j: nat)
    requires n <= |Log(us)| && j <= |us|
    ensures Survivors(us, n) <= us
    ensures |Log(us[..j])| <= n <==> j <= |Survivors(us, n)|
  {
    var cmds := AllCommands(us);
    var k := Complete(cmds, n);
    var a := |AllCommands(us[..j])|;
    CompleteBounds(cmds, n);
    WholeBounds(us, k);
    UnitsPrefix(us, j);
    assert AllCommands(us[..j]) == cmds[..a];
    hide PrintAll, Complete, AllCommands, Commands, Whole;
    var m := Whole(us, k);
    FitsIff(us, n, j, m, k, a);
  }

  /** With k commands and m units complete in n bytes, the first j units, of a commands, fit if and only if j <= m. */
  lemma FitsIff(us: seq<Unit>, n: nat, j: nat, m: nat, k: nat, a: nat)
    requires var cmds := AllCommands(us);
      && j <= |us| && m <= |us| && a == |AllCommands(us[..j])| <= |cmds| && AllCommands(us[..j]) == cmds[..a]
      && k <= |cmds| && |PrintAll(cmds[..k])| <= n && (k < |cmds| ==> n < |PrintAll(cmds[..k + 1])|)
      && |AllCommands(us[..m])| <= k && (m < |us| ==> k < |AllCommands(us[..m + 1])|)
    ensures |PrintAll(AllCommands(us[..j]))| <= n <==> j <= m
  {
    hide PrintAll, AllCommands;
    var cmds := AllCommands(us);
    if j <= m {
      PrefixUnits(us, j, m);
      PrefixPrints(cmds, a, k);
    } else {
      PrefixUnits(us, m + 1, j);
      PrefixPrints(cmds, k + 1, a);
    }
  }

  lemma PrefixUnits(us: seq<Unit>, a: nat, b: nat)
    requires a <= b <= |us|
    ensures |AllCommands(us[..a])| <= |AllCommands(us[..b])|
  {
    UnitsPrefix(us[..b], a);
    assert us[..b][..a] == us[..a];
  }
}
