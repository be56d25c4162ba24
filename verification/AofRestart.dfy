/** The point of it all: a server restarted from a rewritten file has the data of the server that rewrote it, with
    every command and transaction executed during the rewrite. */
module AofRestart {
  import opened Bytes
  import opened Options
  import opened AofFormat
  import opened AofLoader
  import opened AofPrefix
  import opened AofRewrite
  import opened AofReplay
  import opened AofExpire
  import H = AofHandoff

  /** A command called on a database, and the time it was fed. MULTI and EXEC are fed like commands. */
  datatype Call = Call(db: nat, proc: Proc, argv: Argv, fed: int)

  /** MULTI and EXEC only bracket other commands. */
  predicate Mark(argv: Argv, kind: bytes -> Kind) { KindOf(kind, argv).Multi? || KindOf(kind, argv).Exec? }

  /** A command the server has executed and fed. */
  ghost predicate Executable(c: Call, n: nat, kind: bytes -> Kind) {
    && c.db < n && c.argv != [] && c.argv[0] != SELECT && Accepted(c.proc, c.argv, c.fed)
    && (!c.proc.Plain? ==> KindOf(kind, c.argv).Other?)
  }

  ghost predicate AllExecutable(calls: seq<Call>, n: nat, kind: bytes -> Kind) {
    forall i | 0 <= i < |calls| :: Executable(calls[i], n, kind)
  }

  /** What a command did to the data. */
  function Performed(dbs: seq<Keyspace>, c: Call, kind: bytes -> Kind, other: Others): seq<Keyspace>
    requires c.db < |dbs| && Accepted(c.proc, c.argv, c.fed)
  {
    if Mark(c.argv, kind) then dbs
    else if c.proc.Plain? then Apply(Server(dbs, c.db), c.argv, other).dbs
    else dbs[c.db := Executed(dbs[c.db], c.proc, c.argv, c.fed)]
  }

  /** Commands never move a client to another database or change the number of databases. */
  ghost predicate Stays(other: Others) {
    forall st, argv :: other(st, argv).selected == st.selected && |other(st, argv).dbs| == |st.dbs|
  }

  /** The live data after a list of commands. */
  ghost function Live(dbs: seq<Keyspace>, calls: seq<Call>, kind: bytes -> Kind, other: Others): (r: seq<Keyspace>)
    requires AllExecutable(calls, |dbs|, kind) && Stays(other)
    ensures |r| == |dbs|
  {
    if calls == [] then dbs
    else
      var n := |calls| - 1;
      Performed(Live(dbs, calls[..n], kind, other), calls[n], kind, other)
  }

  // ---- what is fed ----

  function Fed(c: Call): seq<Argv>
    requires Accepted(c.proc, c.argv, c.fed)
  {
    Translated(c.proc, c.argv, c.fed)
  }

  ghost predicate Feedable(calls: seq<Call>) {
    forall i | 0 <= i < |calls| :: Accepted(calls[i].proc, calls[i].argv, calls[i].fed)
  }

  function Feeds(calls: seq<Call>): seq<H.Feed>
    requires Feedable(calls)
  {
    seq(|calls|, (i: nat) requires i < |calls| => H.Feed(calls[i].db, PrintAll(Fed(calls[i]))))
  }

  /** A SELECT when command n is on another database than the one before. */
  function Lead(calls: seq<Call>, n: nat): seq<Argv>
    requires n < |calls|
  {
    if n > 0 && calls[n - 1].db == calls[n].db then [] else [[SELECT, Digits(calls[n].db)]]
  }

  /** The commands that end up in the file. */
  function FedCommands(calls: seq<Call>): seq<Argv>
    requires Feedable(calls)
  {
    if calls == [] then []
    else
      var n := |calls| - 1;
      FedCommands(calls[..n]) + (Lead(calls, n) + Fed(calls[n]))
  }

  lemma {:induction false} FedTextPrints(calls: seq<Call>)
    requires Feedable(calls)
    ensures H.FedText(Feeds(calls)) == PrintAll(FedCommands(calls))
    decreases |calls|
  {
    hide Print, Fed;
    if calls != [] {
      var n := |calls| - 1;
      var c := calls[n];
      FedTextPrints(calls[..n]);
      assert Feeds(calls)[..n] == Feeds(calls[..n]);
      assert H.LastDb(Feeds(calls[..n])) == if n > 0 then Some(calls[n - 1].db) else None;
      TextPrints(if n > 0 then Some(calls[n - 1].db) else None, c.db, Fed(c));
      PrintAllAppend(FedCommands(calls[..n]), Lead(calls, n) + Fed(c));
    }
  }

  lemma TextPrints(selected: Option<nat>, db: nat, cmds: seq<Argv>)
    ensures H.Text(selected, H.Feed(db, PrintAll(cmds)))
            == PrintAll((if selected == Some(db) then [] else [[SELECT, Digits(db)]]) + cmds)
  {
    hide Print;
    if selected == Some(db) {
      assert [] + cmds == cmds;
    } else {
      var select := [SELECT, Digits(db)];
      assert ([select] + cmds)[1..] == cmds;
    }
  }

  // ---- brackets ----

  /** Whether a transaction is open after the commands; None if one is opened inside another or a command is not known.
      An EXEC may lack its MULTI: that was fed before the fork when BGREWRITEAOF is called inside a transaction. */
  function OpenFrom(open: bool, cmds: seq<Argv>, kind: bytes -> Kind): Option<bool>
    decreases |cmds|
  {
    if cmds == [] then Some(open)
    else
      match KindOf(kind, cmds[0])
      case Unknown => None
      case Multi => if open then None else OpenFrom(true, cmds[1..], kind)
      case Exec => OpenFrom(false, cmds[1..], kind)
      case Other => OpenFrom(open, cmds[1..], kind)
  }

  lemma {:induction false} OpenJoin(open: bool, a: seq<Argv>, b: seq<Argv>, kind: bytes -> Kind)
    ensures var o := OpenFrom(open, a, kind);
      OpenFrom(open, a + b, kind) == if o.None? then None else OpenFrom(o.value, b, kind)
    decreases |a|
  {
    if a == [] {
      assert a + b == b;
    } else {
      assert (a + b)[1..] == a[1..] + b;
      match KindOf(kind, a[0]) {
        case Multi => OpenJoin(true, a[1..], b, kind);
        case Exec => OpenJoin(false, a[1..], b, kind);
        case _ => OpenJoin(open, a[1..], b, kind);
      }
    }
  }

  ghost predicate AllOther(cmds: seq<Argv>, kind: bytes -> Kind) {
    forall c | c in cmds :: KindOf(kind, c).Other?
  }

  lemma {:induction false} OthersStay(open: bool, cmds: seq<Argv>, kind: bytes -> Kind)
    requires AllOther(cmds, kind)
    ensures OpenFrom(open, cmds, kind) == Some(open) && Data(cmds, kind) == cmds
    decreases |cmds|
  {
    if cmds != [] { OthersStay(open, cmds[1..], kind); }
  }

  /** The commands without the brackets. */
  function Data(cmds: seq<Argv>, kind: bytes -> Kind): seq<Argv> {
    if cmds == [] then [] else (if Mark(cmds[0], kind) then [] else [cmds[0]]) + Data(cmds[1..], kind)
  }

  lemma {:induction false} DataJoin(a: seq<Argv>, b: seq<Argv>, kind: bytes -> Kind)
    ensures Data(a + b, kind) == Data(a, kind) + Data(b, kind)
    decreases |a|
  {
    if a == [] {
      assert a + b == b;
    } else {
      assert (a + b)[1..] == a[1..] + b;
      DataJoin(a[1..], b, kind);
    }
  }

  /** The server knows SELECT and what it translates commands into. */
  ghost predicate Knows(kind: bytes -> Kind) {
    kind(SELECT).Other? && kind(SET).Other? && kind(PEXPIREAT).Other?
  }

  lemma LeadOther(calls: seq<Call>, n: nat, kind: bytes -> Kind)
    requires n < |calls| && Knows(kind)
    ensures AllOther(Lead(calls, n), kind)
  {
    hide Digits;
  }

  lemma FedOther(c: Call, n: nat, kind: bytes -> Kind)
    requires Executable(c, n, kind) && !c.proc.Plain? && Knows(kind)
    ensures AllOther(Fed(c), kind)
  {
    hide Digits, Time, OptionArg;
  }

  /** The commands as they were called. */
  function Called(calls: seq<Call>): seq<Argv> { seq(|calls|, (i: nat) requires i < |calls| => calls[i].argv) }

  /** Being fed does not change how commands are bracketed. */
  lemma {:induction false} FedOpen(calls: seq<Call>, n: nat, kind: bytes -> Kind)
    requires AllExecutable(calls, n, kind) && Feedable(calls) && Knows(kind)
    ensures OpenFrom(false, FedCommands(calls), kind) == OpenFrom(false, Called(calls), kind)
    decreases |calls|
  {
    hide Fed, Lead, Executable;
    if calls != [] {
      var k := |calls| - 1;
      var c := calls[k];
      FedOpen(calls[..k], n, kind);
      assert Called(calls) == Called(calls[..k]) + [c.argv];
      OpenJoin(false, Called(calls[..k]), [c.argv], kind);
      OpenJoin(false, FedCommands(calls[..k]), Lead(calls, k) + Fed(c), kind);
      var o := OpenFrom(false, Called(calls[..k]), kind);
      if o.Some? { OneOpen(calls, k, o.value, n, kind); }
    }
  }

  lemma OneOpen(calls: seq<Call>, k: nat, open: bool, n: nat, kind: bytes -> Kind)
    requires k < |calls| && Executable(calls[k], n, kind) && Knows(kind)
    ensures OpenFrom(open, Lead(calls, k) + Fed(calls[k]), kind) == OpenFrom(open, [calls[k].argv], kind)
  {
    var c := calls[k];
    LeadOther(calls, k, kind);
    OthersStay(open, Lead(calls, k), kind);
    OpenJoin(open, Lead(calls, k), Fed(c), kind);
    if !c.proc.Plain? {
      FedOther(c, n, kind);
      OthersStay(open, Fed(c), kind);
      assert [c.argv][1..] == [];
    }
    hide Fed, Lead, OpenFrom;
  }

  // ---- replaying it ----

  /** One call replays as it was performed. */
  lemma CallReplays(st: Server, c: Call, lead: seq<Argv>, kind: bytes -> Kind, other: Others)
    requires Stays(other) && Executable(c, |st.dbs|, kind) && Knows(kind)
    requires lead == [[SELECT, Digits(c.db)]] || (lead == [] && st.selected == c.db)
    ensures ApplyAll(st, lead + Data(Fed(c), kind), other) == Server(Performed(st.dbs, c, kind, other), c.db)
  {
    var st1 := Server(st.dbs, c.db);
    Selected(st, c.db, lead, other);
    ApplyAppend(st, lead, Data(Fed(c), kind), other);
    if c.proc.Plain? {
      PlainReplays(st1, c, kind, other);
    } else {
      FedOther(c, |st.dbs|, kind);
      OthersStay(false, Fed(c), kind);
      TranslatedReplays(st1, c.proc, c.argv, c.fed, other);
    }
  }

  lemma Selected(st: Server, db: nat, lead: seq<Argv>, other: Others)
    requires db < |st.dbs| && (lead == [[SELECT, Digits(db)]] || (lead == [] && st.selected == db))
    ensures ApplyAll(st, lead, other) == Server(st.dbs, db)
  {
    hide Digits;
    if lead != [] { SelectReplays(st, db, other); }
  }

  lemma PlainReplays(st: Server, c: Call, kind: bytes -> Kind, other: Others)
    requires Stays(other) && Executable(c, |st.dbs|, kind) && st.selected == c.db && c.proc.Plain?
    ensures ApplyAll(st, Data(Fed(c), kind), other) == Server(Performed(st.dbs, c, kind, other), c.db)
  {
    hide Change, Atoi;
    assert [c.argv][1..] == [];
    assert Data(Fed(c), kind) == if Mark(c.argv, kind) then [] else [c.argv];
  }

  /** Replaying what was fed does to the data what executing it did. */
  lemma {:induction false} FedReplays(st: Server, calls: seq<Call>, kind: bytes -> Kind, other: Others)
    requires Stays(other) && AllExecutable(calls, |st.dbs|, kind) && Feedable(calls) && Knows(kind)
    ensures var st' := ApplyAll(st, Data(FedCommands(calls), kind), other);
      && st'.dbs == Live(st.dbs, calls, kind, other)
      && (calls != [] ==> st'.selected == calls[|calls| - 1].db)
    decreases |calls|
  {
    hide Apply, Stays, Digits, Executable, Fed, Performed, Knows;
    if calls != [] {
      var n := |calls| - 1;
      var c := calls[n];
      FedReplays(st, calls[..n], kind, other);
      var st1 := ApplyAll(st, Data(FedCommands(calls[..n]), kind), other);
      CallReplays(st1, c, Lead(calls, n), kind, other);
      FedData(calls, kind);
      ApplyAppend(st, Data(FedCommands(calls[..n]), kind), Lead(calls, n) + Data(Fed(c), kind), other);
    }
  }

  lemma FedData(calls: seq<Call>, kind: bytes -> Kind)
    requires calls != [] && Feedable(calls) && Knows(kind)
    ensures var n := |calls| - 1;
      Data(FedCommands(calls), kind)
      == Data(FedCommands(calls[..n]), kind) + (Lead(calls, n) + Data(Fed(calls[n]), kind))
  {
    var n := |calls| - 1;
    LeadOther(calls, n, kind);
    OthersStay(false, Lead(calls, n), kind);
    hide Data, Fed, Lead, Knows;
    DataJoin(FedCommands(calls[..n]), Lead(calls, n) + Fed(calls[n]), kind);
    DataJoin(Lead(calls, n), Fed(calls[n]), kind);
  }

  // ---- loading a whole log ----

  lemma {:induction false} BracketsRun(p: Progress, cmds: seq<Argv>, kind: bytes -> Kind)
    requires OpenFrom(p.client.multi, cmds, kind).Some? && (!p.client.multi ==> p.client.queue == [])
    ensures var c := Run(p, cmds, kind).client;
      && Some(c.multi) == OpenFrom(p.client.multi, cmds, kind) && (!c.multi ==> c.queue == [])
      && c.done + c.queue == p.client.done + p.client.queue + Data(cmds, kind)
    decreases |cmds|
  {
    hide Print;
    if cmds == [] {
      assert p.client.done + p.client.queue + [] == p.client.done + p.client.queue;
    } else {
      var k := KindOf(kind, cmds[0]);
      var p' := Advance(p, cmds[0], k, p.validUpTo + |Print(cmds[0])|);
      BracketsRun(p', cmds[1..], kind);
      var d := if k.Multi? || k.Exec? then [] else [cmds[0]];
      assert p'.client.done + p'.client.queue == p.client.done + p.client.queue + d;
      assert p.client.done + p.client.queue + d + Data(cmds[1..], kind)
          == p.client.done + p.client.queue + (d + Data(cmds[1..], kind));
    }
  }

  lemma {:induction false} CompleteAll(cmds: seq<Argv>)
    ensures AofPrefix.Complete(cmds, |PrintAll(cmds)|) == |cmds|
  {
    hide Print;
    if cmds != [] { CompleteAll(cmds[1..]); }
  }

  lemma {:induction false} BracketsKnown(open: bool, cmds: seq<Argv>, kind: bytes -> Kind, c: Argv)
    requires OpenFrom(open, cmds, kind).Some? && c in cmds
    ensures !KindOf(kind, c).Unknown?
    decreases |cmds|
  {
    if c != cmds[0] {
      var k := KindOf(kind, cmds[0]);
      BracketsKnown(if k.Multi? then true else if k.Exec? then false else open, cmds[1..], kind, c);
    }
  }

  /** A whole log with closed transactions loads as its commands without the brackets. */
  lemma ClosedLoads(cmds: seq<Argv>, kind: bytes -> Kind, truncated: bool)
    requires (forall c | c in cmds :: Sized(c)) && OpenFrom(false, cmds, kind) == Some(false) && cmds != []
    ensures PrintAll(cmds) != [] && Load(PrintAll(cmds), kind, truncated) == Loaded(Data(cmds, kind), None)
  {
    hide Sized, Print, Run, LoadFrom;
    var log, p := PrintAll(cmds), Progress(FRESH, 0, 0);
    CompleteAll(cmds);
    assert cmds[..|cmds|] == cmds && log[..|log|] == log;
    forall c | c in cmds ensures !KindOf(kind, c).Unknown? { BracketsKnown(false, cmds, kind, c); }
    PrefixLoads(cmds, |log|, |log|, p, kind, truncated);
    BracketsRun(p, cmds, kind);
    var c := Run(p, cmds, kind).client;
    assert c.done == c.done + c.queue == [] + [] + Data(cmds, kind) == Data(cmds, kind);
    NotEmpty(cmds[0], PrintAll(cmds[1..]));
  }

  lemma NotEmpty(c: Argv, rest: bytes)
    ensures Print(c) + rest != []
  {
    assert (Print(c) + rest)[0] == STAR;
  }

  // ---- the theorem ----

  /** The commands of the installed file. */
  function FileCommands(dbs: seq<Db>, calls: seq<Call>): seq<Argv>
    requires Feedable(calls)
  {
    Commands(dbs, 0) + FedCommands(calls)
  }

  /** The data of a server of n databases that loaded its file. */
  function Restored(o: Outcome, n: nat, other: Others): seq<Keyspace> {
    ApplyAll(Server(Blank(n), 0), if o.Loaded? then o.done else [], other).dbs
  }

  /** What the snapshot commands and the calls are. */
  ghost predicate Setting(dbs: seq<Db>, calls: seq<Call>, kind: bytes -> Kind, other: Others) {
    && ProperDbs(dbs) && Stays(other) && Knows(kind) && AllOther(Commands(dbs, 0), kind)
    && AllExecutable(calls, |dbs|, kind) && Feedable(calls) && OpenFrom(false, Called(calls), kind) == Some(false)
    && forall c | c in FileCommands(dbs, calls) :: Sized(c)
  }

  /** Dataset `dbs` is forked and rewritten while `calls` are executed and fed; however feeding, flushing, piping,
      reading, stopping and exiting interleave, loading the installed file gives the live data. */
  lemma RestartRestores(s: H.State, es: seq<H.Event>, dbs: seq<Db>, calls: seq<Call>, kind: bytes -> Kind,
      other: Others)
    requires H.Start(s) && H.Possible(s, es) && H.Enabled(H.Final(s, es), H.Install)
    requires Setting(dbs, calls, kind, other)
    requires H.LastSnapshot(es) == PrintAll(Commands(dbs, 0)) && H.FedSince(es) == Feeds(calls)
    ensures |Rebuilt(dbs, |dbs|)| == |dbs|
    ensures var o := Load(H.Step(H.Final(s, es), H.Install).file, kind, false);
      && (o.EmptyFile? || (o.Loaded? && o.cut == None))
      && Restored(o, |dbs|, other) == Live(Rebuilt(dbs, |dbs|), calls, kind, other)
  {
    hide H.Start, H.Possible, H.Final, H.LastSnapshot, H.FedSince, H.FedText, H.Flows;
    hide Commands, FedCommands, PrintAll, Load, ApplyAll, Rebuilt, Live, Data, ProperDbs, Sized, OpenFrom;
    RebuiltSize(dbs);
    H.InstalledFile(s, es);
    FedTextPrints(calls);
    PrintAllAppend(Commands(dbs, 0), FedCommands(calls));
    EmptyLoads(kind);
    FileLoads(dbs, calls, kind, other);
    FileReplays(dbs, calls, kind, other);
  }

  /** The installed file loads. */
  lemma FileLoads(dbs: seq<Db>, calls: seq<Call>, kind: bytes -> Kind, other: Others)
    requires Setting(dbs, calls, kind, other)
    ensures var cmds := FileCommands(dbs, calls);
      Load(PrintAll(cmds), kind, false) == if cmds == [] then EmptyFile else Loaded(Data(cmds, kind), None)
  {
    hide Commands, FedCommands, PrintAll, Data, ProperDbs, Sized, OpenFrom, AllExecutable;
    OthersStay(false, Commands(dbs, 0), kind);
    FedOpen(calls, |dbs|, kind);
    OpenJoin(false, Commands(dbs, 0), FedCommands(calls), kind);
    if FileCommands(dbs, calls) == [] { EmptyLoads(kind); } else { ClosedLoads(FileCommands(dbs, calls), kind, false); }
  }

  /** Replaying it gives the live data. */
  lemma FileReplays(dbs: seq<Db>, calls: seq<Call>, kind: bytes -> Kind, other: Others)
    requires Setting(dbs, calls, kind, other)
    ensures |Rebuilt(dbs, |dbs|)| == |dbs|
    ensures ApplyAll(Server(Blank(|dbs|), 0), Data(FileCommands(dbs, calls), kind), other).dbs
            == Live(Rebuilt(dbs, |dbs|), calls, kind, other)
  {
    hide Commands, FedCommands, PrintAll, Data, ProperDbs, Sized, OpenFrom, ApplyAll, Rebuilt, Live, AllOther;
    var st := Server(Blank(|dbs|), 0);
    RebuiltSize(dbs);
    OthersStay(false, Commands(dbs, 0), kind);
    DataJoin(Commands(dbs, 0), FedCommands(calls), kind);
    RewriteRebuilds(dbs, 0, other);
    ApplyAppend(st, Commands(dbs, 0), Data(FedCommands(calls), kind), other);
    FedReplays(ApplyAll(st, Commands(dbs, 0), other), calls, kind, other);
  }

  lemma EmptyLoads(kind: bytes -> Kind)
    ensures Load(PrintAll([]), kind, false) == EmptyFile && Data([], kind) == []
  {
  }

  lemma RebuiltSize(dbs: seq<Db>)
    requires ProperDbs(dbs)
    ensures |Rebuilt(dbs, |dbs|)| == |dbs|
  {
  }
}
