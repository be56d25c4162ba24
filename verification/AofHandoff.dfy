/** Rewriting the append-only file in a child process while the parent keeps serving: what is fed meanwhile reaches
    the new file through a buffer and a pipe, exactly once and in order. */
module AofHandoff {
  import opened Bytes
  import opened Options
  import opened AofFormat
  import opened AofRewrite

  /** Where the child is: writing the snapshot and reading the pipe, waiting for the parent to stop sending, or
      finished with its file written. */
  datatype Phase = Dumping | Asked | Written

  /** The child and the pipe to it. `feeds` records what the parent fed since the fork. */
  datatype Child = Child(phase: Phase, snapshot: bytes, got: bytes, pipe: bytes, acked: bool, temp: bytes,
      feeds: seq<Feed>)

  /** A fed command: its database and its bytes. */
  datatype Feed = Feed(db: nat, text: bytes)

  /** The parent: the file, aof_buf, aof_selected_db (-1 is None), the rewrite buffer, aof_stop_sending_diff. */
  datatype State = State(
    file: bytes, buf: bytes, selected: Option<nat>, diff: bytes, stop: bool, child: Option<Child>)

  datatype Event =
    | DoFeed(feed: Feed)
    | Flush(n: nat)            // n bytes of aof_buf reach the file
    | Fork(snapshot: bytes)    // what the child will write for the dataset as it is now
    | Send(n: nat)             // the pipe takes n bytes of the rewrite buffer
    | Read(n: nat)             // the child reads n bytes from the pipe
    | Ask                      // the child asks the parent to stop
    | Ack                      // the parent stops and says so
    | Finish                   // the child reads what is left, writes its file and exits with success
    | Install                  // the parent appends its buffer to that file and renames it
    | Abandon                  // the child failed or was killed, or appending or renaming failed

  /** What `feedAppendOnlyFile` appends: a SELECT when the database is not the last one fed. */
  function Text(selected: Option<nat>, f: Feed): bytes {
    if selected == Some(f.db) then f.text else Print([SELECT, Digits(f.db)]) + f.text
  }

  predicate Enabled(s: State, e: Event) {
    match e
    case DoFeed(_) => true
    case Flush(n) => n <= |s.buf|
    case Fork(_) => s.child.None?
    case Send(n) => s.child.Some? && !s.stop && n <= |s.diff|
    case Read(n) => s.child.Some? && s.child.value.phase != Written && n <= |s.child.value.pipe|
    case Ask => s.child.Some? && s.child.value.phase == Dumping
    case Ack => s.child.Some? && s.child.value.phase == Asked
    case Finish => s.child.Some? && s.child.value.phase == Asked && s.child.value.acked
    case Install => s.child.Some? && s.child.value.phase == Written
    case Abandon => s.child.Some?
  }

  function Step(s: State, e: Event): State
    requires Enabled(s, e)
  {
    match e
    case DoFeed(f) =>
      var t := Text(s.selected, f);
      var s1 := s.(buf := s.buf + t, selected := Some(f.db));
      if s.child.None? then s1
      else s1.(diff := s.diff + t, child := Some(s.child.value.(feeds := s.child.value.feeds + [f])))
    case Flush(n) => s.(file := s.file + s.buf[..n], buf := s.buf[n..])
    case Fork(snapshot) => s.(selected := None, stop := false,
        child := Some(Child(Dumping, snapshot, [], [], false, [], [])))
    case Send(n) =>
      var c := s.child.value;
      s.(diff := s.diff[n..], child := Some(c.(pipe := c.pipe + s.diff[..n])))
    case Read(n) =>
      var c := s.child.value;
      s.(child := Some(c.(pipe := c.pipe[n..], got := c.got + c.pipe[..n])))
    case Ask => s.(child := Some(s.child.value.(phase := Asked)))
    case Ack => s.(stop := true, child := Some(s.child.value.(acked := true)))
    case Finish =>
      var c := s.child.value;
      s.(child := Some(c.(phase := Written, got := c.got + c.pipe, pipe := [], temp := c.snapshot + (c.got + c.pipe))))
    case Install =>
      s.(file := s.child.value.temp + s.diff, buf := [], selected := None, diff := [], child := None)
    case Abandon => s.(diff := [], child := None)
  }

  // ---- the invariant ----

  /** All that was fed since the fork, as it was appended, starting with no database selected. */
  function FedText(feeds: seq<Feed>): bytes {
    if feeds == [] then []
    else
      var n := |feeds| - 1;
      FedText(feeds[..n]) + Text(LastDb(feeds[..n]), feeds[n])
  }

  function LastDb(feeds: seq<Feed>): Option<nat> {
    if feeds == [] then None else Some(feeds[|feeds| - 1].db)
  }

  /** Every byte fed since the fork is in one place: with the child, in the pipe or in the buffer, in that order. */
  ghost predicate Flows(s: State) {
    match s.child
    case None => s.diff == []
    case Some(c) =>
      && c.got + c.pipe + s.diff == FedText(c.feeds)
      && s.selected == LastDb(c.feeds)
      && (c.acked ==> s.stop)
      && (c.phase == Written ==> c.pipe == [] && c.acked && c.temp == c.snapshot + c.got)
  }

  lemma StepFlows(s: State, e: Event)
    requires Flows(s) && Enabled(s, e)
    ensures Flows(Step(s, e))
  {
    match e {
      case DoFeed(f) => if s.child.Some? { FeedFlows(s, f); }
      case Send(n) => SendFlows(s, n);
      case Read(n) => ReadFlows(s, n);
      case Finish => FinishFlows(s);
      case _ => hide FedText, Text, LastDb;
    }
  }

  lemma SendFlows(s: State, n: nat)
    requires Flows(s) && Enabled(s, Send(n))
    ensures Flows(Step(s, Send(n)))
  {
    hide FedText, LastDb;
    var c := s.child.value;
    assert c.got + (c.pipe + s.diff[..n]) + s.diff[n..] == c.got + c.pipe + s.diff;
  }

  lemma ReadFlows(s: State, n: nat)
    requires Flows(s) && Enabled(s, Read(n))
    ensures Flows(Step(s, Read(n)))
  {
    hide FedText, LastDb;
    var c := s.child.value;
    assert c.got + c.pipe[..n] + c.pipe[n..] + s.diff == c.got + c.pipe + s.diff;
  }

  lemma FinishFlows(s: State)
    requires Flows(s) && Enabled(s, Finish)
    ensures Flows(Step(s, Finish))
  {
    hide FedText, LastDb;
    var c := s.child.value;
    assert c.got + c.pipe + [] + s.diff == c.got + c.pipe + s.diff;
  }

  lemma FeedFlows(s: State, f: Feed)
    requires Flows(s) && s.child.Some?
    ensures Flows(Step(s, DoFeed(f)))
  {
    hide Text;
    var c := s.child.value;
    var t := Text(s.selected, f);
    var feeds := c.feeds + [f];
    assert feeds[..|c.feeds|] == c.feeds;
    assert c.got + c.pipe + (s.diff + t) == c.got + c.pipe + s.diff + t;
  }

  /** A diff that is not empty starts by selecting its database. */
  lemma {:induction false} DiffSelects(feeds: seq<Feed>)
    requires feeds != []
    ensures Print([SELECT, Digits(feeds[0].db)]) <= FedText(feeds)
  {
    hide Print;
    if |feeds| > 1 { DiffSelects(feeds[..|feeds| - 1]); }
    else { assert feeds[..0] == []; }
  }

  // ---- whole runs ----

  ghost predicate Start(s: State) { s.child.None? && s.diff == [] }

  ghost predicate Possible(s: State, es: seq<Event>)
    decreases |es|, 0
  {
    es == [] || (Possible(s, es[..|es| - 1]) && Enabled(Final(s, es[..|es| - 1]), es[|es| - 1]))
  }

  ghost function Final(s: State, es: seq<Event>): State
    requires Possible(s, es)
    decreases |es|, 1
  {
    if es == [] then s else Step(Final(s, es[..|es| - 1]), es[|es| - 1])
  }

  /** The last fork of a run, and what was fed after it. */
  ghost function LastSnapshot(es: seq<Event>): bytes {
    if es == [] then []
    else var e := es[|es| - 1];
      if e.Fork? then e.snapshot else LastSnapshot(es[..|es| - 1])
  }

  ghost function FedSince(es: seq<Event>): seq<Feed> {
    if es == [] then []
    else var e := es[|es| - 1];
      if e.Fork? then [] else FedSince(es[..|es| - 1]) + if e.DoFeed? then [e.feed] else []
  }

  /** The database selected after a run: the one fed last, unless a fork or a new file came since. */
  ghost function SelectedAfter(s: State, es: seq<Event>): Option<nat> {
    if es == [] then s.selected
    else
      match es[|es| - 1]
      case DoFeed(f) => Some(f.db)
      case Fork(_) => None
      case Install => None
      case _ => SelectedAfter(s, es[..|es| - 1])
  }

  /** What a run must leave on record: what was there before, or the last file installed, and everything fed since. */
  ghost function Expected(s: State, es: seq<Event>): bytes {
    if es == [] then s.file + s.buf
    else
      var before := es[..|es| - 1];
      match es[|es| - 1]
      case DoFeed(f) => Expected(s, before) + Text(SelectedAfter(s, before), f)
      case Install => LastSnapshot(before) + FedText(FedSince(before))
      case _ => Expected(s, before)
  }

  lemma {:induction false} RunKeeps(s: State, es: seq<Event>)
    requires Start(s) && Possible(s, es)
    ensures Flows(Final(s, es)) && Final(s, es).selected == SelectedAfter(s, es)
    ensures var c := Final(s, es).child; c.Some? ==>
        c.value.snapshot == LastSnapshot(es) && c.value.feeds == FedSince(es)
    decreases |es|
  {
    hide Flows, FedText, Text;
    if es != [] {
      var n := |es| - 1;
      RunKeeps(s, es[..n]);
      StepFlows(Final(s, es[..n]), es[n]);
    } else {
      StartFlows(s);
    }
  }

  lemma StartFlows(s: State)
    requires Start(s)
    ensures Flows(s)
  {
  }

  /** Whatever the interleaving, the installed file is the snapshot of the last fork followed by every byte fed
      since, in order and once. */
  lemma InstalledFile(s: State, es: seq<Event>)
    requires Start(s) && Possible(s, es) && Enabled(Final(s, es), Install)
    ensures var t := Step(Final(s, es), Install);
      t.file == LastSnapshot(es) + FedText(FedSince(es)) && t.buf == [] && t.diff == []
  {
    hide Flows, FedText, Final, Possible, LastSnapshot, FedSince;
    RunKeeps(s, es);
    InstallGives(Final(s, es));
  }

  lemma InstallGives(s: State)
    requires Flows(s) && Enabled(s, Install)
    ensures Step(s, Install).file == s.child.value.snapshot + FedText(s.child.value.feeds)
  {
    hide FedText, LastDb;
    var c := s.child.value;
    assert c.got + c.pipe == c.got;
    assert c.snapshot + c.got + s.diff == c.snapshot + (c.got + s.diff);
  }

  lemma FeedAppends(s: State, f: Feed)
    ensures var t := Step(s, DoFeed(f)); t.file + t.buf == s.file + s.buf + Text(s.selected, f)
  {
    hide Text;
    assert s.file + (s.buf + Text(s.selected, f)) == s.file + s.buf + Text(s.selected, f);
  }

  lemma FlushMoves(s: State, n: nat)
    requires Enabled(s, Flush(n))
    ensures var t := Step(s, Flush(n)); t.file + t.buf == s.file + s.buf
  {
    assert s.file + s.buf[..n] + s.buf[n..] == s.file + s.buf;
  }

  /** In every run, with rewrites that are installed or fail in between, file and buffer together are just that. */
  lemma {:induction false} NothingLost(s: State, es: seq<Event>)
    requires Start(s) && Possible(s, es)
    ensures Final(s, es).file + Final(s, es).buf == Expected(s, es)
    decreases |es|
  {
    hide FedText, Text, Flows, SelectedAfter, LastSnapshot, FedSince;
    if es != [] {
      var n := |es| - 1;
      var t := Final(s, es[..n]);
      NothingLost(s, es[..n]);
      RunKeeps(s, es[..n]);
      match es[n] {
        case DoFeed(f) => FeedAppends(t, f);
        case Flush(k) => FlushMoves(t, k);
        case Install =>
          InstallGives(t);
          assert Step(t, Install).file + [] == Step(t, Install).file;
        case _ =>
      }
    }
  }

  /** When the rewrite fails instead, the old file and aof_buf still hold everything, and the buffer is empty. */
  lemma AbandonedFile(s: State, es: seq<Event>)
    requires Start(s) && Possible(s, es) && Enabled(Final(s, es), Abandon)
    ensures var t := Step(Final(s, es), Abandon);
      t.file + t.buf == Expected(s, es) && t.file == Final(s, es).file && t.diff == [] && t.child.None?
  {
    NothingLost(s, es);
  }
}
