/** The parent's side of the rewrite on its own fields, each operation proved to be one step of `AofHandoff`. */
module AofServer {
  import opened Bytes
  import opened Options
  import opened AofExpire
  import opened AofFormat
  import opened AofRewrite
  import opened AofBuffer
  import opened AofFlush
  import opened AofHandoff

  class Server {
    const aof: AppendOnlyFile
    const rewrite: RewriteBuffer
    var selected: Option<nat>
    var stop: bool
    /** The other process and its pipe. */
    var child: Option<Child>

    ghost predicate Ok()
      reads this, aof, rewrite
    {
      aof.Ok() && rewrite.Ok() && aof.policy != Always
    }

    ghost function View(): State
      reads this, aof, rewrite
    {
      State(aof.file, aof.buf, selected, rewrite.Contents(), stop, child)
    }

    /** A server with the append-only file on and no rewrite going on. */
    constructor (policy: Policy, file: bytes)
      requires policy != Always
      ensures Ok() && Start(View()) && aof.file == file && fresh(aof) && fresh(rewrite)
    {
      aof := new AppendOnlyFile(policy, file);
      rewrite := new RewriteBuffer();
      selected, stop, child := None, false, None;
    }

    /** `feedAppendOnlyFile` from the text of a command on. */
    method FeedAppendOnlyFile(f: Feed)
      requires Ok()
      modifies this`selected, this`child, aof`buf, rewrite
      ensures Ok() && View() == Step(old(View()), DoFeed(f))
    {
      hide Print;
      var text := f.text;
      if selected != Some(f.db) {
        text := Print([SELECT, Digits(f.db)]) + text;
        selected := Some(f.db);
      }
      aof.Feed(text);
      if child.Some? {
        rewrite.Append(text);
        child := Some(child.value.(feeds := child.value.feeds + [f]));
      }
    }

    /** `feedAppendOnlyFile` for a command, with its expire made absolute. */
    method FeedCommand(db: nat, p: Proc, argv: Argv, now: int)
      requires Ok() && Accepted(p, argv, now)
      modifies this`selected, this`child, aof`buf, rewrite
      ensures Ok() && View() == Step(old(View()), DoFeed(Feed(db, PrintAll(Translated(p, argv, now)))))
    {
      hide *;
      var text := CatTranslated([], p, argv, now);
      assert [] + PrintAll(Translated(p, argv, now)) == PrintAll(Translated(p, argv, now));
      FeedAppendOnlyFile(Feed(db, text));
    }

    /** `flushAppendOnlyFile`. */
    method Flush(force: bool, syncing: bool, now: int, answers: seq<WriteResult>, truncates: bool)
        returns (ghost n: nat)
      requires Ok()
      modifies aof
      ensures Ok() && n <= old(|aof.buf|) && View() == Step(old(View()), AofHandoff.Flush(n))
      ensures n ==
                if old(aof.buf) == [] || old(aof.Postpones(force, syncing, now)) then 0
                else
                  var t := Through(answers, old(|aof.buf|));
                  if t == old(|aof.buf|) || !truncates then t else 0
    {
      aof.Flush(force, syncing, now, answers, truncates);
      n := old(|aof.buf|) - |aof.buf|;
      Moved(old(aof.file), old(aof.buf), aof.file, aof.buf, n);
    }

    /** `rewriteAppendOnlyFileBackground`, in the parent, once the fork succeeded. */
    method RewriteBackground(snapshot: bytes) returns (ok: bool)
      requires Ok()
      modifies this`selected, this`stop, this`child
      ensures Ok() && ok == old(child).None?
      ensures View() == if ok then Step(old(View()), Fork(snapshot)) else old(View())
    {
      if child.Some? { return false; }
      stop, selected := false, None;
      child := Some(Child(Dumping, snapshot, [], [], false, [], []));
      return true;
    }

    /** `aofChildWriteDiffData`: the pipe is writable. */
    method ChildWriteDiffData(accepts: seq<nat>) returns (ghost n: nat)
      requires Ok() && child.Some?
      modifies this`child, rewrite
      ensures Ok() && n <= |old(rewrite.Contents())| && n == if stop then 0 else PipeTakes(old(rewrite.blocks), accepts)
      ensures View() == if stop then old(View()) else Step(old(View()), Send(n))
    {
      var sent, _ := rewrite.WriteDiffData(stop, accepts);
      n := |sent|;
      assert old(rewrite.Contents())[..n] == sent && old(rewrite.Contents())[n..] == rewrite.Contents();
      assert sent == [] ==> child.value.pipe + sent == child.value.pipe;
      child := Some(child.value.(pipe := child.value.pipe + sent));
    }

    /** `aofChildPipeReadable`: the child asked to stop. */
    method ChildPipeReadable()
      requires Ok() && Enabled(View(), Ack)
      modifies this`stop, this`child
      ensures Ok() && View() == Step(old(View()), Ack)
    {
      stop := true;
      child := Some(child.value.(acked := true));
    }

    /** `backgroundRewriteDoneHandler`: install the new file if the child and every later step succeeded; else
        leave everything as it was. */
    method BackgroundRewriteDone(success: bool, opens: bool, accepts: seq<nat>, renames: bool) returns (installed: bool)
      requires Ok() && child.Some? && (success ==> child.value.phase == Written)
      modifies this`selected, this`child, aof, rewrite
      ensures Ok() && (installed <==> success && opens && renames && old(rewrite.TakesAll(accepts)))
      ensures View() == if installed then Step(old(View()), Install) else Step(old(View()), Abandon)
    {
      installed := false;
      if success && opens {
        var written, ok := rewrite.WriteTo(accepts);
        if ok && renames {
          aof.file, aof.buf := child.value.temp + written, [];
          aof.currentSize := |aof.file|;
          selected := None;
          installed := true;
        }
      }
      rewrite.Reset();
      child := None;
    }
  }

  /** When file and buffer together are unchanged, what left the buffer went to the file. */
  lemma Moved(f0: bytes, b0: bytes, f1: bytes, b1: bytes, n: nat)
    requires f0 + b0 == f1 + b1 && n <= |b0| && |b1| == |b0| - n
    ensures f1 == f0 + b0[..n] && b1 == b0[n..]
  {
    var all := f0 + b0;
    assert f1 == all[..|f1|] && b1 == all[|f1|..] && |f1| == |f0| + n;
    assert all[..|f0| + n] == f0 + b0[..n] && all[|f0| + n..] == b0[n..];
  }
}
