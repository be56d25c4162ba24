/** `flushAppendOnlyFile`: the buffer goes to the file, and no byte is lost or doubled whatever write and
    ftruncate answer. */
module AofFlush {
  import opened Bytes

  datatype Policy = No | EverySec | Always

  /** What one write(2) answers: so many bytes, EINTR, or another error. */
  datatype WriteResult = Wrote(n: nat) | Interrupted | Failed

  /** The bytes the answers offer to take before the first error. */
  function Offered(answers: seq<WriteResult>): nat {
    if answers == [] then 0
    else
      match answers[0]
      case Wrote(n) => n + Offered(answers[1..])
      case Interrupted => Offered(answers[1..])
      case Failed => 0
  }

  /** Of a buffer of len bytes, how many get written. */
  function Through(answers: seq<WriteResult>, len: nat): nat {
    if Offered(answers) < len then Offered(answers) else len
  }

  class AppendOnlyFile {
    const policy: Policy
    var file: bytes
    var buf: bytes
    var currentSize: nat
    var postponedSince: int
    var healthy: bool
    var exited: bool

    /** The recorded size is the size of the file. */
    ghost predicate Ok()
      reads this
    {
      currentSize == |file| && !exited
    }

    /** What the file holds or will hold. */
    ghost function Log(): bytes
      reads this
    {
      file + buf
    }

    constructor (policy: Policy, file: bytes)
      ensures Ok() && this.file == file && buf == [] && this.policy == policy
    {
      this.policy, this.file, this.buf, currentSize := policy, file, [], |file|;
      postponedSince, healthy, exited := 0, true, false;
    }

    /** The end of `feedAppendOnlyFile`. */
    method Feed(s: bytes)
      requires Ok()
      modifies this`buf
      ensures Ok() && buf == old(buf) + s && Log() == old(Log()) + s
    {
      assert file + (buf + s) == file + buf + s;
      buf := buf + s;
    }

    /** `aofWrite`: retry short and interrupted writes; -1 if the first error comes before any byte. The answers
        are used in turn, and a write beyond them fails. */
    method Write(answers: seq<WriteResult>) returns (n: int)
      modifies this`file
      ensures var t := Through(answers, |buf|);
        file == old(file) + buf[..t] && n == if t == 0 && buf != [] then -1 else t
    {
      var done: nat := 0;
      var i := 0;
      while done < |buf|
        invariant done <= |buf| && i <= |answers| && file == old(file) + buf[..done]
        invariant Through(answers, |buf|) == done + Through(answers[i..], |buf| - done)
        decreases |answers| - i
      {
        assert i < |answers| ==> answers[i..][0] == answers[i] && answers[i..][1..] == answers[i + 1..];
        if i >= |answers| || answers[i].Failed? { return if done > 0 then done else -1; }
        if answers[i].Wrote? {
          var k := if answers[i].n < |buf| - done then answers[i].n else |buf| - done;
          assert buf[..done] + buf[done..done + k] == buf[..done + k];
          file := file + buf[done..done + k];
          done := done + k;
        }
        i := i + 1;
      }
      return done;
    }

    /** The flush waits for a background fsync, for less than two seconds, unless it is forced. */
    predicate Postpones(force: bool, syncing: bool, now: int)
      reads this
    {
      policy == EverySec && !force && syncing && (postponedSince == 0 || now - postponedSince < 2)
    }

    /** `flushAppendOnlyFile`. Unless it is postponed, it writes the whole buffer if and only if the answers let that
        much through. If not, a server that must sync always exits, and any other is unhealthy, with the short write
        undone or dropped from the buffer. The log is conserved, whatever the answers. */
    method Flush(force: bool, syncing: bool, now: int, answers: seq<WriteResult>, truncates: bool)
      requires Ok()
      modifies this
      ensures !exited ==> Ok() && Log() == old(Log())
      ensures old(buf) == [] || old(Postpones(force, syncing, now)) ==>
                file == old(file) && buf == old(buf) && healthy == old(healthy) && !exited
      ensures postponedSince ==
                if old(buf) == [] then old(postponedSince)
                else if !old(Postpones(force, syncing, now)) then 0
                else if old(postponedSince) == 0 then now else old(postponedSince)
      ensures var t := Through(answers, |old(buf)|);
        old(buf) != [] && !old(Postpones(force, syncing, now)) ==>
          && (exited <==> t < |old(buf)| && policy == Always)
          && (!exited ==> (healthy <==> t == |old(buf)|))
          && (t == |old(buf)| ==> buf == [] && file == old(file) + old(buf))
          && (t < |old(buf)| && !exited ==>
                if truncates || t == 0 then buf == old(buf) && file == old(file)
                else buf == old(buf)[t..] && file == old(file) + old(buf)[..t])
      ensures buf == old(buf) || buf == [] || (exists k :: 0 < k < old(|buf|) && buf == old(buf)[k..])
    {
      if buf == [] { return; }
      if policy == EverySec && !force && syncing {
        if postponedSince == 0 {
          postponedSince := now;
          return;
        }
        if now - postponedSince < 2 { return; }
      }
      var n := Write(answers);
      postponedSince := 0;
      if n != |buf| {
        Recover(n, truncates);
        return;
      }
      assert buf[..n] == buf;
      healthy := true;
      currentSize := currentSize + n;
      buf := [];
    }

    /** The error branch: undo a short write, or drop from the buffer what stayed in the file. */
    method Recover(n: int, truncates: bool)
      requires -1 <= n < |buf| && n != 0 && !exited
      requires currentSize <= |file| && |file| == currentSize + (if n < 0 then 0 else n)
      requires n > 0 ==> file[currentSize..] == buf[..n]
      modifies this`file, this`buf, this`currentSize, this`healthy, this`exited
      ensures exited <==> policy == Always
      ensures !exited ==> !healthy && currentSize == |file| && file + buf == old(file[..currentSize] + buf)
      ensures !exited ==> if n > 0 && !truncates then buf == old(buf)[n..] && file == old(file)
                          else buf == old(buf) && file == old(file)[..old(currentSize)]
      ensures exited ==> buf == old(buf)
    {
      var m := n;
      if n != -1 && truncates {
        file := file[..currentSize];
        m := -1;
      }
      if policy == Always {
        exited := true;
        return;
      }
      healthy := false;
      if m > 0 {
        currentSize := currentSize + m;
        assert old(file) == old(file)[..old(currentSize)] + buf[..n];
        assert buf == buf[..n] + buf[n..];
        buf := buf[m..];
      } else {
        assert n < 0 ==> file == file[..currentSize];
      }
    }
  }
}
