/** The rewrite buffer of src/aof.c: a list of fixed-size blocks that collects what is fed while a child rewrites
    the file. Bytes leave it in order, through the pipe to the child or, at the end, to the rewritten file. */
module AofBuffer {
  import opened Bytes

  /** AOF_RW_BUF_BLOCK_SIZE: 10 MB. */
  const BLOCK_SIZE: nat := 10485760

  ghost predicate Fits(blocks: seq<bytes>) {
    forall b | b in blocks :: |b| <= BLOCK_SIZE
  }

  /** How many bytes of the blocks a pipe takes whose writes return `accepts`: one write after the other from the front
      block, until one takes nothing. */
  function PipeTakes(blocks: seq<bytes>, accepts: seq<nat>): nat
    decreases |accepts|, |blocks|
  {
    if blocks == [] then 0
    else if blocks[0] == [] then PipeTakes(blocks[1..], accepts)
    else if accepts == [] || accepts[0] == 0 then 0
    else if accepts[0] < |blocks[0]| then
      accepts[0] + PipeTakes([blocks[0][accepts[0]..]] + blocks[1..], accepts[1..])
    else |blocks[0]| + PipeTakes(blocks[1..], accepts[1..])
  }

  /** It takes everything if there is a write for each block that takes a whole one. */
  lemma {:induction false} PipeTakesAll(blocks: seq<bytes>, accepts: seq<nat>)
    requires Fits(blocks) && |accepts| >= |blocks| && forall i | 0 <= i < |blocks| :: accepts[i] >= BLOCK_SIZE
    ensures PipeTakes(blocks, accepts) == |Concat(blocks)|
    decreases |blocks|
  {
    if blocks != [] {
      assert blocks[0] in blocks;
      PipeTakesAll(blocks[1..], if blocks[0] == [] then accepts else accepts[1..]);
    }
  }

  /** It takes the sum of what the writes return, as long as none reaches the end of the first block. */
  lemma {:induction false} PipeTakesSum(blocks: seq<bytes>, accepts: seq<nat>)
    requires blocks != [] && Sum(accepts) < |blocks[0]| && forall a | a in accepts :: a > 0
    ensures PipeTakes(blocks, accepts) == Sum(accepts)
    decreases |accepts|
  {
    if accepts != [] {
      assert accepts[0] in accepts && forall a | a in accepts[1..] :: a in accepts;
      PipeTakesSum([blocks[0][accepts[0]..]] + blocks[1..], accepts[1..]);
    }
  }

  /** One write, and the removal of the block if that emptied it. */
  lemma TookFront(was: seq<bytes>, now: seq<bytes>, accepts: seq<nat>, n: nat)
    requires was != [] && was[0] != [] && accepts != [] && accepts[0] > 0
    requires n == (if accepts[0] < |was[0]| then accepts[0] else |was[0]|) && now == [was[0][n..]] + was[1..]
    ensures PipeTakes(was, accepts) == n + PipeTakes(if now[0] == [] then now[1..] else now, accepts[1..])
  {
    assert now[1..] == was[1..];
  }

  lemma TookEmpty(was: seq<bytes>, accepts: seq<nat>)
    requires was != [] && was[0] == []
    ensures PipeTakes(was, accepts) == PipeTakes(was[1..], accepts)
  {
  }

  function Sum(ns: seq<nat>): nat { if ns == [] then 0 else ns[0] + Sum(ns[1..]) }

  class RewriteBuffer {
    /** The used part of each block; the rest of its BLOCK_SIZE bytes is free. */
    var blocks: seq<bytes>

    ghost predicate Ok()
      reads this
    {
      Fits(blocks)
    }

    /** The buffered bytes, in the order they were fed. */
    ghost function Contents(): bytes
      reads this
    {
      Concat(blocks)
    }

    constructor ()
      ensures Ok() && Contents() == []
    {
      blocks := [];
    }

    /** `aofRewriteBufferReset`. */
    method Reset()
      modifies this
      ensures Ok() && Contents() == []
    {
      blocks := [];
    }

    /** `aofRewriteBufferSize`. */
    method Size() returns (size: nat)
      ensures size == |Contents()|
    {
      size := 0;
      for i := 0 to |blocks|
        invariant size == |Concat(blocks[..i])|
      {
        assert blocks[..i + 1] == blocks[..i] + [blocks[i]];
        ConcatAppend(blocks[..i], [blocks[i]]);
        size := size + |blocks[i]|;
      }
      assert blocks[..|blocks|] == blocks;
    }

    /** `aofRewriteBufferAppend`: fill the last block, then new ones. */
    method Append(s: bytes)
      requires Ok()
      modifies this
      ensures Ok() && Contents() == old(Contents()) + s
    {
      var done := 0;
      while done < |s|
        invariant done <= |s| && Ok() && Contents() == old(Contents()) + s[..done]
        decreases |s| - done, if blocks != [] && |blocks[|blocks| - 1]| < BLOCK_SIZE then 0 else 1
      {
        if blocks != [] && |blocks[|blocks| - 1]| < BLOCK_SIZE {
          var free := BLOCK_SIZE - |blocks[|blocks| - 1]|;
          var n := if free < |s| - done then free else |s| - done;
          ExtendLast(s[done..done + n]);
          assert s[..done] + s[done..done + n] == s[..done + n];
          done := done + n;
        } else {
          NewBlock();
        }
      }
      assert s[..done] == s;
    }

    method ExtendLast(piece: bytes)
      requires Ok() && blocks != [] && |blocks[|blocks| - 1]| + |piece| <= BLOCK_SIZE
      modifies this
      ensures Ok() && Contents() == old(Contents()) + piece && blocks != []
    {
      var k := |blocks| - 1;
      ghost var rest, last := blocks[..k], blocks[k];
      assert blocks == rest + [last];
      ConcatAppend(rest, [last]);
      ConcatAppend(rest, [last + piece]);
      blocks := blocks[k := blocks[k] + piece];
      assert blocks == rest + [last + piece];
    }

    method NewBlock()
      requires Ok()
      modifies this
      ensures Ok() && Contents() == old(Contents()) && blocks != [] && |blocks[|blocks| - 1]| < BLOCK_SIZE
    {
      ConcatAppend(blocks, [[]]);
      blocks := blocks + [[]];
    }

    /** `aofChildWriteDiffData`: push blocks into the pipe until it refuses, the buffer is empty or the child asked
        to stop. `accepts` is what successive writes return, of which `used` were made. What the pipe takes is
        exactly what leaves the front of the buffer. */
    method WriteDiffData(stop: bool, accepts: seq<nat>) returns (sent: bytes, used: nat)
      requires Ok()
      modifies this
      ensures Ok() && old(Contents()) == sent + Contents()
      ensures |sent| == if stop then 0 else PipeTakes(old(blocks), accepts)
      ensures used <= |accepts| && (!stop && Contents() != [] ==> used == |accepts| || accepts[used] == 0)
    {
      sent, used := [], 0;
      while true
        invariant used <= |accepts| && Ok() && old(Contents()) == sent + Contents()
        invariant stop ==> sent == []
        invariant PipeTakes(old(blocks), accepts) == |sent| + PipeTakes(blocks, accepts[used..])
        decreases |accepts| - used, |blocks|
      {
        if stop || blocks == [] { return; }
        hide Ok;
        ghost var was, left := blocks, accepts[used..];
        if blocks[0] != [] {
          if used == |accepts| || accepts[used] == 0 { return; }
          var n := if accepts[used] < |blocks[0]| then accepts[used] else |blocks[0]|;
          var taken := TakeFront(n);
          Join(sent, taken, Contents());
          sent := sent + taken;
          used := used + 1;
          assert accepts[used..] == left[1..];
          TookFront(was, blocks, left, n);
        } else {
          TookEmpty(was, left);
        }
        DropEmpty();
      }
    }

    /** Drop the first block if it is empty. */
    method DropEmpty()
      requires Ok() && blocks != []
      modifies this
      ensures Ok() && Contents() == old(Contents())
          && blocks == if old(blocks)[0] == [] then old(blocks)[1..] else old(blocks)
    {
      if blocks[0] == [] { blocks := blocks[1..]; }
    }

    method TakeFront(n: nat) returns (taken: bytes)
      requires Ok() && blocks != [] && n <= |blocks[0]|
      modifies this
      ensures Ok() && taken + Contents() == old(Contents()) && |taken| == n
      ensures blocks == [old(blocks)[0][n..]] + old(blocks)[1..]
    {
      ghost var was := blocks;
      taken := blocks[0][..n];
      blocks := blocks[0 := blocks[0][n..]];
      assert blocks[1..] == was[1..];
      assert was[0] == taken + was[0][n..];
      Join(taken, was[0][n..], Concat(was[1..]));
    }

    /** Each write takes its whole block. */
    ghost predicate TakesAll(accepts: seq<nat>)
      reads this
    {
      forall i | 0 <= i < |blocks| && blocks[i] != [] :: i < |accepts| && accepts[i] >= |blocks[i]|
    }

    /** `aofRewriteBufferWrite`: everything or an error. `accepts` is what each write returns. */
    method WriteTo(accepts: seq<nat>) returns (written: bytes, ok: bool)
      ensures ok <==> TakesAll(accepts)
      ensures ok ==> written == Contents()
      ensures written <= Contents()
    {
      written := [];
      for i := 0 to |blocks|
        invariant written == Concat(blocks[..i])
        invariant forall k | 0 <= k < i && blocks[k] != [] :: k < |accepts| && accepts[k] >= |blocks[k]|
      {
        assert blocks == blocks[..i] + [blocks[i]] + blocks[i + 1..];
        ConcatAppend(blocks[..i] + [blocks[i]], blocks[i + 1..]);
        ConcatAppend(blocks[..i], [blocks[i]]);
        assert blocks[..i + 1] == blocks[..i] + [blocks[i]];
        if blocks[i] != [] {
          var n := if i < |accepts| then accepts[i] else 0;
          if n < |blocks[i]| {
            written := written + blocks[i][..n];
            assert written <= Concat(blocks[..i] + [blocks[i]]);
            return written, false;
          }
          written := written + blocks[i];
        }
      }
      assert blocks[..|blocks|] == blocks;
      return written, true;
    }
  }
}
