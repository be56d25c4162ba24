/** BITOP: the operation on strings of different lengths, with its fast path over four 64-bit words at a time. */
module BitOp {

  datatype Op = And | Or | Xor | Not

  /** Two bytes under an operation that takes two. */
  function Both(op: Op, x: bv8, y: bv8): bv8 {
    match op
    case And => x & y
    case Or => x | y
    case Xor => x ^ y
    case Not => x
  }

  /** Byte j of a string continued with zeros. */
  function PadByte(s: seq<bv8>, j: nat): bv8 { if j < |s| then s[j] else 0 }

  function NotByte(x: bv8): bv8 { !x }

  function First(op: Op, x: bv8): bv8 { if op.Not? then NotByte(x) else x }

  /** Byte j of the result over the first n strings. */
  function Fold(op: Op, srcs: seq<seq<bv8>>, j: nat, n: nat): bv8
    requires 1 <= n <= |srcs|
  {
    if n == 1 then First(op, PadByte(srcs[0], j)) else Both(op, Fold(op, srcs, j, n - 1), PadByte(srcs[n - 1], j))
  }

  /** The result of the operation: as long as the longest string. */
  ghost predicate Result(op: Op, srcs: seq<seq<bv8>>, res: seq<bv8>) {
    && srcs != []
    && (forall i | 0 <= i < |srcs| :: |srcs[i]| <= |res|) && (exists i :: 0 <= i < |srcs| && |srcs[i]| == |res|)
    && forall j | 0 <= j < |res| :: res[j] == Fold(op, srcs, j, |srcs|)
  }

  /** The length of the shortest and of the longest string. */
  method Lengths(srcs: seq<seq<bv8>>) returns (minlen: nat, maxlen: nat)
    requires srcs != []
    ensures forall i | 0 <= i < |srcs| :: minlen <= |srcs[i]| <= maxlen
    ensures exists i :: 0 <= i < |srcs| && |srcs[i]| == maxlen
  {
    minlen, maxlen := |srcs[0]|, |srcs[0]|;
    for j := 1 to |srcs|
      invariant forall i | 0 <= i < j :: minlen <= |srcs[i]| <= maxlen
      invariant exists i :: 0 <= i < j && |srcs[i]| == maxlen
    {
      if |srcs[j]| > maxlen { maxlen := |srcs[j]|; }
      if |srcs[j]| < minlen { minlen := |srcs[j]|; }
    }
  }

  /** Bytes from..to of res hold the result over the first n strings, the others what they did. */
  ghost predicate Partly(op: Op, srcs: seq<seq<bv8>>, was: seq<bv8>, res: seq<bv8>, from: nat, to: nat, n: nat) {
    && |res| == |was| && from <= to <= |res| && 1 <= n <= |srcs|
    && forall x | 0 <= x < |res| :: res[x] == if from <= x < to then Fold(op, srcs, x, n) else was[x]
  }

  // ---- words of eight bytes ----

  /** A 64-bit word loaded from eight bytes, on a little-endian machine. */
  function Word(a: bv8, b: bv8, c: bv8, d: bv8, e: bv8, f: bv8, g: bv8, h: bv8): bv64 {
    (a as bv64) | ((b as bv64) << 8) | ((c as bv64) << 16) | ((d as bv64) << 24)
    | ((e as bv64) << 32) | ((f as bv64) << 40) | ((g as bv64) << 48) | ((h as bv64) << 56)
  }

  /** The word that starts at byte j. */
  function WordAt(s: seq<bv8>, j: nat): bv64
    requires j + 8 <= |s|
  {
    Word(s[j], s[j + 1], s[j + 2], s[j + 3], s[j + 4], s[j + 5], s[j + 6], s[j + 7])
  }

  /** The bytes a word is stored as. */
  function Bytes(w: bv64): (s: seq<bv8>)
    ensures |s| == 8
  {
    [(w & 0xFF) as bv8, ((w >> 8) & 0xFF) as bv8, ((w >> 16) & 0xFF) as bv8, ((w >> 24) & 0xFF) as bv8,
     ((w >> 32) & 0xFF) as bv8, ((w >> 40) & 0xFF) as bv8, ((w >> 48) & 0xFF) as bv8, ((w >> 56) & 0xFF) as bv8]
  }

  /** Two words under an operation that takes two. */
  function BothWords(op: Op, x: bv64, y: bv64): bv64 {
    match op
    case And => x & y
    case Or => x | y
    case Xor => x ^ y
    case Not => x
  }

  /** Storing what was loaded. */
  lemma WordBytes(a: bv8, b: bv8, c: bv8, d: bv8, e: bv8, f: bv8, g: bv8, h: bv8)
    ensures Bytes(Word(a, b, c, d, e, f, g, h)) == [a, b, c, d, e, f, g, h]
  {
    Lane0(a, b, c, d, e, f, g, h);
    Lane1(a, b, c, d, e, f, g, h);
    Lane2(a, b, c, d, e, f, g, h);
    Lane3(a, b, c, d, e, f, g, h);
    Lane4(a, b, c, d, e, f, g, h);
    Lane5(a, b, c, d, e, f, g, h);
    Lane6(a, b, c, d, e, f, g, h);
    Lane7(a, b, c, d, e, f, g, h);
    hide Word;
  }

  lemma Lane0(a: bv8, b: bv8, c: bv8, d: bv8, e: bv8, f: bv8, g: bv8, h: bv8)
    ensures (Word(a, b, c, d, e, f, g, h) & 0xFF) as bv8 == a
  {
  }

  lemma Lane1(a: bv8, b: bv8, c: bv8, d: bv8, e: bv8, f: bv8, g: bv8, h: bv8)
    ensures ((Word(a, b, c, d, e, f, g, h) >> 8) & 0xFF) as bv8 == b
  {
  }

  lemma Lane2(a: bv8, b: bv8, c: bv8, d: bv8, e: bv8, f: bv8, g: bv8, h: bv8)
    ensures ((Word(a, b, c, d, e, f, g, h) >> 16) & 0xFF) as bv8 == c
  {
  }

  lemma Lane3(a: bv8, b: bv8, c: bv8, d: bv8, e: bv8, f: bv8, g: bv8, h: bv8)
    ensures ((Word(a, b, c, d, e, f, g, h) >> 24) & 0xFF) as bv8 == d
  {
  }

  lemma Lane4(a: bv8, b: bv8, c: bv8, d: bv8, e: bv8, f: bv8, g: bv8, h: bv8)
    ensures ((Word(a, b, c, d, e, f, g, h) >> 32) & 0xFF) as bv8 == e
  {
  }

  lemma Lane5(a: bv8, b: bv8, c: bv8, d: bv8, e: bv8, f: bv8, g: bv8, h: bv8)
    ensures ((Word(a, b, c, d, e, f, g, h) >> 40) & 0xFF) as bv8 == f
  {
  }

  lemma Lane6(a: bv8, b: bv8, c: bv8, d: bv8, e: bv8, f: bv8, g: bv8, h: bv8)
    ensures ((Word(a, b, c, d, e, f, g, h) >> 48) & 0xFF) as bv8 == g
  {
  }

  lemma Lane7(a: bv8, b: bv8, c: bv8, d: bv8, e: bv8, f: bv8, g: bv8, h: bv8)
    ensures ((Word(a, b, c, d, e, f, g, h) >> 56) & 0xFF) as bv8 == h
  {
  }

  lemma AndLanes(a: bv8, b: bv8, c: bv8, d: bv8, e: bv8, f: bv8, g: bv8, h: bv8,
                 i: bv8, j: bv8, k: bv8, l: bv8, m: bv8, n: bv8, o: bv8, p: bv8)
    ensures BothWords(And, Word(a, b, c, d, e, f, g, h), Word(i, j, k, l, m, n, o, p))
            == Word(a & i, b & j, c & k, d & l, e & m, f & n, g & o, h & p)
  {
  }

  lemma OrLanes(a: bv8, b: bv8, c: bv8, d: bv8, e: bv8, f: bv8, g: bv8, h: bv8,
                i: bv8, j: bv8, k: bv8, l: bv8, m: bv8, n: bv8, o: bv8, p: bv8)
    ensures BothWords(Or, Word(a, b, c, d, e, f, g, h), Word(i, j, k, l, m, n, o, p))
            == Word(a | i, b | j, c | k, d | l, e | m, f | n, g | o, h | p)
  {
  }

  lemma XorLanes(a: bv8, b: bv8, c: bv8, d: bv8, e: bv8, f: bv8, g: bv8, h: bv8,
                 i: bv8, j: bv8, k: bv8, l: bv8, m: bv8, n: bv8, o: bv8, p: bv8)
    ensures BothWords(Xor, Word(a, b, c, d, e, f, g, h), Word(i, j, k, l, m, n, o, p))
            == Word(a ^ i, b ^ j, c ^ k, d ^ l, e ^ m, f ^ n, g ^ o, h ^ p)
  {
  }

  function NotWord(w: bv64): bv64 { !w }

  lemma InvertLanes(a: bv8, b: bv8, c: bv8, d: bv8, e: bv8, f: bv8, g: bv8, h: bv8)
    ensures NotWord(Word(a, b, c, d, e, f, g, h)) == Word(!a, !b, !c, !d, !e, !f, !g, !h)
  {
  }

  lemma NotLanes(a: bv8, b: bv8, c: bv8, d: bv8, e: bv8, f: bv8, g: bv8, h: bv8)
    ensures NotWord(Word(a, b, c, d, e, f, g, h))
            == Word(NotByte(a), NotByte(b), NotByte(c), NotByte(d), NotByte(e), NotByte(f), NotByte(g), NotByte(h))
  {
    hide Word, NotWord;
    InvertLanes(a, b, c, d, e, f, g, h);
  }

  lemma BothLanes(op: Op, a: bv8, b: bv8, c: bv8, d: bv8, e: bv8, f: bv8, g: bv8, h: bv8,
                  i: bv8, j: bv8, k: bv8, l: bv8, m: bv8, n: bv8, o: bv8, p: bv8)
    ensures BothWords(op, Word(a, b, c, d, e, f, g, h), Word(i, j, k, l, m, n, o, p))
            == Word(Both(op, a, i), Both(op, b, j), Both(op, c, k), Both(op, d, l),
                    Both(op, e, m), Both(op, f, n), Both(op, g, o), Both(op, h, p))
  {
    hide Word, BothWords, Both;
    match op {
      case And => BothAnd(a, b, c, d, e, f, g, h, i, j, k, l, m, n, o, p);
      case Or => BothOr(a, b, c, d, e, f, g, h, i, j, k, l, m, n, o, p);
      case Xor => BothXor(a, b, c, d, e, f, g, h, i, j, k, l, m, n, o, p);
      case Not => BothNot(a, b, c, d, e, f, g, h, i, j, k, l, m, n, o, p);
    }
  }

  lemma BothAnd(a: bv8, b: bv8, c: bv8, d: bv8, e: bv8, f: bv8, g: bv8, h: bv8,
                i: bv8, j: bv8, k: bv8, l: bv8, m: bv8, n: bv8, o: bv8, p: bv8)
    ensures BothWords(And, Word(a, b, c, d, e, f, g, h), Word(i, j, k, l, m, n, o, p))
            == Word(Both(And, a, i), Both(And, b, j), Both(And, c, k), Both(And, d, l),
                    Both(And, e, m), Both(And, f, n), Both(And, g, o), Both(And, h, p))
  {
    hide Word, BothWords;
    AndLanes(a, b, c, d, e, f, g, h, i, j, k, l, m, n, o, p);
  }

  lemma BothOr(a: bv8, b: bv8, c: bv8, d: bv8, e: bv8, f: bv8, g: bv8, h: bv8,
               i: bv8, j: bv8, k: bv8, l: bv8, m: bv8, n: bv8, o: bv8, p: bv8)
    ensures BothWords(Or, Word(a, b, c, d, e, f, g, h), Word(i, j, k, l, m, n, o, p))
            == Word(Both(Or, a, i), Both(Or, b, j), Both(Or, c, k), Both(Or, d, l),
                    Both(Or, e, m), Both(Or, f, n), Both(Or, g, o), Both(Or, h, p))
  {
    hide Word, BothWords;
    OrLanes(a, b, c, d, e, f, g, h, i, j, k, l, m, n, o, p);
  }

  lemma BothXor(a: bv8, b: bv8, c: bv8, d: bv8, e: bv8, f: bv8, g: bv8, h: bv8,
                i: bv8, j: bv8, k: bv8, l: bv8, m: bv8, n: bv8, o: bv8, p: bv8)
    ensures BothWords(Xor, Word(a, b, c, d, e, f, g, h), Word(i, j, k, l, m, n, o, p))
            == Word(Both(Xor, a, i), Both(Xor, b, j), Both(Xor, c, k), Both(Xor, d, l),
                    Both(Xor, e, m), Both(Xor, f, n), Both(Xor, g, o), Both(Xor, h, p))
  {
    hide Word, BothWords;
    XorLanes(a, b, c, d, e, f, g, h, i, j, k, l, m, n, o, p);
  }

  lemma BothNot(a: bv8, b: bv8, c: bv8, d: bv8, e: bv8, f: bv8, g: bv8, h: bv8,
                i: bv8, j: bv8, k: bv8, l: bv8, m: bv8, n: bv8, o: bv8, p: bv8)
    ensures BothWords(Not, Word(a, b, c, d, e, f, g, h), Word(i, j, k, l, m, n, o, p))
            == Word(Both(Not, a, i), Both(Not, b, j), Both(Not, c, k), Both(Not, d, l),
                    Both(Not, e, m), Both(Not, f, n), Both(Not, g, o), Both(Not, h, p))
  {
    hide Word;
  }

  /** A word operation is the byte operation on each of its bytes. */
  lemma WordIsBytes(op: Op, s: seq<bv8>, t: seq<bv8>, j: nat, x: nat)
    requires j + 8 <= |s| && j + 8 <= |t| && x < 8
    ensures Bytes(BothWords(op, WordAt(s, j), WordAt(t, j)))[x] == Both(op, s[j + x], t[j + x])
  {
    hide Word, Bytes, Both, BothWords;
    var a, b, c, d, e, f, g, h := s[j], s[j + 1], s[j + 2], s[j + 3], s[j + 4], s[j + 5], s[j + 6], s[j + 7];
    var i, k, l, m, n, o, p, q := t[j], t[j + 1], t[j + 2], t[j + 3], t[j + 4], t[j + 5], t[j + 6], t[j + 7];
    BothLanes(op, a, b, c, d, e, f, g, h, i, k, l, m, n, o, p, q);
    WordBytes(Both(op, a, i), Both(op, b, k), Both(op, c, l), Both(op, d, m),
              Both(op, e, n), Both(op, f, o), Both(op, g, p), Both(op, h, q));
  }

  lemma NotIsBytes(s: seq<bv8>, j: nat, x: nat)
    requires j + 8 <= |s| && x < 8
    ensures Bytes(NotWord(WordAt(s, j)))[x] == NotByte(s[j + x])
  {
    hide Word, Bytes, NotWord, NotByte;
    var a, b, c, d, e, f, g, h := s[j], s[j + 1], s[j + 2], s[j + 3], s[j + 4], s[j + 5], s[j + 6], s[j + 7];
    NotLanes(a, b, c, d, e, f, g, h);
    WordBytes(NotByte(a), NotByte(b), NotByte(c), NotByte(d), NotByte(e), NotByte(f), NotByte(g), NotByte(h));
  }

  /** Store a word at byte j. */
  method StoreWord(res: array<bv8>, j: nat, w: bv64)
    requires j + 8 <= res.Length
    modifies res
    ensures forall x | 0 <= x < res.Length :: res[x] == if j <= x < j + 8 then Bytes(w)[x - j] else old(res[x])
  {
    var s := Bytes(w);
    hide Bytes;
    for k := 0 to 8
      invariant forall x | 0 <= x < res.Length :: res[x] == if j <= x < j + k then s[x - j] else old(res[x])
    {
      res[j + k] := s[k];
    }
  }

  /** `lres[k] &= lp[i][k]` and its like, for the word at byte j. */
  method CombineWord(op: Op, t: seq<bv8>, res: array<bv8>, j: nat)
    requires j + 8 <= res.Length && j + 8 <= |t|
    modifies res
    ensures forall x | 0 <= x < res.Length ::
        res[x] == if j <= x < j + 8 then Both(op, old(res[x]), t[x]) else old(res[x])
  {
    hide WordAt, BothWords, Bytes, Both;
    ghost var was := res[..];
    StoreWord(res, j, BothWords(op, WordAt(res[..], j), WordAt(t, j)));
    forall x | j <= x < j + 8 ensures res[x] == Both(op, was[x], t[x]) { WordIsBytes(op, was, t, j, x - j); }
  }

  /** `lres[k] = ~lres[k]`, for the word at byte j. */
  method InvertWord(res: array<bv8>, j: nat)
    requires j + 8 <= res.Length
    modifies res
    ensures forall x | 0 <= x < res.Length :: res[x] == if j <= x < j + 8 then NotByte(old(res[x])) else old(res[x])
  {
    hide WordAt, Bytes, NotWord, NotByte;
    ghost var was := res[..];
    StoreWord(res, j, NotWord(WordAt(res[..], j)));
    forall x | j <= x < j + 8 ensures res[x] == NotByte(was[x]) { NotIsBytes(was, j, x - j); }
  }

  // ---- the fast path ----

  /** Four words of one more string. */
  method Combine(op: Op, srcs: seq<seq<bv8>>, n: nat, res: array<bv8>, j: nat, ghost was: seq<bv8>)
    requires 1 <= n < |srcs| && j + 32 <= |srcs[n]| && Partly(op, srcs, was, res[..], j, j + 32, n)
    modifies res
    ensures Partly(op, srcs, was, res[..], j, j + 32, n + 1)
  {
    hide Both;
    CombineWord(op, srcs[n], res, j);
    CombineWord(op, srcs[n], res, j + 8);
    CombineWord(op, srcs[n], res, j + 16);
    CombineWord(op, srcs[n], res, j + 24);
  }

  /** Four words complemented. */
  method Invert(res: array<bv8>, j: nat)
    requires j + 32 <= res.Length
    modifies res
    ensures forall x | 0 <= x < res.Length :: res[x] == if j <= x < j + 32 then NotByte(old(res[x])) else old(res[x])
  {
    hide NotByte;
    InvertWord(res, j);
    InvertWord(res, j + 8);
    InvertWord(res, j + 16);
    InvertWord(res, j + 24);
  }

  /** One block of the fast path. NOT has only the first string to complement. */
  method Block(op: Op, srcs: seq<seq<bv8>>, res: array<bv8>, j: nat)
    requires srcs != [] && (op.Not? ==> |srcs| == 1) && j + 32 <= res.Length
    requires forall i | 0 <= i < |srcs| :: j + 32 <= |srcs[i]|
    requires forall x | j <= x < j + 32 :: res[x] == srcs[0][x]
    modifies res
    ensures Partly(op, srcs, old(res[..]), res[..], j, j + 32, |srcs|)
  {
    ghost var was := res[..];
    if op.Not? { Invert(res, j); }
    for n := 1 to |srcs|
      invariant Partly(op, srcs, was, res[..], j, j + 32, n)
    {
      Combine(op, srcs, n, res, j, was);
    }
  }

  /** The fast path: as long as all strings have 32 more bytes. */
  method FastPath(op: Op, srcs: seq<seq<bv8>>, minlen: nat, res: array<bv8>) returns (j: nat)
    requires srcs != [] && (op.Not? ==> |srcs| == 1) && minlen <= res.Length
    requires forall i | 0 <= i < |srcs| :: minlen <= |srcs[i]|
    modifies res
    ensures j <= minlen && forall x | 0 <= x < j :: res[x] == Fold(op, srcs, x, |srcs|)
  {
    hide Fold;
    forall x | 0 <= x < minlen { res[x] := srcs[0][x]; }
    j := 0;
    while minlen - j >= 32
      invariant j <= minlen && forall x | 0 <= x < j :: res[x] == Fold(op, srcs, x, |srcs|)
      invariant forall x | j <= x < minlen :: res[x] == srcs[0][x]
    {
      ghost var was := res[..];
      Block(op, srcs, res, j);
      assert forall x | 0 <= x < res.Length :: res[x] == res[..][x] && (x < j || x >= j + 32 ==> res[x] == was[x]);
      j := j + 32;
    }
  }

  /** The byte loop: one byte of every string, zero past its end. */
  method ByteLoop(op: Op, srcs: seq<seq<bv8>>, j: nat) returns (output: bv8)
    requires srcs != [] && (op.Not? ==> |srcs| == 1)
    ensures output == Fold(op, srcs, j, |srcs|)
  {
    output := if |srcs[0]| <= j then 0 else srcs[0][j];
    if op.Not? { output := !output; }
    for i := 1 to |srcs|
      invariant output == Fold(op, srcs, j, i)
    {
      var byte := if |srcs[i]| <= j then 0 else srcs[i][j];
      output := Both(op, output, byte);
    }
  }

  /** `bitopCommand`, once the strings are at hand; missing keys are empty strings. The fast path runs when the
      shortest string has 32 bytes and there are at most 16. */
  method BitOpCommand(op: Op, srcs: seq<seq<bv8>>) returns (res: array<bv8>)
    requires srcs != [] && (op.Not? ==> |srcs| == 1)
    ensures fresh(res) && Result(op, srcs, res[..])
  {
    hide Fold;
    var minlen, maxlen := Lengths(srcs);
    res := new bv8[maxlen];
    var j := 0;
    if minlen >= 32 && |srcs| <= 16 { j := FastPath(op, srcs, minlen, res); }
    while j < maxlen
      invariant j <= maxlen && forall x | 0 <= x < j :: res[x] == Fold(op, srcs, x, |srcs|)
    {
      var output := ByteLoop(op, srcs, j);
      res[j] := output;
      j := j + 1;
    }
  }
}
