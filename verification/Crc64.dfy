/** CRC64 and the payload of DUMP and RESTORE that it protects. */
module Crc64 {

  import opened Crc64Table

  /** One byte: `crc64_tab[(uint8_t)crc ^ byte] ^ (crc >> 8)`. */
  function Step(crc: bv64, b: bv8): bv64 { Xor(Table(Low(Mix(crc, b))), Down(crc, 8)) }

  function Mix(crc: bv64, b: bv8): bv64 { crc ^ (b as bv64) }

  function Low(c: bv64): bv64 { c & 0xff }

  function High(c: bv64): bv64 { c & 0xffffffffffffff00 }

  function Down(c: bv64, k: nat): bv64
    requires k <= 8
  {
    match k
    case 0 => c case 1 => c >> 1 case 2 => c >> 2 case 3 => c >> 3 case 4 => c >> 4
    case 5 => c >> 5 case 6 => c >> 6 case 7 => c >> 7 case _ => c >> 8
  }

  function Crc(crc: bv64, s: seq<bv8>): bv64 {
    if s == [] then crc else Step(Crc(crc, s[..|s| - 1]), s[|s| - 1])
  }

  /** `crc64`. */
  method Crc64(crc: bv64, s: seq<bv8>) returns (r: bv64)
    ensures r == Crc(crc, s)
  {
    hide Step;
    r := crc;
    for j := 0 to |s|
      invariant r == Crc(crc, s[..j])
    {
      assert s[..j + 1][..j] == s[..j];
      r := Step(r, s[j]);
    }
    assert s[..|s|] == s;
  }

  // ---- a step loses nothing ----

  lemma ShiftInjectiveBits(a: bv64, b: bv64)
    requires (if a & 1 == 1 then (a >> 1) ^ 0x95ac9329ac4bc9b5 else a >> 1)
        == (if b & 1 == 1 then (b >> 1) ^ 0x95ac9329ac4bc9b5 else b >> 1)
    ensures a == b
  {
  }

  /** The top bit of the polynomial tells the bit that was shifted out. */
  lemma ShiftInjective(a: bv64, b: bv64)
    requires Shift(a) == Shift(b)
    ensures a == b
  {
    ShiftInjectiveBits(a, b);
  }

  lemma Shift8Injective(a: bv64, b: bv64)
    requires Shift8(a) == Shift8(b)
    ensures a == b
  {
    hide Shift;
    var a1, b1 := Shift(a), Shift(b);
    var a2, b2 := Shift(a1), Shift(b1);
    var a3, b3 := Shift(a2), Shift(b2);
    var a4, b4 := Shift(a3), Shift(b3);
    var a5, b5 := Shift(a4), Shift(b4);
    var a6, b6 := Shift(a5), Shift(b5);
    var a7, b7 := Shift(a6), Shift(b6);
    ShiftInjective(a7, b7);
    ShiftInjective(a6, b6);
    ShiftInjective(a5, b5);
    ShiftInjective(a4, b4);
    ShiftInjective(a3, b3);
    ShiftInjective(a2, b2);
    ShiftInjective(a1, b1);
    ShiftInjective(a, b);
  }

  lemma Down0(c: bv64)
    requires Low(c) == 0
    ensures Shift(Down(c, 0)) == Down(c, 1)
  {
  }

  lemma Down1(c: bv64)
    requires Low(c) == 0
    ensures Shift(Down(c, 1)) == Down(c, 2)
  {
  }

  lemma Down2(c: bv64)
    requires Low(c) == 0
    ensures Shift(Down(c, 2)) == Down(c, 3)
  {
  }

  lemma Down3(c: bv64)
    requires Low(c) == 0
    ensures Shift(Down(c, 3)) == Down(c, 4)
  {
  }

  lemma Down4(c: bv64)
    requires Low(c) == 0
    ensures Shift(Down(c, 4)) == Down(c, 5)
  {
  }

  lemma Down5(c: bv64)
    requires Low(c) == 0
    ensures Shift(Down(c, 5)) == Down(c, 6)
  {
  }

  lemma Down6(c: bv64)
    requires Low(c) == 0
    ensures Shift(Down(c, 6)) == Down(c, 7)
  {
  }

  lemma Down7(c: bv64)
    requires Low(c) == 0
    ensures Shift(Down(c, 7)) == Down(c, 8)
  {
  }

  /** What lies above the lowest byte is only moved down. */
  lemma Shift8High(c: bv64)
    requires Low(c) == 0
    ensures Shift8(c) == Down(c, 8)
  {
    DownNone(c);
    hide Shift, Down, Low;
    Down0(c);
    Down1(c);
    Down2(c);
    Down3(c);
    Down4(c);
    Down5(c);
    Down6(c);
    Down7(c);
  }

  lemma DownNone(c: bv64)
    ensures Down(c, 0) == c
  {
  }

  lemma Split(c: bv64)
    ensures Xor(Low(c), High(c)) == c && Low(High(c)) == 0
  {
  }

  lemma LowByte(c: bv64)
    ensures Low(c) & 0xff == Low(c)
  {
  }

  lemma HighMix(crc: bv64, b: bv8)
    ensures Down(High(Mix(crc, b)), 8) == Down(crc, 8)
  {
  }

  /** The table step divides eight bits at once. */
  lemma StepDivides(crc: bv64, b: bv8)
    ensures Step(crc, b) == Shift8(Mix(crc, b))
  {
    hide Shift8, Xor, Mix, Low, High, Down, Table;
    var c := Mix(crc, b);
    Split(c);
    LowByte(c);
    TableIs(Low(c));
    Shift8Xor(Low(c), High(c));
    Shift8High(High(c));
    HighMix(crc, b);
  }

  lemma MixInjective(x: bv64, y: bv64, b: bv8, c: bv8)
    ensures Mix(x, b) == Mix(y, b) ==> x == y
    ensures Mix(x, b) == Mix(x, c) ==> b == c
  {
  }

  /** The step is injective in the state and in the byte. */
  lemma StepInjective(x: bv64, y: bv64, b: bv8, c: bv8)
    ensures Step(x, b) == Step(y, b) ==> x == y
    ensures Step(x, b) == Step(x, c) ==> b == c
  {
    hide Step, Shift8, Mix;
    StepDivides(x, b);
    StepDivides(y, b);
    StepDivides(x, c);
    MixInjective(x, y, b, c);
    if Step(x, b) == Step(y, b) { Shift8Injective(Mix(x, b), Mix(y, b)); }
    if Step(x, b) == Step(x, c) { Shift8Injective(Mix(x, b), Mix(x, c)); }
  }

  // ---- one wrong byte ----

  /** Different checksums stay different under equal bytes. */
  lemma {:induction false} CrcKeepsApart(x: bv64, y: bv64, s: seq<bv8>)
    requires x != y
    ensures Crc(x, s) != Crc(y, s)
    decreases |s|
  {
    hide Step;
    if s != [] {
      var n := |s| - 1;
      CrcKeepsApart(x, y, s[..n]);
      StepInjective(Crc(x, s[..n]), Crc(y, s[..n]), s[n], s[n]);
    }
  }

  lemma {:induction false} CrcAppend(crc: bv64, a: seq<bv8>, b: seq<bv8>)
    ensures Crc(crc, a + b) == Crc(Crc(crc, a), b)
    decreases |b|
  {
    hide Step;
    if b == [] {
      assert a + b == a;
    } else {
      var n := |b| - 1;
      CrcAppend(crc, a, b[..n]);
      assert (a + b)[..|a| + n] == a + b[..n];
    }
  }

  /** Two strings of equal length that differ in exactly one byte have different checksums. */
  lemma OneByteDiffers(crc: bv64, s: seq<bv8>, t: seq<bv8>, p: nat)
    requires |s| == |t| && p < |s| && s[p] != t[p] && s[..p] == t[..p] && s[p + 1..] == t[p + 1..]
    ensures Crc(crc, s) != Crc(crc, t)
  {
    hide Step;
    var before := Crc(crc, s[..p]);
    assert s == s[..p] + [s[p]] + s[p + 1..] && t == t[..p] + [t[p]] + t[p + 1..];
    CrcAppend(crc, s[..p] + [s[p]], s[p + 1..]);
    CrcAppend(crc, t[..p] + [t[p]], t[p + 1..]);
    CrcOne(crc, s[..p], s[p]);
    CrcOne(crc, t[..p], t[p]);
    StepInjective(before, before, s[p], t[p]);
    CrcKeepsApart(Step(before, s[p]), Step(before, t[p]), s[p + 1..]);
  }

  lemma CrcOne(crc: bv64, a: seq<bv8>, b: bv8)
    ensures Crc(crc, a + [b]) == Step(Crc(crc, a), b)
  {
    hide Step;
    assert (a + [b])[..|a|] == a;
  }

  // ---- the check value ----

  /** The checksum of "123456789" that the header of src/crc64.c gives for this variant. */
  lemma CheckValue()
    ensures Crc(0, [0x31, 0x32, 0x33, 0x34, 0x35, 0x36, 0x37, 0x38, 0x39]) == 0xe9c6d914c4b8d9ca
  {
    hide Step, Crc;
    var s: seq<bv8> := [0x31, 0x32, 0x33, 0x34, 0x35, 0x36, 0x37, 0x38, 0x39];
    Steps();
    NoBytes(s);
    OneMore(s, 0);
    OneMore(s, 1);
    OneMore(s, 2);
    OneMore(s, 3);
    OneMore(s, 4);
    OneMore(s, 5);
    OneMore(s, 6);
    OneMore(s, 7);
    OneMore(s, 8);
    assert s[..9] == s;
  }

  lemma NoBytes(s: seq<bv8>)
    ensures Crc(0, s[..0]) == 0
  {
  }

  lemma OneMore(s: seq<bv8>, k: nat)
    requires k < |s|
    ensures Crc(0, s[..k + 1]) == Step(Crc(0, s[..k]), s[k])
  {
    hide Step;
    assert s[..k + 1][..k] == s[..k];
  }

  lemma Steps()
    ensures Step(0, 0x31) == 0xfdc17184a9f739fa && Step(0xfdc17184a9f739fa, 0x32) == 0xe10364513a98ed96
    ensures Step(0xe10364513a98ed96, 0x33) == 0xd5bcfb814479b1ac && Step(0xd5bcfb814479b1ac, 0x34) == 0x43593c5dcda521f0
    ensures Step(0x43593c5dcda521f0, 0x35) == 0xf0758513239c7e0d && Step(0xf0758513239c7e0d, 0x36) == 0xa3a90925b2ab4903
    ensures Step(0xa3a90925b2ab4903, 0x37) == 0x47824d362431ad45 && Step(0x47824d362431ad45, 0x38) == 0x49ec20b315e86dc2
    ensures Step(0x49ec20b315e86dc2, 0x39) == 0xe9c6d914c4b8d9ca
  {
    hide Step, Shift8, Mix;
    Divisions();
    StepDivides(0, 0x31);
    StepDivides(0xfdc17184a9f739fa, 0x32);
    StepDivides(0xe10364513a98ed96, 0x33);
    StepDivides(0xd5bcfb814479b1ac, 0x34);
    StepDivides(0x43593c5dcda521f0, 0x35);
    StepDivides(0xf0758513239c7e0d, 0x36);
    StepDivides(0xa3a90925b2ab4903, 0x37);
    StepDivides(0x47824d362431ad45, 0x38);
    StepDivides(0x49ec20b315e86dc2, 0x39);
  }

  lemma Divisions()
    ensures Shift8(Mix(0, 0x31)) == 0xfdc17184a9f739fa
    ensures Shift8(Mix(0xfdc17184a9f739fa, 0x32)) == 0xe10364513a98ed96
    ensures Shift8(Mix(0xe10364513a98ed96, 0x33)) == 0xd5bcfb814479b1ac
    ensures Shift8(Mix(0xd5bcfb814479b1ac, 0x34)) == 0x43593c5dcda521f0
    ensures Shift8(Mix(0x43593c5dcda521f0, 0x35)) == 0xf0758513239c7e0d
    ensures Shift8(Mix(0xf0758513239c7e0d, 0x36)) == 0xa3a90925b2ab4903
    ensures Shift8(Mix(0xa3a90925b2ab4903, 0x37)) == 0x47824d362431ad45
    ensures Shift8(Mix(0x47824d362431ad45, 0x38)) == 0x49ec20b315e86dc2
    ensures Shift8(Mix(0x49ec20b315e86dc2, 0x39)) == 0xe9c6d914c4b8d9ca
  {
  }

  // ---- DUMP and RESTORE ----

  const RDB_VERSION: bv16 := 9

  /** A checksum in little endian. */
  function Footer(crc: bv64): seq<bv8> {
    [(crc & 0xff) as bv8, ((crc >> 8) & 0xff) as bv8, ((crc >> 16) & 0xff) as bv8, ((crc >> 24) & 0xff) as bv8,
     ((crc >> 32) & 0xff) as bv8, ((crc >> 40) & 0xff) as bv8, ((crc >> 48) & 0xff) as bv8, ((crc >> 56) & 0xff) as bv8]
  }

  /** `createDumpPayload`, after the object was serialized: version and checksum behind it. */
  method CreateDumpPayload(obj: seq<bv8>) returns (payload: seq<bv8>)
    ensures payload == Payload(obj)
  {
    payload := obj + [(RDB_VERSION & 0xff) as bv8, ((RDB_VERSION >> 8) & 0xff) as bv8];
    var crc := Crc64(0, payload);
    payload := payload + Footer(crc);
  }

  function Payload(obj: seq<bv8>): seq<bv8> {
    var body := obj + [9, 0];
    body + Footer(Crc(0, body))
  }

  /** What `verifyDumpPayload` accepts. */
  predicate Accepted(p: seq<bv8>) {
    && |p| >= 10
    && ((p[|p| - 9] as bv16) << 8) | (p[|p| - 10] as bv16) <= RDB_VERSION
    && p[|p| - 8..] == Footer(Crc(0, p[..|p| - 8]))
  }

  method VerifyDumpPayload(p: seq<bv8>) returns (ok: bool)
    ensures ok == Accepted(p)
  {
    if |p| < 10 { return false; }
    var footer := p[|p| - 10..];
    var rdbver := ((footer[1] as bv16) << 8) | (footer[0] as bv16);
    if rdbver > RDB_VERSION { return false; }
    var crc := Crc64(0, p[..|p| - 8]);
    assert footer[2..] == p[|p| - 8..];
    return footer[2..] == Footer(crc);
  }

  lemma FooterInjective(x: bv64, y: bv64)
    requires Footer(x) == Footer(y)
    ensures x == y
  {
    var f, g := Footer(x), Footer(y);
    assert f[0] == g[0] && f[1] == g[1] && f[2] == g[2] && f[3] == g[3] && f[4] == g[4] && f[5] == g[5]
        && f[6] == g[6] && f[7] == g[7];
  }

  /** Every payload that was created is accepted. */
  lemma CreatedAccepted(obj: seq<bv8>)
    ensures Accepted(Payload(obj))
  {
    hide Crc, Footer;
    var body, p := obj + [9, 0], Payload(obj);
    FooterSize(Crc(0, body));
    assert p[..|p| - 8] == body;
    assert p[|p| - 10] == 9 && p[|p| - 9] == 0;
  }

  lemma FooterSize(crc: bv64)
    ensures |Footer(crc)| == 8
  {
  }

  /** Every payload of the same length that differs from it in exactly one byte, wherever, is rejected. */
  lemma DamagedRejected(obj: seq<bv8>, q: seq<bv8>, i: nat)
    requires var p := Payload(obj);
      |q| == |p| && i < |p| && q[i] != p[i] && q[..i] == p[..i] && q[i + 1..] == p[i + 1..]
    ensures !Accepted(q)
  {
    hide Crc, Footer, Payload;
    var p := Payload(obj);
    CreatedAccepted(obj);
    if i < |p| - 8 { BodyDamage(p, q, i); } else { FooterDamage(p, q, i); }
  }

  lemma BodyDamage(p: seq<bv8>, q: seq<bv8>, i: nat)
    requires Accepted(p) && |q| == |p| && i < |p| - 8 && q[i] != p[i] && q[..i] == p[..i] && q[i + 1..] == p[i + 1..]
    ensures !Accepted(q)
  {
    hide Crc, Footer;
    var n := |p| - 8;
    var s, t := p[..n], q[..n];
    assert s[..i] == p[..i] && t[..i] == q[..i] && s[i + 1..] == p[i + 1..][..n - i - 1]
        && t[i + 1..] == q[i + 1..][..n - i - 1];
    OneByteDiffers(0, s, t, i);
    assert q[n..] == q[i + 1..][n - i - 1..] && p[n..] == p[i + 1..][n - i - 1..];
    if Footer(Crc(0, t)) == Footer(Crc(0, s)) { FooterInjective(Crc(0, t), Crc(0, s)); }
  }

  lemma FooterDamage(p: seq<bv8>, q: seq<bv8>, i: nat)
    requires Accepted(p) && |q| == |p| && |p| - 8 <= i < |p| && q[i] != p[i] && q[..i] == p[..i]
    ensures !Accepted(q)
  {
    hide Crc, Footer;
    var n := |p| - 8;
    assert q[..n] == q[..i][..n] && p[..n] == p[..i][..n];
    assert q[n..][i - n] == q[i] && p[n..][i - n] == p[i];
  }
}
