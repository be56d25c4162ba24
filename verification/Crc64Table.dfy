/** The table of src/crc64.c, eight entries a row, and the proof that each is eight bits of the division. */
module Crc64Table {

  /** One bit of the division by the polynomial of src/crc64.c, 0xad93d23594c935a9, with its bits reflected. */
  function Shift(c: bv64): bv64 { if c & 1 == 1 then (c >> 1) ^ 0x95ac9329ac4bc9b5 else c >> 1 }

  /** Eight bits. */
  function Shift8(c: bv64): bv64 { Shift(Shift(Shift(Shift(Shift(Shift(Shift(Shift(c)))))))) }

  /** Row r of `crc64_tab`. */
  function Row(r: bv64): (s: seq<bv64>)
    ensures |s| == 8
  {
    if r == 0 then Row0()
    else if r == 1 then Row1()
    else if r == 2 then Row2()
    else if r == 3 then Row3()
    else if r == 4 then Row4()
    else if r == 5 then Row5()
    else if r == 6 then Row6()
    else if r == 7 then Row7()
    else if r == 8 then Row8()
    else if r == 9 then Row9()
    else if r == 10 then Row10()
    else if r == 11 then Row11()
    else if r == 12 then Row12()
    else if r == 13 then Row13()
    else if r == 14 then Row14()
    else if r == 15 then Row15()
    else if r == 16 then Row16()
    else if r == 17 then Row17()
    else if r == 18 then Row18()
    else if r == 19 then Row19()
    else if r == 20 then Row20()
    else if r == 21 then Row21()
    else if r == 22 then Row22()
    else if r == 23 then Row23()
    else if r == 24 then Row24()
    else if r == 25 then Row25()
    else if r == 26 then Row26()
    else if r == 27 then Row27()
    else if r == 28 then Row28()
    else if r == 29 then Row29()
    else if r == 30 then Row30()
    else Row31()
  }

  function Row0(): seq<bv64> {
    [0x0000000000000000, 0x7ad870c830358979, 0xf5b0e190606b12f2, 0x8f689158505e9b8b,
     0xc038e5739841b68f, 0xbae095bba8743ff6, 0x358804e3f82aa47d, 0x4f50742bc81f2d04]
  }

  function Row1(): seq<bv64> {
    [0xab28ecb46814fe75, 0xd1f09c7c5821770c, 0x5e980d24087fec87, 0x24407dec384a65fe,
     0x6b1009c7f05548fa, 0x11c8790fc060c183, 0x9ea0e857903e5a08, 0xe478989fa00bd371]
  }

  function Row2(): seq<bv64> {
    [0x7d08ff3b88be6f81, 0x07d08ff3b88be6f8, 0x88b81eabe8d57d73, 0xf2606e63d8e0f40a,
     0xbd301a4810ffd90e, 0xc7e86a8020ca5077, 0x4880fbd87094cbfc, 0x32588b1040a14285]
  }

  function Row3(): seq<bv64> {
    [0xd620138fe0aa91f4, 0xacf86347d09f188d, 0x2390f21f80c18306, 0x594882d7b0f40a7f,
     0x1618f6fc78eb277b, 0x6cc0863448deae02, 0xe3a8176c18803589, 0x997067a428b5bcf0]
  }

  function Row4(): seq<bv64> {
    [0xfa11fe77117cdf02, 0x80c98ebf2149567b, 0x0fa11fe77117cdf0, 0x75796f2f41224489,
     0x3a291b04893d698d, 0x40f16bccb908e0f4, 0xcf99fa94e9567b7f, 0xb5418a5cd963f206]
  }

  function Row5(): seq<bv64> {
    [0x513912c379682177, 0x2be1620b495da80e, 0xa489f35319033385, 0xde51839b2936bafc,
     0x9101f7b0e12997f8, 0xebd98778d11c1e81, 0x64b116208142850a, 0x1e6966e8b1770c73]
  }

  function Row6(): seq<bv64> {
    [0x8719014c99c2b083, 0xfdc17184a9f739fa, 0x72a9e0dcf9a9a271, 0x08719014c99c2b08,
     0x4721e43f0183060c, 0x3df994f731b68f75, 0xb29105af61e814fe, 0xc849756751dd9d87]
  }

  function Row7(): seq<bv64> {
    [0x2c31edf8f1d64ef6, 0x56e99d30c1e3c78f, 0xd9810c6891bd5c04, 0xa3597ca0a188d57d,
     0xec09088b6997f879, 0x96d1784359a27100, 0x19b9e91b09fcea8b, 0x636199d339c963f2]
  }

  function Row8(): seq<bv64> {
    [0xdf7adabd7a6e2d6f, 0xa5a2aa754a5ba416, 0x2aca3b2d1a053f9d, 0x50124be52a30b6e4,
     0x1f423fcee22f9be0, 0x659a4f06d21a1299, 0xeaf2de5e82448912, 0x902aae96b271006b]
  }

  function Row9(): seq<bv64> {
    [0x74523609127ad31a, 0x0e8a46c1224f5a63, 0x81e2d7997211c1e8, 0xfb3aa75142244891,
     0xb46ad37a8a3b6595, 0xceb2a3b2ba0eecec, 0x41da32eaea507767, 0x3b024222da65fe1e]
  }

  function Row10(): seq<bv64> {
    [0xa2722586f2d042ee, 0xd8aa554ec2e5cb97, 0x57c2c41692bb501c, 0x2d1ab4dea28ed965,
     0x624ac0f56a91f461, 0x1892b03d5aa47d18, 0x97fa21650afae693, 0xed2251ad3acf6fea]
  }

  function Row11(): seq<bv64> {
    [0x095ac9329ac4bc9b, 0x7382b9faaaf135e2, 0xfcea28a2faafae69, 0x8632586aca9a2710,
     0xc9622c4102850a14, 0xb3ba5c8932b0836d, 0x3cd2cdd162ee18e6, 0x460abd1952db919f]
  }

  function Row12(): seq<bv64> {
    [0x256b24ca6b12f26d, 0x5fb354025b277b14, 0xd0dbc55a0b79e09f, 0xaa03b5923b4c69e6,
     0xe553c1b9f35344e2, 0x9f8bb171c366cd9b, 0x10e3202993385610, 0x6a3b50e1a30ddf69]
  }

  function Row13(): seq<bv64> {
    [0x8e43c87e03060c18, 0xf49bb8b633338561, 0x7bf329ee636d1eea, 0x012b592653589793,
     0x4e7b2d0d9b47ba97, 0x34a35dc5ab7233ee, 0xbbcbcc9dfb2ca865, 0xc113bc55cb19211c]
  }

  function Row14(): seq<bv64> {
    [0x5863dbf1e3ac9dec, 0x22bbab39d3991495, 0xadd33a6183c78f1e, 0xd70b4aa9b3f20667,
     0x985b3e827bed2b63, 0xe2834e4a4bd8a21a, 0x6debdf121b863991, 0x1733afda2bb3b0e8]
  }

  function Row15(): seq<bv64> {
    [0xf34b37458bb86399, 0x8993478dbb8deae0, 0x06fbd6d5ebd3716b, 0x7c23a61ddbe6f812,
     0x3373d23613f9d516, 0x49aba2fe23cc5c6f, 0xc6c333a67392c7e4, 0xbc1b436e43a74e9d]
  }

  function Row16(): seq<bv64> {
    [0x95ac9329ac4bc9b5, 0xef74e3e19c7e40cc, 0x601c72b9cc20db47, 0x1ac40271fc15523e,
     0x5594765a340a7f3a, 0x2f4c0692043ff643, 0xa02497ca54616dc8, 0xdafce7026454e4b1]
  }

  function Row17(): seq<bv64> {
    [0x3e847f9dc45f37c0, 0x445c0f55f46abeb9, 0xcb349e0da4342532, 0xb1eceec59401ac4b,
     0xfebc9aee5c1e814f, 0x8464ea266c2b0836, 0x0b0c7b7e3c7593bd, 0x71d40bb60c401ac4]
  }

  function Row18(): seq<bv64> {
    [0xe8a46c1224f5a634, 0x927c1cda14c02f4d, 0x1d148d82449eb4c6, 0x67ccfd4a74ab3dbf,
     0x289c8961bcb410bb, 0x5244f9a98c8199c2, 0xdd2c68f1dcdf0249, 0xa7f41839ecea8b30]
  }

  function Row19(): seq<bv64> {
    [0x438c80a64ce15841, 0x3954f06e7cd4d138, 0xb63c61362c8a4ab3, 0xcce411fe1cbfc3ca,
     0x83b465d5d4a0eece, 0xf96c151de49567b7, 0x76048445b4cbfc3c, 0x0cdcf48d84fe7545]
  }

  function Row20(): seq<bv64> {
    [0x6fbd6d5ebd3716b7, 0x15651d968d029fce, 0x9a0d8ccedd5c0445, 0xe0d5fc06ed698d3c,
     0xaf85882d2576a038, 0xd55df8e515432941, 0x5a3569bd451db2ca, 0x20ed197575283bb3]
  }

  function Row21(): seq<bv64> {
    [0xc49581ead523e8c2, 0xbe4df122e51661bb, 0x3125607ab548fa30, 0x4bfd10b2857d7349,
     0x04ad64994d625e4d, 0x7e7514517d57d734, 0xf11d85092d094cbf, 0x8bc5f5c11d3cc5c6]
  }

  function Row22(): seq<bv64> {
    [0x12b5926535897936, 0x686de2ad05bcf04f, 0xe70573f555e26bc4, 0x9ddd033d65d7e2bd,
     0xd28d7716adc8cfb9, 0xa85507de9dfd46c0, 0x273d9686cda3dd4b, 0x5de5e64efd965432]
  }

  function Row23(): seq<bv64> {
    [0xb99d7ed15d9d8743, 0xc3450e196da80e3a, 0x4c2d9f413df695b1, 0x36f5ef890dc31cc8,
     0x79a59ba2c5dc31cc, 0x037deb6af5e9b8b5, 0x8c157a32a5b7233e, 0xf6cd0afa9582aa47]
  }

  function Row24(): seq<bv64> {
    [0x4ad64994d625e4da, 0x300e395ce6106da3, 0xbf66a804b64ef628, 0xc5bed8cc867b7f51,
     0x8aeeace74e645255, 0xf036dc2f7e51db2c, 0x7f5e4d772e0f40a7, 0x05863dbf1e3ac9de]
  }

  function Row25(): seq<bv64> {
    [0xe1fea520be311aaf, 0x9b26d5e88e0493d6, 0x144e44b0de5a085d, 0x6e963478ee6f8124,
     0x21c640532670ac20, 0x5b1e309b16452559, 0xd476a1c3461bbed2, 0xaeaed10b762e37ab]
  }

  function Row26(): seq<bv64> {
    [0x37deb6af5e9b8b5b, 0x4d06c6676eae0222, 0xc26e573f3ef099a9, 0xb8b627f70ec510d0,
     0xf7e653dcc6da3dd4, 0x8d3e2314f6efb4ad, 0x0256b24ca6b12f26, 0x788ec2849684a65f]
  }

  function Row27(): seq<bv64> {
    [0x9cf65a1b368f752e, 0xe62e2ad306bafc57, 0x6946bb8b56e467dc, 0x139ecb4366d1eea5,
     0x5ccebf68aecec3a1, 0x2616cfa09efb4ad8, 0xa97e5ef8cea5d153, 0xd3a62e30fe90582a]
  }

  function Row28(): seq<bv64> {
    [0xb0c7b7e3c7593bd8, 0xca1fc72bf76cb2a1, 0x45775673a732292a, 0x3faf26bb9707a053,
     0x70ff52905f188d57, 0x0a2722586f2d042e, 0x854fb3003f739fa5, 0xff97c3c80f4616dc]
  }

  function Row29(): seq<bv64> {
    [0x1bef5b57af4dc5ad, 0x61372b9f9f784cd4, 0xee5fbac7cf26d75f, 0x9487ca0fff135e26,
     0xdbd7be24370c7322, 0xa10fceec0739fa5b, 0x2e675fb4576761d0, 0x54bf2f7c6752e8a9]
  }

  function Row30(): seq<bv64> {
    [0xcdcf48d84fe75459, 0xb71738107fd2dd20, 0x387fa9482f8c46ab, 0x42a7d9801fb9cfd2,
     0x0df7adabd7a6e2d6, 0x772fdd63e7936baf, 0xf8474c3bb7cdf024, 0x829f3cf387f8795d]
  }

  function Row31(): seq<bv64> {
    [0x66e7a46c27f3aa2c, 0x1c3fd4a417c62355, 0x935745fc4798b8de, 0xe98f353477ad31a7,
     0xa6df411fbfb21ca3, 0xdc0731d78f8795da, 0x536fa08fdfd90e51, 0x29b7d047efec8728]
  }

  // ---- the division is linear ----

  function Xor(a: bv64, b: bv64): bv64 { a ^ b }

  lemma XorBits(a: bv64, b: bv64)
    ensures (a ^ b) & 1 == (a & 1) ^ (b & 1) && (a ^ b) >> 1 == (a >> 1) ^ (b >> 1)
    ensures a & 1 == 0 || a & 1 == 1
  {
  }

  lemma XorMoves(x: bv64, y: bv64, p: bv64)
    ensures (x ^ y) ^ p == (x ^ p) ^ y && (x ^ y) ^ p == x ^ (y ^ p) && (x ^ p) ^ (y ^ p) == x ^ y
  {
  }

  /** The division is linear. */
  lemma ShiftXor(a: bv64, b: bv64)
    ensures Shift(Xor(a, b)) == Xor(Shift(a), Shift(b))
  {
    XorBits(a, b);
    XorBits(b, a);
    XorMoves(a >> 1, b >> 1, 0x95ac9329ac4bc9b5);
  }

  lemma Shift8Xor(a: bv64, b: bv64)
    ensures Shift8(Xor(a, b)) == Xor(Shift8(a), Shift8(b))
  {
    hide Shift, Xor;
    var a1, b1 := Shift(a), Shift(b);
    var a2, b2 := Shift(a1), Shift(b1);
    var a3, b3 := Shift(a2), Shift(b2);
    var a4, b4 := Shift(a3), Shift(b3);
    var a5, b5 := Shift(a4), Shift(b4);
    var a6, b6 := Shift(a5), Shift(b5);
    var a7, b7 := Shift(a6), Shift(b6);
    ShiftXor(a, b);
    ShiftXor(a1, b1);
    ShiftXor(a2, b2);
    ShiftXor(a3, b3);
    ShiftXor(a4, b4);
    ShiftXor(a5, b5);
    ShiftXor(a6, b6);
    ShiftXor(a7, b7);
  }

  // ---- a row ----

  /** A row of the table from its first entry. */
  function Entries(e: bv64): seq<bv64> {
    [e, Xor(e, 0x7ad870c830358979), Xor(e, 0xf5b0e190606b12f2), Xor(e, 0x8f689158505e9b8b),
     Xor(e, 0xc038e5739841b68f), Xor(e, 0xbae095bba8743ff6), Xor(e, 0x358804e3f82aa47d), Xor(e, 0x4f50742bc81f2d04)]
  }

  lemma LowEntries()
    ensures Shift8(0) == 0 && Shift8(1) == 0x7ad870c830358979 && Shift8(2) == 0xf5b0e190606b12f2
        && Shift8(3) == 0x8f689158505e9b8b
  {
  }

  lemma HighEntries()
    ensures Shift8(4) == 0xc038e5739841b68f && Shift8(5) == 0xbae095bba8743ff6
    ensures Shift8(6) == 0x358804e3f82aa47d && Shift8(7) == 0x4f50742bc81f2d04
  {
  }

  lemma Row0Is()
    ensures Row0() == Entries(Shift8(0x0))
  {
  }

  lemma Row1Is()
    ensures Row1() == Entries(Shift8(0x8))
  {
  }

  lemma Row2Is()
    ensures Row2() == Entries(Shift8(0x10))
  {
  }

  lemma Row3Is()
    ensures Row3() == Entries(Shift8(0x18))
  {
  }

  lemma Row4Is()
    ensures Row4() == Entries(Shift8(0x20))
  {
  }

  lemma Row5Is()
    ensures Row5() == Entries(Shift8(0x28))
  {
  }

  lemma Row6Is()
    ensures Row6() == Entries(Shift8(0x30))
  {
  }

  lemma Row7Is()
    ensures Row7() == Entries(Shift8(0x38))
  {
  }

  lemma Row8Is()
    ensures Row8() == Entries(Shift8(0x40))
  {
  }

  lemma Row9Is()
    ensures Row9() == Entries(Shift8(0x48))
  {
  }

  lemma Row10Is()
    ensures Row10() == Entries(Shift8(0x50))
  {
  }

  lemma Row11Is()
    ensures Row11() == Entries(Shift8(0x58))
  {
  }

  lemma Row12Is()
    ensures Row12() == Entries(Shift8(0x60))
  {
  }

  lemma Row13Is()
    ensures Row13() == Entries(Shift8(0x68))
  {
  }

  lemma Row14Is()
    ensures Row14() == Entries(Shift8(0x70))
  {
  }

  lemma Row15Is()
    ensures Row15() == Entries(Shift8(0x78))
  {
  }

  lemma Row16Is()
    ensures Row16() == Entries(Shift8(0x80))
  {
  }

  lemma Row17Is()
    ensures Row17() == Entries(Shift8(0x88))
  {
  }

  lemma Row18Is()
    ensures Row18() == Entries(Shift8(0x90))
  {
  }

  lemma Row19Is()
    ensures Row19() == Entries(Shift8(0x98))
  {
  }

  lemma Row20Is()
    ensures Row20() == Entries(Shift8(0xa0))
  {
  }

  lemma Row21Is()
    ensures Row21() == Entries(Shift8(0xa8))
  {
  }

  lemma Row22Is()
    ensures Row22() == Entries(Shift8(0xb0))
  {
  }

  lemma Row23Is()
    ensures Row23() == Entries(Shift8(0xb8))
  {
  }

  lemma Row24Is()
    ensures Row24() == Entries(Shift8(0xc0))
  {
  }

  lemma Row25Is()
    ensures Row25() == Entries(Shift8(0xc8))
  {
  }

  lemma Row26Is()
    ensures Row26() == Entries(Shift8(0xd0))
  {
  }

  lemma Row27Is()
    ensures Row27() == Entries(Shift8(0xd8))
  {
  }

  lemma Row28Is()
    ensures Row28() == Entries(Shift8(0xe0))
  {
  }

  lemma Row29Is()
    ensures Row29() == Entries(Shift8(0xe8))
  {
  }

  lemma Row30Is()
    ensures Row30() == Entries(Shift8(0xf0))
  {
  }

  lemma Row31Is()
    ensures Row31() == Entries(Shift8(0xf8))
  {
  }

  // ---- the table as a whole ----

  function First(x: bv64): bv64 { x >> 3 }

  function Within(x: bv64): bv64 { x & 7 }

  function Start(r: bv64): bv64 { r << 3 }

  /** A number below eight as an index. */
  function Index(k: bv64): (i: nat)
    ensures i < 8
  {
    if k == 0 then 0 else if k == 1 then 1 else if k == 2 then 2 else if k == 3 then 3
    else if k == 4 then 4 else if k == 5 then 5 else if k == 6 then 6 else 7
  }

  /** `crc64_tab[x]`. */
  function Table(x: bv64): bv64 { Row(First(x))[Index(Within(x))] }

  lemma Parts(x: bv64)
    requires x & 0xff == x
    ensures First(x) <= 31 && Within(x) <= 7 && Xor(Start(First(x)), Within(x)) == x
  {
  }

  lemma Below8(k: bv64)
    requires k <= 7
    ensures k == 0 || k == 1 || k == 2 || k == 3 || k == 4 || k == 5 || k == 6 || k == 7
  {
  }

  lemma EntryAt(b: bv64, k: bv64)
    requires k <= 7
    ensures |Entries(Shift8(b))| == 8 && Entries(Shift8(b))[Index(k)] == Shift8(Xor(b, k))
  {
    ZeroXor(Shift8(b));
    hide Shift8, Xor;
    Shift8Xor(b, k);
    Below8(k);
    LowEntries();
    HighEntries();
  }

  lemma ZeroXor(e: bv64)
    ensures Xor(e, 0) == e
  {
  }

  lemma RowIs(r: bv64)
    requires r <= 31
    ensures Row(r) == Entries(Shift8(Start(r)))
  {
    hide Entries, Shift8, Row0, Row1, Row2, Row3, Row4, Row5, Row6, Row7, Row8, Row9, Row10, Row11, Row12, Row13,
        Row14, Row15;
    hide Row16, Row17, Row18, Row19, Row20, Row21, Row22, Row23, Row24, Row25, Row26, Row27, Row28, Row29, Row30, Row31;
    if r == 0 { Row0Is(); }
    if r == 1 { Row1Is(); }
    if r == 2 { Row2Is(); }
    if r == 3 { Row3Is(); }
    if r == 4 { Row4Is(); }
    if r == 5 { Row5Is(); }
    if r == 6 { Row6Is(); }
    if r == 7 { Row7Is(); }
    if r == 8 { Row8Is(); }
    if r == 9 { Row9Is(); }
    if r == 10 { Row10Is(); }
    if r == 11 { Row11Is(); }
    if r == 12 { Row12Is(); }
    if r == 13 { Row13Is(); }
    if r == 14 { Row14Is(); }
    if r == 15 { Row15Is(); }
    if r == 16 { Row16Is(); }
    if r == 17 { Row17Is(); }
    if r == 18 { Row18Is(); }
    if r == 19 { Row19Is(); }
    if r == 20 { Row20Is(); }
    if r == 21 { Row21Is(); }
    if r == 22 { Row22Is(); }
    if r == 23 { Row23Is(); }
    if r == 24 { Row24Is(); }
    if r == 25 { Row25Is(); }
    if r == 26 { Row26Is(); }
    if r == 27 { Row27Is(); }
    if r == 28 { Row28Is(); }
    if r == 29 { Row29Is(); }
    if r == 30 { Row30Is(); }
    if r > 30 {
      Last(r);
      Row31Is();
    }
  }

  lemma Last(r: bv64)
    requires r <= 31 && r > 30
    ensures r == 31
  {
  }

  /** Every entry of the table is eight bits of the division of its index. */
  lemma TableIs(x: bv64)
    requires x & 0xff == x
    ensures Table(x) == Shift8(x)
  {
    Parts(x);
    hide Row, Entries, Shift8, First, Within, Start, Xor, Index;
    RowIs(First(x));
    EntryAt(Start(First(x)), Within(x));
  }
}
