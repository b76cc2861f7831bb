/** Reference vectors of BIP-0173. Between them they use every generator and every character
    of the alphabet, in both cases, and fix the regrouping of whole bytes. */
module Bech32Vectors {
  import opened Bech32
  import opened Bech32Checksum
  import opened Bech32Register
  import opened BitGroups
  import opened Words

  /** One more step of a run. */
  lemma RunOn(values: seq<byte>, v: byte, here: bv32, there: bv32)
    requires Run(1, values) == here && Step(here, Word(v)) == there
    ensures Run(1, values + [v]) == there
  {
    hide Step, Word;
    assert (values + [v])[..|values|] == values;
  }

  lemma SmallWords()
    ensures Word(0) == 0 && Word(1) == 1 && Word(2) == 2 && Word(3) == 3 && Word(4) == 4 && Word(5) == 5
    ensures Word(6) == 6 && Word(7) == 7 && Word(8) == 8 && Word(9) == 9 && Word(10) == 10 && Word(11) == 11
    ensures Word(12) == 12 && Word(13) == 13 && Word(14) == 14 && Word(15) == 15 && Word(16) == 16 && Word(17) == 17
    ensures Word(18) == 18 && Word(19) == 19 && Word(20) == 20 && Word(21) == 21 && Word(22) == 22 && Word(23) == 23
    ensures Word(24) == 24 && Word(25) == 25 && Word(26) == 26 && Word(27) == 27 && Word(28) == 28 && Word(29) == 29
    ensures Word(30) == 30 && Word(31) == 31
  {}

  // ----- A12UEL5L -----

  lemma ShortSteps()
    ensures Step(1, 3) == 0x23 && Step(0x23, 0) == 0x460 && Step(0x460, 1) == 0x8c01
    ensures Step(0x8c01, 10) == 0x11802a && Step(0x11802a, 28) == 0x230055c && Step(0x230055c, 25) == 0x3d6afc2b
    ensures Step(0x3d6afc2b, 31) == 0x2f84386 && Step(0x2f84386, 20) == 0x24622766 && Step(0x24622766, 31) == 1
  {}

  lemma ShortVerifies()
    ensures VerifyChecksum("a", [10, 28, 25, 31, 20, 31])
  {
    SmallWords();
    ShortSteps();
    hide Step, Word;
    var run: seq<byte> := [];
    RunOn(run, 3, 1, 0x23);
    run := run + [3];
    RunOn(run, 0, 0x23, 0x460);
    run := run + [0];
    RunOn(run, 1, 0x460, 0x8c01);
    run := run + [1];
    RunOn(run, 10, 0x8c01, 0x11802a);
    run := run + [10];
    RunOn(run, 28, 0x11802a, 0x230055c);
    run := run + [28];
    RunOn(run, 25, 0x230055c, 0x3d6afc2b);
    run := run + [25];
    RunOn(run, 31, 0x3d6afc2b, 0x2f84386);
    run := run + [31];
    RunOn(run, 20, 0x2f84386, 0x24622766);
    run := run + [20];
    RunOn(run, 31, 0x24622766, 1);
    run := run + [31];
    assert HrpExpand("a") + [10, 28, 25, 31, 20, 31] == run;
  }

  lemma ShortText()
    ensures Write([10, 28, 25, 31, 20, 31]) == "2uel5l"
  {
    hide CHARSET;
    CharsetLength();
    CharAtIsCharset(10);
    CharAtIsCharset(28);
    CharAtIsCharset(25);
    CharAtIsCharset(31);
    CharAtIsCharset(20);
  }

  lemma ShortCase()
    ensures ToLower("A") == "a" && HrpReadable("A")
    ensures ToLower("A12UEL5L") == "a12uel5l" && !MixesCase("A12UEL5L")
  {
    assert ToUpper("A12UEL5L") == "A12UEL5L";
  }

  lemma NoBits()
    ensures FiveBits([]) == []
  {
    assert Stream(8, []) == [] && Rest(5, []) == [];
  }

  /** An upper-case text without data. */
  lemma ReferenceVector()
    ensures Encode("A", []) == Text("a12uel5l")
    ensures Decode("A12UEL5L") == Address("a", [])
  {
    hide CHARSET, VerifyChecksum, ConvertBits, DecodeLower, CreateChecksum, FiveBits, MixesCase, HrpReadable;
    var checksum: seq<symbol> := [10, 28, 25, 31, 20, 31];
    ShortVerifies();
    assert [] + checksum == checksum;
    ChecksumUnique("a", [], checksum);
    NoBits();
    ShortText();
    ShortCase();
    assert Encode("A", []).s == "a" + ['1'] + "2uel5l" == "a12uel5l";
    EncodeThenDecode("A", []);
    LowerTwice("A12UEL5L");
    assert !MixesCase("a12uel5l") by { NotMixed("A12UEL5L"); }
  }

  lemma NotMixed(s: seq<ascii>)
    ensures !MixesCase(ToLower(s))
  {
    LowerTwice(s);
  }

  // ----- The whole alphabet -----

  /** The symbols 0 to 31. */
  function Alphabet(): seq<symbol> {
    Octet(0) + Octet(8) + Octet(16) + Octet(24)
  }

  function AlphabetBytes(): seq<byte> {
    [0, 68, 50, 20, 199] + [66, 84, 182, 53, 207] + [132, 101, 58, 86, 215] + [198, 117, 190, 119, 223]
  }

  lemma AlphabetHighSteps()
    ensures Step(1, 3) == 0x23 && Step(0x23, 3) == 0x463
    ensures Step(0x463, 3) == 0x8c63 && Step(0x8c63, 3) == 0x118c63
  {}

  lemma AlphabetHighStepsEnd()
    ensures Step(0x118c63, 3) == 0x2318c63 && Step(0x2318c63, 3) == 0x3d5bdbd1
    ensures Step(0x3d5bdbd1, 0) == 0x4dcbcd9
  {}

  lemma AlphabetHigh(values: seq<byte>)
    requires Run(1, values) == 1
    ensures Run(1, values + [3, 3, 3, 3, 3, 3, 0]) == 0x4dcbcd9
  {
    SmallWords();
    AlphabetHighSteps();
    AlphabetHighStepsEnd();
    hide Step, Word;
    var run := values;
    RunOn(run, 3, 1, 0x23);
    run := run + [3];
    RunOn(run, 3, 0x23, 0x463);
    run := run + [3];
    RunOn(run, 3, 0x463, 0x8c63);
    run := run + [3];
    RunOn(run, 3, 0x8c63, 0x118c63);
    run := run + [3];
    RunOn(run, 3, 0x118c63, 0x2318c63);
    run := run + [3];
    RunOn(run, 3, 0x2318c63, 0x3d5bdbd1);
    run := run + [3];
    RunOn(run, 0, 0x3d5bdbd1, 0x4dcbcd9);
    run := run + [0];
    assert run == values + [3, 3, 3, 3, 3, 3, 0];
  }

  lemma AlphabetLowSteps()
    ensures Step(0x4dcbcd9, 1) == 0x3dc7154c && Step(0x3dc7154c, 2) == 0x17456f7b
    ensures Step(0x17456f7b, 3) == 0x8d50561 && Step(0x8d50561, 4) == 0x401b5de
  {}

  lemma AlphabetLowStepsEnd()
    ensures Step(0x401b5de, 5) == 0x266635a8 && Step(0x266635a8, 6) == 0x3be80e6a
  {}

  lemma AlphabetLow(values: seq<byte>)
    requires Run(1, values) == 0x4dcbcd9
    ensures Run(1, values + [1, 2, 3, 4, 5, 6]) == 0x3be80e6a
  {
    SmallWords();
    AlphabetLowSteps();
    AlphabetLowStepsEnd();
    hide Step, Word;
    var run := values;
    RunOn(run, 1, 0x4dcbcd9, 0x3dc7154c);
    run := run + [1];
    RunOn(run, 2, 0x3dc7154c, 0x17456f7b);
    run := run + [2];
    RunOn(run, 3, 0x17456f7b, 0x8d50561);
    run := run + [3];
    RunOn(run, 4, 0x8d50561, 0x401b5de);
    run := run + [4];
    RunOn(run, 5, 0x401b5de, 0x266635a8);
    run := run + [5];
    RunOn(run, 6, 0x266635a8, 0x3be80e6a);
    run := run + [6];
    assert run == values + [1, 2, 3, 4, 5, 6];
  }

  lemma AlphabetFirstSteps()
    ensures Step(0x3be80e6a, 0) == 0xf9cd266 && Step(0xf9cd266, 1) == 0x30018ce4
    ensures Step(0x30018ce4, 2) == 0x1767cdec && Step(0x1767cdec, 3) == 0xc815781
  {}

  lemma AlphabetFirstStepsEnd()
    ensures Step(0xc815781, 4) == 0x28db67b3 && Step(0x28db67b3, 5) == 0x2fd98d2c
    ensures Step(0x2fd98d2c, 6) == 0x12be0710 && Step(0x12be0710, 7) == 0x11e88668
  {}

  lemma AlphabetFirst(values: seq<byte>)
    requires Run(1, values) == 0x3be80e6a
    ensures Run(1, values + Octet(0)) == 0x11e88668
  {
    SmallWords();
    AlphabetFirstSteps();
    AlphabetFirstStepsEnd();
    hide Step, Word;
    var run := values;
    RunOn(run, 0, 0x3be80e6a, 0xf9cd266);
    run := run + [0];
    RunOn(run, 1, 0xf9cd266, 0x30018ce4);
    run := run + [1];
    RunOn(run, 2, 0x30018ce4, 0x1767cdec);
    run := run + [2];
    RunOn(run, 3, 0x1767cdec, 0xc815781);
    run := run + [3];
    RunOn(run, 4, 0xc815781, 0x28db67b3);
    run := run + [4];
    RunOn(run, 5, 0x28db67b3, 0x2fd98d2c);
    run := run + [5];
    RunOn(run, 6, 0x2fd98d2c, 0x12be0710);
    run := run + [6];
    RunOn(run, 7, 0x12be0710, 0x11e88668);
    run := run + [7];
    assert Octet(0) == [0, 1, 2, 3, 4, 5, 6, 7];
    assert run == values + Octet(0);
  }

  lemma AlphabetSecondSteps()
    ensures Step(0x11e88668, 8) == 0x52fed5 && Step(0x52fed5, 9) == 0xa5fdaa9
    ensures Step(0xa5fdaa9, 10) == 0x2e301b62 && Step(0x2e301b62, 11) == 0x2f8ccedd
  {}

  lemma AlphabetSecondStepsEnd()
    ensures Step(0x2f8ccedd, 12) == 0x1816793a && Step(0x1816793a, 13) == 0x212c0d6a
    ensures Step(0x212c0d6a, 14) == 0xf95cffd && Step(0xf95cffd, 15) == 0x31223f8a
  {}

  lemma AlphabetSecond(values: seq<byte>)
    requires Run(1, values) == 0x11e88668
    ensures Run(1, values + Octet(8)) == 0x31223f8a
  {
    SmallWords();
    AlphabetSecondSteps();
    AlphabetSecondStepsEnd();
    hide Step, Word;
    var run := values;
    RunOn(run, 8, 0x11e88668, 0x52fed5);
    run := run + [8];
    RunOn(run, 9, 0x52fed5, 0xa5fdaa9);
    run := run + [9];
    RunOn(run, 10, 0xa5fdaa9, 0x2e301b62);
    run := run + [10];
    RunOn(run, 11, 0x2e301b62, 0x2f8ccedd);
    run := run + [11];
    RunOn(run, 12, 0x2f8ccedd, 0x1816793a);
    run := run + [12];
    RunOn(run, 13, 0x1816793a, 0x212c0d6a);
    run := run + [13];
    RunOn(run, 14, 0x212c0d6a, 0xf95cffd);
    run := run + [14];
    RunOn(run, 15, 0xf95cffd, 0x31223f8a);
    run := run + [15];
    assert Octet(8) == [8, 9, 10, 11, 12, 13, 14, 15];
    assert run == values + Octet(8);
  }

  lemma AlphabetThirdSteps()
    ensures Step(0x31223f8a, 16) == 0x3311a03e && Step(0x3311a03e, 17) == 0xe08010d
    ensures Step(0xe08010d, 18) == 0x29be197 && Step(0x29be197, 19) == 0x28166541
  {}

  lemma AlphabetThirdStepsEnd()
    ensures Step(0x28166541, 20) == 0x3679d37d && Step(0x3679d37d, 21) == 0x556e704
    ensures Step(0x556e704, 22) == 0xc8c6efb && Step(0xc8c6efb, 23) == 0x297c48e0
  {}

  lemma AlphabetThird(values: seq<byte>)
    requires Run(1, values) == 0x31223f8a
    ensures Run(1, values + Octet(16)) == 0x297c48e0
  {
    SmallWords();
    AlphabetThirdSteps();
    AlphabetThirdStepsEnd();
    hide Step, Word;
    var run := values;
    RunOn(run, 16, 0x31223f8a, 0x3311a03e);
    run := run + [16];
    RunOn(run, 17, 0x3311a03e, 0xe08010d);
    run := run + [17];
    RunOn(run, 18, 0xe08010d, 0x29be197);
    run := run + [18];
    RunOn(run, 19, 0x29be197, 0x28166541);
    run := run + [19];
    RunOn(run, 20, 0x28166541, 0x3679d37d);
    run := run + [20];
    RunOn(run, 21, 0x3679d37d, 0x556e704);
    run := run + [21];
    RunOn(run, 22, 0x556e704, 0xc8c6efb);
    run := run + [22];
    RunOn(run, 23, 0xc8c6efb, 0x297c48e0);
    run := run + [23];
    assert Octet(16) == [16, 17, 18, 19, 20, 21, 22, 23];
    assert run == values + Octet(16);
  }

  lemma AlphabetFourthSteps()
    ensures Step(0x297c48e0, 24) == 0x1b3c6751 && Step(0x1b3c6751, 25) == 0x3f0597ac
    ensures Step(0x3f0597ac, 26) == 0x347f64d1 && Step(0x347f64d1, 27) == 0x3eea4538
  {}

  lemma AlphabetFourthStepsEnd()
    ensures Step(0x3eea4538, 28) == 0x9853657 && Step(0x9853657, 29) == 0x2e07d307
    ensures Step(0x2e07d307, 30) == 0x2975c268 && Step(0x2975c268, 31) == 0x1a0d3656
  {}

  lemma AlphabetFourth(values: seq<byte>)
    requires Run(1, values) == 0x297c48e0
    ensures Run(1, values + Octet(24)) == 0x1a0d3656
  {
    SmallWords();
    AlphabetFourthSteps();
    AlphabetFourthStepsEnd();
    hide Step, Word;
    var run := values;
    RunOn(run, 24, 0x297c48e0, 0x1b3c6751);
    run := run + [24];
    RunOn(run, 25, 0x1b3c6751, 0x3f0597ac);
    run := run + [25];
    RunOn(run, 26, 0x3f0597ac, 0x347f64d1);
    run := run + [26];
    RunOn(run, 27, 0x347f64d1, 0x3eea4538);
    run := run + [27];
    RunOn(run, 28, 0x3eea4538, 0x9853657);
    run := run + [28];
    RunOn(run, 29, 0x9853657, 0x2e07d307);
    run := run + [29];
    RunOn(run, 30, 0x2e07d307, 0x2975c268);
    run := run + [30];
    RunOn(run, 31, 0x2975c268, 0x1a0d3656);
    run := run + [31];
    assert Octet(24) == [24, 25, 26, 27, 28, 29, 30, 31];
    assert run == values + Octet(24);
  }

  lemma AlphabetChecksumSteps()
    ensures Step(0x1a0d3656, 27) == 0x192fb74e && Step(0x192fb74e, 0) == 0x615c3e7
    ensures Step(0x615c3e7, 0) == 0x1f82a53f && Step(0x1f82a53f, 0) == 0xe8d5418
  {}

  lemma AlphabetChecksumStepsEnd()
    ensures Step(0xe8d5418, 6) == 0x12314323 && Step(0x12314323, 14) == 1
  {}

  lemma AlphabetChecksum(values: seq<byte>)
    requires Run(1, values) == 0x1a0d3656
    ensures Run(1, values + [27, 0, 0, 0, 6, 14]) == 1
  {
    SmallWords();
    AlphabetChecksumSteps();
    AlphabetChecksumStepsEnd();
    hide Step, Word;
    var run := values;
    RunOn(run, 27, 0x1a0d3656, 0x192fb74e);
    run := run + [27];
    RunOn(run, 0, 0x192fb74e, 0x615c3e7);
    run := run + [0];
    RunOn(run, 0, 0x615c3e7, 0x1f82a53f);
    run := run + [0];
    RunOn(run, 0, 0x1f82a53f, 0xe8d5418);
    run := run + [0];
    RunOn(run, 6, 0xe8d5418, 0x12314323);
    run := run + [6];
    RunOn(run, 14, 0x12314323, 1);
    run := run + [14];
    assert run == values + [27, 0, 0, 0, 6, 14];
  }

  lemma AlphabetExpanded()
    ensures HrpExpand("abcdef") == [3, 3, 3, 3, 3, 3, 0] + [1, 2, 3, 4, 5, 6]
  {}

  lemma AlphabetVerifies()
    ensures VerifyChecksum("abcdef", Alphabet() + [27, 0, 0, 0, 6, 14])
  {
    hide Run, Octet, HrpExpand;
    var high: seq<byte> := [3, 3, 3, 3, 3, 3, 0];
    var low: seq<byte> := [1, 2, 3, 4, 5, 6];
    AlphabetExpanded();
    NoRun();
    AlphabetHigh([]);
    assert [] + high == high;
    AlphabetLow(high);
    AlphabetFirst(high + low);
    AlphabetSecond(high + low + Octet(0));
    AlphabetThird(high + low + Octet(0) + Octet(8));
    AlphabetFourth(high + low + Octet(0) + Octet(8) + Octet(16));
    AlphabetChecksum(high + low + Octet(0) + Octet(8) + Octet(16) + Octet(24));
    Joined(high + low, Octet(0), Octet(8), Octet(16), Octet(24), [27, 0, 0, 0, 6, 14]);
  }

  lemma NoRun()
    ensures Run(1, []) == 1
  {}

  lemma Joined(e: seq<byte>, a: seq<byte>, b: seq<byte>, c: seq<byte>, d: seq<byte>, f: seq<byte>)
    ensures e + ((a + b + c + d) + f) == e + a + b + c + d + f
  {}

  // ----- Five bytes are eight symbols -----

  lemma AppendValue(width: nat, data: seq<nat>, x: nat)
    requires x < Pow2(width)
    ensures Value(Stream(width, data + [x])) == Value(Stream(width, data)) * Pow2(width) + x
    ensures |Stream(width, data + [x])| == |Stream(width, data)| + width
  {
    StreamConcat(width, data, [x]);
    StreamOne(width, x);
    ValueConcat(Stream(width, data), Bits(width, x));
    ValueOfBits(width, x);
  }

  lemma FiveBytes(a: byte, b: byte, c: byte, d: byte, e: byte)
    ensures var s := Stream(8, [a, b, c, d, e]);
            |s| == 40 && Value(s) == (((a as int * 256 + b) * 256 + c) * 256 + d) * 256 + e
  {
    assert Pow2(8) == 256;
    EmptyStream(8);
    assert Value([]) == 0;
    hide Value, Stream, Pow2;
    AppendValue(8, [], a);
    AppendValue(8, [a], b);
    AppendValue(8, [a, b], c);
    AppendValue(8, [a, b, c], d);
    AppendValue(8, [a, b, c, d], e);
    assert [] + [a] == [a] && [a] + [b] == [a, b] && [a, b] + [c] == [a, b, c];
    assert [a, b, c] + [d] == [a, b, c, d] && [a, b, c, d] + [e] == [a, b, c, d, e];
  }

  lemma TwoSymbols(data: seq<nat>, n: nat)
    requires n + 2 <= 32
    ensures var s, t := Stream(5, data), Stream(5, data + [n, n + 1]);
            |t| == |s| + 10 && Value(t) == (Value(s) * 32 + n) * 32 + n + 1
  {
    assert Pow2(5) == 32;
    hide Value, Stream, Pow2;
    AppendValue(5, data, n);
    AppendValue(5, data + [n], n + 1);
    assert data + [n] + [n + 1] == data + [n, n + 1];
  }

  lemma FourSymbols(data: seq<nat>, n: nat)
    requires n + 4 <= 32
    ensures var s, t := Stream(5, data), Stream(5, data + [n, n + 1, n + 2, n + 3]);
            |t| == |s| + 20 && Value(t) == (((Value(s) * 32 + n) * 32 + n + 1) * 32 + n + 2) * 32 + n + 3
  {
    hide Value, Stream;
    TwoSymbols(data, n);
    TwoSymbols(data + [n, n + 1], n + 2);
    assert data + [n, n + 1] + [n + 2, n + 3] == data + [n, n + 1, n + 2, n + 3];
  }

  /** Eight consecutive symbols. */
  function Octet(n: nat): seq<symbol>
    requires n + 8 <= 32
  {
    [n, n + 1, n + 2, n + 3, n + 4, n + 5, n + 6, n + 7]
  }

  lemma EightSymbols(n: nat)
    requires n + 8 <= 32
    ensures var s := Stream(5, Octet(n));
            && |s| == 40
            && Value(s) == ((((((n * 32 + n + 1) * 32 + n + 2) * 32 + n + 3) * 32 + n + 4) * 32 + n + 5) * 32 + n + 6)
                           * 32 + n + 7
  {
    var first, second := [n, n + 1, n + 2, n + 3], [n + 4, n + 5, n + 6, n + 7];
    NoValue(5);
    assert [] + first == first && first + second == Octet(n);
    FourSymbols([], n);
    FourSymbols(first, n + 4);
    hide Value, Stream, Octet;
  }

  lemma NoValue(width: nat)
    ensures Stream(width, []) == [] && Value([]) == 0
  {}

  lemma SameBits(x: seq<bool>, y: seq<bool>)
    requires |x| == |y| && Value(x) == Value(y)
    ensures x == y
  {
    BitsOfValue(x);
    BitsOfValue(y);
  }

  lemma AlphabetBlock(n: nat, a: byte, b: byte, c: byte, d: byte, e: byte)
    requires n + 8 <= 32
    requires (((a as int * 256 + b) * 256 + c) * 256 + d) * 256 + e ==
             ((((((n * 32 + n + 1) * 32 + n + 2) * 32 + n + 3) * 32 + n + 4) * 32 + n + 5) * 32 + n + 6) * 32 + n + 7
    ensures Stream(8, [a, b, c, d, e]) == Stream(5, Octet(n))
  {
    FiveBytes(a, b, c, d, e);
    EightSymbols(n);
    SameBits(Stream(8, [a, b, c, d, e]), Stream(5, Octet(n)));
  }

  lemma FourParts(width: nat, a: seq<nat>, b: seq<nat>, c: seq<nat>, d: seq<nat>)
    ensures Stream(width, a + b + c + d) ==
              Stream(width, a) + Stream(width, b) + Stream(width, c) + Stream(width, d)
  {
    StreamConcat(width, a + b + c, d);
    StreamConcat(width, a + b, c);
    StreamConcat(width, a, b);
  }

  lemma AlphabetStream()
    ensures Stream(8, AlphabetBytes()) == Stream(5, Alphabet())
  {
    hide Stream, Octet, Value;
    AlphabetBlock(0, 0, 68, 50, 20, 199);
    AlphabetBlock(8, 66, 84, 182, 53, 207);
    AlphabetBlock(16, 132, 101, 58, 86, 215);
    AlphabetBlock(24, 198, 117, 190, 119, 223);
    var a: seq<byte>, b: seq<byte> := [0, 68, 50, 20, 199], [66, 84, 182, 53, 207];
    var c: seq<byte>, d: seq<byte> := [132, 101, 58, 86, 215], [198, 117, 190, 119, 223];
    FourParts(8, a, b, c, d);
    FourParts(5, Octet(0), Octet(8), Octet(16), Octet(24));
    assert AlphabetBytes() == a + b + c + d;
  }

  lemma AlphabetBits()
    ensures FiveBits(AlphabetBytes()) == Alphabet()
  {
    hide Alphabet, AlphabetBytes, Fits, Chunks, Rest, Stream;
    var bits := Stream(8, AlphabetBytes());
    AlphabetStream();
    AlphabetFits();
    ChunksOfStream(5, Alphabet(), []);
    assert bits + [] == bits && bits + Zeros(0) == bits;
    ByteFits(AlphabetBytes());
  }

  lemma AlphabetFits()
    ensures Fits(5, Alphabet())
  {
    assert Pow2(5) == 32;
  }

  lemma AlphabetText()
    ensures Write(Alphabet()) == "qpzry9x8gf2tvdw0s3jn54khce6mua7l"
    ensures Write([27, 0, 0, 0, 6, 14]) == "mqqqxw"
  {
    assert forall i :: 0 <= i < 32 ==> Alphabet()[i] == i;
    assert Write(Alphabet()) == CHARSET;
  }

  lemma WriteConcat(a: seq<symbol>, b: seq<symbol>)
    ensures Write(a + b) == Write(a) + Write(b)
  {
    hide CHARSET;
  }

  lemma AlphabetPrefix()
    ensures ToLower("abcdef") == "abcdef" && HrpReadable("abcdef") && "abcdef" + ['1'] == "abcdef1"
  {}

  /** A text that uses the whole alphabet, twenty bytes and every generator. */
  lemma AlphabetVector()
    ensures var text := "abcdef1" + "qpzry9x8gf2tvdw0s3jn54khce6mua7l" + "mqqqxw";
            Encode("abcdef", AlphabetBytes()) == Text(text) && Decode(text) == Address("abcdef", AlphabetBytes())
  {
    hide CHARSET, VerifyChecksum, DecodeLower, CreateChecksum, FiveBits, Alphabet, AlphabetBytes, Write, ToLower,
      HrpReadable;
    var checksum: seq<symbol> := [27, 0, 0, 0, 6, 14];
    AlphabetBits();
    AlphabetVerifies();
    ChecksumUnique("abcdef", Alphabet(), checksum);
    WriteConcat(Alphabet(), checksum);
    AlphabetText();
    AlphabetPrefix();
    EncodeThenDecode("abcdef", AlphabetBytes());
    hide Decode, MixesCase;
    assert ("abcdef1" + "qpzry9x8gf2tvdw0s3jn54khce6mua7l") + "mqqqxw" ==
           "abcdef1" + ("qpzry9x8gf2tvdw0s3jn54khce6mua7l" + "mqqqxw") by {
      Associative("abcdef1", "qpzry9x8gf2tvdw0s3jn54khce6mua7l", "mqqqxw");
    }
  }

  lemma Associative(a: string, b: string, c: string)
    ensures (a + b) + c == a + (b + c)
  {}
}
