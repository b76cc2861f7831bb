/** The bech32 checksum over a human readable part and 5-bit data, BIP-0173, "Checksum". */
module Bech32Checksum {
  import opened Bech32Register
  import opened Words

  type ascii = c: char | c as int < 128

  const CHECKSUM_LENGTH := 6

  function HrpExpand(hrp: seq<ascii>): seq<byte> {
    seq(|hrp|, i requires 0 <= i < |hrp| => hrp[i] as int / 32) + [0] +
    seq(|hrp|, i requires 0 <= i < |hrp| => hrp[i] as int % 32)
  }

  /** What createChecksum appends to data. */
  function CreateChecksum(hrp: seq<ascii>, data: seq<symbol>): seq<symbol> {
    Unpack(Xor(Run(1, HrpExpand(hrp) + data + [0, 0, 0, 0, 0, 0]), 1))
  }

  predicate VerifyChecksum(hrp: seq<ascii>, data: seq<symbol>) {
    Run(1, HrpExpand(hrp) + data) == 1
  }

  // ----- Theorems -----

  lemma StartStays(hrp: seq<ascii>, data: seq<symbol>)
    ensures Run(1, HrpExpand(hrp) + data) < REGISTER_LIMIT
  {
    RunStaysInRegister(1, HrpExpand(hrp) + data);
  }

  lemma RunAppend(hrp: seq<ascii>, data: seq<symbol>, suffix: seq<symbol>)
    ensures Run(1, HrpExpand(hrp) + (data + suffix)) == Run(Run(1, HrpExpand(hrp) + data), suffix)
  {
    assert HrpExpand(hrp) + (data + suffix) == (HrpExpand(hrp) + data) + suffix;
    RunConcat(1, HrpExpand(hrp) + data, suffix);
  }

  /** For every hrp and every 5-bit data of any length, exactly one 6-symbol suffix passes
      verification, and it is the one createChecksum computes. */
  lemma ChecksumUnique(hrp: seq<ascii>, data: seq<symbol>, suffix: seq<symbol>)
    requires |suffix| == CHECKSUM_LENGTH
    ensures VerifyChecksum(hrp, data + suffix) <==> suffix == CreateChecksum(hrp, data)
  {
    hide Run, Pack, Unpack, Xor, Word, HrpExpand;
    var zeros: seq<symbol> := [0, 0, 0, 0, 0, 0];
    var start := Run(1, HrpExpand(hrp) + data);
    var atSuffix, atZeros := Run(start, suffix), Run(start, zeros);
    StartStays(hrp, data);
    RunAppend(hrp, data, suffix);
    RunAppend(hrp, data, zeros);
    assert HrpExpand(hrp) + data + [0, 0, 0, 0, 0, 0] == HrpExpand(hrp) + (data + zeros);
    RunPacks(start, suffix, zeros);
    PackZeros();
    XorLaws(Pack(suffix), 0);
    // atSuffix XOR atZeros is Pack(suffix), so atSuffix is 1 exactly when Pack(suffix) is mod
    var mod := Xor(atZeros, 1);
    RunStaysInRegister(start, zeros);
    XorStaysInRegister(atZeros, 1);
    XorCancels(atSuffix, atZeros, Pack(suffix));
    PackUnpack(mod);
    if Pack(suffix) == mod {
      PackInjective(suffix, Unpack(mod));
    }
  }

  lemma PackZeros()
    ensures Pack([0, 0, 0, 0, 0, 0]) == 0
  {
    assert Pack([]) == 0;
    assert Word(0) == 0 && Xor(Slid(0), 0) == 0;
    assert [0][..0] == [] && [0, 0][..1] == [0] && [0, 0, 0][..2] == [0, 0] && [0, 0, 0, 0][..3] == [0, 0, 0];
    assert [0, 0, 0, 0, 0][..4] == [0, 0, 0, 0] && [0, 0, 0, 0, 0, 0][..5] == [0, 0, 0, 0, 0];
    assert Pack([0]) == 0;
    assert Pack([0, 0]) == 0;
    assert Pack([0, 0, 0]) == 0;
    assert Pack([0, 0, 0, 0]) == 0;
    assert Pack([0, 0, 0, 0, 0]) == 0;
  }

  lemma XorCancels(x: bv32, y: bv32, d: bv32)
    requires Xor(x, y) == d
    ensures x == 1 <==> d == Xor(y, 1)
  {
    XorAssociative(x, y, y);
    XorLaws(x, y);
    XorLaws(y, y);
    XorLaws(y, 1);
    XorLaws(x, x);
    XorLaws(x, 0);
    XorAssociative(1, y, y);
    XorLaws(1, 0);
    hide Xor;
  }

  /** Two words with the same hrp and length that differ only inside a window of at most
      six consecutive data symbols never both verify, at any length. */
  lemma BurstDetected(hrp: seq<ascii>, x: seq<symbol>, y: seq<symbol>, from: nat, to: nat)
    requires |x| == |y| && from <= to <= |x| && to - from <= 6
    requires x[..from] == y[..from] && x[to..] == y[to..] && x != y
    ensures !(VerifyChecksum(hrp, x) && VerifyChecksum(hrp, y))
  {
    hide Run, Pack, Xor, Word, HrpExpand;
    var u, w, rest := x[from..to], y[from..to], x[to..];
    assert x == x[..from] + u + rest && y == x[..from] + w + rest;
    var start := Run(1, HrpExpand(hrp) + x[..from]);
    StartStays(hrp, x[..from]);
    RunAppend(hrp, x[..from], u);
    RunAppend(hrp, x[..from] + u, rest);
    RunAppend(hrp, x[..from], w);
    RunAppend(hrp, x[..from] + w, rest);
    RunPacks(start, u, w);
    XorZero(Run(start, u), Run(start, w));
    XorZero(Pack(u), Pack(w));
    if Pack(u) == Pack(w) {
      PackInjective(u, w);
    }
    RunStaysInRegister(start, u);
    RunStaysInRegister(start, w);
    RunInjective(Run(start, u), Run(start, w), rest);
  }

  /** Any single substitution is a burst of one. */
  lemma SubstitutionDetected(hrp: seq<ascii>, x: seq<symbol>, i: nat, v: symbol)
    requires i < |x| && v != x[i] && VerifyChecksum(hrp, x)
    ensures !VerifyChecksum(hrp, x[i := v])
  {
    BurstDetected(hrp, x, x[i := v], i, i + 1);
  }

  // ----- The loops -----

  method ComputePolymod(values: seq<byte>) returns (chk: bv32)
    ensures chk == Run(1, values)
  {
    chk := 1;
    for i := 0 to |values|
      invariant chk == Run(1, values[..i])
    {
      hide Xor, On, Generator, Shifted, Top, Word;
      var top := Top(chk);
      chk := Xor(Shifted(chk), Word(values[i]));
      ghost var shifted := chk;
      for k := 0 to 5
        invariant chk == FedBack(shifted, top, k)
      {
        XorLaws(chk, 0);
        if On(top, k) {
          chk := Xor(chk, Generator(k));
        }
      }
      assert values[..i + 1][..i] == values[..i];
    }
    assert values[..|values|] == values;
  }

  method ExpandHrp(hrp: seq<ascii>) returns (out: seq<byte>)
    ensures out == HrpExpand(hrp)
  {
    out := [];
    for i := 0 to |hrp|
      invariant out == HrpExpand(hrp)[..i]
    {
      out := out + [hrp[i] as int / 32];
    }
    out := out + [0];
    for i := 0 to |hrp|
      invariant out == HrpExpand(hrp)[..|hrp| + 1 + i]
    {
      out := out + [hrp[i] as int % 32];
    }
  }

  method ComputeChecksum(hrp: seq<ascii>, data: seq<symbol>) returns (out: array<symbol>)
    ensures fresh(out) && out[..] == CreateChecksum(hrp, data)
  {
    var expanded := ExpandHrp(hrp);
    var chk := ComputePolymod(expanded + data + [0, 0, 0, 0, 0, 0]);
    var mod := Xor(chk, 1);
    out := new symbol[6];
    for i := 0 to 6
      invariant out[..i] == Unpack(mod)[..i]
    {
      hide Cut, Digit, Xor;
      CutBound(mod, i);
      out[i] := Digit(Cut(mod, i));
    }
    assert out[..] == out[..6];
  }

  method CheckChecksum(hrp: seq<ascii>, data: seq<symbol>) returns (ok: bool)
    ensures ok <==> VerifyChecksum(hrp, data)
  {
    var expanded := ExpandHrp(hrp);
    var chk := ComputePolymod(expanded + data);
    ok := chk == 1;
  }
}
