/** The register behind the bech32 checksum: 30 bits shifted with linear feedback (BIP-0173,
    "Checksum"). The lemmas give the algebra the codec rests on: one step is linear and
    invertible, and six consecutive symbols fill the register without overlapping. */
module Bech32Register {
  import opened Words

  type symbol = x: int | 0 <= x < 32

  const REGISTER_LIMIT: bv32 := 0x40000000

  function Generator(i: nat): bv32
    requires i < 5
  {
    match i
    case 0 => 0x3b6a57b2
    case 1 => 0x26508e6d
    case 2 => 0x1ea119fa
    case 3 => 0x3d4233dd
    case 4 => 0x2a1462b3
  }

  function Xor(x: bv32, y: bv32): bv32 { x ^ y }

  predicate On(top: bv32, i: nat)
    requires i < 5
  {
    match i
    case 0 => top & 1 == 1
    case 1 => (top >> 1) & 1 == 1
    case 2 => (top >> 2) & 1 == 1
    case 3 => (top >> 3) & 1 == 1
    case 4 => (top >> 4) & 1 == 1
  }

  function Tap(on: bool, generator: bv32): bv32 { if on then generator else 0 }

  function Shifted(chk: bv32): bv32 { (chk & 0x1ffffff) << 5 }

  function Top(chk: bv32): bv32 { chk >> 25 }

  /** Adds to x what the n low bits of the symbol shifted out feed back. */
  function FedBack(x: bv32, top: bv32, n: nat): bv32
    requires n <= 5
  {
    if n == 0 then x else Xor(FedBack(x, top, n - 1), Tap(On(top, n - 1), Generator(n - 1)))
  }

  /** One round of the checksum: shift in v, feed back the symbol shifted out. */
  function Step(chk: bv32, v: bv32): bv32 {
    FedBack(Xor(Shifted(chk), v), Top(chk), 5)
  }

  /** What each of the five bits shifted out feeds back. */
  lemma BitsFeedBack()
    ensures Step(0x2000000, 0) == 0x3b6a57b2 && Step(0x4000000, 0) == 0x26508e6d && Step(0x8000000, 0) == 0x1ea119fa
    ensures Step(0x10000000, 0) == 0x3d4233dd && Step(0x20000000, 0) == 0x2a1462b3
  {}

  // ----- XOR -----

  lemma XorLaws(a: bv32, b: bv32)
    ensures Xor(a, b) == Xor(b, a)
    ensures Xor(a, a) == 0 && Xor(a, 0) == a
  {}

  lemma XorAssociative(a: bv32, b: bv32, c: bv32)
    ensures Xor(Xor(a, b), c) == Xor(a, Xor(b, c))
  {}

  lemma XorSwap(a: bv32, b: bv32, v: bv32, w: bv32)
    ensures Xor(Xor(a, v), Xor(b, w)) == Xor(Xor(a, b), Xor(v, w))
  {
    hide Xor;
    XorAssociative(a, v, Xor(b, w));
    XorAssociative(v, b, w);
    XorAssociative(b, v, w);
    XorAssociative(a, b, Xor(v, w));
    XorLaws(v, b);
  }

  /** Two words are equal exactly when they XOR to zero. */
  lemma XorZero(a: bv32, b: bv32)
    ensures Xor(a, b) == 0 <==> a == b
  {
    hide Xor;
    XorAssociative(a, b, b);
    XorLaws(b, b);
    XorLaws(a, 0);
    XorLaws(b, 0);
  }

  // ----- One step is linear -----

  lemma OnLinear(t: bv32, u: bv32, i: nat)
    requires i < 5
    ensures On(Xor(t, u), i) == (On(t, i) != On(u, i))
  {}

  lemma TapLinear(b: bool, c: bool, g: bv32)
    ensures Tap(b != c, g) == Xor(Tap(b, g), Tap(c, g))
  {
    hide Xor;
    XorLaws(g, 0);
    XorLaws(0, g);
  }

  lemma {:induction false} FedBackLinear(x: bv32, y: bv32, t: bv32, u: bv32, n: nat)
    requires n <= 5
    ensures FedBack(Xor(x, y), Xor(t, u), n) == Xor(FedBack(x, t, n), FedBack(y, u, n))
  {
    hide Xor, On, Tap, Generator;
    if n != 0 {
      FedBackLinear(x, y, t, u, n - 1);
      OnLinear(t, u, n - 1);
      var g := Generator(n - 1);
      TapLinear(On(t, n - 1), On(u, n - 1), g);
      XorSwap(FedBack(x, t, n - 1), FedBack(y, u, n - 1), Tap(On(t, n - 1), g), Tap(On(u, n - 1), g));
    }
  }

  lemma ShiftLinear(a: bv32, b: bv32)
    ensures Top(Xor(a, b)) == Xor(Top(a), Top(b))
    ensures Shifted(Xor(a, b)) == Xor(Shifted(a), Shifted(b))
  {}

  /** XOR of two registers and XOR of two symbols step to the XOR of the results. */
  lemma StepLinear(a: bv32, b: bv32, v: bv32, w: bv32)
    ensures Step(Xor(a, b), Xor(v, w)) == Xor(Step(a, v), Step(b, w))
  {
    hide Xor, FedBack, Top, Shifted;
    ShiftLinear(a, b);
    XorSwap(Shifted(a), Shifted(b), v, w);
    FedBackLinear(Xor(Shifted(a), v), Xor(Shifted(b), w), Top(a), Top(b), 5);
  }

  // ----- One step is invertible -----

  function Fed(x: bv32, t: bv32, i: nat): bv32
    requires i < 5
  {
    Xor(x, Tap(On(t, i), Generator(i)))
  }

  lemma FedBackUnfolds(x: bv32, t: bv32)
    ensures FedBack(x, t, 5) == Fed(Fed(Fed(Fed(Fed(x, t, 0), t, 1), t, 2), t, 3), t, 4)
  {
    hide Xor, On, Tap, Generator;
    assert FedBack(x, t, 1) == Fed(x, t, 0);
    assert FedBack(x, t, 2) == Fed(FedBack(x, t, 1), t, 1);
    assert FedBack(x, t, 3) == Fed(FedBack(x, t, 2), t, 2);
    assert FedBack(x, t, 4) == Fed(FedBack(x, t, 3), t, 3);
  }

  lemma {:induction false} FedBackSplits(x: bv32, t: bv32, n: nat)
    requires n <= 5
    ensures FedBack(x, t, n) == Xor(x, FedBack(0, t, n))
  {
    hide Xor, On, Tap, Generator;
    XorLaws(x, 0);
    if n != 0 {
      FedBackSplits(x, t, n - 1);
      XorAssociative(x, FedBack(0, t, n - 1), Tap(On(t, n - 1), Generator(n - 1)));
    }
  }

  /** The low five bits of the generators are independent. */
  lemma FedBackNonzero(t: bv32)
    requires t < 32
    ensures FedBack(0, t, 5) < REGISTER_LIMIT
    ensures t == 0 ==> FedBack(0, t, 5) == 0
    ensures t != 0 ==> FedBack(0, t, 5) & 31 != 0
  {
    hide FedBack;
    FedBackUnfolds(0, t);
  }

  lemma StepSplits(chk: bv32, v: bv32)
    requires chk < REGISTER_LIMIT
    ensures Top(chk) < 32 && Step(chk, v) == Xor(Xor(Shifted(chk), v), FedBack(0, Top(chk), 5))
  {
    hide FedBack;
    FedBackSplits(Xor(Shifted(chk), v), Top(chk), 5);
  }

  lemma StepStaysInRegister(chk: bv32, v: bv32)
    requires chk < REGISTER_LIMIT && v < 256
    ensures Step(chk, v) < REGISTER_LIMIT
  {
    StepSplits(chk, v);
    FedBackNonzero(Top(chk));
    hide FedBack, Step;
  }

  /** A nonzero register never steps to zero on a zero symbol: the step is invertible. */
  lemma StepInvertible(d: bv32)
    requires 0 < d < REGISTER_LIMIT
    ensures Step(d, 0) != 0
  {
    StepSplits(d, 0);
    FedBackNonzero(Top(d));
    XorLaws(Shifted(d), 0);
    XorZero(Shifted(d), FedBack(0, Top(d), 5));
    hide FedBack, Step, Xor;
    assert Shifted(d) & 31 == 0;
    if Top(d) == 0 {
      assert Shifted(d) != 0;
    }
  }

  /** Below 2^25 nothing is shifted out, so a step is a plain shift. */
  lemma StepWithoutFeedback(d: bv32, v: bv32)
    requires d < 0x2000000
    ensures Step(d, v) == Xor(Slid(d), v)
  {
    StepSplits(d, v);
    FedBackNonzero(Top(d));
    XorLaws(Xor(Slid(d), v), 0);
    hide FedBack, Step, Xor;
    assert Top(d) == 0 && Shifted(d) == Slid(d);
  }

  // ----- Runs of the register -----

  function Word(v: byte): bv32 { (v as bv8) as bv32 }

  function Digit(w: bv32): symbol
    requires w < 32
  {
    (w as bv8) as int
  }

  lemma WordBound(v: byte)
    ensures Word(v) < 256
  {}

  lemma WordOfSymbol(v: symbol)
    ensures Word(v) < 32 && Digit(Word(v)) == v
  {}

  lemma DigitOfWord(w: bv32)
    requires w < 32
    ensures Word(Digit(w)) == w
  {}

  /** The register after feeding values into chk. */
  function Run(chk: bv32, values: seq<byte>): bv32 {
    if values == [] then chk
    else Step(Run(chk, values[..|values| - 1]), Word(values[|values| - 1]))
  }

  lemma {:induction false} RunConcat(chk: bv32, s: seq<byte>, t: seq<byte>)
    ensures Run(chk, s + t) == Run(Run(chk, s), t)
  {
    hide Step, Word;
    if t == [] {
      assert s + t == s;
    } else {
      assert (s + t)[..|s + t| - 1] == s + t[..|t| - 1];
      RunConcat(chk, s, t[..|t| - 1]);
    }
  }

  lemma {:induction false} RunStaysInRegister(chk: bv32, values: seq<byte>)
    requires chk < REGISTER_LIMIT
    ensures Run(chk, values) < REGISTER_LIMIT
  {
    hide Step, Word;
    if values != [] {
      WordBound(values[|values| - 1]);
      RunStaysInRegister(chk, values[..|values| - 1]);
      StepStaysInRegister(Run(chk, values[..|values| - 1]), Word(values[|values| - 1]));
    }
  }

  /** Two registers that differ still differ after any common input. */
  lemma {:induction false} RunInjective(a: bv32, b: bv32, values: seq<byte>)
    requires a < REGISTER_LIMIT && b < REGISTER_LIMIT && a != b
    ensures Run(a, values) != Run(b, values)
  {
    hide Step, Xor, Word;
    if values != [] {
      var v := Word(values[|values| - 1]);
      var x, y := Run(a, values[..|values| - 1]), Run(b, values[..|values| - 1]);
      RunInjective(a, b, values[..|values| - 1]);
      RunStaysInRegister(a, values[..|values| - 1]);
      RunStaysInRegister(b, values[..|values| - 1]);
      XorStaysInRegister(x, y);
      XorZero(x, y);
      StepInvertible(Xor(x, y));
      XorLaws(v, v);
      StepLinear(x, y, v, v);
      XorZero(Step(x, v), Step(y, v));
    }
  }

  lemma XorStaysInRegister(x: bv32, y: bv32)
    requires x < REGISTER_LIMIT && y < REGISTER_LIMIT
    ensures Xor(x, y) < REGISTER_LIMIT
  {}

  // ----- Six symbols fill the register -----

  function Limit(n: nat): bv32
    requires n <= 6
  {
    match n
    case 0 => 1
    case 1 => 0x20
    case 2 => 0x400
    case 3 => 0x8000
    case 4 => 0x100000
    case 5 => 0x2000000
    case 6 => 0x40000000
  }

  function Slid(p: bv32): bv32 { p << 5 }

  /** The symbols laid side by side, five bits each. */
  function Pack(s: seq<symbol>): bv32 {
    if s == [] then 0 else Xor(Slid(Pack(s[..|s| - 1])), Word(s[|s| - 1]))
  }

  lemma PackOne(p: bv32, v: bv32, n: nat)
    requires n < 6 && p < Limit(n) && v < 32
    ensures Xor(Slid(p), v) < Limit(n + 1)
  {}

  function Low(x: bv32): bv32 { x & 31 }

  function High(x: bv32): bv32 { x >> 5 }

  lemma PackParts(p: bv32, v: bv32)
    requires p < 0x2000000 && v < 32
    ensures Low(Xor(Slid(p), v)) == v && High(Xor(Slid(p), v)) == p
  {}

  lemma {:induction false} PackBound(s: seq<symbol>)
    requires |s| <= 6
    ensures Pack(s) < Limit(|s|)
  {
    hide Xor, Word, Slid, Limit;
    assert Limit(0) == 1 by { LimitGrows(0); }
    if s != [] {
      PackBound(s[..|s| - 1]);
      WordOfSymbol(s[|s| - 1]);
      PackOne(Pack(s[..|s| - 1]), Word(s[|s| - 1]), |s| - 1);
    }
  }

  lemma {:induction false} PackInjective(u: seq<symbol>, w: seq<symbol>)
    requires |u| == |w| <= 6
    requires Pack(u) == Pack(w)
    ensures u == w
  {
    hide Xor, Word, Digit, Slid, Limit, Low, High;
    if u != [] {
      var n := |u| - 1;
      PackBound(u[..n]);
      PackBound(w[..n]);
      WordOfSymbol(u[n]);
      WordOfSymbol(w[n]);
      LimitGrows(n);
      PackParts(Pack(u[..n]), Word(u[n]));
      PackParts(Pack(w[..n]), Word(w[n]));
      PackInjective(u[..n], w[..n]);
      assert u == u[..n] + [u[n]] && w == w[..n] + [w[n]];
    }
  }

  lemma SlidLinear(p: bv32, q: bv32)
    ensures Slid(Xor(p, q)) == Xor(Slid(p), Slid(q))
  {}

  lemma XorStaysLow(p: bv32, q: bv32)
    requires p < 0x2000000 && q < 0x2000000
    ensures Xor(p, q) < 0x2000000
  {}

  /** From one register, two short words lead to registers that differ by exactly the
      difference of the words. */
  lemma {:induction false} RunPacks(chk: bv32, u: seq<symbol>, w: seq<symbol>)
    requires chk < REGISTER_LIMIT && |u| == |w| <= 6
    ensures Xor(Run(chk, u), Run(chk, w)) == Xor(Pack(u), Pack(w))
  {
    hide Step, Xor, Word, Slid, Limit;
    XorLaws(chk, chk);
    XorLaws(0, 0);
    if u != [] {
      var n := |u| - 1;
      var x, y, p, q := Run(chk, u[..n]), Run(chk, w[..n]), Pack(u[..n]), Pack(w[..n]);
      var v, z := Word(u[n]), Word(w[n]);
      RunPacks(chk, u[..n], w[..n]);
      StepLinear(x, y, v, z);
      PackBound(u[..n]);
      PackBound(w[..n]);
      LimitGrows(n);
      XorStaysLow(p, q);
      SlidLinear(p, q);
      StepWithoutFeedback(Xor(p, q), Xor(v, z));
      XorSwap(Slid(p), Slid(q), v, z);
    }
  }

  lemma LimitGrows(n: nat)
    requires n < 6
    ensures Limit(0) == 1 && Limit(n) <= 0x2000000
  {}

  /** Symbol i of m: mod >> (5 * (5 - i)) & 31. */
  function Cut(m: bv32, i: nat): bv32
    requires i < 6
  {
    match i
    case 0 => (m >> 25) & 31
    case 1 => (m >> 20) & 31
    case 2 => (m >> 15) & 31
    case 3 => (m >> 10) & 31
    case 4 => (m >> 5) & 31
    case 5 => m & 31
  }

  lemma CutBound(m: bv32, i: nat)
    requires i < 6
    ensures Cut(m, i) < 32
  {}

  /** The n leading symbols of m, as one number. */
  function Head(m: bv32, n: nat): bv32
    requires n <= 6
    decreases 6 - n
  {
    if n == 6 then m else High(Head(m, n + 1))
  }

  lemma HeadIsShift(m: bv32)
    ensures Head(m, 6) == m && Head(m, 5) == m >> 5 && Head(m, 4) == m >> 10
    ensures Head(m, 3) == m >> 15 && Head(m, 2) == m >> 20 && Head(m, 1) == m >> 25
    ensures m < REGISTER_LIMIT ==> Head(m, 0) == 0
  {
    assert Head(m, 6) == m;
    assert Head(m, 5) == m >> 5;
    assert Head(m, 4) == m >> 10;
    assert Head(m, 3) == m >> 15;
    assert Head(m, 2) == m >> 20;
    assert Head(m, 1) == m >> 25;
  }

  lemma CutEndsHead(m: bv32, i: nat)
    requires i < 6
    ensures Cut(m, i) == Low(Head(m, i + 1))
  {
    HeadIsShift(m);
    hide Head;
    if i == 0 {
    } else if i == 1 {
    } else if i == 2 {
    } else if i == 3 {
    } else if i == 4 {
    } else {
    }
  }

  lemma Rejoin(x: bv32)
    ensures Xor(Slid(High(x)), Low(x)) == x
  {}

  /** The six symbols of a register value, as they are written out. */
  function Unpack(m: bv32): (s: seq<symbol>)
    ensures |s| == 6
  {
    seq(6, i requires 0 <= i < 6 => CutBound(m, i); Digit(Cut(m, i)))
  }

  lemma PackUnpack(m: bv32)
    requires m < REGISTER_LIMIT
    ensures Pack(Unpack(m)) == m
  {
    var s := Unpack(m);
    hide Xor, Word, Digit, Slid, Cut, High;
    assert s[..6] == s;
    PackUnpackHead(m, 6);
    HeadIsShift(m);
  }

  lemma {:induction false} PackUnpackHead(m: bv32, n: nat)
    requires m < REGISTER_LIMIT && n <= 6
    ensures Pack(Unpack(m)[..n]) == Head(m, n)
  {
    hide Xor, Word, Digit, Slid, Low, High, Cut;
    if n == 0 {
      HeadIsShift(m);
    } else {
      var s := Unpack(m)[..n];
      assert s[..n - 1] == Unpack(m)[..n - 1];
      PackUnpackHead(m, n - 1);
      CutBound(m, n - 1);
      CutEndsHead(m, n - 1);
      DigitOfWord(Cut(m, n - 1));
      Rejoin(Head(m, n));
    }
  }
}
