/** Regrouping a bit string: convertBits turns groups of `from` bits into groups of `to`
    bits through a masked accumulator. Its specification is that the bits stay the same. */
module BitGroups {
  import opened Words

  datatype Regrouped = Groups(values: seq<byte>) | OutOfRange | BadPadding

  function Pow2(n: nat): (p: nat)
    ensures p > 0
  {
    if n == 0 then 1 else 2 * Pow2(n - 1)
  }

  /** The number a bit string stands for, most significant bit first. */
  function Value(bits: seq<bool>): nat {
    if bits == [] then 0
    else 2 * Value(bits[..|bits| - 1]) + (if bits[|bits| - 1] then 1 else 0)
  }

  /** The `width` low bits of x. */
  function Bits(width: nat, x: nat): (s: seq<bool>)
    ensures |s| == width
  {
    if width == 0 then [] else Bits(width - 1, x / 2) + [x % 2 == 1]
  }

  /** All the bits of a word of groups, one group after the other. */
  function Stream(width: nat, data: seq<nat>): seq<bool> {
    if data == [] then [] else Stream(width, data[..|data| - 1]) + Bits(width, data[|data| - 1])
  }

  function Zeros(n: nat): (s: seq<bool>)
    ensures |s| == n
  {
    seq(n, _ => false)
  }

  function Suffix(bits: seq<bool>, n: nat): seq<bool> {
    if |bits| <= n then bits else bits[|bits| - n..]
  }

  predicate Fits(width: nat, data: seq<nat>) {
    forall i :: 0 <= i < |data| ==> data[i] < Pow2(width)
  }

  // ----- Numbers and bit strings -----

  lemma {:induction false} ValueBound(bits: seq<bool>)
    ensures Value(bits) < Pow2(|bits|)
  {
    if bits != [] {
      ValueBound(bits[..|bits| - 1]);
    }
  }

  lemma {:induction false} ValueOfBits(width: nat, x: nat)
    requires x < Pow2(width)
    ensures Value(Bits(width, x)) == x
  {
    if width != 0 {
      ValueOfBits(width - 1, x / 2);
      assert Bits(width, x)[..width - 1] == Bits(width - 1, x / 2);
    }
  }

  lemma {:induction false} BitsOfValue(bits: seq<bool>)
    ensures Bits(|bits|, Value(bits)) == bits
  {
    if bits != [] {
      BitsOfValue(bits[..|bits| - 1]);
      assert bits == bits[..|bits| - 1] + [bits[|bits| - 1]];
    }
  }

  /** Dropping k bits divides by 2^k; the k dropped bits are the remainder. */
  lemma {:induction false} ValueSplits(bits: seq<bool>, k: nat)
    requires k <= |bits|
    ensures Value(bits) / Pow2(k) == Value(bits[..|bits| - k])
    ensures Value(bits) % Pow2(k) == Value(bits[|bits| - k..])
  {
    var head, tail := bits[..|bits| - k], bits[|bits| - k..];
    assert bits == head + tail;
    ValueConcat(head, tail);
    ValueBound(tail);
    DivMod(Value(head), Pow2(k), Value(tail));
  }

  lemma DivMod(q: nat, d: nat, r: nat)
    requires r < d
    ensures (q * d + r) / d == q && (q * d + r) % d == r
  {
    assert (q * d + r) / d * d + (q * d + r) % d == q * d + r;
    var e := (q * d + r) / d - q;
    assert e * d == r - (q * d + r) % d;
    assert 0 - d < e * d < d;
  }

  lemma {:induction false} ValueConcat(a: seq<bool>, b: seq<bool>)
    ensures Value(a + b) == Value(a) * Pow2(|b|) + Value(b)
  {
    if b == [] {
      assert a + b == a && Pow2(0) == 1;
    } else {
      assert (a + b)[..|a + b| - 1] == a + b[..|b| - 1];
      ValueConcat(a, b[..|b| - 1]);
      Doubles(Value(a), Pow2(|b| - 1), Value(b[..|b| - 1]));
    }
  }

  lemma Doubles(x: nat, y: nat, z: nat)
    ensures 2 * (x * y + z) == x * (2 * y) + 2 * z
  {}

  lemma ValueSuffix(bits: seq<bool>, m: nat)
    ensures Value(bits) % Pow2(m) == Value(Suffix(bits, m))
  {
    if |bits| <= m {
      ValueBound(bits);
      Pow2Monotone(|bits|, m);
      DivMod(0, Pow2(m), Value(bits));
    } else {
      ValueSplits(bits, m);
    }
  }

  lemma {:induction false} Pow2Monotone(a: nat, b: nat)
    requires a <= b
    ensures Pow2(a) <= Pow2(b)
  {
    if a < b {
      Pow2Monotone(a, b - 1);
    }
  }

  lemma {:induction false} ValueZero(bits: seq<bool>)
    ensures Value(bits) == 0 <==> bits == Zeros(|bits|)
  {
    if bits != [] {
      var init := bits[..|bits| - 1];
      ValueZero(init);
      assert bits == init + [bits[|bits| - 1]];
      assert Zeros(|bits|) == Zeros(|init|) + [false];
    }
  }

  // ----- Streams -----

  lemma {:induction false} StreamConcat(width: nat, a: seq<nat>, b: seq<nat>)
    ensures Stream(width, a + b) == Stream(width, a) + Stream(width, b)
  {
    hide Bits;
    if b == [] {
      assert a + b == a;
    } else {
      var n := |b| - 1;
      assert (a + b)[..|a + b| - 1] == a + b[..n];
      StreamConcat(width, a, b[..n]);
      assert Stream(width, a) + (Stream(width, b[..n]) + Bits(width, b[n])) ==
          (Stream(width, a) + Stream(width, b[..n])) + Bits(width, b[n]);
    }
  }

  lemma StreamOne(width: nat, x: nat)
    ensures Stream(width, [x]) == Bits(width, x)
  {
    assert Stream(width, []) == [];
    assert [x][..0] == [];
  }

  /** The bit string, cut into groups from the front; an incomplete last group is dropped. */
  function Chunks(width: nat, bits: seq<bool>): seq<nat>
    requires width > 0
  {
    if |bits| < width then [] else [Value(bits[..width])] + Chunks(width, bits[width..])
  }

  /** What Chunks drops. */
  function Rest(width: nat, bits: seq<bool>): seq<bool>
    requires width > 0
  {
    if |bits| < width then bits else Rest(width, bits[width..])
  }

  lemma StreamOfGroups(width: nat, head: seq<bool>, groups: seq<nat>)
    requires |head| == width
    ensures Value(head) < Pow2(width)
    ensures Stream(width, [Value(head)] + groups) == head + Stream(width, groups)
  {
    ValueBound(head);
    BitsOfValue(head);
    StreamConcat(width, [Value(head)], groups);
    StreamOne(width, Value(head));
  }

  lemma {:induction false} ChunksFit(width: nat, bits: seq<bool>)
    requires width > 0
    ensures Fits(width, Chunks(width, bits)) && |Rest(width, bits)| < width
  {
    hide Value, Pow2;
    if |bits| >= width {
      ChunksFit(width, bits[width..]);
      ValueBound(bits[..width]);
    }
  }

  lemma {:induction false} ChunksKeepBits(width: nat, bits: seq<bool>)
    requires width > 0
    ensures Fits(width, Chunks(width, bits)) && |Rest(width, bits)| < width
    ensures Stream(width, Chunks(width, bits)) + Rest(width, bits) == bits
  {
    hide Value, Stream, Pow2, Fits;
    ChunksFit(width, bits);
    if |bits| < width {
      assert Stream(width, []) + bits == bits by { EmptyStream(width); }
    } else {
      var head, tail := bits[..width], bits[width..];
      ChunksKeepBits(width, tail);
      StreamOfGroups(width, head, Chunks(width, tail));
      assert bits == head + tail;
    }
  }

  lemma EmptyStream(width: nat)
    ensures Stream(width, []) == []
  {}

  /** Only one word of groups has given bits: cutting its stream gives it back. */
  lemma {:induction false} ChunksOfStream(width: nat, data: seq<nat>, rest: seq<bool>)
    requires width > 0 && Fits(width, data) && |rest| < width
    ensures Chunks(width, Stream(width, data) + rest) == data
    ensures Rest(width, Stream(width, data) + rest) == rest
  {
    hide Value, Pow2, Bits;
    if data == [] {
      assert Stream(width, data) + rest == rest;
    } else {
      var first, others := data[0], data[1..];
      var group, tail := Bits(width, first), Stream(width, others) + rest;
      assert data == [first] + others;
      StreamConcat(width, [first], others);
      StreamOne(width, first);
      ValueOfBits(width, first);
      hide Stream;
      assert Stream(width, data) + rest == group + tail;
      assert (group + tail)[..width] == group && (group + tail)[width..] == tail;
      ChunksOfStream(width, others, rest);
    }
  }

  // ----- convertBits -----

  /** Zero bits that complete the last group. */
  function Missing(width: nat, bits: seq<bool>): nat
    requires width > 0
  {
    var r := |Rest(width, bits)|;
    if r == 0 || r > width then 0 else width - r
  }

  function ConvertBits(data: seq<byte>, from: nat, to: nat, pad: bool): Regrouped
    requires 0 < from <= 8 && 0 < to <= 8
  {
    if !Fits(from, data) then OutOfRange
    else
      var bits := Stream(from, data);
      if pad then
        GroupsAreBytes(to, bits + Zeros(Missing(to, bits)));
        Groups(Chunks(to, bits + Zeros(Missing(to, bits))))
      else if |Rest(to, bits)| >= from || Rest(to, bits) != Zeros(|Rest(to, bits)|) then BadPadding
      else
        GroupsAreBytes(to, bits);
        Groups(Chunks(to, bits))
  }

  lemma GroupsAreBytes(width: nat, bits: seq<bool>)
    requires 0 < width <= 8
    ensures forall i :: 0 <= i < |Chunks(width, bits)| ==> Chunks(width, bits)[i] < 256
  {
    ChunksKeepBits(width, bits);
    Pow2Monotone(width, 8);
    assert Pow2(8) == 256;
  }

  lemma ByteFits(data: seq<byte>)
    ensures Fits(8, data)
  {
    assert Pow2(8) == 256;
  }

  /** Padding up to narrower groups and regrouping back is the identity, at every length. */
  lemma RegroupInverse(data: seq<byte>, wide: nat, narrow: nat)
    requires 0 < narrow <= wide <= 8
    requires Fits(wide, data)
    ensures ConvertBits(data, wide, narrow, true).Groups?
    ensures var groups := ConvertBits(data, wide, narrow, true).values;
            Fits(narrow, groups) && ConvertBits(groups, narrow, wide, false) == Groups(data)
  {
    var bits := Stream(wide, data);
    var zeros := Zeros(Missing(narrow, bits));
    var groups := Chunks(narrow, bits + zeros);
    ChunksKeepBits(narrow, bits);
    ChunksKeepBits(narrow, bits + zeros);
    PaddedExactly(narrow, bits);
    GroupsAreBytes(narrow, bits + zeros);
    assert Stream(narrow, groups) == bits + zeros;
    ChunksOfStream(wide, data, zeros);
  }

  lemma PaddedExactly(width: nat, bits: seq<bool>)
    requires width > 0
    ensures Rest(width, bits + Zeros(Missing(width, bits))) == [] && Missing(width, bits) < width
  {
    ChunksKeepBits(width, bits);
    RestOfSum(width, bits, Zeros(Missing(width, bits)));
  }

  lemma OneMore(width: nat, groups: seq<nat>, group: seq<bool>)
    requires |group| == width && Fits(width, groups)
    ensures Fits(width, groups + [Value(group)])
    ensures Stream(width, groups + [Value(group)]) == Stream(width, groups) + group
  {
    ValueBound(group);
    BitsOfValue(group);
    StreamConcat(width, groups, [Value(group)]);
    StreamOne(width, Value(group));
  }

  /** What is left over when fewer bits than a group are added. */
  lemma RestOfSum(width: nat, bits: seq<bool>, more: seq<bool>)
    requires width > 0 && |more| < width
    ensures var last := Rest(width, bits) + more;
            Rest(width, bits + more) == if |last| < width then last else last[width..]
  {
    hide *;
    var groups, last := Chunks(width, bits), Rest(width, bits) + more;
    ChunksKeepBits(width, bits);
    var kept := Stream(width, groups);
    assert bits + more == kept + last;
    if |last| < width {
      ChunksOfStream(width, groups, last);
    } else {
      var group, over := last[..width], last[width..];
      OneMore(width, groups, group);
      assert kept + last == (kept + group) + over;
      ChunksOfStream(width, groups + [Value(group)], over);
    }
  }

  /** The padding test accepts exactly the words some byte string pads to, and then gives
      that byte string. */
  lemma CanonicalOnly(groups: seq<byte>, narrow: nat, wide: nat)
    requires 0 < narrow <= wide <= 8
    requires ConvertBits(groups, narrow, wide, false).Groups?
    ensures var data := ConvertBits(groups, narrow, wide, false).values;
            Fits(wide, data) && ConvertBits(data, wide, narrow, true) == Groups(groups)
  {
    var bits := Stream(narrow, groups);
    var data, rest := Chunks(wide, bits), Rest(wide, bits);
    ChunksKeepBits(wide, bits);
    var kept := Stream(wide, data);
    assert bits == kept + rest && rest == Zeros(|rest|) && |rest| < narrow;
    ChunksOfStream(narrow, groups, []);
    assert Rest(narrow, kept + rest) == [] by { assert bits + [] == bits; }
    PaddingUnique(narrow, kept, |rest|);
    assert Chunks(narrow, bits) == groups by { assert bits + [] == bits; }
  }

  /** Fewer zeros than a group that complete the last group are as many as padding adds. */
  lemma PaddingUnique(width: nat, bits: seq<bool>, n: nat)
    requires width > 0 && n < width
    requires Rest(width, bits + Zeros(n)) == []
    ensures Missing(width, bits) == n
  {
    ChunksKeepBits(width, bits);
    RestOfSum(width, bits, Zeros(n));
  }

  // ----- The accumulator loop -----

  lemma SuffixOfSuffix(s: seq<bool>, t: seq<bool>, m: nat)
    ensures Suffix(Suffix(s, m) + t, m) == Suffix(s + t, m)
  {}

  /** acc << width | b, masked to m bits. */
  function ShiftIn(acc: nat, width: nat, b: nat, m: nat): nat { (acc * Pow2(width) + b) % Pow2(m) }

  /** acc >> rest, masked to one group. */
  function ReadOut(acc: nat, rest: nat, width: nat): nat { acc / Pow2(rest) % Pow2(width) }

  /** acc << (width - rest), masked to one group. */
  function PadOut(acc: nat, rest: nat, width: nat): nat
    requires rest <= width
  {
    acc * Pow2(width - rest) % Pow2(width)
  }

  /** What the loops keep: the accumulator holds the last bits seen, `out` the bits emitted. */
  ghost predicate Accumulated(from: nat, to: nat, seen: seq<bool>, acc: nat, rest: nat, out: seq<nat>)
    requires from + to > 0
  {
    && acc == Value(Suffix(seen, from + to - 1))
    && rest <= |seen| && rest < from + to
    && Fits(to, out) && seen[..|seen| - rest] == Stream(to, out)
  }

  /** Shifting a group into the accumulator and masking keeps the last m bits seen. */
  lemma FeedAccumulator(seen: seq<bool>, m: nat, width: nat, b: nat)
    requires b < Pow2(width)
    ensures ShiftIn(Value(Suffix(seen, m)), width, b, m) == Value(Suffix(seen + Bits(width, b), m))
  {
    hide Value, Pow2, Bits;
    var kept, more := Suffix(seen, m), Bits(width, b);
    ValueOfBits(width, b);
    ValueConcat(kept, more);
    ValueSuffix(kept + more, m);
    SuffixOfSuffix(seen, more, m);
  }

  /** While at most m bits are unemitted, the mask has not dropped any of them: a group
      read from the accumulator is the group of the stream. */
  lemma EmitFromAccumulator(seen: seq<bool>, m: nat, rest: nat, width: nat)
    requires rest + width <= |seen| && rest + width <= m
    ensures ReadOut(Value(Suffix(seen, m)), rest, width) == Value(seen[|seen| - rest - width..|seen| - rest])
  {
    hide Value, Pow2;
    var kept := Suffix(seen, m);
    var head := kept[..|kept| - rest];
    ValueSplits(kept, rest);
    ValueSplits(head, width);
    assert head[|head| - width..] == seen[|seen| - rest - width..|seen| - rest];
  }

  /** The unemitted bits moved to the top of a group. */
  lemma PadFromAccumulator(seen: seq<bool>, m: nat, rest: nat, width: nat)
    requires rest <= |seen| && rest <= m && rest < width
    ensures PadOut(Value(Suffix(seen, m)), rest, width)
         == Value(seen[|seen| - rest..] + Zeros(width - rest))
  {
    hide Value, Pow2, Zeros;
    var kept, zeros := Suffix(seen, m), Zeros(width - rest);
    ValueZero(zeros);
    ValueConcat(kept, zeros);
    ValueSplits(kept + zeros, width);
    assert (kept + zeros)[|kept + zeros| - width..] == kept[|kept| - rest..] + zeros;
    assert kept[|kept| - rest..] == seen[|seen| - rest..];
  }

  /** What convertBits returns once the loop has emitted `out` and left `rest` bits. */
  lemma {:induction false} Finish(data: seq<byte>, from: nat, to: nat, acc: nat, rest: nat, out: seq<nat>)
    requires 0 < from <= 8 && 0 < to <= 8 && Fits(from, data) && rest < to
    requires Accumulated(from, to, Stream(from, data), acc, rest, out)
    ensures var padded := if rest > 0 then out + [PadOut(acc, rest, to)] else out;
            && AreBytes(padded) && ConvertBits(data, from, to, true) == Groups(padded)
    ensures AreBytes(out)
    ensures ConvertBits(data, from, to, false) ==
            if rest >= from || PadOut(acc, rest, to) != 0 then BadPadding else Groups(out)
  {
    hide Value, Bits, Chunks, Rest, Stream, Pow2, PadOut, Missing, Fits, Suffix;
    var seen := Stream(from, data);
    var tail := seen[|seen| - rest..];
    PadFromAccumulator(seen, from + to - 1, rest, to);
    assert seen == Stream(to, out) + tail;
    ChunksOfStream(to, out, tail);
    ZerosEnd(tail, to - rest);
    GroupsAreBytes(to, seen);
    PadEnds(to, seen, out, tail);
  }

  lemma PadEnds(to: nat, seen: seq<bool>, out: seq<nat>, tail: seq<bool>)
    requires 0 < to <= 8 && |tail| < to && Fits(to, out)
    requires seen == Stream(to, out) + tail && Rest(to, seen) == tail
    ensures var groups := Chunks(to, seen + Zeros(Missing(to, seen)));
            && AreBytes(groups)
            && groups == if |tail| > 0 then out + [Value(tail + Zeros(to - |tail|))] else out
  {
    hide Value, Bits, Chunks, Rest, Stream, Pow2, Fits, Zeros;
    var kept, n := Stream(to, out), Missing(to, seen);
    GroupsAreBytes(to, seen + Zeros(n));
    if |tail| > 0 {
      var last := tail + Zeros(n);
      OneMore(to, out, last);
      ChunksOfStream(to, out + [Value(last)], []);
      Reassociate(kept, tail, Zeros(n));
    } else {
      ChunksOfStream(to, out, []);
      assert seen + Zeros(n) == kept + [];
    }
  }

  lemma Reassociate(a: seq<bool>, b: seq<bool>, c: seq<bool>)
    ensures (a + b) + c == (a + (b + c)) + []
  {}

  predicate AreBytes(groups: seq<nat>) {
    forall i :: 0 <= i < |groups| ==> groups[i] < 256
  }

  lemma StreamPrefix(width: nat, data: seq<nat>, i: nat)
    requires i < |data|
    ensures Stream(width, data[..i + 1]) == Stream(width, data[..i]) + Bits(width, data[i])
  {
    hide Bits;
    assert data[..i + 1][..i] == data[..i];
  }

  lemma Feed(from: nat, to: nat, data: seq<byte>, i: nat, acc: nat, rest: nat, out: seq<nat>)
    requires 0 < from && 0 < to && i < |data| && data[i] < Pow2(from) && rest < to
    requires Accumulated(from, to, Stream(from, data[..i]), acc, rest, out)
    ensures Accumulated(from, to, Stream(from, data[..i + 1]),
                        ShiftIn(acc, from, data[i], from + to - 1), rest + from, out)
  {
    hide Value, Pow2, Bits, ShiftIn, Suffix, Fits, Stream;
    FeedAccumulator(Stream(from, data[..i]), from + to - 1, from, data[i]);
    StreamPrefix(from, data, i);
    var before, more := Stream(from, data[..i]), Bits(from, data[i]);
    assert (before + more)[..|before| - rest] == before[..|before| - rest];
  }

  lemma Emit(from: nat, to: nat, seen: seq<bool>, acc: nat, rest: nat, out: seq<nat>)
    requires 0 < from && 0 < to <= rest && Accumulated(from, to, seen, acc, rest, out)
    ensures Accumulated(from, to, seen, acc, rest - to, out + [ReadOut(acc, rest - to, to)])
  {
    hide Value, Pow2, Bits, ReadOut, Stream;
    var group := seen[|seen| - rest..|seen| - rest + to];
    EmitFromAccumulator(seen, from + to - 1, rest - to, to);
    OneMore(to, out, group);
    assert seen[..|seen| - rest + to] == seen[..|seen| - rest] + group;
  }

  method RegroupBits(data: seq<byte>, from: nat, to: nat, pad: bool) returns (r: Regrouped)
    requires 0 < from <= 8 && 0 < to <= 8
    ensures r == ConvertBits(data, from, to, pad)
  {
    hide ShiftIn, ReadOut, PadOut, ConvertBits, Accumulated, Value, Stream;
    var acc: nat, bits: nat, out: seq<nat> := 0, 0, [];
    Start(from, to);
    for i := 0 to |data|
      invariant Fits(from, data[..i]) && bits < to
      invariant Accumulated(from, to, Stream(from, data[..i]), acc, bits, out)
    {
      if data[i] >= Pow2(from) {
        OutOfRangeFound(data, from, to, pad, i);
        return OutOfRange;
      }
      Feed(from, to, data, i, acc, bits, out);
      acc := ShiftIn(acc, from, data[i], from + to - 1);
      bits := bits + from;
      while bits >= to
        invariant Accumulated(from, to, Stream(from, data[..i + 1]), acc, bits, out)
      {
        Emit(from, to, Stream(from, data[..i + 1]), acc, bits, out);
        bits := bits - to;
        out := out + [ReadOut(acc, bits, to)];
      }
    }
    assert data[..|data|] == data;
    Finish(data, from, to, acc, bits, out);
    if pad {
      if bits > 0 {
        out := out + [PadOut(acc, bits, to)];
      }
    } else if bits >= from || PadOut(acc, bits, to) != 0 {
      return BadPadding;
    }
    return Groups(out);
  }

  lemma Start(from: nat, to: nat)
    requires from > 0
    ensures Accumulated(from, to, Stream(from, []), 0, 0, [])
  {}

  lemma OutOfRangeFound(data: seq<byte>, from: nat, to: nat, pad: bool, i: nat)
    requires 0 < from <= 8 && 0 < to <= 8
    requires i < |data| && data[i] >= Pow2(from)
    ensures ConvertBits(data, from, to, pad) == OutOfRange
  {}

  lemma ZerosEnd(bits: seq<bool>, n: nat)
    ensures Value(bits + Zeros(n)) == 0 <==> bits == Zeros(|bits|)
  {
    ValueZero(bits + Zeros(n));
    if bits == Zeros(|bits|) {
      assert bits + Zeros(n) == Zeros(|bits| + n);
    } else {
      var i :| 0 <= i < |bits| && bits[i];
      assert (bits + Zeros(n))[i];
    }
  }
}
