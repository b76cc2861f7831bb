/** A minimal reader and writer of the protobuf wire format: "Base 128 Varints" and "Message
    Structure" of the Protocol Buffers encoding specification, in 64-bit arithmetic. */
module Protowire {
  import opened Options
  import opened Words

  type uint64 = x: int | 0 <= x < TWO_64

  const TWO_61 := 0x2000_0000_0000_0000
  const TWO_63 := 0x8000_0000_0000_0000
  const TWO_64 := 0x1_0000_0000_0000_0000

  const WIRE_VARINT := 0
  const WIRE_BYTES := 2

  // ----- Varints -----

  /** The base 128 digits of v, least significant first; all but the last are marked. */
  function Varint(v: nat): (s: seq<byte>)
    ensures s != []
  {
    if v < 128 then [v] else [v % 128 + 128] + Varint(v / 128)
  }

  /** The number a digit string stands for. */
  function Value(s: seq<byte>): nat {
    if s == [] then 0 else s[0] % 128 + 128 * Value(s[1..])
  }

  function Pow128(n: nat): (p: nat)
    ensures p > 0
  {
    if n == 0 then 1 else 128 * Pow128(n - 1)
  }

  /** All bytes but the last are marked. */
  predicate IsVarint(s: seq<byte>) {
    s != [] && s[|s| - 1] < 128 && forall i :: 0 <= i < |s| - 1 ==> s[i] >= 128
  }

  /** The length of the varint b starts with, None when its first ten bytes hold no end. */
  function VarintLength(b: seq<byte>): (r: Option<nat>)
    ensures r.Some? ==> 0 < r.value <= |b| && r.value <= 10 && IsVarint(b[..r.value])
    ensures r.None? ==> forall i :: 0 <= i < |b| && i < 10 ==> b[i] >= 128
  {
    VarintLengthFrom(b, 0)
  }

  function VarintLengthFrom(b: seq<byte>, i: nat): (r: Option<nat>)
    requires i <= 10 && i <= |b| && forall k :: 0 <= k < i ==> b[k] >= 128
    ensures r.Some? ==> i < r.value <= |b| && r.value <= 10 && IsVarint(b[..r.value])
    ensures r.None? ==> forall k :: 0 <= k < |b| && k < 10 ==> b[k] >= 128
    decreases 10 - i
  {
    if i == |b| || i == 10 then None
    else if b[i] < 128 then Some(i + 1)
    else VarintLengthFrom(b, i + 1)
  }

  /** A varint at the start of b: its value modulo 2^64, and its length. */
  function ConsumeVarint(b: seq<byte>): (r: Option<(uint64, nat)>)
    ensures r.Some? ==> 0 < r.value.1 <= |b|
  {
    var n := VarintLength(b);
    if n.None? then None else Some((Value(b[..n.value]) % TWO_64, n.value))
  }

  method AppendVarint(b: seq<byte>, v: uint64) returns (out: seq<byte>)
    ensures out == b + Varint(v)
  {
    out := b;
    var w: nat := v;
    while w >= 0x80
      invariant out + Varint(w) == b + Varint(v)
    {
      assert out + ([w % 128 + 128] + Varint(w / 128)) == (out + [w % 128 + 128]) + Varint(w / 128);
      out := out + [w % 128 + 128];
      w := w / 128;
    }
    out := out + [w];
  }

  lemma {:induction false} ValueAppend(s: seq<byte>, x: byte)
    ensures Value(s + [x]) == Value(s) + x % 128 * Pow128(|s|)
  {
    if s == [] {
      assert [] + [x] == [x] && [x][1..] == [];
    } else {
      ValueAppend(s[1..], x);
      assert (s + [x])[1..] == s[1..] + [x];
      Distribute(128, Value(s[1..]), x % 128, Pow128(|s| - 1));
    }
  }

  lemma Distribute(a: int, b: int, c: int, d: int)
    ensures a * (b + c * d) == a * b + c * (a * d)
  {}

  lemma {:induction false} ValueBounded(s: seq<byte>)
    ensures Value(s) < Pow128(|s|)
  {
    if s != [] {
      ValueBounded(s[1..]);
    }
  }

  lemma NinePlaces()
    ensures Pow128(9) == TWO_63
  {
    assert Pow128(3) == 128 * 128 * 128;
    assert Pow128(6) == Pow128(3) * 128 * 128 * 128;
    assert Pow128(9) == Pow128(6) * 128 * 128 * 128;
  }

  lemma {:induction false} Pow128Grows(m: nat, n: nat)
    requires m <= n
    ensures Pow128(m) <= Pow128(n)
  {
    if m < n {
      Pow128Grows(m, n - 1);
    }
  }

  /** A byte's digit shifted to its place, without the bits that do not fit. */
  function ShiftedDigit(x: byte, place: nat): uint64 {
    x % 128 * Pow128(place) % TWO_64
  }

  /** One round of the reader in 64-bit arithmetic: the shifted digit lands above the digits
      read before it, so that setting its bits is adding it. */
  lemma NextDigit(s: seq<byte>, x: byte)
    requires |s| < 10
    ensures Value(s) + ShiftedDigit(x, |s|) < TWO_64
    ensures Value(s + [x]) % TWO_64 == Value(s) + ShiftedDigit(x, |s|)
  {
    ValueAppend(s, x);
    ValueBounded(s);
    NinePlaces();
    hide Value, Pow128;
    if |s| < 9 {
      ValueBounded(s + [x]);
      Pow128Grows(|s| + 1, 9);
      Fits(Value(s), x % 128, Pow128(|s|));
    } else {
      TopBit(x % 128, Value(s));
    }
  }

  lemma Fits(v: nat, g: nat, p: nat)
    requires v + g * p < TWO_63
    ensures g * p % TWO_64 == g * p && (v + g * p) % TWO_64 == v + g * p
  {
    assert g * p >= 0;
  }

  /** Of a digit shifted by 63 places one bit remains. */
  lemma TopBit(g: int, v: int)
    requires 0 <= g && 0 <= v < TWO_63
    ensures v + g * TWO_63 % TWO_64 < TWO_64
    ensures (v + g * TWO_63) % TWO_64 == v + g * TWO_63 % TWO_64
  {
    assert g * TWO_63 == g / 2 * TWO_64 + g % 2 * TWO_63;
  }

  method ReadVarint(b: seq<byte>) returns (r: Option<(uint64, nat)>)
    ensures r == ConsumeVarint(b)
  {
    hide Value, ShiftedDigit;
    var v: uint64 := 0;
    var i: nat := 0;
    assert Value([]) == 0 by { ValueEmpty(); }
    assert b[..0] == [];
    while i < |b| && i < 10
      invariant i <= |b| && i <= 10
      invariant forall k :: 0 <= k < i ==> b[k] >= 128
      invariant i < 10 ==> v == Value(b[..i])
      invariant VarintLength(b) == VarintLengthFrom(b, i)
    {
      NextDigit(b[..i], b[i]);
      assert b[..i + 1] == b[..i] + [b[i]];
      v := v + ShiftedDigit(b[i], i);
      if b[i] < 0x80 {
        return Some((v, i + 1));
      }
      if i < 9 {
        SmallValue(b[..i + 1]);
      }
      i := i + 1;
    }
    return None;
  }

  lemma ValueEmpty()
    ensures Value([]) == 0
  {}

  lemma SmallValue(s: seq<byte>)
    requires |s| <= 9
    ensures Value(s) % TWO_64 == Value(s)
  {
    ValueBounded(s);
    NinePlaces();
    Pow128Grows(|s|, 9);
  }

  lemma {:induction false} VarintShape(v: nat)
    ensures IsVarint(Varint(v)) && Value(Varint(v)) == v
    ensures v > 0 ==> Varint(v)[|Varint(v)| - 1] != 0
    decreases v
  {
    var s := Varint(v);
    if v >= 128 {
      VarintShape(v / 128);
      assert s[1..] == Varint(v / 128);
      assert s[|s| - 1] == s[1..][|s| - 2];
      forall i | 1 <= i < |s| - 1
        ensures s[i] >= 128
      {
        assert s[i] == s[1..][i - 1];
      }
    } else {
      assert s[1..] == [];
    }
  }

  lemma {:induction false} VarintFits(v: nat, n: nat)
    requires 0 < n && v < Pow128(n)
    ensures |Varint(v)| <= n
    decreases n
  {
    if v >= 128 {
      assert n > 1 by { assert Pow128(1) == 128 * Pow128(0); }
      VarintFits(v / 128, n - 1);
    }
  }

  lemma LengthIs(b: seq<byte>, n: nat)
    requires 0 < n <= |b| && n <= 10 && IsVarint(b[..n])
    ensures VarintLength(b) == Some(n)
  {
    VarintAt(b, n);
    var r := VarintLength(b);
    if r.Some? {
      VarintAt(b, r.value);
    }
  }

  lemma VarintAt(b: seq<byte>, n: nat)
    requires 0 < n <= |b| && IsVarint(b[..n])
    ensures b[n - 1] < 128 && forall i :: 0 <= i < n - 1 ==> b[i] >= 128
  {
    assert b[..n][n - 1] == b[n - 1] && forall i :: 0 <= i < n - 1 ==> b[i] == b[..n][i];
  }

  lemma WordFits(v: uint64)
    ensures |Varint(v)| <= 10
  {
    NinePlaces();
    assert Pow128(10) == 128 * Pow128(9);
    hide Varint;
    VarintFits(v, 10);
  }

  /** Reading undoes writing, for every 64-bit value and any bytes after it. */
  lemma {:induction false} VarintRoundTrip(v: uint64, rest: seq<byte>)
    ensures ConsumeVarint(Varint(v) + rest) == Some((v, |Varint(v)|))
  {
    var s := Varint(v);
    VarintShape(v);
    WordFits(v);
    assert (s + rest)[..|s|] == s;
    hide Varint, Value, VarintLength, IsVarint;
    LengthIs(s + rest, |s|);
    Remainder(v);
  }

  lemma VarintStep(d: nat, t: nat)
    requires d < 128 && t > 0
    ensures Varint(d + 128 * t) == [d + 128] + Varint(t)
  {
    assert (d + 128 * t) % 128 == d && (d + 128 * t) / 128 == t;
  }

  lemma IsVarintTail(s: seq<byte>)
    requires IsVarint(s) && |s| > 1
    ensures IsVarint(s[1..]) && s[1..][|s| - 2] == s[|s| - 1] && s[0] >= 128
  {
    var t := s[1..];
    assert t[|t| - 1] == s[|s| - 1] && forall i :: 0 <= i < |t| ==> t[i] == s[i + 1];
  }

  lemma {:induction false} VarintOfValue(s: seq<byte>)
    requires IsVarint(s) && (|s| == 1 || s[|s| - 1] != 0)
    ensures Varint(Value(s)) == s
    ensures |s| > 1 || s[0] != 0 ==> Value(s) > 0
  {
    if |s| > 1 {
      hide Varint;
      var t := s[1..];
      IsVarintTail(s);
      hide IsVarint;
      VarintOfValue(t);
      VarintStep(s[0] % 128, Value(t));
      assert s == [s[0]] + t;
    } else {
      assert s[1..] == [];
    }
  }

  lemma TenDigits(s: seq<byte>)
    requires |s| == 10
    ensures Value(s) < TWO_64 <==> s[9] % 128 < 2
  {
    assert s == s[..9] + [s[9]];
    ValueAppend(s[..9], s[9]);
    ValueBounded(s[..9]);
    NinePlaces();
  }

  lemma VarintFitsWord(s: seq<byte>)
    requires 0 < |s| <= 10 && IsVarint(s)
    ensures Value(s) < TWO_64 <==> |s| < 10 || s[9] < 2
  {
    hide Value;
    if |s| == 10 {
      TenDigits(s);
    } else {
      SmallValue(s);
    }
  }

  lemma Remainder(x: nat)
    ensures x % TWO_64 < TWO_64
    ensures x % TWO_64 == x <==> x < TWO_64
  {}

  lemma WriteBack(s: seq<byte>)
    requires 0 < |s| <= 10 && IsVarint(s)
    ensures Varint(Value(s) % TWO_64) == s <==> (|s| == 1 || s[|s| - 1] != 0) && (|s| < 10 || s[9] < 2)
  {
    var v := Value(s) % TWO_64;
    Remainder(Value(s));
    VarintFitsWord(s);
    VarintShape(v);
    VarintOfZero();
    hide Varint, Value;
    if (|s| == 1 || s[|s| - 1] != 0) && (|s| < 10 || s[9] < 2) {
      VarintOfValue(s);
    }
  }

  /** Writing undoes reading exactly for the minimal encodings of values below 2^64: no
      redundant last digit, and at most one bit in the tenth. */
  lemma {:induction false} ReadThenWrite(b: seq<byte>)
    requires ConsumeVarint(b).Some?
    ensures var (v, n) := ConsumeVarint(b).value;
            Varint(v) == b[..n] <==> (n == 1 || b[n - 1] != 0) && (n < 10 || b[9] < 2)
  {
    var n := VarintLength(b).value;
    WriteBack(b[..n]);
    hide Varint, Value;
    assert b[..n][n - 1] == b[n - 1] && (n == 10 ==> b[..n][9] == b[9]);
  }

  lemma VarintOfZero()
    ensures |Varint(0)| == 1
  {}

  // ----- Messages -----

  datatype Field = Field(num: int, wire: int, value: uint64, bytes: seq<byte>)

  /** Panics: a length of 2^63 or more turns negative in the bounds check, and the slice
      expression after it stops the program. */
  datatype Result = Parsed(fields: seq<Field>) | Truncated | Unsupported(wire: int) | Panics

  /** A tag's field number and wire type, and its length; the tag 0 is none. */
  function ConsumeTag(b: seq<byte>): (r: Option<(int, int, nat)>)
    ensures r.Some? ==> 0 < r.value.2 <= |b| && 0 <= r.value.0 < TWO_61 && 0 <= r.value.1 < 8
  {
    var t := ConsumeVarint(b);
    if t.None? || t.value.0 == 0 then None else Some((t.value.0 / 8, t.value.0 % 8, t.value.1))
  }

  datatype Item = Item(field: Field, length: nat) | Stop(result: Result)

  /** A field after its tag of n bytes, given the varint that follows. */
  function FieldBody(b: seq<byte>, num: int, wire: int, n: nat, v: Option<(uint64, nat)>): (r: Item)
    requires 0 < n <= |b| && (v.Some? ==> n + v.value.1 <= |b|)
    ensures r.Item? ==> 0 < r.length <= |b|
    ensures r.Stop? ==> !r.result.Parsed?
  {
    if wire == WIRE_VARINT then
      if v.None? then Stop(Truncated) else Item(Field(num, wire, v.value.0, []), n + v.value.1)
    else if wire == WIRE_BYTES then
      if v.None? then Stop(Truncated)
      else
        var (l, m) := v.value;
        if l >= TWO_63 then Stop(Panics)
        else if |b[n + m..]| < l then Stop(Truncated)
        else Item(Field(num, wire, 0, b[n + m..n + m + l]), n + m + l)
    else Stop(Unsupported(wire))
  }

  /** The first field of b and how many bytes it takes, or why reading stops. */
  function ParseField(b: seq<byte>): (r: Item)
    requires b != []
    ensures r.Item? ==> 0 < r.length <= |b|
    ensures r.Stop? ==> !r.result.Parsed?
  {
    var tag := ConsumeTag(b);
    if tag.None? then Stop(Truncated)
    else FieldBody(b, tag.value.0, tag.value.1, tag.value.2, ConsumeVarint(b[tag.value.2..]))
  }

  function Parse(b: seq<byte>): Result
    decreases |b|
  {
    if b == [] then Parsed([])
    else
      match ParseField(b)
      case Stop(result) => result
      case Item(field, length) =>
        var rest := Parse(b[length..]);
        if rest.Parsed? then Parsed([field] + rest.fields) else rest
  }

  lemma ParseStep(b: seq<byte>)
    requires b != []
    ensures var item := ParseField(b);
            Parse(b) == if item.Stop? then item.result else Prepend([item.field], Parse(b[item.length..]))
  {
    hide ParseField;
  }

  /** A length as the bounds check sees it: a signed 64-bit number. */
  function AsInt(l: uint64): int64 {
    if l < TWO_63 then l else l - TWO_64
  }

  method ReadMessage(message: seq<byte>) returns (r: Result)
    ensures r == Parse(message)
  {
    hide ConsumeTag, ConsumeVarint, Parse, Prepend;
    var b, fields := message, [];
    NothingBefore(Parse(message));
    while b != []
      invariant Parse(message) == Prepend(fields, Parse(b))
      decreases |b|
    {
      PrependField(fields, b);
      var tag := ConsumeTag(b);
      if tag.None? {
        return Truncated;
      }
      var num, wire, n := tag.value.0, tag.value.1, tag.value.2;
      ghost var start := b;
      b := b[n..];
      if wire == WIRE_VARINT {
        var v := ReadVarint(b);
        if v.None? {
          return Truncated;
        }
        fields := fields + [Field(num, wire, v.value.0, [])];
        b := b[v.value.1..];
        assert b == start[n + v.value.1..];
      } else if wire == WIRE_BYTES {
        var v := ReadVarint(b);
        if v.None? {
          return Truncated;
        }
        var l, m := v.value.0, v.value.1;
        assert start[n..][m..] == start[n + m..];
        if |b[m..]| < AsInt(l) {
          return Truncated;
        }
        b := b[m..];
        if l >= TWO_63 {
          return Panics;
        }
        assert b[..l] == start[n + m..n + m + l] && b[l..] == start[n + m + l..];
        fields := fields + [Field(num, wire, 0, b[..l])];
        b := b[l..];
      } else {
        return Unsupported(wire);
      }
    }
    ParseEmpty();
    NothingAfter(fields);
    return Parsed(fields);
  }

  lemma ParseEmpty()
    ensures Parse([]) == Parsed([])
  {}

  lemma NothingAfter(fields: seq<Field>)
    ensures Prepend(fields, Parsed([])) == Parsed(fields)
  {
    assert fields + [] == fields;
  }

  lemma NothingBefore(r: Result)
    ensures Prepend([], r) == r
  {
    assert r.Parsed? ==> [] + r.fields == r.fields;
  }

  function Prepend(fields: seq<Field>, r: Result): Result {
    if r.Parsed? then Parsed(fields + r.fields) else r
  }

  lemma PrependField(fields: seq<Field>, b: seq<byte>)
    requires b != []
    ensures var item := ParseField(b);
            Prepend(fields, Parse(b)) ==
              if item.Stop? then item.result else Prepend(fields + [item.field], Parse(b[item.length..]))
  {
    ParseStep(b);
    hide ParseField, Parse;
    var item := ParseField(b);
    if item.Item? && Parse(b[item.length..]).Parsed? {
      var rest := Parse(b[item.length..]);
      assert fields + ([item.field] + rest.fields) == (fields + [item.field]) + rest.fields;
    }
  }

  predicate IsFirst(fields: seq<Field>, num: int, i: nat) {
    i < |fields| && fields[i].num == num && forall j :: 0 <= j < i ==> fields[j].num != num
  }

  /** The first field with a number. */
  method Get(fields: seq<Field>, num: int) returns (r: Option<Field>)
    ensures r.None? <==> forall i :: 0 <= i < |fields| ==> fields[i].num != num
    ensures r.Some? ==> exists i :: 0 <= i < |fields| && IsFirst(fields, num, i) && fields[i] == r.value
  {
    for i := 0 to |fields|
      invariant forall j :: 0 <= j < i ==> fields[j].num != num
    {
      if fields[i].num == num {
        assert IsFirst(fields, num, i);
        return Some(fields[i]);
      }
    }
    return None;
  }

  // ----- What parsing means -----

  /** b and c start with the same n bytes. */
  predicate Share(b: seq<byte>, c: seq<byte>, n: nat) {
    n <= |b| && n <= |c| && b[..n] == c[..n]
  }

  lemma ShareLess(b: seq<byte>, c: seq<byte>, m: nat, n: nat)
    requires Share(b, c, n) && m <= n
    ensures Share(b, c, m) && Share(b[m..], c[m..], n - m) && b[m..n] == c[m..n]
  {
    assert b[..n][..m] == b[..m] && c[..n][..m] == c[..m];
    assert b[..n][m..] == b[m..n] == b[m..][..n - m] && c[..n][m..] == c[m..n] == c[m..][..n - m];
  }

  lemma VarintLocal(b: seq<byte>, c: seq<byte>)
    requires ConsumeVarint(b).Some? && Share(b, c, ConsumeVarint(b).value.1)
    ensures ConsumeVarint(c) == ConsumeVarint(b)
  {
    LengthIs(c, ConsumeVarint(b).value.1);
  }

  lemma TagLocal(b: seq<byte>, c: seq<byte>)
    requires ConsumeTag(b).Some? && Share(b, c, ConsumeTag(b).value.2)
    ensures ConsumeTag(c) == ConsumeTag(b)
  {
    VarintLocal(b, c);
    hide ConsumeVarint;
  }

  lemma BodyLocal(b: seq<byte>, c: seq<byte>, num: int, wire: int, n: nat, v: Option<(uint64, nat)>)
    requires 0 < n <= |b| && (v.Some? ==> n + v.value.1 <= |b|)
    requires FieldBody(b, num, wire, n, v).Item? && Share(b, c, FieldBody(b, num, wire, n, v).length)
    ensures v.Some? && n + v.value.1 <= FieldBody(b, num, wire, n, v).length
    ensures FieldBody(c, num, wire, n, v) == FieldBody(b, num, wire, n, v)
  {
    if wire == WIRE_BYTES {
      ShareLess(b, c, n + v.value.1, FieldBody(b, num, wire, n, v).length);
    }
  }

  /** A field is read from its own bytes alone. */
  lemma FieldLocal(b: seq<byte>, c: seq<byte>)
    requires b != [] && ParseField(b).Item? && Share(b, c, ParseField(b).length)
    ensures c != [] && ParseField(c) == ParseField(b)
  {
    var length := ParseField(b).length;
    var (num, wire, n) := ConsumeTag(b).value;
    var v := ConsumeVarint(b[n..]);
    BodyLocal(b, c, num, wire, n, v);
    hide ConsumeVarint, ConsumeTag, FieldBody, Share;
    ShareLess(b, c, n, length);
    TagLocal(b, c);
    ShareLess(b[n..], c[n..], v.value.1, length - n);
    VarintLocal(b[n..], c[n..]);
    assert c != [] by { ShareSome(b, c, length); }
  }

  lemma ShareSome(b: seq<byte>, c: seq<byte>, n: nat)
    requires Share(b, c, n) && n > 0
    ensures c != []
  {}

  lemma SharePrefix(a: seq<byte>, b: seq<byte>, n: nat)
    requires n <= |a|
    ensures Share(a, a + b, n)
  {}

  lemma ShareTake(b: seq<byte>, k: nat, n: nat)
    requires n <= k <= |b|
    ensures Share(b, b[..k], n) && Share(b[..k], b, n)
  {}

  lemma Slices(b: seq<byte>, n: nat, k: nat)
    requires n <= k <= |b|
    ensures b[n..][k - n..] == b[k..] && b[n..][..k - n] == b[n..k]
  {}

  lemma TakeDrop(b: seq<byte>, n: nat, k: nat)
    requires n <= k <= |b|
    ensures b[..k][n..] == b[n..k]
  {}

  /** A message that parses can be followed by anything: its fields come first, and the rest
      is read as if it stood alone. */
  lemma {:induction false} ParseConcat(a: seq<byte>, b: seq<byte>)
    requires Parse(a).Parsed?
    ensures Parse(a + b) == Prepend(Parse(a).fields, Parse(b))
    decreases |a|
  {
    hide ParseField, Parse;
    if a == [] {
      assert a + b == b;
      ParseEmpty();
      NothingBefore(Parse(b));
    } else {
      var item := ParseField(a);
      ParseStep(a);
      ParseStep(a + b);
      SharePrefix(a, b, item.length);
      FieldLocal(a, a + b);
      var rest := a[item.length..];
      assert (a + b)[item.length..] == rest + b;
      ParseConcat(rest, b);
      if Parse(b).Parsed? {
        assert [item.field] + (Parse(rest).fields + Parse(b).fields) ==
            ([item.field] + Parse(rest).fields) + Parse(b).fields;
      }
    }
  }

  /** The tag of a string field: the number shifted in 64-bit arithmetic, and the wire type. */
  function StringTag(num: int64): uint64 {
    (8 * num + WIRE_BYTES) % TWO_64
  }

  function EncodeString(num: int64, s: seq<byte>): seq<byte>
    requires |s| < TWO_63
  {
    Varint(StringTag(num)) + Varint(|s|) + s
  }

  method WriteString(num: int64, s: seq<byte>) returns (out: seq<byte>)
    requires |s| < TWO_63
    ensures out == EncodeString(num, s)
  {
    out := AppendVarint([], StringTag(num));
    out := AppendVarint(out, |s|);
    out := out + s;
  }

  lemma TagParts(num: int64)
    ensures StringTag(num) / 8 == num % TWO_61 && StringTag(num) % 8 == WIRE_BYTES && StringTag(num) > 0
  {
    var q := num / TWO_61;
    assert num == q * TWO_61 + num % TWO_61;
    assert 8 * num + 2 == q * TWO_64 + (8 * (num % TWO_61) + 2);
    assert (8 * num + 2) % TWO_64 == 8 * (num % TWO_61) + 2;
  }

  lemma TagRoundTrip(num: int64, rest: seq<byte>)
    ensures var tag := Varint(StringTag(num)); ConsumeTag(tag + rest) == Some((num % TWO_61, WIRE_BYTES, |tag|))
  {
    TagParts(num);
    VarintRoundTrip(StringTag(num), rest);
    hide Varint, ConsumeVarint, StringTag;
  }

  lemma ThreeParts(a: seq<byte>, b: seq<byte>, c: seq<byte>)
    ensures var s := a + b + c;
            && s == a + (b + c) && s[|a|..] == b + c
            && s[|a| + |b|..] == c && s[|a| + |b|..|a| + |b| + |c|] == c
  {}

  lemma StringBody(b: seq<byte>, num: int, n: nat, m: nat, s: seq<byte>)
    requires |s| < TWO_63 && 0 < n && |b| == n + m + |s| && b[n + m..] == s && b[n + m..n + m + |s|] == s
    ensures FieldBody(b, num, WIRE_BYTES, n, Some((|s|, m))) == Item(Field(num, WIRE_BYTES, 0, s), |b|)
  {}

  lemma StringField(num: int64, s: seq<byte>)
    requires |s| < TWO_63
    ensures var b := EncodeString(num, s);
            b != [] && ParseField(b) == Item(Field(num % TWO_61, WIRE_BYTES, 0, s), |b|)
  {
    var tag, length := Varint(StringTag(num)), Varint(|s|);
    var b := tag + length + s;
    ThreeParts(tag, length, s);
    TagRoundTrip(num, length + s);
    VarintRoundTrip(|s|, s);
    StringBody(b, num % TWO_61, |tag|, |length|, s);
    hide Varint, ConsumeVarint, ConsumeTag, StringTag, FieldBody;
  }

  /** One encoded string field reads back as a length-delimited field with its bytes, under
      its number modulo 2^61: the number itself exactly when it is from 0 to below 2^61. */
  lemma {:induction false} StringRoundTrip(num: int64, s: seq<byte>)
    requires |s| < TWO_63
    ensures Parse(EncodeString(num, s)) == Parsed([Field(num % TWO_61, WIRE_BYTES, 0, s)])
    ensures num % TWO_61 == num <==> 0 <= num < TWO_61
  {
    var b, field := EncodeString(num, s), Field(num % TWO_61, WIRE_BYTES, 0, s);
    StringField(num, s);
    ParseStep(b);
    ParseEmpty();
    hide EncodeString, ParseField, Parse;
    assert b[|b|..] == [] && [field] + [] == [field];
  }

  lemma SmallTag(num: nat, wire: nat, rest: seq<byte>)
    requires num < TWO_61 && wire < 8 && 0 < 8 * num + wire
    ensures ConsumeTag(Varint(8 * num + wire) + rest) == Some((num, wire, |Varint(8 * num + wire)|))
  {
    VarintRoundTrip(8 * num + wire, rest);
    hide Varint, ConsumeVarint;
  }

  /** A tag and a varint, for any number but 0, read back as a field with the varint's value. */
  lemma {:induction false} VarintField(num: nat, v: uint64)
    requires 0 < num < TWO_61
    ensures Parse(Varint(8 * num) + Varint(v)) == Parsed([Field(num, 0, v, [])])
  {
    var tag, value := Varint(8 * num), Varint(v);
    var b := tag + value;
    SmallTag(num, 0, value);
    assert b[|tag|..] == value && value + [] == value;
    VarintRoundTrip(v, []);
    ParseStep(b);
    ParseEmpty();
    hide Varint, ConsumeVarint, ConsumeTag, Parse;
    assert b[|b|..] == [] && [Field(num, 0, v, [])] + [] == [Field(num, 0, v, [])];
  }

  /** Wire types other than these two are refused with the type, whatever follows, and so is
      the tag 0, as if the input ended there. */
  lemma {:induction false} OtherWires(num: nat, wire: nat, rest: seq<byte>)
    requires num < TWO_61 && wire < 8 && wire != 2 && (wire != 0 || num == 0)
    ensures Parse(Varint(8 * num + wire) + rest) == if wire == 0 then Truncated else Unsupported(wire)
  {
    var b := Varint(8 * num + wire) + rest;
    ParseStep(b);
    if wire == 0 {
      VarintRoundTrip(0, rest);
      hide Varint, ConsumeVarint, Parse;
    } else {
      SmallTag(num, wire, rest);
      hide Varint, ConsumeVarint, ConsumeTag, Parse;
    }
  }

  /** A varint that is cut short is none. */
  lemma CutVarint(v: uint64, k: nat)
    requires k < |Varint(v)|
    ensures ConsumeVarint(Varint(v)[..k]).None?
  {
    var s := Varint(v);
    VarintShape(v);
    hide Varint, Value;
    if ConsumeVarint(s[..k]).Some? {
      var n := VarintLength(s[..k]).value;
      VarintAt(s[..k], n);
    }
  }

  lemma CutParts(a: seq<byte>, b: seq<byte>, c: seq<byte>, k: nat)
    requires k < |a| + |b| + |c|
    ensures k < |a| ==> (a + b + c)[..k] == a[..k]
    ensures |a| <= k < |a| + |b| ==> (a + b + c)[..k] == a + b[..k - |a|]
    ensures |a| + |b| <= k ==> (a + b + c)[..k] == a + (b + c[..k - |a| - |b|])
  {}

  /** The input ends inside the length, or inside the text. */
  lemma CutBody(num: int64, s: seq<byte>, rest: seq<byte>, k: nat)
    requires |s| < TWO_63
    requires (k < |Varint(|s|)| && rest == Varint(|s|)[..k]) || (k < |s| && rest == Varint(|s|) + s[..k])
    ensures Parse(Varint(StringTag(num)) + rest) == Truncated
  {
    var tag, length := Varint(StringTag(num)), Varint(|s|);
    var b := tag + rest;
    TagRoundTrip(num, rest);
    assert b[|tag|..] == rest;
    if k < |length| && rest == length[..k] {
      CutVarint(|s|, k);
    } else {
      VarintRoundTrip(|s|, s[..k]);
      assert b[|tag| + |length|..] == s[..k];
    }
    hide Varint, ConsumeVarint, ConsumeTag, Parse, StringTag;
    ParseStep(b);
  }

  /** A string field that is cut short, in its tag, its length or its text, is reported as
      truncated. */
  lemma {:induction false} CutString(num: int64, s: seq<byte>, k: nat)
    requires |s| < TWO_63 && 0 < k < |EncodeString(num, s)|
    ensures Parse(EncodeString(num, s)[..k]) == Truncated
  {
    hide Varint, ConsumeVarint, Parse, StringTag;
    var tag, length := Varint(StringTag(num)), Varint(|s|);
    CutParts(tag, length, s, k);
    if k < |tag| {
      CutVarint(StringTag(num), k);
      ParseStep(tag[..k]);
    } else if k < |tag| + |length| {
      CutBody(num, s, length[..k - |tag|], k - |tag|);
    } else {
      CutBody(num, s, length + s[..k - |tag| - |length|], k - |tag| - |length|);
    }
  }

  /** The encoding specification's own examples: 150 is 96 01, and a message with that value
      in its field 1 and the text "testing" in its field 2. */
  lemma SpecificationExamples(message: seq<byte>, text: seq<byte>)
    requires message == [0x08, 0x96, 0x01, 0x12, 0x07] + text && text == [0x74, 0x65, 0x73, 0x74, 0x69, 0x6e, 0x67]
    ensures Varint(150) == [0x96, 0x01]
    ensures Parse(message) == Parsed([Field(1, 0, 150, []), Field(2, 2, 0, text)])
  {
    hide Parse, Varint, StringTag, EncodeString;
    SmallVarints();
    TwoFields(1, 150, 2, text);
    var a, b := Varint(8) + Varint(150), EncodeString(2, text);
    assert a == [0x08, 0x96, 0x01];
    assert b == [0x12] + [0x07] + text by { TextField(text); }
    assert a + b == message;
  }

  lemma TextField(text: seq<byte>)
    requires |text| == 7
    ensures EncodeString(2, text) == [0x12] + [0x07] + text
  {
    SmallVarints();
    hide Varint, StringTag;
  }

  lemma TwoFields(m: nat, v: uint64, n: int64, s: seq<byte>)
    requires 0 < m < TWO_61 && 0 <= n < TWO_61 && |s| < TWO_63
    ensures Parse(Varint(8 * m) + Varint(v) + EncodeString(n, s)) ==
              Parsed([Field(m, WIRE_VARINT, v, []), Field(n, WIRE_BYTES, 0, s)])
  {
    VarintField(m, v);
    StringRoundTrip(n, s);
    hide Parse, Varint, EncodeString;
    ParseConcat(Varint(8 * m) + Varint(v), EncodeString(n, s));
  }

  lemma SmallVarints()
    ensures Varint(150) == [0x96, 0x01] && Varint(8) == [0x08] && Varint(StringTag(2)) == [0x12] && Varint(7) == [0x07]
  {
    assert Varint(150 / 128) == [1];
  }

  /** A string field to write. */
  datatype Entry = Entry(num: int64, text: seq<byte>)

  function EncodeAll(entries: seq<Entry>): seq<byte>
    requires forall i :: 0 <= i < |entries| ==> |entries[i].text| < TWO_63
  {
    if entries == [] then [] else EncodeString(entries[0].num, entries[0].text) + EncodeAll(entries[1..])
  }

  function Decoded(entries: seq<Entry>): (fields: seq<Field>)
    ensures |fields| == |entries|
    ensures forall i :: 0 <= i < |entries| ==>
              fields[i] == Field(entries[i].num % TWO_61, WIRE_BYTES, 0, entries[i].text)
  {
    seq(|entries|, i requires 0 <= i < |entries| => Field(entries[i].num % TWO_61, WIRE_BYTES, 0, entries[i].text))
  }

  /** Any list of string fields, written one after the other, parses back to that list. */
  lemma {:induction false} MessageRoundTrip(entries: seq<Entry>)
    requires forall i :: 0 <= i < |entries| ==> |entries[i].text| < TWO_63
    ensures Parse(EncodeAll(entries)) == Parsed(Decoded(entries))
  {
    hide EncodeString, Parse, Decoded;
    if entries == [] {
      assert Decoded(entries) == [];
      ParseEmpty();
    } else {
      var e := entries[0];
      StringRoundTrip(e.num, e.text);
      MessageRoundTrip(entries[1..]);
      ParseConcat(EncodeString(e.num, e.text), EncodeAll(entries[1..]));
      DecodedFirst(entries);
    }
  }

  lemma DecodedFirst(entries: seq<Entry>)
    requires entries != []
    ensures Decoded(entries) == [Field(entries[0].num % TWO_61, WIRE_BYTES, 0, entries[0].text)] + Decoded(entries[1..])
  {}

  /** The input goes on with a length-delimited field whose length is 2^63 or more. */
  predicate HugeLength(b: seq<byte>) {
    && ConsumeTag(b).Some? && ConsumeTag(b).value.1 == WIRE_BYTES
    && ConsumeVarint(b[ConsumeTag(b).value.2..]).Some?
    && ConsumeVarint(b[ConsumeTag(b).value.2..]).value.0 >= TWO_63
  }

  lemma HugeIsPanic(b: seq<byte>)
    requires b != []
    ensures HugeLength(b) <==> ParseField(b) == Stop(Panics)
  {
    hide ConsumeVarint, ConsumeTag;
  }

  /** Which prefixes of an input parse: the empty one, and those of the rest after a field
      that is there in full. */
  lemma PrefixParses(b: seq<byte>, k: nat)
    requires b != [] && 0 < k <= |b|
    ensures var item := ParseField(b);
            Parse(b[..k]).Parsed? <==>
              item.Item? && item.length <= k && Parse(b[item.length..k]).Parsed?
  {
    var item := ParseField(b);
    ParseStep(b[..k]);
    hide ParseField, Parse, Share;
    if ParseField(b[..k]).Item? {
      ShareTake(b, k, ParseField(b[..k]).length);
      FieldLocal(b[..k], b);
      TakeDrop(b, item.length, k);
    } else if item.Item? && item.length <= k {
      ShareTake(b, k, item.length);
      FieldLocal(b, b[..k]);
    }
  }

  predicate PanicsAt(b: seq<byte>, k: nat)
    requires k < |b|
  {
    Parse(b[..k]).Parsed? && HugeLength(b[k..])
  }

  /** Parse returns a list or an error for every input, except exactly those in which such a
      length follows a well-formed prefix. */
  lemma {:induction false} PanicsIff(b: seq<byte>)
    ensures Parse(b).Panics? <==> exists k: nat :: k < |b| && PanicsAt(b, k)
    decreases |b|
  {
    if b == [] {
      ParseEmpty();
    } else {
      var item := ParseField(b);
      ParseStep(b);
      PanicsAtStart(b);
      hide Parse, ParseField, PanicsAt;
      if item.Item? {
        PanicsIff(b[item.length..]);
        if Parse(b).Panics? {
          var j: nat :| j < |b| - item.length && PanicsAt(b[item.length..], j);
          PanicsLater(b, item.length + j);
        }
      }
      if k: nat :| k < |b| && PanicsAt(b, k) {
        if k > 0 {
          PanicsLater(b, k);
        }
      }
    }
  }

  lemma PanicsAtStart(b: seq<byte>)
    requires b != []
    ensures PanicsAt(b, 0) <==> ParseField(b) == Stop(Panics)
  {
    ParseEmpty();
    HugeIsPanic(b);
    hide HugeLength, ParseField;
    assert b[..0] == [] && b[0..] == b;
  }

  lemma PanicsLater(b: seq<byte>, k: nat)
    requires 0 < k < |b|
    ensures var item := ParseField(b);
            PanicsAt(b, k) <==> item.Item? && item.length <= k && PanicsAt(b[item.length..], k - item.length)
  {
    hide Parse, ParseField, HugeLength;
    var item := ParseField(b);
    PrefixParses(b, k);
    if item.Item? && item.length <= k {
      Slices(b, item.length, k);
    }
  }

  lemma {:induction false} NoDigits(s: seq<byte>)
    requires forall i :: 0 <= i < |s| ==> s[i] == 128
    ensures Value(s) == 0
  {
    if s != [] {
      NoDigits(s[1..]);
    }
  }

  /** Nine marked zeros and a one are 2^63. */
  lemma HugeVarint(length: seq<byte>)
    requires |length| == 10 && length[9] == 1 && forall i :: 0 <= i < 9 ==> length[i] == 128
    ensures ConsumeVarint(length) == Some((TWO_63, 10))
  {
    var zeros := length[..9];
    assert length == zeros + [length[9]] && length[..10] == length;
    NoDigits(zeros);
    ValueAppend(zeros, 1);
    NinePlaces();
    hide Value, Pow128;
    LengthIs(length, 10);
  }

  lemma OneByteVarint(b: seq<byte>)
    requires b != [] && b[0] < 128
    ensures ConsumeVarint(b) == Some((b[0], 1))
  {
    var s := b[..1];
    assert s == [b[0]] && s[1..] == [];
    assert Value(s) == b[0];
    LengthIs(b, 1);
    Remainder(b[0]);
  }

  /** Such inputs exist: field 0, length-delimited, of length 2^63. */
  lemma PanicsHappen()
    ensures Parse([2, 128, 128, 128, 128, 128, 128, 128, 128, 128, 1]) == Panics
  {
    var b: seq<byte> := [2, 128, 128, 128, 128, 128, 128, 128, 128, 128, 1];
    OneByteVarint(b);
    HugeVarint(b[1..]);
    ParseStep(b);
    hide Parse, ConsumeVarint;
  }
}
