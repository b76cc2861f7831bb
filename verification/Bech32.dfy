/** The bech32 string codec, BIP-0173, "Bech32": Encode and Decode over ASCII strings,
    and the proof that they are inverse to each other. */
module Bech32 {
  import opened Bech32Checksum
  import opened Bech32Register
  import opened BitGroups
  import Texts
  import opened Words

  datatype Error =
    | HrpLength | HrpCharacter | Length | MixedCase | Separator | DataCharacter | Checksum | Regroup

  datatype Encoded = Text(s: seq<ascii>) | EncodeError(error: Error)

  datatype Decoded = Address(hrp: seq<ascii>, data: seq<byte>) | DecodeError(error: Error)

  const CHARSET: seq<ascii> := "qpzry9x8gf2tvdw0s3jn54khce6mua7l"

  /** The entry of charsetRev: the position in CHARSET, or -1. */
  function CharsetRev(c: ascii): (i: int)
    ensures -1 <= i < 32
  {
    match c
    case 'q' => 0 case 'p' => 1 case 'z' => 2 case 'r' => 3
    case 'y' => 4 case '9' => 5 case 'x' => 6 case '8' => 7
    case 'g' => 8 case 'f' => 9 case '2' => 10 case 't' => 11
    case 'v' => 12 case 'd' => 13 case 'w' => 14 case '0' => 15
    case 's' => 16 case '3' => 17 case 'j' => 18 case 'n' => 19
    case '5' => 20 case '4' => 21 case 'k' => 22 case 'h' => 23
    case 'c' => 24 case 'e' => 25 case '6' => 26 case 'm' => 27
    case 'u' => 28 case 'a' => 29 case '7' => 30 case 'l' => 31
    case _ => -1
  }

  lemma CharsetInverse(i: symbol)
    ensures CharsetRev(CHARSET[i]) == i
  {}

  function CharAt(i: symbol): ascii {
    match i
    case 0 => 'q' case 1 => 'p' case 2 => 'z' case 3 => 'r'
    case 4 => 'y' case 5 => '9' case 6 => 'x' case 7 => '8'
    case 8 => 'g' case 9 => 'f' case 10 => '2' case 11 => 't'
    case 12 => 'v' case 13 => 'd' case 14 => 'w' case 15 => '0'
    case 16 => 's' case 17 => '3' case 18 => 'j' case 19 => 'n'
    case 20 => '5' case 21 => '4' case 22 => 'k' case 23 => 'h'
    case 24 => 'c' case 25 => 'e' case 26 => '6' case 27 => 'm'
    case 28 => 'u' case 29 => 'a' case 30 => '7' case 31 => 'l'
  }

  lemma CharAtIsCharset(i: symbol)
    ensures CharAt(i) == CHARSET[i]
  {}

  lemma CharAtInverse(c: ascii)
    requires CharsetRev(c) >= 0
    ensures CharAt(CharsetRev(c)) == c
  {}

  lemma CharsetRevInverse(c: ascii)
    ensures CharsetRev(c) >= 0 ==> CHARSET[CharsetRev(c)] == c
    ensures CharsetRev(c) == -1 ==> c !in CHARSET
  {
    hide CharsetRev, CharAt, CHARSET;
    if CharsetRev(c) >= 0 {
      CharAtInverse(c);
      CharAtIsCharset(CharsetRev(c));
    } else if c in CHARSET {
      var i :| 0 <= i < |CHARSET| && CHARSET[i] == c;
      CharsetLength();
      CharsetInverse(i);
    }
  }

  lemma CharsetLength()
    ensures |CHARSET| == 32
  {}

  // ----- ASCII case -----

  function Lower(c: ascii): ascii {
    Texts.Lower(c)
  }

  function Upper(c: ascii): ascii {
    if 'a' <= c <= 'z' then (c as int - 32) as char else c
  }

  function ToLower(s: seq<ascii>): (t: seq<ascii>)
    ensures |t| == |s| && forall i :: 0 <= i < |s| ==> t[i] == Lower(s[i])
  {
    seq(|s|, i requires 0 <= i < |s| => Lower(s[i]))
  }

  function ToUpper(s: seq<ascii>): (t: seq<ascii>)
    ensures |t| == |s| && forall i :: 0 <= i < |s| ==> t[i] == Upper(s[i])
  {
    seq(|s|, i requires 0 <= i < |s| => Upper(s[i]))
  }

  predicate MixesCase(s: seq<ascii>) {
    ToLower(s) != s && ToUpper(s) != s
  }

  // ----- The codec -----

  /** The last position of c in s, or -1. */
  function LastIndex(s: seq<ascii>, c: ascii): (i: int)
    ensures -1 <= i < |s|
    ensures i >= 0 ==> s[i] == c
    ensures forall j :: i < j < |s| ==> s[j] != c
  {
    if s == [] then -1
    else if s[|s| - 1] == c then |s| - 1
    else LastIndex(s[..|s| - 1], c)
  }

  predicate HrpReadable(hrp: seq<ascii>) {
    forall i :: 0 <= i < |hrp| ==> 33 <= hrp[i] as int <= 126
  }

  function Write(symbols: seq<symbol>): (t: seq<ascii>)
    ensures |t| == |symbols| && forall i :: 0 <= i < |t| ==> t[i] == CHARSET[symbols[i]]
  {
    seq(|symbols|, i requires 0 <= i < |symbols| => CHARSET[symbols[i]])
  }

  predicate Readable(text: seq<ascii>) {
    forall i :: 0 <= i < |text| ==> CharsetRev(text[i]) != -1
  }

  function Read(text: seq<ascii>): (symbols: seq<symbol>)
    requires Readable(text)
    ensures |symbols| == |text| && forall i :: 0 <= i < |text| ==> symbols[i] == CharsetRev(text[i])
  {
    seq(|text|, i requires 0 <= i < |text| => CharsetRev(text[i]))
  }

  /** The data regrouped to 5 bits, as Encode does; it never fails on bytes. */
  function FiveBits(data: seq<byte>): seq<symbol> {
    FiveBitsFit(data);
    ConvertBits(data, 8, 5, true).values
  }

  lemma FiveBitsFit(data: seq<byte>)
    ensures var r := ConvertBits(data, 8, 5, true);
            r.Groups? && forall i :: 0 <= i < |r.values| ==> r.values[i] < 32
    ensures ConvertBits(ConvertBits(data, 8, 5, true).values, 5, 8, false) == Groups(data)
  {
    ByteFits(data);
    RegroupInverse(data, 8, 5);
    assert Pow2(5) == 32;
  }

  function Encode(hrp: seq<ascii>, data: seq<byte>): Encoded {
    if |hrp| == 0 || |hrp| > 83 then EncodeError(HrpLength)
    else if !HrpReadable(hrp) then EncodeError(HrpCharacter)
    else
      var lower, five := ToLower(hrp), FiveBits(data);
      Text(lower + ['1'] + Write(five + CreateChecksum(lower, five)))
  }

  function Decode(s: seq<ascii>): Decoded {
    if |s| < 8 || |s| > 90 then DecodeError(Length)
    else if MixesCase(s) then DecodeError(MixedCase)
    else DecodeLower(ToLower(s))
  }

  function DecodeLower(s: seq<ascii>): Decoded {
    var idx := LastIndex(s, '1');
    if idx < 1 || idx + 7 > |s| then DecodeError(Separator)
    else if !HrpReadable(s[..idx]) then DecodeError(HrpCharacter)
    else if !Readable(s[idx + 1..]) then DecodeError(DataCharacter)
    else
      var data := Read(s[idx + 1..]);
      if !VerifyChecksum(s[..idx], data) then DecodeError(Checksum)
      else
        var r := ConvertBits(data[..|data| - 6], 5, 8, false);
        if r.Groups? then Address(s[..idx], r.values) else DecodeError(Regroup)
  }

  // ----- Round trips -----

  lemma ReadWrite(symbols: seq<symbol>)
    ensures Readable(Write(symbols)) && Read(Write(symbols)) == symbols
    ensures '1' !in Write(symbols) && ToLower(Write(symbols)) == Write(symbols)
  {
    forall i | 0 <= i < |symbols|
      ensures CharsetRev(Write(symbols)[i]) == symbols[i]
      ensures Write(symbols)[i] != '1' && Lower(Write(symbols)[i]) == Write(symbols)[i]
    {
      CharsetInverse(symbols[i]);
      SymbolCharacters(Write(symbols)[i]);
    }
  }

  lemma SymbolCharacters(c: ascii)
    requires CharsetRev(c) >= 0
    ensures c != '1' && Lower(c) == c
  {}

  lemma WriteRead(text: seq<ascii>)
    requires Readable(text)
    ensures Write(Read(text)) == text
  {
    forall i | 0 <= i < |text|
      ensures Write(Read(text))[i] == text[i]
    {
      CharsetRevInverse(text[i]);
    }
  }

  lemma LowerTwice(s: seq<ascii>)
    ensures ToLower(ToLower(s)) == ToLower(s)
    ensures HrpReadable(s) ==> HrpReadable(ToLower(s))
  {}

  lemma LastIndexIs(s: seq<ascii>, c: ascii, i: nat)
    requires i < |s| && s[i] == c && forall j :: i < j < |s| ==> s[j] != c
    ensures LastIndex(s, c) == i
  {
    var k := LastIndex(s, c);
    hide LastIndex;
  }

  lemma SeparatorFound(hrp: seq<ascii>, text: seq<ascii>)
    requires '1' !in text
    ensures LastIndex(hrp + ['1'] + text, '1') == |hrp|
  {
    var s := hrp + ['1'] + text;
    var i := LastIndex(s, '1');
    hide LastIndex;
    forall j | |hrp| < j < |s|
      ensures s[j] != '1'
    {
      assert s[j] == text[j - |hrp| - 1];
    }
    LastIndexIs(s, '1', |hrp|);
  }

  /** Whatever Encode accepts it writes in lower case, and Decode reads it back: the same
      bytes under the lower-cased hrp, unless the text is over the 90 characters Decode
      takes. */
  lemma {:induction false} EncodeThenDecode(hrp: seq<ascii>, data: seq<byte>)
    ensures Encode(hrp, data).Text? <==>
              1 <= |hrp| <= 83 && forall i :: 0 <= i < |hrp| ==> '!' <= hrp[i] <= '~'
    ensures Encode(hrp, data).Text? ==>
              var s := Encode(hrp, data).s;
              && ToLower(s) == s
              && Decode(s) == if |s| <= 90 then Address(ToLower(hrp), data) else DecodeError(Length)
  {
    assert HrpReadable(hrp) <==> forall i :: 0 <= i < |hrp| ==> '!' <= hrp[i] <= '~';
    hide ConvertBits, CharsetRev, CHARSET, CreateChecksum, DecodeLower, HrpReadable, FiveBits;
    LowerTwice(hrp);
    if Encode(hrp, data).Text? {
      var lower, five := ToLower(hrp), FiveBits(data);
      var s := Encode(hrp, data).s;
      ReadWrite(five + CreateChecksum(lower, five));
      ChecksumLength(lower, five);
      assert ToLower(s) == s;
      DecodeEncoding(lower, data);
    }
  }

  lemma DecodeEncoding(hrp: seq<ascii>, data: seq<byte>)
    requires |hrp| >= 1 && HrpReadable(hrp)
    ensures var five := FiveBits(data);
            DecodeLower(hrp + ['1'] + Write(five + CreateChecksum(hrp, five))) == Address(hrp, data)
  {
    hide ConvertBits, CharsetRev, CHARSET, VerifyChecksum, CreateChecksum, HrpReadable;
    var five := FiveBits(data);
    var checksum := CreateChecksum(hrp, five);
    var text := Write(five + checksum);
    var s := hrp + ['1'] + text;
    ReadWrite(five + checksum);
    SeparatorFound(hrp, text);
    assert s[..|hrp|] == hrp && s[|hrp| + 1..] == text;
    ChecksumLength(hrp, five);
    ChecksumUnique(hrp, five, checksum);
    assert (five + checksum)[..|five + checksum| - 6] == five;
    FiveBitsFit(data);
  }

  lemma ChecksumLength(hrp: seq<ascii>, data: seq<symbol>)
    ensures |CreateChecksum(hrp, data)| == 6
  {}

  /** Whatever Decode accepts is what Encode writes, up to case: no other text decodes to
      the same address. */
  lemma {:induction false} DecodeThenEncode(s: seq<ascii>)
    ensures Decode(s).Address? ==> Encode(Decode(s).hrp, Decode(s).data) == Text(ToLower(s))
  {
    hide ConvertBits, CharsetRev, CHARSET, VerifyChecksum, CreateChecksum, HrpReadable;
    if Decode(s).Address? {
      var t := ToLower(s);
      var idx := LastIndex(t, '1');
      var hrp, text := t[..idx], t[idx + 1..];
      var symbols := Read(text);
      var five, checksum := symbols[..|symbols| - 6], symbols[|symbols| - 6..];
      assert symbols == five + checksum;
      ChecksumUnique(hrp, five, checksum);
      CanonicalOnly(five, 5, 8);
      WriteRead(text);
      LowerTwice(s);
      LowerPrefix(t, idx);
      assert t == hrp + ['1'] + text by { assert t[idx] == '1'; }
    }
  }

  /** A text mixes cases exactly when it holds a lower-case and an upper-case letter; Decode
      then refuses it, whatever else it holds. */
  lemma {:induction false} MixedCaseRefused(s: seq<ascii>)
    ensures MixesCase(s) <==>
              (exists i :: 0 <= i < |s| && 'a' <= s[i] <= 'z') && (exists i :: 0 <= i < |s| && 'A' <= s[i] <= 'Z')
    ensures 8 <= |s| <= 90 && MixesCase(s) ==> Decode(s) == DecodeError(MixedCase)
    ensures !(8 <= |s| <= 90) ==> Decode(s) == DecodeError(Length)
  {
    hide DecodeLower;
    if forall i :: 0 <= i < |s| ==> !('A' <= s[i] <= 'Z') {
      assert ToLower(s) == s;
    }
    if forall i :: 0 <= i < |s| ==> !('a' <= s[i] <= 'z') {
      assert ToUpper(s) == s;
    }
    if i :| 0 <= i < |s| && 'A' <= s[i] <= 'Z' {
      assert ToLower(s)[i] != s[i];
    }
    if i :| 0 <= i < |s| && 'a' <= s[i] <= 'z' {
      assert ToUpper(s)[i] != s[i];
    }
  }

  lemma LowerPrefix(t: seq<ascii>, n: nat)
    requires n <= |t| && ToLower(t) == t
    ensures ToLower(t[..n]) == t[..n]
  {
    forall i | 0 <= i < n
      ensures Lower(t[i]) == t[i]
    {
      assert ToLower(t)[i] == Lower(t[i]);
    }
  }

  /** Decode accepts exactly the texts of at most 90 characters that are in one case and
      are, in lower case, the encoding of some address. */
  lemma {:induction false} DecodeAccepts(s: seq<ascii>)
    ensures Decode(s).Address? <==>
              && |s| <= 90 && !MixesCase(s)
              && exists hrp, data :: Encode(hrp, data) == Text(ToLower(s))
  {
    if Decode(s).Address? {
      DecodeThenEncode(s);
    }
    if |s| <= 90 && !MixesCase(s) && exists hrp, data :: Encode(hrp, data) == Text(ToLower(s)) {
      hide DecodeLower, CreateChecksum, FiveBits, Write;
      var hrp, data :| Encode(hrp, data) == Text(ToLower(s));
      EncodeThenDecode(hrp, data);
      ChecksumLength(ToLower(hrp), FiveBits(data));
      LowerTwice(s);
    }
  }

  // ----- The loops -----

  method InitCharsetRev() returns (rev: array<int>)
    ensures fresh(rev) && rev.Length == 128
    ensures forall c: ascii :: rev[c as int] == CharsetRev(c)
  {
    hide CharsetRev, CHARSET;
    CharsetLength();
    rev := new int[128](_ => -1);
    for i := 0 to 32
      invariant forall c: ascii :: rev[c as int] == if CharsetRev(c) < i then CharsetRev(c) else -1
    {
      CharsetInverse(i);
      forall c: ascii
        ensures CharsetRev(c) == i ==> c == CHARSET[i]
      {
        CharsetRevInverse(c);
      }
      rev[CHARSET[i] as int] := i;
    }
  }

  method CheckHrp(hrp: seq<ascii>) returns (ok: bool)
    ensures ok <==> HrpReadable(hrp)
  {
    for i := 0 to |hrp|
      invariant HrpReadable(hrp[..i])
    {
      if hrp[i] as int < 33 || hrp[i] as int > 126 {
        return false;
      }
    }
    return true;
  }

  method EncodeText(hrp: seq<ascii>, data: seq<byte>) returns (r: Encoded)
    ensures r == Encode(hrp, data)
  {
    hide CHARSET, ConvertBits, CreateChecksum;
    if |hrp| == 0 || |hrp| > 83 {
      return EncodeError(HrpLength);
    }
    var ok := CheckHrp(hrp);
    if !ok {
      return EncodeError(HrpCharacter);
    }
    var lower := ToLower(hrp);
    FiveBitsFit(data);
    var five := RegroupBits(data, 8, 5, true);
    var checksum := ComputeChecksum(lower, five.values);
    var combined: seq<symbol> := five.values + checksum[..];
    var text: seq<ascii> := lower + ['1'];
    for i := 0 to |combined|
      invariant text == lower + ['1'] + Write(combined)[..i]
    {
      CharsetLength();
      text := text + [CHARSET[combined[i]]];
    }
    return Text(text);
  }

  method DecodeText(s: seq<ascii>, rev: array<int>) returns (r: Decoded)
    requires rev.Length == 128 && forall c: ascii :: rev[c as int] == CharsetRev(c)
    ensures r == Decode(s)
  {
    hide CharsetRev, ConvertBits, VerifyChecksum, HrpReadable, Read;
    if |s| < 8 || |s| > 90 {
      return DecodeError(Length);
    }
    var t := ToLower(s);
    if t != s && ToUpper(s) != s {
      return DecodeError(MixedCase);
    }
    var idx := LastIndex(t, '1');
    if idx < 1 || idx + 7 > |t| {
      return DecodeError(Separator);
    }
    var hrp, text := t[..idx], t[idx + 1..];
    var ok := CheckHrp(hrp);
    if !ok {
      return DecodeError(HrpCharacter);
    }
    var data: seq<symbol> := [];
    for i := 0 to |text|
      invariant Readable(text[..i]) && data == Read(text[..i])
    {
      if rev[text[i] as int] == -1 {
        return DecodeError(DataCharacter);
      }
      assert rev[text[i] as int] == CharsetRev(text[i]);
      data := data + [rev[text[i] as int]];
    }
    assert text[..|text|] == text;
    ok := CheckChecksum(hrp, data);
    if !ok {
      return DecodeError(Checksum);
    }
    var decoded := RegroupBits(data[..|data| - 6], 5, 8, false);
    if !decoded.Groups? {
      return DecodeError(Regroup);
    }
    return Address(hrp, decoded.values);
  }
}
