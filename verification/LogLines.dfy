/** Lines of a byte stream: what any way of splitting a log must come to. */
module LogLines {
  import opened Texts
  import opened Words

  const NEWLINE: byte := 10
  const SPACE: byte := 32

  /** The newline-terminated lines of s, without their newlines. */
  function Lines(s: seq<byte>): seq<seq<byte>> {
    var i := IndexOf(s, NEWLINE);
    if i == |s| then [] else [s[..i]] + Lines(s[i + 1..])
  }

  /** What follows the last newline of s. */
  function Rest(s: seq<byte>): seq<byte> {
    var i := IndexOf(s, NEWLINE);
    if i == |s| then s else Rest(s[i + 1..])
  }

  /** Lines written out again, each with its newline. */
  function Join(lines: seq<seq<byte>>): seq<byte> {
    if lines == [] then [] else lines[0] + [NEWLINE] + Join(lines[1..])
  }

  predicate AreLines(lines: seq<seq<byte>>) {
    forall i :: 0 <= i < |lines| ==> NEWLINE !in lines[i]
  }

  lemma NewlineFirst(line: seq<byte>, s: seq<byte>)
    requires NEWLINE !in line
    ensures Lines(line + [NEWLINE] + s) == [line] + Lines(s) && Rest(line + [NEWLINE] + s) == Rest(s)
  {
    var t := line + [NEWLINE] + s;
    assert t[..|line|] == line && t[|line|] == NEWLINE && t[|line| + 1..] == s;
    IndexOfIs(t, NEWLINE, |line|);
  }

  lemma NoNewline(s: seq<byte>)
    requires NEWLINE !in s
    ensures Lines(s) == [] && Rest(s) == s
  {
    IndexOfNone(s, NEWLINE);
  }

  /** Lines end at bytes 10 and nowhere else. */
  lemma {:induction false} TwoLines(line: seq<byte>, rest: seq<byte>)
    requires 10 !in line && 10 !in rest
    ensures Lines(line + [10] + rest) == [line] && Rest(line + [10] + rest) == rest
    ensures Lines(rest) == [] && Rest(rest) == rest
  {
    NewlineFirst(line, rest);
    NoNewline(rest);
    hide Lines, Rest;
    assert [line] + [] == [line];
  }

  /** A stream is unterminated, or a line, its newline, and a shorter stream. */
  lemma FirstLine(s: seq<byte>) returns (line: seq<byte>, more: seq<byte>)
    ensures NEWLINE !in s ==> line == [] && more == []
    ensures NEWLINE in s ==> NEWLINE !in line && s == line + [NEWLINE] + more && |more| < |s|
  {
    var i := IndexOf(s, NEWLINE);
    line, more := [], [];
    if NEWLINE in s {
      assert s[..|s|] == s;
      line, more := s[..i], s[i + 1..];
    }
  }

  /** Splitting into lines is undone by joining; no line, nor the rest, has a newline. */
  lemma {:induction false} LinesJoin(s: seq<byte>)
    ensures Join(Lines(s)) + Rest(s) == s && AreLines(Lines(s)) && NEWLINE !in Rest(s)
    decreases |s|
  {
    hide Lines, Rest;
    if NEWLINE !in s {
      NoNewline(s);
    } else {
      var line, more := FirstLine(s);
      NewlineFirst(line, more);
      LinesJoin(more);
      assert Lines(s)[1..] == Lines(more);
      assert Join(Lines(s)) + Rest(s) == line + [NEWLINE] + (Join(Lines(more)) + Rest(more));
    }
  }

  /** Joining is undone by splitting: the lines of a stream are the only way to cut it. */
  lemma {:induction false} JoinLines(lines: seq<seq<byte>>, rest: seq<byte>)
    requires AreLines(lines) && NEWLINE !in rest
    ensures Lines(Join(lines) + rest) == lines && Rest(Join(lines) + rest) == rest
  {
    hide Lines, Rest;
    if lines == [] {
      assert Join(lines) + rest == rest;
      NoNewline(rest);
    } else {
      assert Join(lines) + rest == lines[0] + [NEWLINE] + (Join(lines[1..]) + rest);
      JoinLines(lines[1..], rest);
      NewlineFirst(lines[0], Join(lines[1..]) + rest);
    }
  }

  /** Cutting a stream anywhere and carrying the unterminated rest over changes no line. */
  lemma {:induction false} LinesConcat(a: seq<byte>, b: seq<byte>)
    ensures Lines(a + b) == Lines(a) + Lines(Rest(a) + b) && Rest(a + b) == Rest(Rest(a) + b)
    decreases |a|
  {
    hide Lines, Rest;
    if NEWLINE !in a {
      NoNewline(a);
    } else {
      var line, more := FirstLine(a);
      NewlineFirst(line, more);
      LinesConcat(more, b);
      assert a + b == line + [NEWLINE] + (more + b);
      NewlineFirst(line, more + b);
      assert Lines(a) + Lines(Rest(a) + b) == [line] + (Lines(more) + Lines(Rest(more) + b));
    }
  }
}
