/** Tailing a log file by polling: half-written lines are read again until they are whole, and
    every whole line is emitted once. */
module FileTail {
  import opened LogLines
  import opened Options
  import opened Texts
  import opened Words

  /** What the file system answers during one poll. A file is named by its identity; None is a
      failed call. `before` holds the files' contents when they are measured, `after` when
      they are read. Measuring a file right after opening it does not fail. */
  datatype Poll = Poll(
    atOpen: Option<int>, statOk: bool, atStat: Option<int>, atReopen: Option<int>, restatOk: bool, seekOk: bool,
    before: map<int, seq<byte>>, after: map<int, seq<byte>>)

  function Content(files: map<int, seq<byte>>, id: int): seq<byte> {
    if id in files then files[id] else []
  }

  /** The open file, the offset of the first unread line, and whether the first open is still
      to come. */
  datatype State = State(file: Option<int>, off: nat, tail: bool)

  const START := State(None, 0, true)

  /** What a poll does before it reads: the file to read, if any, and the state by then. */
  function Prepare(s: State, p: Poll): (Option<int>, State) {
    if s.file.None? && p.atOpen.None? then (None, s)
    else
      var id := if s.file.Some? then s.file.value else p.atOpen.value;
      var t := if s.file.None? && s.tail then State(Some(id), |Content(p.before, id)|, false) else s.(file := Some(id));
      if !p.statOk then (None, t.(file := None))
      else if p.atStat.Some? && p.atStat.value != id then
        if p.atReopen.None? || !p.restatOk then (None, State(None, 0, t.tail))
        else PrepareRead(p, State(p.atReopen, 0, t.tail), p.atReopen.value)
      else PrepareRead(p, t, id)
  }

  function PrepareRead(p: Poll, t: State, id: int): (Option<int>, State) {
    var u := if |Content(p.before, id)| < t.off then t.(off := 0) else t;
    if !p.seekOk then (None, u.(file := None)) else (Some(id), u)
  }

  /** What there is to read of a file from an offset on. */
  function From(content: seq<byte>, off: nat): seq<byte> {
    if off <= |content| then content[off..] else []
  }

  function OnPoll(s: State, p: Poll): (seq<seq<byte>>, State) {
    var (id, t) := Prepare(s, p);
    if id.None? then ([], t)
    else
      var lines := Lines(From(Content(p.after, id.value), t.off));
      (lines, t.(off := t.off + |Join(lines)|))
  }

  function Run(s: State, polls: seq<Poll>): (seq<seq<byte>>, State) {
    if polls == [] then ([], s)
    else
      var (out, t) := Run(s, polls[..|polls| - 1]);
      var (more, u) := OnPoll(t, polls[|polls| - 1]);
      (out + more, u)
  }

  class FileSource {
    var tail: bool

    constructor ()
      ensures tail
    {
      tail := true;
    }

    /** Reads whole lines until the end of the file; off moves past each of them. */
    method ReadLines(data: seq<byte>, off: nat) returns (out: seq<seq<byte>>, next: nat)
      ensures out == Lines(data) && next == off + |Join(out)|
    {
      hide Lines;
      out, next := [], off;
      var rest := data;
      assert [] + Lines(data) == Lines(data);
      var i := IndexOf(rest, NEWLINE);
      while i < |rest|
        invariant i == IndexOf(rest, NEWLINE)
        invariant Lines(data) == out + Lines(rest) && next == off + |Join(out)|
        decreases |rest|
      {
        assert rest == rest[..i] + [NEWLINE] + rest[i + 1..];
        NewlineFirst(rest[..i], rest[i + 1..]);
        assert out + ([rest[..i]] + Lines(rest[i + 1..])) == (out + [rest[..i]]) + Lines(rest[i + 1..]);
        JoinGrows(out, rest[..i]);
        next := next + i + 1;
        out := out + [rest[..i]];
        rest := rest[i + 1..];
        i := IndexOf(rest, NEWLINE);
      }
      assert rest[..|rest|] == rest;
      NoNewline(rest);
      assert out + [] == out;
    }

    /** The polling loop, over what the polls find. */
    method Stream(polls: seq<Poll>) returns (out: seq<seq<byte>>, off: nat)
      modifies this
      ensures var (lines, s) := Run(State(None, 0, old(tail)), polls); out == lines && off == s.off && tail == s.tail
    {
      hide Lines, Join;
      out, off := [], 0;
      var file: Option<int> := None;
      ghost var start := State(None, 0, tail);
      for k := 0 to |polls|
        invariant Run(start, polls[..k]) == (out, State(file, off, tail))
      {
        assert polls[..k + 1][..k] == polls[..k];
        ghost var s := State(file, off, tail);
        assert Run(start, polls[..k + 1]) == (out + OnPoll(s, polls[k]).0, OnPoll(s, polls[k]).1);
        assert out + [] == out;
        hide Run;
        var p := polls[k];
        if file.None? {
          file := p.atOpen;
          if file.None? {
            continue;
          }
          if tail {
            off := |Content(p.before, file.value)|;
            tail := false;
          }
        }
        if !p.statOk {
          file := None;
          continue;
        }
        if p.atStat.Some? && p.atStat != file {
          file, off := None, 0;
          if p.atReopen.None? {
            continue;
          }
          file := p.atReopen;
          if !p.restatOk {
            file := None;
            continue;
          }
        }
        if |Content(p.before, file.value)| < off {
          off := 0;
        }
        if !p.seekOk {
          file := None;
          continue;
        }
        var lines;
        lines, off := ReadLines(From(Content(p.after, file.value), off), off);
        out := out + lines;
      }
      assert polls[..|polls|] == polls;
    }
  }

  lemma {:induction false} JoinGrows(lines: seq<seq<byte>>, line: seq<byte>)
    ensures Join(lines + [line]) == Join(lines) + line + [NEWLINE]
  {
    if lines == [] {
      assert [line][1..] == [] && [] + [line] == [line];
    } else {
      assert (lines + [line])[1..] == lines[1..] + [line];
      JoinGrows(lines[1..], line);
    }
  }

  /** Which polls read, and what: with a file open or opened now, and measured, either the file
      is still the one under the name, or the new one could be opened and measured; and the
      offset could be taken up. Any other poll leaves no file open. A new file is read from its
      start, and so is one that is shorter than the offset. */
  lemma PollReads(s: State, p: Poll)
    requires !s.tail
    ensures var id := if s.file != None then s.file else p.atOpen;
            var replaced := p.atStat != None && p.atStat != id;
            var (got, t) := Prepare(s, p);
            && (got != None <==>
                id != None && p.statOk && p.seekOk && (replaced ==> p.atReopen != None && p.restatOk))
            && (got != None ==> got == if replaced then p.atReopen else id)
            && t.file == got && !t.tail
            && t.off ==
               if id != None && p.statOk && (replaced || |Content(p.before, id.value)| < s.off) then 0 else s.off
  {}

  /** A file cut back to less than what was read of it is read again from its start. */
  lemma TruncationStartsOver(s: State, p: Poll, id: int)
    requires s.file == Some(id) && p.statOk && p.seekOk && (p.atStat == None || p.atStat == Some(id))
    requires |Content(p.before, id)| < s.off
    ensures OnPoll(s, p) == (Lines(Content(p.after, id)), s.(off := |Join(Lines(Content(p.after, id)))|))
  {
    hide Lines, Join;
    var content := Content(p.after, id);
    assert content[0..] == content;
  }

  // ----- An append-only file -----

  /** A poll that meets no file but `id`, whose content only grows from `seen` on. */
  predicate AppendOnly(p: Poll, id: int, seen: seq<byte>) {
    && (p.atOpen.Some? ==> p.atOpen.value == id)
    && (p.atStat.Some? ==> p.atStat.value == id)
    && (p.atReopen.Some? ==> p.atReopen.value == id)
    && seen <= Content(p.before, id) <= Content(p.after, id)
  }

  /** What has been read of the file: everything up to `seen` from offset `start` on. */
  predicate ReadUpTo(s: State, id: int, start: nat, seen: seq<byte>, out: seq<seq<byte>>) {
    && !s.tail && (s.file.Some? ==> s.file.value == id)
    && start <= |seen| && out == Lines(seen[start..]) && s.off == start + |Join(out)|
  }

  /** The content of the file at the last poll of a run that read it, `seen` if none did. */
  function LastSeen(s: State, polls: seq<Poll>, id: int, seen: seq<byte>): seq<byte> {
    if polls == [] then seen
    else
      var p, before := polls[|polls| - 1], polls[..|polls| - 1];
      if Prepare(Run(s, before).1, p).0.Some? then Content(p.after, id) else LastSeen(s, before, id, seen)
  }

  /** Every poll of a run finds the file grown since the polls before it. */
  predicate GrowsThrough(polls: seq<Poll>, id: int, seen: seq<byte>) {
    polls == [] ||
    (GrowsThrough(polls[..|polls| - 1], id, seen)
     && AppendOnly(polls[|polls| - 1], id, LastContent(polls[..|polls| - 1], id, seen)))
  }

  function LastContent(polls: seq<Poll>, id: int, seen: seq<byte>): seq<byte> {
    if polls == [] then seen else Content(polls[|polls| - 1].after, id)
  }

  lemma Splice(seen: seq<byte>, content: seq<byte>, start: nat)
    requires seen <= content && start <= |seen|
    ensures var off := start + |Join(Lines(seen[start..]))|;
            && off <= |seen|
            && Lines(content[start..]) == Lines(seen[start..]) + Lines(content[off..])
  {
    hide Lines, Rest;
    var before, added := seen[start..], content[|seen|..];
    LinesJoin(before);
    LinesConcat(before, added);
    var off := start + |Join(Lines(before))|;
    assert before + added == content[start..];
    assert Rest(before) == before[|Join(Lines(before))|..];
    assert Rest(before) + added == content[off..];
  }

  lemma {:induction false} JoinConcat(a: seq<seq<byte>>, b: seq<seq<byte>>)
    ensures Join(a + b) == Join(a) + Join(b)
  {
    if a == [] {
      assert a + b == b;
    } else {
      assert (a + b)[1..] == a[1..] + b;
      JoinConcat(a[1..], b);
    }
  }

  /** One more poll of a growing file, opened or not, answered or not, keeps the account. */
  lemma PollKeepsAccount(s: State, p: Poll, id: int, start: nat, seen: seq<byte>, out: seq<seq<byte>>)
    requires ReadUpTo(s, id, start, seen, out) && AppendOnly(p, id, seen)
    ensures var (more, t) := OnPoll(s, p);
            ReadUpTo(t, id, start, if Prepare(s, p).0.Some? then Content(p.after, id) else seen, out + more)
  {
    hide Lines, Join;
    var content := Content(p.after, id);
    Splice(seen, Content(p.before, id), start);
    Splice(seen, content, start);
    assert out + [] == out;
    if Prepare(s, p).0.Some? {
      JoinConcat(out, Lines(content[s.off..]));
    }
  }

  lemma {:induction false} AccountThrough(s: State, polls: seq<Poll>, id: int, start: nat, seen: seq<byte>,
                                          out: seq<seq<byte>>)
    requires ReadUpTo(s, id, start, seen, out) && GrowsThrough(polls, id, seen)
    ensures ReadUpTo(Run(s, polls).1, id, start, LastSeen(s, polls, id, seen), out + Run(s, polls).0)
    ensures LastSeen(s, polls, id, seen) <= LastContent(polls, id, seen)
  {
    hide OnPoll, Prepare, ReadUpTo;
    assert out + [] == out;
    if polls != [] {
      var before, p := polls[..|polls| - 1], polls[|polls| - 1];
      AccountThrough(s, before, id, start, seen, out);
      var (lines, t) := Run(s, before);
      PollKeepsAccount(t, p, id, start, LastSeen(s, before, id, seen), out + lines);
      assert (out + lines) + OnPoll(t, p).0 == out + (lines + OnPoll(t, p).0);
    }
  }

  /** The first poll that opens the file starts at its end. */
  lemma FirstOpen(p: Poll, id: int)
    requires AppendOnly(p, id, []) && p.atOpen.Some?
    ensures var (more, t) := OnPoll(START, p);
            var start := |Content(p.before, id)|;
            ReadUpTo(t, id, start,
                     if Prepare(START, p).0.Some? then Content(p.after, id) else Content(p.before, id), more)
  {
    var seen := Content(p.before, id);
    assert seen[|seen|..] == [];
    assert Lines([]) == [] && Join([]) == [];
    PollKeepsAccount(State(Some(id), |seen|, false), p, id, |seen|, seen, []);
    assert Prepare(State(Some(id), |seen|, false), p) == Prepare(START, p);
    assert [] + OnPoll(START, p).0 == OnPoll(START, p).0;
  }

  lemma {:induction false} NothingYet(polls: seq<Poll>)
    requires forall i :: 0 <= i < |polls| ==> polls[i].atOpen.None?
    ensures Run(START, polls) == ([], START)
  {
    if polls != [] {
      NothingYet(polls[..|polls| - 1]);
      assert polls[|polls| - 1].atOpen.None?;
      var nothing: seq<seq<byte>> := [];
      assert OnPoll(START, polls[|polls| - 1]) == (nothing, START) && nothing + nothing == nothing;
    }
  }

  /** Every poll schedule over an append-only file: once a poll has opened it, the lines
      emitted so far are exactly the whole lines from where the file ended then up to what
      the last reading poll saw, each once and in order, and the offset is the start plus
      the bytes of the emitted lines. Opening, measuring and seeking may fail at any poll. */
  lemma TailIsExact(early: seq<Poll>, open: Poll, polls: seq<Poll>, id: int)
    requires forall i :: 0 <= i < |early| ==> early[i].atOpen.None?
    requires AppendOnly(open, id, []) && open.atOpen.Some? && GrowsThrough(polls, id, Content(open.after, id))
    ensures var start := |Content(open.before, id)|;
            var s := OnPoll(START, open).1;
            var first := if Prepare(START, open).0.Some? then Content(open.after, id) else Content(open.before, id);
            var seen := LastSeen(s, polls, id, first);
            var (out, t) := Run(START, early + [open] + polls);
            start <= |seen| && out == Lines(seen[start..]) && t.off == start + |Join(out)|
  {
    var s := OnPoll(START, open).1;
    var first := if Prepare(START, open).0.Some? then Content(open.after, id) else Content(open.before, id);
    NothingYet(early);
    FirstOpen(open, id);
    GrowsFromLess(polls, id, Content(open.after, id), first);
    AccountThrough(s, polls, id, |Content(open.before, id)|, first, OnPoll(START, open).0);
    hide OnPoll, Prepare;
    assert (early + [open])[..|early|] == early;
    assert Run(START, early + [open]) == ([] + OnPoll(START, open).0, s);
    assert [] + OnPoll(START, open).0 == OnPoll(START, open).0;
    RunConcat(START, early + [open], polls);
  }

  lemma {:induction false} GrowsFromLess(polls: seq<Poll>, id: int, seen: seq<byte>, less: seq<byte>)
    requires GrowsThrough(polls, id, seen) && less <= seen
    ensures GrowsThrough(polls, id, less)
  {
    if polls != [] {
      GrowsFromLess(polls[..|polls| - 1], id, seen, less);
    }
  }

  lemma {:induction false} RunConcat(s: State, a: seq<Poll>, b: seq<Poll>)
    ensures var (early, t) := Run(s, a);
            var (late, u) := Run(t, b);
            Run(s, a + b) == (early + late, u)
  {
    hide OnPoll;
    if b == [] {
      assert a + b == a;
      assert Run(s, a).0 + [] == Run(s, a).0;
    } else {
      var (before, p) := (b[..|b| - 1], b[|b| - 1]);
      RunConcat(s, a, before);
      assert (a + b)[..|a + b| - 1] == a + before;
      var (early, t) := Run(s, a);
      var (late, u) := Run(t, before);
      assert early + (late + OnPoll(u, p).0) == (early + late) + OnPoll(u, p).0;
    }
  }

  /** A file replaced by another: from the poll that notices on, the lines emitted are exactly
      the whole lines of the new file from its start. */
  lemma RotationStartsOver(s: State, notice: Poll, polls: seq<Poll>, id: int)
    requires !s.tail && s.file.Some? && notice.statOk && notice.atStat == Some(id) && s.file.value != id
    requires AppendOnly(notice, id, []) && GrowsThrough(polls, id, Content(notice.after, id))
    ensures var t := OnPoll(s, notice).1;
            var first := if Prepare(s, notice).0.Some? then Content(notice.after, id) else [];
            var seen := LastSeen(t, polls, id, first);
            var (out, u) := Run(s, [notice] + polls);
            out == Lines(seen) && u.off == |Join(out)|
  {
    var (more, t) := OnPoll(s, notice);
    var first := if Prepare(s, notice).0.Some? then Content(notice.after, id) else [];
    assert first[0..] == first && Lines([]) == [] && Join([]) == [];
    assert ReadUpTo(t, id, 0, first, more);
    GrowsFromLess(polls, id, Content(notice.after, id), first);
    AccountThrough(t, polls, id, 0, first, more);
    hide OnPoll, Prepare;
    RunConcat(s, [notice], polls);
    assert [notice][..0] == [] && Run(s, [notice]) == ([] + more, t) && [] + more == more;
    var seen := LastSeen(t, polls, id, first);
    assert seen[0..] == seen;
  }
}
