/** The docker log source: frames of a multiplexed stream become lines, whatever the frame
    boundaries, and the newest timestamp read keeps reconnects from repeating any. */
module Docker {
  import opened Clocks
  import opened LogLines
  import opened Options
  import opened Texts
  import opened Words

  /** A time parser for line prefixes. */
  type Parser = seq<byte> -> Option<Time>

  const MAX_FRAME := 4_194_304   // 1 << 22

  // ----- Frames -----

  function BigEndian(b: seq<byte>): nat
    requires |b| == 4
  {
    ((b[0] as int * 256 + b[1]) * 256 + b[2]) * 256 + b[3]
  }

  function Bytes(n: nat): (b: seq<byte>)
    requires n < 0x1_0000_0000
    ensures |b| == 4
  {
    [n / 0x100_0000, n / 0x1_0000 % 256, n / 256 % 256, n % 256]
  }

  lemma BytesBigEndian(n: nat)
    requires n < 0x1_0000_0000
    ensures BigEndian(Bytes(n)) == n
  {
    assert n / 0x1_0000 == n / 256 / 256 && n / 0x100_0000 == n / 256 / 256 / 256;
  }

  datatype End = Closed | Short | BadSize(size: nat)

  /** The payloads in a stream up to where reading stops, and why it stops there. */
  function Frames(r: seq<byte>): (seq<seq<byte>>, End)
    decreases |r|
  {
    if r == [] then ([], Closed)
    else if |r| < 8 then ([], Short)
    else
      var size := BigEndian(r[4..8]);
      if size == 0 || size > MAX_FRAME then ([], BadSize(size))
      else if |r| < 8 + size then ([], Short)
      else
        var (more, end) := Frames(r[8 + size..]);
        ([r[8..8 + size]] + more, end)
  }

  /** A frame as the docker daemon writes it. */
  datatype Frame = Frame(stream: byte, payload: seq<byte>)

  predicate Sendable(f: Frame) { 0 < |f.payload| <= MAX_FRAME }

  function Write(frames: seq<Frame>): seq<byte>
    requires forall i :: 0 <= i < |frames| ==> Sendable(frames[i])
  {
    if frames == [] then []
    else
      assert Sendable(frames[0]);
      Header(frames[0]) + frames[0].payload + Write(frames[1..])
  }

  /** All the payload bytes, in order. */
  function Flatten(payloads: seq<seq<byte>>): seq<byte> {
    if payloads == [] then [] else payloads[0] + Flatten(payloads[1..])
  }

  function Payloads(frames: seq<Frame>): seq<seq<byte>> {
    if frames == [] then [] else [frames[0].payload] + Payloads(frames[1..])
  }

  /** A frame's header: its stream and the size of its payload. */
  function Header(f: Frame): (h: seq<byte>)
    requires Sendable(f)
    ensures |h| == 8 && h[4..8] == Bytes(|f.payload|)
  {
    [f.stream, 0, 0, 0] + Bytes(|f.payload|)
  }

  lemma FrameInFront(f: Frame, more: seq<byte>)
    requires Sendable(f)
    ensures Frames(Header(f) + f.payload + more) == ([f.payload] + Frames(more).0, Frames(more).1)
  {
    hide Bytes, BigEndian, Header;
    var h, n := Header(f), |f.payload|;
    var r := h + f.payload + more;
    BytesBigEndian(n);
    assert r[4..8] == h[4..8] && r[8..8 + n] == f.payload && r[8 + n..] == more;
  }

  /** Frames in front of any other bytes give their payloads, and reading goes on behind them. */
  lemma {:induction false} FramesInFront(frames: seq<Frame>, rest: seq<byte>)
    requires forall i :: 0 <= i < |frames| ==> Sendable(frames[i])
    ensures Frames(Write(frames) + rest) == (Payloads(frames) + Frames(rest).0, Frames(rest).1)
  {
    hide Frames, Header, Sendable;
    if frames == [] {
      assert Write(frames) + rest == rest && Payloads(frames) + Frames(rest).0 == Frames(rest).0;
    } else {
      var f, later := frames[0], Write(frames[1..]);
      FramesInFront(frames[1..], rest);
      FrameInFront(f, later + rest);
      assert Write(frames) + rest == Header(f) + f.payload + (later + rest);
      assert Payloads(frames) + Frames(rest).0 == [f.payload] + (Payloads(frames[1..]) + Frames(rest).0);
    }
  }

  /** The beginning of a frame: part of its header, or the header and part of the payload. */
  predicate Broken(b: seq<byte>) {
    |b| < 8 || (0 < BigEndian(b[4..8]) <= MAX_FRAME && |b| < 8 + BigEndian(b[4..8]))
  }

  /** Reading undoes writing: a stream of frames gives back its payloads, also when it breaks
      inside a frame, of which nothing is read. */
  lemma {:induction false} FramesUndoWrite(frames: seq<Frame>, broken: seq<byte>)
    requires Broken(broken) && forall i :: 0 <= i < |frames| ==> Sendable(frames[i])
    ensures Frames(Write(frames) + broken) == (Payloads(frames), if broken == [] then Closed else Short)
  {
    FramesInFront(frames, broken);
    assert Payloads(frames) + [] == Payloads(frames);
    hide BigEndian;
  }

  /** A header gives the size in its last four bytes, the most significant first. A size that
      is zero or above four mebibytes ends the reading, with the payloads before it read. */
  lemma {:induction false} BadFrameStops(frames: seq<Frame>, header: seq<byte>, more: seq<byte>)
    requires |header| == 8 && forall i :: 0 <= i < |frames| ==> Sendable(frames[i])
    ensures var size := header[4] as int * 16_777_216 + header[5] as int * 65_536 + header[6] as int * 256 + header[7];
            && BigEndian(header[4..8]) == size
            && (size == 0 || size > 4_194_304 ==>
                  Frames(Write(frames) + (header + more)) == (Payloads(frames), BadSize(size)))
  {
    var size := BigEndian(header[4..8]);
    assert (header + more)[4..8] == header[4..8];
    if size == 0 || size > MAX_FRAME {
      NoFrame(header + more);
      FramesInFront(frames, header + more);
      hide Frames, BigEndian, Sendable;
      assert Payloads(frames) + [] == Payloads(frames);
    }
  }

  // ----- Lines -----

  /** What note makes of a line: the text to pass on, if any, and its timestamp. */
  datatype Noted = Noted(text: seq<byte>, stamp: Option<Time>)

  function Note(last: Time, line: seq<byte>, parse: Parser): (Option<Noted>, Time) {
    var i := IndexOf(line, SPACE);
    if 0 < i < |line| && parse(line[..i]).Some? then
      var t := parse(line[..i]).value;
      if t <= last then (None, last) else (Some(Noted(line[i + 1..], Some(t))), t)
    else (Some(Noted(line, None)), last)
  }

  /** A line without a timestamp is passed on as it is, and leaves the newest timestamp alone:
      one without a space, with nothing before its first space, or with something else there. */
  lemma {:induction false} NoteUnstamped(last: Time, prefix: seq<byte>, text: seq<byte>, parse: Parser)
    requires 32 !in prefix
    ensures Note(last, prefix, parse) == (Some(Noted(prefix, None)), last)
    ensures prefix == [] || parse(prefix).None? ==>
              Note(last, prefix + [32] + text, parse) == (Some(Noted(prefix + [32] + text, None)), last)
  {
    var line := prefix + [32] + text;
    assert line[..|prefix|] == prefix && line[|prefix|] == 32;
    IndexOfNone(prefix, 32);
    IndexOfIs(line, 32, |prefix|);
  }

  /** The lines passed on, and the newest timestamp after them. */
  function NoteAll(last: Time, lines: seq<seq<byte>>, parse: Parser): (seq<Noted>, Time)
    decreases |lines|
  {
    if lines == [] then ([], last)
    else
      var (noted, t) := Note(last, lines[0], parse);
      var (more, u) := NoteAll(t, lines[1..], parse);
      ((if noted.Some? then [noted.value] else []) + more, u)
  }

  lemma {:induction false} NoteAllConcat(last: Time, a: seq<seq<byte>>, b: seq<seq<byte>>, parse: Parser)
    ensures var (early, t) := NoteAll(last, a, parse);
            var (late, u) := NoteAll(t, b, parse);
            NoteAll(last, a + b, parse) == (early + late, u)
    decreases |a|
  {
    hide Note;
    if a == [] {
      assert a + b == b;
      assert [] + NoteAll(last, b, parse).0 == NoteAll(last, b, parse).0;
    } else {
      var (noted, t) := Note(last, a[0], parse);
      var first := if noted.Some? then [noted.value] else [];
      NoteAllConcat(t, a[1..], b, parse);
      assert (a + b)[0] == a[0] && (a + b)[1..] == a[1..] + b;
      var (early, u) := NoteAll(t, a[1..], parse);
      assert first + (early + NoteAll(u, b, parse).0) == (first + early) + NoteAll(u, b, parse).0;
    }
  }

  class DockerSource {
    var last: Time

    constructor ()
      ensures last == 0
    {
      last := 0;
    }

    method NoteLine(line: seq<byte>, parse: Parser) returns (noted: Option<Noted>)
      modifies this
      ensures (noted, last) == Note(old(last), line, parse)
    {
      var i := IndexOf(line, SPACE);
      if 0 < i < |line| {
        var t := parse(line[..i]);
        if t.Some? {
          if !(t.value > last) {
            return None;
          }
          last := t.value;
          return Some(Noted(line[i + 1..], t));
        }
      }
      return Some(Noted(line, None));
    }

    /** Splits one buffer into lines; `partial` is what is left without a newline. */
    method Split(data: seq<byte>, parse: Parser) returns (out: seq<Noted>, partial: seq<byte>)
      modifies this
      ensures (out, last) == NoteAll(old(last), Lines(data), parse) && partial == Rest(data)
    {
      hide Note, Lines, Rest;
      out := [];
      var buf := data;
      ghost var lines: seq<seq<byte>> := [];
      assert NoteAll(last, [], parse) == ([], last);
      assert [] + Lines(data) == Lines(data);
      var i := IndexOf(buf, NEWLINE);
      while i < |buf|
        invariant i == IndexOf(buf, NEWLINE)
        invariant Lines(data) == lines + Lines(buf) && Rest(data) == Rest(buf)
        invariant (out, last) == NoteAll(old(last), lines, parse)
        decreases |buf|
      {
        assert buf == buf[..i] + [NEWLINE] + buf[i + 1..];
        NewlineFirst(buf[..i], buf[i + 1..]);
        assert lines + ([buf[..i]] + Lines(buf[i + 1..])) == (lines + [buf[..i]]) + Lines(buf[i + 1..]);
        NoteAllConcat(old(last), lines, [buf[..i]], parse);
        OneNote(last, buf[..i], parse);
        lines := lines + [buf[..i]];
        partial := buf[i + 1..];
        var noted := NoteLine(buf[..i], parse);
        assert out + [] == out;
        if noted.Some? {
          out := out + [noted.value];
        }
        buf := partial;
        i := IndexOf(buf, NEWLINE);
      }
      partial := buf;
      assert buf[..|buf|] == buf;
      NoNewline(buf);
      assert lines + [] == lines;
    }

    /** Reads frames until the stream ends: the lines it passes on are those of the payloads
        put together. */
    method Demux(r: seq<byte>, parse: Parser) returns (out: seq<Noted>, partial: seq<byte>, end: End)
      modifies this
      ensures var data := Flatten(Frames(r).0);
              (out, last) == NoteAll(old(last), Lines(data), parse) && partial == Rest(data)
      ensures end == Frames(r).1
    {
      hide Note, BigEndian, Frames, Flatten, Lines, Rest;
      out, partial := [], [];
      var rest := r;
      ghost var data: seq<byte> := [];
      NoNewline([]);
      assert NoteAll(last, [], parse) == ([], last);
      assert [] + Flatten(Frames(r).0) == Flatten(Frames(r).0);
      while true
        invariant Flatten(Frames(r).0) == data + Flatten(Frames(rest).0) && Frames(r).1 == Frames(rest).1
        invariant (out, last) == NoteAll(old(last), Lines(data), parse) && partial == Rest(data)
        decreases |rest|
      {
        hide NoteAll;
        assert data + [] == data;
        NoFrame(rest);
        if rest == [] {
          return out, partial, Closed;
        }
        if |rest| < 8 {
          return out, partial, Short;
        }
        var size := BigEndian(rest[4..8]);
        if size == 0 || size > MAX_FRAME {
          return out, partial, BadSize(size);
        }
        if |rest| < 8 + size {
          return out, partial, Short;
        }
        var buf := partial + rest[8..8 + size];
        ghost var payload := rest[8..8 + size];
        FirstPayload(rest);
        assert data + (payload + Flatten(Frames(rest[8 + size..]).0)) ==
            (data + payload) + Flatten(Frames(rest[8 + size..]).0);
        LinesConcat(data, payload);
        NoteAllConcat(old(last), Lines(data), Lines(buf), parse);
        var more;
        more, partial := Split(buf, parse);
        out := out + more;
        data := data + payload;
        rest := rest[8 + size..];
      }
    }
  }

  lemma OneNote(last: Time, line: seq<byte>, parse: Parser)
    ensures NoteAll(last, [line], parse) ==
              (if Note(last, line, parse).0.Some? then [Note(last, line, parse).0.value] else [],
               Note(last, line, parse).1)
  {
    hide Note;
    var (noted, t) := Note(last, line, parse);
    assert [line][1..] == [] && NoteAll(t, [], parse) == ([], t);
    var first := if noted.Some? then [noted.value] else [];
    assert first + [] == first;
  }

  lemma NoFrame(r: seq<byte>)
    ensures r == [] ==> Frames(r) == ([], Closed)
    ensures 0 < |r| < 8 ==> Frames(r) == ([], Short)
    ensures |r| >= 8 && !(0 < BigEndian(r[4..8]) <= MAX_FRAME) ==> Frames(r) == ([], BadSize(BigEndian(r[4..8])))
    ensures |r| >= 8 && 0 < BigEndian(r[4..8]) <= MAX_FRAME && |r| < 8 + BigEndian(r[4..8]) ==> Frames(r) == ([], Short)
    ensures Flatten([]) == []
  {
    hide BigEndian;
  }

  lemma FirstPayload(r: seq<byte>)
    requires |r| >= 8 && 0 < BigEndian(r[4..8]) <= MAX_FRAME && |r| >= 8 + BigEndian(r[4..8])
    ensures var size := BigEndian(r[4..8]);
            Flatten(Frames(r).0) == r[8..8 + size] + Flatten(Frames(r[8 + size..]).0)
            && Frames(r).1 == Frames(r[8 + size..]).1
  {
    hide BigEndian;
    var size := BigEndian(r[4..8]);
    assert Frames(r).0[1..] == Frames(r[8 + size..]).0;
  }

  /** Frame boundaries do not matter: however the same bytes are divided into frames, and
      wherever the stream breaks after them, the demultiplexed lines and the unterminated
      rest are those of the bytes themselves, which they make up again. */
  lemma {:induction false} FrameBoundariesVanish(frames: seq<Frame>, broken: seq<byte>, data: seq<byte>)
    requires Broken(broken) && forall i :: 0 <= i < |frames| ==> Sendable(frames[i])
    requires Flatten(Payloads(frames)) == data
    ensures Frames(Write(frames) + broken).1 == if broken == [] then Closed else Short
    ensures var read := Flatten(Frames(Write(frames) + broken).0);
            && Lines(read) == Lines(data) && Rest(read) == Rest(data)
            && AreLines(Lines(read)) && NEWLINE !in Rest(read) && Join(Lines(read)) + Rest(read) == data
  {
    FramesUndoWrite(frames, broken);
    LinesJoin(data);
  }

  // ----- Reconnecting -----

  /** The timestamps among the lines passed on, in order. */
  function Stamps(noted: seq<Noted>): seq<Time> {
    if noted == [] then []
    else Stamps(noted[..|noted| - 1]) + if noted[|noted| - 1].stamp.Some? then [noted[|noted| - 1].stamp.value] else []
  }

  /** What a source passes on over any number of connections, each seen as its lines. */
  function Connections(last: Time, conns: seq<seq<seq<byte>>>, parse: Parser): (seq<Noted>, Time) {
    if conns == [] then ([], last)
    else
      var (out, t) := Connections(last, conns[..|conns| - 1], parse);
      var (more, u) := NoteAll(t, conns[|conns| - 1], parse);
      (out + more, u)
  }

  predicate Increasing(times: seq<Time>) {
    forall i, j :: 0 <= i < j < |times| ==> times[i] < times[j]
  }

  /** Timestamps passed on since `start` increase strictly, up to the newest one kept. */
  predicate Ordered(start: Time, out: seq<Noted>, last: Time) {
    var s := Stamps(out);
    Increasing(s) && last == (if s == [] then start else s[|s| - 1]) && start <= last && (s != [] ==> start < s[0])
  }

  lemma OrderedExtends(start: Time, out: seq<Noted>, last: Time, next: Noted)
    requires Ordered(start, out, last) && (next.stamp.Some? ==> last < next.stamp.value)
    ensures Ordered(start, out + [next], if next.stamp.Some? then next.stamp.value else last)
  {
    assert (out + [next])[..|out|] == out;
  }

  lemma {:induction false} NoteAllOrdered(start: Time, before: seq<Noted>, last: Time, lines: seq<seq<byte>>,
                                          parse: Parser)
    requires Ordered(start, before, last)
    ensures Ordered(start, before + NoteAll(last, lines, parse).0, NoteAll(last, lines, parse).1)
    decreases |lines|
  {
    hide Ordered;
    if lines == [] {
      assert before + [] == before;
    } else {
      var (noted, t) := Note(last, lines[0], parse);
      var more := NoteAll(t, lines[1..], parse).0;
      if noted.Some? {
        OrderedExtends(start, before, last, noted.value);
        NoteAllOrdered(start, before + [noted.value], t, lines[1..], parse);
        assert (before + [noted.value]) + more == before + ([noted.value] + more);
      } else {
        NoteAllOrdered(start, before, t, lines[1..], parse);
        assert [] + more == more;
      }
    }
  }

  /** Over all reconnects, whatever each of them reads, the lines passed on with a timestamp
      have strictly increasing timestamps: none is passed on twice. */
  lemma {:induction false} StampsIncrease(conns: seq<seq<seq<byte>>>, parse: Parser)
    ensures var (out, last) := Connections(0, conns, parse); Ordered(0, out, last)
  {
    hide NoteAll;
    if conns != [] {
      StampsIncrease(conns[..|conns| - 1], parse);
      var (out, t) := Connections(0, conns[..|conns| - 1], parse);
      NoteAllOrdered(0, out, t, conns[|conns| - 1], parse);
    }
  }

  /** One line of a container's log as the daemon stamps it. */
  datatype Entry = Entry(prefix: seq<byte>, time: Time, text: seq<byte>) {
    function Line(): seq<byte> { prefix + [SPACE] + text }
  }

  /** A log whose lines are stamped with increasing times, all after the zero time. */
  ghost predicate StampedLog(log: seq<Entry>, parse: Parser) {
    && (forall i :: 0 <= i < |log| ==> log[i].prefix != [] && SPACE !in log[i].prefix && NEWLINE !in log[i].Line())
    && (forall i :: 0 <= i < |log| ==> parse(log[i].prefix) == Some(log[i].time) && log[i].time > 0)
    && (forall i, j :: 0 <= i < j < |log| ==> log[i].time < log[j].time)
  }

  function LogLinesOf(log: seq<Entry>): (lines: seq<seq<byte>>)
    ensures |lines| == |log| && forall i :: 0 <= i < |log| ==> lines[i] == log[i].Line()
  {
    seq(|log|, i requires 0 <= i < |log| => log[i].Line())
  }

  /** What one connection reads: the log from its tail on and part of a line, cut into some
      sequence of frames, and the beginning of the frame in which the stream broke. */
  datatype Read = Read(first: nat, end: nat, cut: seq<byte>, frames: seq<Frame>, broken: seq<byte>)

  predicate FramesOk(r: Read) {
    forall i :: 0 <= i < |r.frames| ==> Sendable(r.frames[i])
  }

  predicate ReadOk(log: seq<Entry>, r: Read) {
    && r.first <= r.end <= |log| && NEWLINE !in r.cut
    && FramesOk(r) && Broken(r.broken)
    && Flatten(Payloads(r.frames)) == Join(LogLinesOf(log[r.first..r.end])) + r.cut
  }

  function AsNoted(log: seq<Entry>): (noted: seq<Noted>)
    ensures |noted| == |log| && forall i :: 0 <= i < |log| ==> noted[i] == Noted(log[i].text, Some(log[i].time))
  {
    seq(|log|, i requires 0 <= i < |log| => Noted(log[i].text, Some(log[i].time)))
  }

  lemma NoteEntry(last: Time, e: Entry, parse: Parser)
    requires e.prefix != [] && SPACE !in e.prefix && parse(e.prefix) == Some(e.time)
    ensures Note(last, e.Line(), parse) ==
              if e.time <= last then (None, last) else (Some(Noted(e.text, Some(e.time))), e.time)
  {
    var line, i := e.Line(), |e.prefix|;
    assert line[..i] == e.prefix && line[i] == SPACE && line[i + 1..] == e.text;
    IndexOfIs(line, SPACE, i);
  }

  /** The first line of a stretch, noted or skipped. */
  lemma StretchFirst(log: seq<Entry>, parse: Parser, last: Time, first: nat, hi: nat)
    requires StampedLog(log, parse) && first < hi <= |log|
    ensures var e, more := log[first], LogLinesOf(log[first + 1..hi]);
            NoteAll(last, LogLinesOf(log[first..hi]), parse) ==
              if e.time <= last then NoteAll(last, more, parse)
              else ([Noted(e.text, Some(e.time))] + NoteAll(e.time, more, parse).0, NoteAll(e.time, more, parse).1)
  {
    var e, lines, more := log[first], LogLinesOf(log[first..hi]), LogLinesOf(log[first + 1..hi]);
    NoteEntry(last, e, parse);
    hide Note, StampedLog;
    assert lines[0] == e.Line() && lines[1..] == more;
    assert [] + NoteAll(last, more, parse).0 == NoteAll(last, more, parse).0;
  }

  lemma NoStretch(log: seq<Entry>, parse: Parser, last: Time, at: nat, next: nat)
    requires at <= |log| && next <= |log|
    ensures NoteAll(last, LogLinesOf(log[at..at]), parse) == (AsNoted(log[next..next]), last)
  {
    assert LogLinesOf(log[at..at]) == [] && AsNoted(log[next..next]) == [];
  }

  /** Reading a stretch of the log that starts at or before the first unread line passes on
      exactly the unread part of it. */
  lemma {:induction false} StretchUnread(log: seq<Entry>, parse: Parser, last: Time, next: nat, first: nat, hi: nat)
    requires StampedLog(log, parse) && first <= next <= |log| && first <= hi <= |log|
    requires forall i :: first <= i < next ==> log[i].time <= last
    requires next < |log| ==> last < log[next].time
    ensures var end := if hi < next then next else hi;
            NoteAll(last, LogLinesOf(log[first..hi]), parse) ==
              (AsNoted(log[next..end]), if end == next then last else log[end - 1].time)
    decreases hi - first
  {
    hide NoteAll, StampedLog, LogLinesOf, AsNoted;
    if first == hi {
      NoStretch(log, parse, last, first, next);
    } else {
      StretchFirst(log, parse, last, first, hi);
      if first < next {
        StretchUnread(log, parse, last, next, first + 1, hi);
      } else {
        LogOrder(log, parse, next + 1);
        StretchUnread(log, parse, log[first].time, next + 1, first + 1, hi);
        AsNotedFirst(log, next, hi);
      }
    }
  }

  lemma AsNotedFirst(log: seq<Entry>, next: nat, end: nat)
    requires next < end <= |log|
    ensures AsNoted(log[next..end]) == [Noted(log[next].text, Some(log[next].time))] + AsNoted(log[next + 1..end])
  {}

  /** What the connections so far have read: the first line any of them read, and the first
      line after it still unread. None while they have read no whole line. */
  datatype Span = Span(start: nat, next: nat)

  function Progress(conns: seq<Read>): Option<Span> {
    if conns == [] then None
    else
      var r, before := conns[|conns| - 1], Progress(conns[..|conns| - 1]);
      if before.Some? then Some(before.value.(next := if r.end < before.value.next then before.value.next else r.end))
      else if r.first < r.end then Some(Span(r.first, r.end))
      else None
  }

  /** Once something was read, each reconnect's tail starts at or before the first line unread
      by then. */
  predicate TailsReachBack(conns: seq<Read>) {
    conns == [] ||
    var before := conns[..|conns| - 1];
    TailsReachBack(before) && (Progress(before).Some? ==> conns[|conns| - 1].first <= Progress(before).value.next)
  }

  /** The lines each connection delivers, out of the raw stream it receives. */
  function Delivered(conns: seq<Read>): seq<seq<seq<byte>>>
    requires forall i :: 0 <= i < |conns| ==> FramesOk(conns[i])
  {
    if conns == [] then [] else Delivered(conns[..|conns| - 1]) + [LinesIn(conns[|conns| - 1])]
  }

  function LinesIn(r: Read): seq<seq<byte>>
    requires FramesOk(r)
  {
    Lines(Flatten(Frames(Write(r.frames) + r.broken).0))
  }

  lemma DeliveredLines(log: seq<Entry>, parse: Parser, r: Read)
    requires StampedLog(log, parse) && ReadOk(log, r)
    ensures LinesIn(r) == LogLinesOf(log[r.first..r.end])
  {
    FramesUndoWrite(r.frames, r.broken);
    JoinLines(LogLinesOf(log[r.first..r.end]), r.cut);
  }

  /** Exactly once: when each reconnect's tail starts at or before the first unread line, all
      the connections together pass on the log from the first line read, without a duplicate
      and without a gap, wherever each connection broke, inside a frame or between two, and
      however its bytes were framed; connections that break before they read a whole line
      change nothing. */
  lemma {:induction false} ExactlyOnce(log: seq<Entry>, parse: Parser, conns: seq<Read>)
    requires StampedLog(log, parse) && TailsReachBack(conns)
    requires forall i :: 0 <= i < |conns| ==> FramesOk(conns[i]) && ReadOk(log, conns[i])
    ensures match Progress(conns)
            case None => Connections(0, Delivered(conns), parse) == ([], 0)
            case Some(Span(start, end)) =>
              && start < end <= |log|
              && Connections(0, Delivered(conns), parse) == (AsNoted(log[start..end]), log[end - 1].time)
  {
    hide LinesIn, AsNoted, StampedLog, ReadOk, FramesOk, NoteAll, Connections, Broken, Frames;
    if conns == [] {
      NoConnections(parse);
    } else {
      var before, r := conns[..|conns| - 1], conns[|conns| - 1];
      AppendConnection(Delivered(before), LinesIn(r), parse);
      assert Delivered(conns) == Delivered(before) + [LinesIn(r)];
      hide Delivered;
      ExactlyOnce(log, parse, before);
      if Progress(before).None? {
        FirstConnection(log, parse, r);
        assert [] + AsNoted(log[r.first..r.end]) == AsNoted(log[r.first..r.end]);
      } else {
        var Span(start, next) := Progress(before).value;
        NextConnection(log, parse, next, r);
        AsNotedSplits(log, start, next, Progress(conns).value.next);
      }
    }
  }

  lemma FirstConnection(log: seq<Entry>, parse: Parser, r: Read)
    requires StampedLog(log, parse) && FramesOk(r) && ReadOk(log, r)
    ensures r.first <= r.end <= |log|
    ensures NoteAll(0, LinesIn(r), parse) ==
              (AsNoted(log[r.first..r.end]), if r.first < r.end then log[r.end - 1].time else 0)
    ensures r.first == r.end ==> AsNoted(log[r.first..r.end]) == []
  {
    hide NoteAll, LinesIn, LogLinesOf, StampedLog;
    DeliveredLines(log, parse, r);
    LogStart(log, parse, r.first);
    StretchUnread(log, parse, 0, r.first, r.first, r.end);
  }

  lemma NextConnection(log: seq<Entry>, parse: Parser, next: nat, r: Read)
    requires StampedLog(log, parse) && FramesOk(r) && ReadOk(log, r) && 0 < next <= |log| && r.first <= next
    ensures var end := if r.end < next then next else r.end;
            && end <= |log|
            && NoteAll(log[next - 1].time, LinesIn(r), parse) == (AsNoted(log[next..end]), log[end - 1].time)
  {
    hide NoteAll, LinesIn, LogLinesOf, AsNoted, StampedLog;
    DeliveredLines(log, parse, r);
    LogOrder(log, parse, next);
    StretchUnread(log, parse, log[next - 1].time, next, r.first, r.end);
  }

  lemma NoConnections(parse: Parser)
    ensures Connections(0, [], parse) == ([], 0)
  {}

  lemma AppendConnection(conns: seq<seq<seq<byte>>>, next: seq<seq<byte>>, parse: Parser)
    ensures var (out, t) := Connections(0, conns, parse);
            var (more, u) := NoteAll(t, next, parse);
            Connections(0, conns + [next], parse) == (out + more, u)
  {
    hide NoteAll;
    assert (conns + [next])[..|conns|] == conns;
  }

  lemma LogStart(log: seq<Entry>, parse: Parser, start: nat)
    requires StampedLog(log, parse)
    ensures start < |log| ==> 0 < log[start].time
  {}

  lemma LogOrder(log: seq<Entry>, parse: Parser, next: nat)
    requires StampedLog(log, parse) && 0 < next <= |log|
    ensures forall i :: 0 <= i < next ==> log[i].time <= log[next - 1].time
    ensures next < |log| ==> log[next - 1].time < log[next].time
  {}

  lemma AsNotedSplits(log: seq<Entry>, start: nat, next: nat, end: nat)
    requires start <= next <= end <= |log|
    ensures AsNoted(log[start..next]) + AsNoted(log[next..end]) == AsNoted(log[start..end])
  {}
}
