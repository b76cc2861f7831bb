/** Log alert rules: fire when enough lines match within a window, then stay quiet for a
    cooldown. The window is compacted in place. */
module Rules {
  import opened Clocks

  /** The times not before `cut`. */
  function Since(times: seq<Time>, cut: Time): seq<Time> {
    if times == [] then []
    else Since(times[..|times| - 1], cut) + if times[|times| - 1] >= cut then [times[|times| - 1]] else []
  }

  datatype State = State(hits: seq<Time>, lastAlert: Time)

  datatype Limits = Limits(count: int, window: Duration, cooldown: Duration)

  /** One matching line: whether the rule fires, and what it keeps. */
  function Hit(s: State, l: Limits, now: Time): (bool, State) {
    var hits := Since(s.hits + [now], now - l.window);
    if |hits| < l.count || (s.lastAlert != 0 && now - s.lastAlert < l.cooldown) then (false, s.(hits := hits))
    else (true, State(hits, now))
  }

  class Rule {
    const count: int
    const window: Duration
    const cooldown: Duration
    var buffer: array<Time>   // the first `len` elements are the hits
    var len: nat
    var lastAlert: Time

    constructor (count: int, window: Duration, cooldown: Duration)
      ensures Valid() && fresh(buffer) && S() == State([], 0) && L() == Limits(count, window, cooldown)
    {
      this.count, this.window, this.cooldown := count, window, cooldown;
      buffer := new Time[0];
      len, lastAlert := 0, 0;
    }

    ghost predicate Valid()
      reads this
    {
      len <= buffer.Length
    }

    function L(): Limits {
      Limits(count, window, cooldown)
    }

    ghost function S(): State
      requires Valid()
      reads this, buffer
    {
      State(buffer[..len], lastAlert)
    }

    /** Appends to the hits; a full buffer moves to a larger one. */
    method Append(now: Time)
      requires Valid()
      modifies this, buffer
      ensures Valid() && (buffer == old(buffer) || fresh(buffer)) && lastAlert == old(lastAlert)
      ensures buffer[..len] == old(buffer[..len]) + [now]
    {
      if len == buffer.Length {
        var larger := new Time[2 * len + 1];
        for i := 0 to len
          invariant unchanged(this) && unchanged(buffer) && larger.Length == 2 * len + 1
          invariant larger[..i] == buffer[..i]
        {
          larger[i] := buffer[i];
        }
        buffer := larger;
      }
      buffer[len] := now;
      len := len + 1;
    }

    /** Drops the hits before `cut`, moving the others to the front of the same buffer. */
    method Compact(cut: Time)
      requires Valid()
      modifies this`len, buffer
      ensures Valid() && buffer[..len] == Since(old(buffer[..len]), cut)
    {
      ghost var before := buffer[..len];
      var kept := 0;
      for i := 0 to len
        invariant kept <= i && unchanged(this)
        invariant buffer[..kept] == Since(before[..i], cut)
        invariant buffer[i..len] == before[i..]
      {
        assert before[..i + 1][..i] == before[..i];
        assert buffer[i] == buffer[i..len][0] == before[i];
        ghost var later := buffer[i..len];
        var t := buffer[i];
        if t >= cut {
          buffer[kept] := t;
          kept := kept + 1;
        }
        assert buffer[i + 1..len] == later[1..];
      }
      assert before[..len] == before;
      len := kept;
    }

    method Match(now: Time) returns (fires: bool)
      requires Valid()
      modifies this, buffer
      ensures Valid() && (buffer == old(buffer) || fresh(buffer))
      ensures (fires, S()) == Hit(old(S()), L(), now)
    {
      Append(now);
      Compact(now - window);
      if len < count {
        return false;
      }
      if lastAlert != 0 && now - lastAlert < cooldown {
        return false;
      }
      lastAlert := now;
      return true;
    }
  }

  // ----- Every run -----

  /** The state after a history of hits, and the times the rule fired. */
  function Run(l: Limits, times: seq<Time>): (State, seq<Time>) {
    if times == [] then (State([], 0), [])
    else
      var (s, fired) := Run(l, times[..|times| - 1]);
      var (fires, t) := Hit(s, l, times[|times| - 1]);
      (t, if fires then fired + [times[|times| - 1]] else fired)
  }

  predicate InOrder(times: seq<Time>) {
    && (forall i, j :: 0 <= i < j < |times| ==> times[i] <= times[j])
    && forall i :: 0 <= i < |times| ==> times[i] > 0
  }

  lemma SinceAppend(times: seq<Time>, now: Time, cut: Time)
    ensures Since(times + [now], cut) == Since(times, cut) + if now >= cut then [now] else []
  {
    assert (times + [now])[..|times|] == times;
  }

  lemma {:induction false} SinceSince(times: seq<Time>, earlier: Time, later: Time)
    requires earlier <= later
    ensures Since(Since(times, earlier), later) == Since(times, later)
  {
    if times != [] {
      var before, last := times[..|times| - 1], times[|times| - 1];
      SinceSince(before, earlier, later);
      if last >= earlier {
        SinceAppend(Since(before, earlier), last, later);
      } else {
        assert Since(times, earlier) == Since(before, earlier) && Since(times, later) == Since(before, later);
      }
    }
  }

  /** The times before position k are before the cut, and all from k on are not. */
  predicate CutsAt(times: seq<Time>, cut: Time, k: nat) {
    && k <= |times|
    && (forall i :: 0 <= i < k ==> times[i] < cut)
    && (forall i :: k <= i < |times| ==> times[i] >= cut)
  }

  /** Of times in order, those since a cut are all from the first that is not before it. */
  lemma {:induction false} SinceIsSuffix(times: seq<Time>, cut: Time)
    requires InOrder(times)
    ensures exists k: nat :: CutsAt(times, cut, k) && Since(times, cut) == times[k..]
  {
    if times == [] {
      assert CutsAt(times, cut, 0) && times[0..] == [];
    } else {
      var before, last := times[..|times| - 1], times[|times| - 1];
      SinceIsSuffix(before, cut);
      var k: nat :| CutsAt(before, cut, k) && Since(before, cut) == before[k..];
      assert times == before + [last];
      SuffixExtends(before, last, cut, k);
    }
  }

  lemma SuffixExtends(times: seq<Time>, last: Time, cut: Time, k: nat)
    requires CutsAt(times, cut, k) && Since(times, cut) == times[k..] && InOrder(times + [last])
    ensures var all := times + [last];
            exists k: nat :: CutsAt(all, cut, k) && Since(all, cut) == all[k..]
  {
    var all := times + [last];
    SinceAppend(times, last, cut);
    hide Since;
    assert forall i :: 0 <= i < |times| ==> times[i] == all[i] <= all[|times|];
    assert k < |times| ==> times[k] <= last;
    if last >= cut {
      assert CutsAt(all, cut, k) && all[k..] == times[k..] + [last];
    } else {
      assert CutsAt(all, cut, k + 1) && all[k + 1..] == times[k..] + [];
    }
  }

  /** Forgetting hits that have left the window never matters for a later window. */
  lemma SinceTwice(times: seq<Time>, now: Time, earlier: Time, later: Time)
    requires earlier <= later
    ensures Since(Since(times, earlier) + [now], later) == Since(times + [now], later)
  {
    SinceAppend(times, now, later);
    SinceAppend(Since(times, earlier), now, later);
    SinceSince(times, earlier, later);
  }

  function LastOf(times: seq<Time>): Time {
    if times == [] then 0 else times[|times| - 1]
  }

  /** The state of a rule holds what its history says. */
  predicate Holds(l: Limits, times: seq<Time>, s: State, fired: seq<Time>) {
    && s.hits == (if times == [] then [] else Since(times, LastOf(times) - l.window))
    && s.lastAlert == LastOf(fired)
    && InOrder(fired) && LastOf(fired) <= LastOf(times)
  }

  /** The next hit in time order sees the full history cut to the window. */
  lemma NextWindow(l: Limits, times: seq<Time>, s: State, fired: seq<Time>, now: Time)
    requires Holds(l, times, s, fired) && LastOf(times) <= now
    ensures Since(s.hits + [now], now - l.window) == Since(times + [now], now - l.window)
  {
    hide Since;
    if times != [] {
      SinceTwice(times, now, LastOf(times) - l.window, now - l.window);
    }
  }

  /** For calls in time order, the compacted hits are the full history cut to the window, and
      `lastAlert` is the last firing. */
  lemma {:induction false} WindowIsHistory(l: Limits, times: seq<Time>)
    requires InOrder(times)
    ensures Holds(l, times, Run(l, times).0, Run(l, times).1)
  {
    hide Since;
    if times != [] {
      var before, now := times[..|times| - 1], times[|times| - 1];
      WindowIsHistory(l, before);
      var (s, fired) := Run(l, before);
      NextWindow(l, before, s, fired, now);
      assert before + [now] == times;
    }
  }

  /** No firing is younger than the cooldown. */
  predicate Quiet(fired: seq<Time>, cooldown: Duration, now: Time) {
    forall i :: 0 <= i < |fired| ==> now - fired[i] >= cooldown
  }

  lemma QuietIsLast(fired: seq<Time>, cooldown: Duration, now: Time)
    requires InOrder(fired)
    ensures Quiet(fired, cooldown, now) <==> (LastOf(fired) == 0 || now - LastOf(fired) >= cooldown)
  {}

  lemma HitIff(l: Limits, times: seq<Time>, s: State, fired: seq<Time>, now: Time)
    requires Holds(l, times, s, fired) && LastOf(times) <= now
    ensures Hit(s, l, now).0 <==> |Since(times + [now], now - l.window)| >= l.count && Quiet(fired, l.cooldown, now)
  {
    NextWindow(l, times, s, fired, now);
    QuietIsLast(fired, l.cooldown, now);
    hide Since, Quiet, LastOf;
  }

  /** The rule fires exactly when the window holds enough hits of the full history and no
      firing is younger than the cooldown. */
  lemma FiresIff(l: Limits, times: seq<Time>, now: Time)
    requires InOrder(times) && LastOf(times) <= now
    ensures var (s, fired) := Run(l, times);
            Hit(s, l, now).0 <==> |Since(times + [now], now - l.window)| >= l.count && Quiet(fired, l.cooldown, now)
  {
    WindowIsHistory(l, times);
    HitIff(l, times, Run(l, times).0, Run(l, times).1, now);
    hide *;
  }

  /** Firings are at least a cooldown apart. */
  lemma {:induction false} FiringsApart(l: Limits, times: seq<Time>)
    requires InOrder(times)
    ensures var fired := Run(l, times).1;
            forall i, j :: 0 <= i < j < |fired| ==> fired[j] - fired[i] >= l.cooldown
  {
    if times != [] {
      var before, now := times[..|times| - 1], times[|times| - 1];
      FiringsApart(l, before);
      FiresIff(l, before, now);
      hide Hit, Since;
    }
  }
}
