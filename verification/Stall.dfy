/** The stalled-chain alarm: blocks, endpoints lost and found, reloads and watch ticks, in any
    interleaving. */
module Stall {
  import Alerts
  import opened Clocks
  import Texts
  import opened Words

  const MAX_DURATION: Duration := 0x7FFF_FFFF_FFFF_FFFF
  const MIN_DURATION: Duration := -0x8000_0000_0000_0000

  /** Subtracting times saturates at the ends of the 64-bit range. */
  function Sub(t: Time, u: Time): Duration {
    if t - u > MAX_DURATION then MAX_DURATION else if t - u < MIN_DURATION then MIN_DURATION else t - u
  }

  datatype State = State(
    nodes: seq<string>, chainID: string, lastBlockTime: Time, backAt: Time, noNodes: bool, noNodesSince: Time,
    stallAlarm: bool, stallKey: string)

  function New(nodes: seq<string>, chainID: string): State {
    State(nodes, chainID, 0, 0, false, 0, false, "")
  }

  /** What a stall can be blamed on: the chain, or the only endpoint there is. */
  function Scope(nodes: seq<string>, chainID: string): string {
    if |nodes| == 1 then "node-stalled:" + nodes[0] else "stalled:" + chainID
  }

  /** The kind and target of a stall alert: the node when it is the only endpoint, else the
      chain. */
  lemma ScopeSplits(nodes: seq<string>, chainID: string)
    ensures Alerts.SplitKey(Scope(nodes, chainID)) ==
              if |nodes| == 1 then ("node-stalled", nodes[0]) else ("stalled", chainID)
  {
    hide Alerts.SplitKey;
    var kind := if |nodes| == 1 then "node-stalled" else "stalled";
    var target := if |nodes| == 1 then nodes[0] else chainID;
    var key, r := Scope(nodes, chainID), Alerts.SplitKey(Scope(nodes, chainID));
    assert key == kind + ":" + target && key[|kind|] == ':';
    Texts.CutUnique(':', kind, target, r.0, r.1);
  }

  function StallAge(s: State, now: Time): Duration {
    var age, back := Sub(now, s.lastBlockTime), Sub(now, s.backAt);
    if back < age then back else age
  }

  /** The configured minutes as a duration, in 64-bit arithmetic. */
  function Limit(minutes: int64): Duration {
    Wrap(minutes * MINUTE)
  }

  /** A limit is never the longest duration, at which saturated subtraction would hide a stall. */
  lemma LimitIsShorter(minutes: int64)
    ensures MIN_DURATION <= Limit(minutes) < MAX_DURATION
  {
    WrapKeeps(minutes * 30_000_000_000);
    assert minutes * MINUTE == 2 * (minutes * 30_000_000_000);
    assert MAX_DURATION % 2 == 1;
  }

  /** It is the minutes in nanoseconds up to 292 years, and wraps round beyond. */
  lemma LimitMeans(minutes: int64)
    ensures -153_722_867 <= minutes <= 153_722_867 ==> Limit(minutes) == minutes * 60_000_000_000
    ensures minutes == 153_722_868 ==> Limit(minutes) < 0
  {}

  predicate Stalled(s: State, minutes: int64, now: Time) {
    s.lastBlockTime != 0 && StallAge(s, now) > Limit(minutes)
  }

  datatype Page = Page(raised: bool, key: string)

  function OnBlock(s: State, now: Time): State {
    s.(lastBlockTime := now)
  }

  function SetNoNodes(s: State, v: bool, now: Time): State {
    s.(noNodes := v,
       noNodesSince := if v && !s.noNodes then now else s.noNodesSince,
       backAt := if !v && s.noNodes then now else s.backAt)
  }

  function OnProbe(s: State, anyUp: bool, now: Time): State {
    s.(noNodes := !anyUp, backAt := if s.noNodes && anyUp then now else s.backAt)
  }

  function OnTick(s: State, enabled: bool, minutes: int64, hasOpen: string -> bool, now: Time): (seq<Page>, State) {
    if !enabled then ([], s)
    else
      var t := if s.stallAlarm then s else s.(stallKey := Scope(s.nodes, s.chainID));
      if Stalled(t, minutes, now) && !t.stallAlarm && !t.noNodes then
        ([Page(true, t.stallKey)], t.(stallAlarm := true))
      else if !Stalled(t, minutes, now) && (t.stallAlarm || hasOpen(t.stallKey)) && t.lastBlockTime != 0 then
        ([Page(false, t.stallKey)], t.(stallAlarm := false))
      else ([], t)
  }

  class Chain {
    var nodes: seq<string>
    var chainID: string
    var lastBlockTime: Time
    var backAt: Time
    var noNodes: bool
    var noNodesSince: Time
    var stallAlarm: bool
    var stallKey: string

    function S(): State
      reads this
    {
      State(nodes, chainID, lastBlockTime, backAt, noNodes, noNodesSince, stallAlarm, stallKey)
    }

    constructor (nodes: seq<string>, chainID: string)
      ensures S() == New(nodes, chainID)
    {
      this.nodes, this.chainID := nodes, chainID;
      lastBlockTime, backAt, noNodes, noNodesSince, stallAlarm, stallKey := 0, 0, false, 0, false, "";
    }

    method SeeBlock(now: Time)
      modifies this
      ensures S() == OnBlock(old(S()), now)
    {
      lastBlockTime := now;
    }

    /** The dialer's verdict on whether any endpoint works. */
    method MarkNoNodes(v: bool, now: Time)
      modifies this
      ensures S() == SetNoNodes(old(S()), v, now)
    {
      if v && !noNodes {
        noNodesSince := now;
      }
      if !v && noNodes {
        backAt := now;
      }
      noNodes := v;
    }

    /** The prober's verdict. */
    method FinishProbe(anyUp: bool, now: Time)
      modifies this
      ensures S() == OnProbe(old(S()), anyUp, now)
    {
      if noNodes && anyUp {
        backAt := now;
      }
      noNodes := !anyUp;
    }

    /** Reloading, first section: the nodes are rebuilt, the stall state is left alone. */
    method Rebuild(nodes: seq<string>)
      modifies this
      ensures S() == old(S()).(nodes := nodes)
    {
      this.nodes := nodes;
    }

    /** Reloading, second section. */
    method SwapConfig(chainID: string)
      modifies this
      ensures S() == old(S()).(chainID := chainID)
    {
      this.chainID := chainID;
    }

    /** The stalled-chain section of one watch tick. */
    method CheckStall(enabled: bool, minutes: int64, hasOpen: string -> bool, now: Time) returns (pages: seq<Page>)
      modifies this
      ensures (pages, S()) == OnTick(old(S()), enabled, minutes, hasOpen, now)
    {
      pages := [];
      if !enabled {
        return;
      }
      var stallFor := Sub(now, lastBlockTime);
      if Sub(now, backAt) < stallFor {
        stallFor := Sub(now, backAt);
      }
      var stalled := lastBlockTime != 0 && stallFor > Limit(minutes);
      if !stallAlarm {
        stallKey := Scope(nodes, chainID);
      }
      if stalled && !stallAlarm && !noNodes {
        stallAlarm := true;
        pages := [Page(true, stallKey)];
      } else if !stalled && (stallAlarm || hasOpen(stallKey)) && lastBlockTime != 0 {
        stallAlarm := false;
        pages := [Page(false, stallKey)];
      }
    }
  }

  // ----- Every run -----

  datatype Event =
    | Block(at: Time)
    | Dialed(failed: bool, at: Time)
    | Probed(anyUp: bool, at: Time)
    | Rebuilt(nodes: seq<string>, at: Time)
    | Swapped(chainID: string, at: Time)
    | Ticked(enabled: bool, minutes: int64, hasOpen: string -> bool, at: Time)

  function Step(s: State, e: Event): (seq<Page>, State) {
    match e
    case Block(at) => ([], OnBlock(s, at))
    case Dialed(failed, at) => ([], SetNoNodes(s, failed, at))
    case Probed(anyUp, at) => ([], OnProbe(s, anyUp, at))
    case Rebuilt(nodes, _) => ([], s.(nodes := nodes))
    case Swapped(chainID, _) => ([], s.(chainID := chainID))
    case Ticked(enabled, minutes, hasOpen, at) => OnTick(s, enabled, minutes, hasOpen, at)
  }

  function Run(start: State, events: seq<Event>): (seq<Page>, State) {
    if events == [] then ([], start)
    else
      var (pages, s) := Run(start, events[..|events| - 1]);
      var (more, t) := Step(s, events[|events| - 1]);
      (pages + more, t)
  }

  /** What the last verdict on the endpoints said: none works. */
  predicate Blind(events: seq<Event>) {
    events != [] &&
    match events[|events| - 1]
    case Dialed(failed, _) => failed
    case Probed(anyUp, _) => !anyUp
    case _ => Blind(events[..|events| - 1])
  }

  /** The signs of life, a block, and an endpoint answering after none did; and the dialer
      finding that none does any more. */
  datatype Sign = NewBlock | BackUp | Lost

  /** The last event shows a sign. */
  predicate ShowsLast(events: seq<Event>, sign: Sign)
    requires events != []
  {
    match sign
    case NewBlock => events[|events| - 1].Block?
    case BackUp => Blind(events[..|events| - 1]) && !Blind(events)
    case Lost => events[|events| - 1].Dialed? && !Blind(events[..|events| - 1]) && Blind(events)
  }

  predicate Shows(events: seq<Event>, i: nat, sign: Sign)
    requires i < |events|
  {
    ShowsLast(events[..i + 1], sign)
  }

  /** When a sign was last shown, 0 if never. */
  function Last(events: seq<Event>, sign: Sign): Time {
    if events == [] then 0
    else if ShowsLast(events, sign) then events[|events| - 1].at
    else Last(events[..|events| - 1], sign)
  }

  predicate InOrder(events: seq<Event>, now: Time) {
    && (forall i, j :: 0 <= i < j < |events| ==> events[i].at <= events[j].at)
    && forall i :: 0 <= i < |events| ==> 0 < events[i].at <= now
  }

  /** Every time a sign was shown is longer ago than the limit. */
  predicate LongAgo(events: seq<Event>, sign: Sign, limit: Duration, now: Time) {
    forall i: nat :: i < |events| && Shows(events, i, sign) ==> now - events[i].at > limit
  }

  /** The state is a function of the history: the last block, the last time an endpoint came
      back, whether any works, and since when the dialer knows that none does. Reloads and
      ticks leave them alone. */
  lemma {:induction false} StateIsHistory(nodes: seq<string>, chainID: string, events: seq<Event>)
    ensures var s := Run(New(nodes, chainID), events).1;
            && s.noNodes == Blind(events) && s.noNodesSince == Last(events, Lost)
            && s.lastBlockTime == Last(events, NewBlock) && s.backAt == Last(events, BackUp)
  {
    hide Stalled, Scope;
    if events != [] {
      StateIsHistory(nodes, chainID, events[..|events| - 1]);
    }
  }

  lemma ShowsBefore(events: seq<Event>, i: nat, sign: Sign)
    requires i + 1 < |events|
    ensures Shows(events[..|events| - 1], i, sign) == Shows(events, i, sign)
  {
    assert events[..|events| - 1][..i + 1] == events[..i + 1];
  }

  /** With a clock that does not run backwards, comparing the last time a sign was shown with
      the limit compares all of them. */
  lemma {:induction false} LastDecides(events: seq<Event>, sign: Sign, limit: Duration, now: Time)
    requires InOrder(events, now)
    ensures LongAgo(events, sign, limit, now) <==> (Last(events, sign) == 0 || now - Last(events, sign) > limit)
    ensures Last(events, sign) == 0 <==> forall i: nat :: i < |events| ==> !Shows(events, i, sign)
    ensures Last(events, sign) >= 0
    ensures events != [] ==> Last(events, sign) <= events[|events| - 1].at
  {
    hide ShowsLast;
    if events != [] {
      var before := events[..|events| - 1];
      assert before != [] ==> before[|before| - 1] == events[|before| - 1];
      LastDecides(before, sign, limit, now);
      assert Shows(events, |before|, sign) == ShowsLast(events, sign) by { assert events[..|before| + 1] == events; }
      forall i: nat | i < |before|
        ensures Shows(events, i, sign) == Shows(before, i, sign) && events[i] == before[i]
      {
        ShowsBefore(events, i, sign);
      }
    }
  }

  /** For every clock and every configured limit: a tick raises a stall exactly when the check
      is on, no stall is open, an endpoint works, a block has been seen, and the last block
      and the last return of an endpoint are longer ago than the limit. */
  lemma {:induction false} RaiseIffLastSigns(nodes: seq<string>, chainID: string, events: seq<Event>, minutes: int64,
                                             hasOpen: string -> bool, enabled: bool, now: Time)
    ensures var s := Run(New(nodes, chainID), events).1;
            OnTick(s, enabled, minutes, hasOpen, now).0 == [Page(true, Scope(s.nodes, s.chainID))] <==>
              && enabled && !s.stallAlarm && !Blind(events) && Last(events, NewBlock) != 0
              && now - Last(events, NewBlock) > Limit(minutes) && now - Last(events, BackUp) > Limit(minutes)
  {
    StateIsHistory(nodes, chainID, events);
    var s := Run(New(nodes, chainID), events).1;
    StalledMeans(s, minutes, now);
    TickRaises(s, enabled, minutes, hasOpen, now);
    hide *;
  }

  /** With a clock that does not run backwards, as a process's own clock does not: a tick
      raises a stall exactly when the check is on, no stall is open, an endpoint works, a
      block has been seen, and every sign of life is longer ago than the limit. */
  lemma {:induction false} RaiseIffSilent(nodes: seq<string>, chainID: string, events: seq<Event>, minutes: int64,
                                          hasOpen: string -> bool, enabled: bool, now: Time)
    requires InOrder(events, now)
    ensures var s := Run(New(nodes, chainID), events).1;
            OnTick(s, enabled, minutes, hasOpen, now).0 == [Page(true, Scope(s.nodes, s.chainID))] <==>
              && enabled && !s.stallAlarm && !Blind(events)
              && (exists i: nat :: i < |events| && Shows(events, i, NewBlock))
              && LongAgo(events, NewBlock, Limit(minutes), now) && LongAgo(events, BackUp, Limit(minutes), now)
  {
    RaiseIffLastSigns(nodes, chainID, events, minutes, hasOpen, enabled, now);
    LastDecides(events, NewBlock, Limit(minutes), now);
    LastDecides(events, BackUp, Limit(minutes), now);
    hide *;
  }

  lemma TickRaises(s: State, enabled: bool, minutes: int64, hasOpen: string -> bool, now: Time)
    ensures OnTick(s, enabled, minutes, hasOpen, now).0 == [Page(true, Scope(s.nodes, s.chainID))] <==>
              enabled && !s.stallAlarm && !s.noNodes && Stalled(s, minutes, now)
  {
    hide Scope;
  }

  /** A tick pages a resolve exactly when the check is on, a stall is open, by the latch or at
      some destination, a block has been seen, and the last block or the last return of an
      endpoint is no longer ago than the limit. The page closes the stall's own key. */
  lemma {:induction false} ResolveIffLastSigns(nodes: seq<string>, chainID: string, events: seq<Event>, minutes: int64,
                                               hasOpen: string -> bool, enabled: bool, now: Time)
    ensures var s := Run(New(nodes, chainID), events).1;
            var key := if s.stallAlarm then s.stallKey else Scope(s.nodes, s.chainID);
            OnTick(s, enabled, minutes, hasOpen, now).0 == [Page(false, key)] <==>
              && enabled && (s.stallAlarm || hasOpen(key)) && Last(events, NewBlock) != 0
              && (now - Last(events, NewBlock) <= Limit(minutes) || now - Last(events, BackUp) <= Limit(minutes))
  {
    StateIsHistory(nodes, chainID, events);
    var s := Run(New(nodes, chainID), events).1;
    StalledMeans(s, minutes, now);
    TickResolves(s, enabled, minutes, hasOpen, now);
    hide *;
  }

  lemma TickResolves(s: State, enabled: bool, minutes: int64, hasOpen: string -> bool, now: Time)
    ensures var key := if s.stallAlarm then s.stallKey else Scope(s.nodes, s.chainID);
            OnTick(s, enabled, minutes, hasOpen, now).0 == [Page(false, key)] <==>
              enabled && (s.stallAlarm || hasOpen(key)) && s.lastBlockTime != 0 && !Stalled(s, minutes, now)
  {
    hide Scope;
  }

  /** Any other tick pages nothing but a raise. */
  lemma TickPages(s: State, enabled: bool, minutes: int64, hasOpen: string -> bool, now: Time)
    ensures var pages := OnTick(s, enabled, minutes, hasOpen, now).0;
            var key := if s.stallAlarm then s.stallKey else Scope(s.nodes, s.chainID);
            pages == [] || pages == [Page(false, key)] || (pages == [Page(true, key)] && !s.stallAlarm)
  {
    hide Scope, Stalled;
  }

  /** The stall condition without saturation. */
  lemma StalledMeans(s: State, minutes: int64, now: Time)
    ensures Stalled(s, minutes, now) <==>
              s.lastBlockTime != 0 && now - s.lastBlockTime > Limit(minutes) && now - s.backAt > Limit(minutes)
  {
    LimitIsShorter(minutes);
    hide Limit;
  }

  /** Over every run, whatever is reloaded in between: the latch is on exactly when the last
      page is a raise, under that page's key, and the page after a raise is a resolve with
      the same key. */
  lemma {:induction false} ResolveMatchesRaise(nodes: seq<string>, chainID: string, events: seq<Event>)
    ensures var (pages, s) := Run(New(nodes, chainID), events);
            && (s.stallAlarm <==> pages != [] && pages[|pages| - 1].raised)
            && (s.stallAlarm ==> s.stallKey == pages[|pages| - 1].key)
            && forall i :: 0 <= i < |pages| - 1 && pages[i].raised ==> pages[i + 1] == Page(false, pages[i].key)
  {
    hide Stalled, Scope;
    if events != [] {
      ResolveMatchesRaise(nodes, chainID, events[..|events| - 1]);
    }
  }
}
