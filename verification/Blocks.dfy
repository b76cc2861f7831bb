/** Counting signed and missed blocks per validator, from blocks and votes in any order. */
module Blocks {
  import opened BlockEvents
  import opened Clocks
  import opened Options
  import opened Votes
  import opened Words

  datatype ValInfo = ValInfo(consHex: string, bonded: bool)

  datatype Counters = Counters(signs: nat, props: nat, miss: nat, pvMiss: nat, pcMiss: nat, consec: nat)

  const ZERO := Counters(0, 0, 0, 0, 0, 0)

  /** The height a block's signatures attest to, in 64-bit arithmetic. */
  function SignedHeight(b: BlockEvent): int64 {
    if b.commitHeight > 0 then b.commitHeight else Wrap(b.height - 1)
  }

  function BlockSays(b: BlockEvent, addr: string): (s: SignState)
    ensures s >= MISSED
  {
    if b.proposer == addr then PROPOSED else if SignedBy(b.signatures, addr) then SIGNED else MISSED
  }

  function VoteState(kind: int): SignState {
    if kind == 1 then PREVOTE else if kind == 2 then PRECOMMIT else if kind == 32 then PROPOSED else UNKNOWN
  }

  method Classify(b: BlockEvent, addr: string, vt: VoteTracker) returns (state: SignState, ratio: real)
    modifies vt
    ensures (state, vt.pending) == Resolve(old(vt.pending), SignedHeight(b), BlockSays(b, addr))
    ensures ratio == Ratio(b.signatures)
  {
    var signed;
    signed, ratio := Signed(b, addr);
    var blockSays: SignState;
    if b.proposer == addr {
      blockSays := PROPOSED;
    } else if signed {
      blockSays := SIGNED;
    } else {
      blockSays := MISSED;
    }
    var signedHeight := Wrap(b.height - 1);
    if b.commitHeight > 0 {
      signedHeight := b.commitHeight;
    }
    state := vt.Finalize(signedHeight, blockSays);
  }

  // ----- One validator -----

  function Count(c: Counters, st: SignState): Counters {
    if st == MISSED then c.(miss := c.miss + 1, consec := c.consec + 1)
    else if st == PREVOTE then c.(pvMiss := c.pvMiss + 1, miss := c.miss + 1, consec := c.consec + 1)
    else if st == PRECOMMIT then c.(pcMiss := c.pcMiss + 1, miss := c.miss + 1, consec := c.consec + 1)
    else if st == SIGNED then c.(signs := c.signs + 1, consec := 0)
    else if st == PROPOSED then c.(props := c.props + 1, signs := c.signs + 1, consec := 0)
    else c
  }

  /** What is kept of one watched validator. */
  datatype TargetState = TargetState(info: Option<ValInfo>, pending: Pending, counters: Counters, missedAlarm: bool)

  const NEW_TARGET := TargetState(None, map[], ZERO, false)

  predicate Watched(s: TargetState) {
    s.info.Some? && s.info.value.consHex != ""
  }

  /** The classification a block gets, and the tracker after it. */
  function Classified(s: TargetState, b: BlockEvent): (SignState, Pending)
    requires s.info.Some?
  {
    Resolve(s.pending, SignedHeight(b), BlockSays(b, s.info.value.consHex))
  }

  /** An unbonded validator's block is recorded as unknown, and not counted. */
  function OnBlock(s: TargetState, b: BlockEvent): TargetState {
    if !Watched(s) then s
    else
      var (st, p) := Classified(s, b);
      s.(pending := p, counters := Count(s.counters, if s.info.value.bonded then st else UNKNOWN))
  }

  function OnVote(s: TargetState, height: int64, st: SignState): TargetState {
    s.(pending := Observe(s.pending, height, st))
  }

  datatype Page = Raised | Cleared

  /** The consecutive-miss section of one watch tick: the pages it sends and the latch.
      `hasOpen` says whether the engine holds an open alert for it. */
  function OnTick(s: TargetState, enabled: bool, threshold: int, hasOpen: bool): (seq<Page>, TargetState) {
    if !enabled || s.info.None? then ([], s)
    else if !s.missedAlarm && s.counters.consec >= threshold && threshold > 0 then ([Raised], s.(missedAlarm := true))
    else if s.counters.consec < threshold && (s.missedAlarm || hasOpen) then ([Cleared], s.(missedAlarm := false))
    else ([], s)
  }

  class Target {
    var info: Option<ValInfo>
    const vt: VoteTracker
    var signs: nat
    var props: nat
    var miss: nat
    var pvMiss: nat
    var pcMiss: nat
    var consec: nat
    var missedAlarm: bool

    constructor ()
      ensures S() == NEW_TARGET && fresh(vt)
    {
      info := None;
      vt := new VoteTracker();
      signs, props, miss, pvMiss, pcMiss, consec, missedAlarm := 0, 0, 0, 0, 0, 0, false;
    }

    function S(): TargetState
      reads this, vt
    {
      TargetState(info, vt.pending, Counters(signs, props, miss, pvMiss, pcMiss, consec), missedAlarm)
    }

    /** One round of handleBlock's loop: the recorded state, if the validator is watched. */
    method RecordBlock(b: BlockEvent) returns (recorded: Option<(SignState, real)>)
      modifies this, vt
      ensures S() == OnBlock(old(S()), b)
      ensures recorded.Some? <==> old(Watched(S()))
      ensures recorded.Some? ==>
                recorded.value ==
                    (if info.value.bonded then old(Classified(S(), b)).0 else UNKNOWN, Ratio(b.signatures))
    {
      if info.None? || info.value.consHex == "" {
        return None;
      }
      var st, ratio := Classify(b, info.value.consHex, vt);
      if !info.value.bonded {
        st := UNKNOWN;
      }
      if st == MISSED {
        miss := miss + 1;
        consec := consec + 1;
      } else if st == PREVOTE {
        pvMiss := pvMiss + 1;
        miss := miss + 1;
        consec := consec + 1;
      } else if st == PRECOMMIT {
        pcMiss := pcMiss + 1;
        miss := miss + 1;
        consec := consec + 1;
      } else if st == SIGNED {
        signs := signs + 1;
        consec := 0;
      } else if st == PROPOSED {
        props := props + 1;
        signs := signs + 1;
        consec := 0;
      }
      return Some((st, ratio));
    }

    method CheckMisses(enabled: bool, threshold: int, hasOpen: bool) returns (pages: seq<Page>)
      modifies this
      ensures (pages, S()) == OnTick(old(S()), enabled, threshold, hasOpen)
    {
      pages := [];
      if !enabled || info.None? {
        return;
      }
      if !missedAlarm && consec >= threshold && threshold > 0 {
        missedAlarm := true;
        pages := [Raised];
      } else if consec < threshold && (missedAlarm || hasOpen) {
        missedAlarm := false;
        pages := [Cleared];
      }
    }
  }

  // ----- All the validators of a chain -----

  class Watcher {
    var targets: seq<Target>
    var byAddr: map<string, Target>
    var lastHeight: int64
    var lastBlockTime: Time

    /** The targets are separate, and so are their trackers. */
    ghost predicate Valid()
      reads this
    {
      && (forall i, j :: 0 <= i < j < |targets| ==> targets[i] != targets[j] && targets[i].vt != targets[j].vt)
      && (forall addr :: addr in byAddr ==> byAddr[addr] in targets)
    }

    ghost function Trackers(): set<VoteTracker>
      reads this
    {
      set t | t in targets :: t.vt
    }

    constructor ()
      ensures Valid() && targets == [] && byAddr == map[]
    {
      targets, byAddr, lastHeight, lastBlockTime := [], map[], 0, 0;
    }

    /** A vote reaches the tracker of the validator it names, and no other. */
    method HandleVote(v: VoteEvent)
      requires Valid()
      modifies Trackers()
      ensures v.validatorAddress != "" && v.validatorAddress in byAddr ==>
                byAddr[v.validatorAddress].S() ==
                    OnVote(old(byAddr[v.validatorAddress].S()), v.height, VoteState(v.kind))
      ensures forall t :: t in targets
                && !(v.validatorAddress != "" && v.validatorAddress in byAddr && t == byAddr[v.validatorAddress])
                ==> t.S() == old(t.S())
    {
      if v.validatorAddress == "" {
        return;
      }
      if v.validatorAddress in byAddr {
        var t := byAddr[v.validatorAddress];
        assert t.vt in Trackers();
        t.vt.RecordVote(v.height, VoteState(v.kind));
      }
    }

    /** A block is counted for every target, by what it says about each. */
    method HandleBlock(b: BlockEvent, now: Time)
      requires Valid()
      modifies this, targets, Trackers()
      ensures targets == old(targets) && byAddr == old(byAddr)
      ensures lastHeight == b.height && lastBlockTime == now
      ensures forall i :: 0 <= i < |targets| ==> targets[i].S() == OnBlock(old(targets[i].S()), b)
    {
      lastBlockTime := now;
      lastHeight := b.height;
      hide OnBlock;
      for i := 0 to |targets|
        invariant targets == old(targets) && byAddr == old(byAddr) && Valid()
        invariant lastHeight == b.height && lastBlockTime == now
        invariant forall k :: 0 <= k < i ==> targets[k].S() == OnBlock(old(targets[k].S()), b)
        invariant forall k :: i <= k < |targets| ==> targets[k].S() == old(targets[k].S())
      {
        var t := targets[i];
        assert t.vt in Trackers();
        var _ := t.RecordBlock(b);
      }
    }
  }

  // ----- The whole life of a target -----

  datatype Event =
    | Vote(height: int64, kind: int)
    | Block(block: BlockEvent)
    | Refreshed(info: Option<ValInfo>)
    | Ticked(enabled: bool, threshold: int, hasOpen: bool)

  function StepTarget(s: TargetState, e: Event): TargetState {
    match e
    case Vote(h, kind) => OnVote(s, h, VoteState(kind))
    case Block(b) => OnBlock(s, b)
    case Refreshed(info) => s.(info := info)
    case Ticked(enabled, threshold, hasOpen) => OnTick(s, enabled, threshold, hasOpen).1
  }

  function Run(events: seq<Event>): TargetState {
    if events == [] then NEW_TARGET else StepTarget(Run(events[..|events| - 1]), events[|events| - 1])
  }

  /** What a tracker sees of the events. */
  function Ops(events: seq<Event>): seq<Op> {
    if events == [] then []
    else
      var before, e := events[..|events| - 1], events[|events| - 1];
      Ops(before) +
      match e
      case Vote(h, kind) => [Voted(h, VoteState(kind))]
      case Block(b) =>
        if Watched(Run(before)) then [Resolved(SignedHeight(b), BlockSays(b, Run(before).info.value.consHex))] else []
      case _ => []
  }

  /** The classifications of the blocks that came while the validator was bonded, in order. */
  function Outcomes(events: seq<Event>): seq<SignState> {
    if events == [] then []
    else
      var before, e := events[..|events| - 1], events[|events| - 1];
      var s := Run(before);
      Outcomes(before) + if e.Block? && Watched(s) && s.info.value.bonded then [Classified(s, e.block).0] else []
  }

  lemma {:induction false} PendingFollowsOps(events: seq<Event>)
    ensures Run(events).pending == After(Ops(events))
  {
    if events != [] {
      var before, e := events[..|events| - 1], events[|events| - 1];
      PendingFollowsOps(before);
      var more := Ops(events)[|Ops(before)|..];
      assert Ops(events) == Ops(before) + more;
      if more != [] {
        assert Ops(events)[..|Ops(events)| - 1] == Ops(before);
      } else {
        assert Ops(events) == Ops(before);
      }
    }
  }

  /** A block attests to the height of the commit it carries, and if it carries none, to the
      height before its own. */
  predicate Attests(b: BlockEvent, h: int64) {
    if b.commitHeight > 0 then b.commitHeight == h else (b.height - 1 - h) % 0x1_0000_0000_0000_0000 == 0
  }

  /** How far the validator got by the block alone: it proposed it, one of the commit
      signatures is its own, or neither. */
  function Word(b: BlockEvent, addr: string): SignState {
    if b.proposer == addr then 4
    else if exists i :: 0 <= i < |b.signatures| && b.signatures[i].blockIDFlag == 2 && b.signatures[i].signature != ""
                && EqualFold(b.signatures[i].validatorAddress, addr) then 3
    else 0
  }

  lemma BlockMeans(b: BlockEvent, h: int64, addr: string)
    requires Attests(b, h)
    ensures SignedHeight(b) == h && BlockSays(b, addr) == Word(b, addr)
  {
    hide EqualFold;
    if b.commitHeight <= 0 {
      WrapDiffers(b.height - 1, h);
    }
  }

  lemma WrapDiffers(x: int, h: int64)
    requires (x - h) % 0x1_0000_0000_0000_0000 == 0
    ensures Wrap(x) == h
  {
    var k := (x - h) / 0x1_0000_0000_0000_0000;
    assert x + 0x8000_0000_0000_0000 == (h + 0x8000_0000_0000_0000) + k * 0x1_0000_0000_0000_0000;
  }

  /** Each block is classified by its history: the greatest of its word and the votes that
      count for the height it attests to. */
  lemma {:induction false} BlockIsHistory(events: seq<Event>, b: BlockEvent, h: int64)
    requires Watched(Run(events)) && Attests(b, h)
    ensures IsBest(Ops(events), h, Word(b, Run(events).info.value.consHex), Classified(Run(events), b).0)
  {
    PendingFollowsOps(events);
    BlockMeans(b, h, Run(events).info.value.consHex);
    ResolveIsBest(Ops(events), h, Word(b, Run(events).info.value.consHex));
    hide Run, Ops, Word, SignedHeight, BlockSays, Attests;
  }

  /** One more vote before a block: a prevote, precommit or proposal for the height the block
      attests to, kinds 1, 2 and 32 on the wire, raises its classification to 1, 2 or 4; any
      other vote, and a vote for any other height, leaves it as it is. */
  lemma {:induction false} VoteMoves(events: seq<Event>, b: BlockEvent, h: int64, at: int64, kind: int)
    requires Watched(Run(events)) && Attests(b, h)
    ensures var before, after := Run(events), Run(events + [Vote(at, kind)]);
            var vote := if kind == 1 then 1 else if kind == 2 then 2 else if kind == 32 then 4 else -1;
            && Watched(after)
            && Classified(after, b).0 ==
               if at == h && vote > Classified(before, b).0 then vote else Classified(before, b).0
  {
    var all := events + [Vote(at, kind)];
    assert all[..|all| - 1] == events;
    BlockMeans(b, h, Run(events).info.value.consHex);
    hide Word, SignedHeight, BlockSays, Attests, EqualFold;
  }

  /** A block changes nothing about a validator that is not known or has no address; it is not
      counted for one that is not bonded, though its votes are settled. */
  lemma BlockNotCounted(s: TargetState, b: BlockEvent)
    ensures s.info.None? || s.info.value.consHex == "" ==> OnBlock(s, b) == s
    ensures s.info.Some? && s.info.value.consHex != "" && !s.info.value.bonded ==>
              OnBlock(s, b) == s.(pending := Above(s.pending, SignedHeight(b)))
  {}

  function Tally(outcomes: seq<SignState>, low: SignState, high: SignState): nat {
    if outcomes == [] then 0
    else Tally(outcomes[..|outcomes| - 1], low, high) + if low <= outcomes[|outcomes| - 1] <= high then 1 else 0
  }

  /** The last `n` outcomes are unsigned, and the one before them, if any, is signed. */
  predicate TrailingMisses(outcomes: seq<SignState>, n: nat) {
    && n <= |outcomes|
    && (forall i :: |outcomes| - n <= i < |outcomes| ==> outcomes[i] < SIGNED)
    && (n < |outcomes| ==> outcomes[|outcomes| - n - 1] >= SIGNED)
  }

  /** The counters say what the history says. */
  predicate CountsHistory(c: Counters, outcomes: seq<SignState>) {
    && c.signs == Tally(outcomes, SIGNED, PROPOSED)
    && c.props == Tally(outcomes, PROPOSED, PROPOSED)
    && c.miss == Tally(outcomes, MISSED, PRECOMMIT)
    && c.pvMiss == Tally(outcomes, PREVOTE, PREVOTE)
    && c.pcMiss == Tally(outcomes, PRECOMMIT, PRECOMMIT)
    && TrailingMisses(outcomes, c.consec)
  }

  lemma CountExtends(c: Counters, outcomes: seq<SignState>, st: SignState)
    requires CountsHistory(c, outcomes) && st >= MISSED
    ensures CountsHistory(Count(c, st), outcomes + [st])
  {
    var after := outcomes + [st];
    assert after[..|after| - 1] == outcomes;
    if st < SIGNED {
      assert forall i :: 0 <= i < |outcomes| ==> after[i] == outcomes[i];
    }
  }

  lemma ClassifiedIsKnown(s: TargetState, b: BlockEvent)
    requires s.info.Some?
    ensures Classified(s, b).0 >= MISSED
  {}

  /** Over every run of votes, blocks, refreshes and ticks, the counters equal the history of
      the bonded blocks; blocks while unbonded change none of them. */
  lemma {:induction false} CountersAreHistory(events: seq<Event>)
    ensures CountsHistory(Run(events).counters, Outcomes(events))
  {
    if events == [] {
      assert Outcomes(events) == [];
    } else {
      var before, e := events[..|events| - 1], events[|events| - 1];
      var s := Run(before);
      CountersAreHistory(before);
      hide CountsHistory, Count, Classified;
      if e.Block? && Watched(s) && s.info.value.bonded {
        ClassifiedIsKnown(s, e.block);
        CountExtends(s.counters, Outcomes(before), Classified(s, e.block).0);
      } else {
        assert Outcomes(events) == Outcomes(before);
        assert Run(events).counters == s.counters by { UnknownCountsNothing(s.counters); }
      }
    }
  }

  lemma UnknownCountsNothing(c: Counters)
    ensures Count(c, UNKNOWN) == c
  {}

  lemma {:induction false} TallySplits(outcomes: seq<SignState>)
    requires forall i :: 0 <= i < |outcomes| ==> outcomes[i] >= MISSED
    ensures Tally(outcomes, SIGNED, PROPOSED) + Tally(outcomes, MISSED, PRECOMMIT) == |outcomes|
    ensures Tally(outcomes, PROPOSED, PROPOSED) <= Tally(outcomes, SIGNED, PROPOSED)
    ensures Tally(outcomes, PREVOTE, PREVOTE) + Tally(outcomes, PRECOMMIT, PRECOMMIT)
              <= Tally(outcomes, MISSED, PRECOMMIT)
  {
    if outcomes != [] {
      TallySplits(outcomes[..|outcomes| - 1]);
    }
  }

  lemma {:induction false} OutcomesAreKnown(events: seq<Event>)
    ensures forall i :: 0 <= i < |Outcomes(events)| ==> Outcomes(events)[i] >= MISSED
  {
    if events != [] {
      var before, e := events[..|events| - 1], events[|events| - 1];
      OutcomesAreKnown(before);
      if Run(before).info.Some? && e.Block? {
        ClassifiedIsKnown(Run(before), e.block);
      }
    }
  }

  /** Every bonded block is counted exactly once, as signed or as missed. */
  lemma {:induction false} CountersBalance(events: seq<Event>)
    ensures var c := Run(events).counters;
            && c.signs + c.miss == |Outcomes(events)|
            && c.props <= c.signs && c.pvMiss + c.pcMiss <= c.miss && c.consec <= c.miss
  {
    CountersAreHistory(events);
    OutcomesAreKnown(events);
    TallySplits(Outcomes(events));
    TrailingTally(Outcomes(events), Run(events).counters.consec);
  }

  lemma {:induction false} TrailingTally(outcomes: seq<SignState>, n: nat)
    requires TrailingMisses(outcomes, n) && forall i :: 0 <= i < |outcomes| ==> outcomes[i] >= MISSED
    ensures n <= Tally(outcomes, MISSED, PRECOMMIT)
  {
    if n > 0 {
      TrailingTally(outcomes[..|outcomes| - 1], n - 1);
    }
  }

  // ----- The alarm -----

  /** After a tick with a positive threshold the alarm holds exactly when the validator has
      missed at least that many blocks in a row; otherwise a tick changes nothing. */
  lemma {:induction false} AlarmAfterTick(events: seq<Event>, enabled: bool, threshold: int, hasOpen: bool)
    ensures var s, after := Run(events), Run(events + [Ticked(enabled, threshold, hasOpen)]);
            && (enabled && s.info.Some? && threshold > 0 ==> (after.missedAlarm <==> s.counters.consec >= threshold))
            && (!(enabled && s.info.Some? && threshold > 0) ==> after == s)
  {
    var all := events + [Ticked(enabled, threshold, hasOpen)];
    assert all[..|all| - 1] == events;
  }

  /** A tick raises the alarm exactly when it is enabled, the validator known, a positive
      threshold reached and the latch off; it clears it exactly when it is enabled, the
      validator known, the misses below the threshold, and the alarm open, by the latch or
      at some destination. */
  lemma TickPages(s: TargetState, enabled: bool, threshold: int, hasOpen: bool)
    ensures var pages := OnTick(s, enabled, threshold, hasOpen).0;
            && (pages == [Raised] <==>
                enabled && s.info != None && 0 < threshold <= s.counters.consec && !s.missedAlarm)
            && (pages == [Cleared] <==>
                enabled && s.info != None && s.counters.consec < threshold && (s.missedAlarm || hasOpen))
            && |pages| <= 1
  {}

  /** The pages of a run. */
  function Pages(events: seq<Event>): seq<Page> {
    if events == [] then []
    else
      var before, e := events[..|events| - 1], events[|events| - 1];
      Pages(before) + if e.Ticked? then OnTick(Run(before), e.enabled, e.threshold, e.hasOpen).0 else []
  }

  /** The latch is the last page, and no two raises come without a clear between them. */
  lemma {:induction false} RaisesAreCleared(events: seq<Event>)
    ensures var pages := Pages(events);
            && (Run(events).missedAlarm <==> pages != [] && pages[|pages| - 1] == Raised)
            && forall i :: 0 <= i < |pages| - 1 && pages[i] == Raised ==> pages[i + 1] == Cleared
  {
    if events != [] {
      RaisesAreCleared(events[..|events| - 1]);
    }
  }
}
