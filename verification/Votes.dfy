/** How a validator's part in a block is classified from the block itself and from votes that
    arrive before or after it, in any order. */
module Votes {
  import opened Words

  /** Ordered by how far the validator got; unknown is below all. */
  type SignState = s: int | -1 <= s <= 4 witness 0

  const UNKNOWN: SignState := -1
  const MISSED: SignState := 0
  const PREVOTE: SignState := 1
  const PRECOMMIT: SignState := 2
  const SIGNED: SignState := 3
  const PROPOSED: SignState := 4

  type Pending = map<int64, SignState>

  function At(p: Pending, h: int64): SignState {
    if h in p then p[h] else MISSED
  }

  function Max(a: SignState, b: SignState): SignState { if a < b then b else a }

  function Observe(p: Pending, h: int64, s: SignState): Pending {
    if s > At(p, h) then p[h := s] else p
  }

  function Above(p: Pending, h: int64): Pending {
    map k | k in p && k > h :: p[k]
  }

  function Resolve(p: Pending, h: int64, blockSays: SignState): (SignState, Pending) {
    (if h in p then Max(blockSays, p[h]) else blockSays, Above(p, h))
  }

  class VoteTracker {
    var pending: Pending

    constructor ()
      ensures pending == map[]
    {
      pending := map[];
    }

    method RecordVote(h: int64, s: SignState)
      modifies this
      ensures pending == Observe(old(pending), h, s)
    {
      var best := if h in pending then pending[h] else MISSED;
      if s > best {
        pending := pending[h := s];
      }
    }

    method Finalize(signedHeight: int64, blockSays: SignState) returns (best: SignState)
      modifies this
      ensures (best, pending) == Resolve(old(pending), signedHeight, blockSays)
    {
      best := blockSays;
      if signedHeight in pending && pending[signedHeight] > best {
        best := pending[signedHeight];
      }
      Prune(signedHeight);
    }

    /** Forgets every height at or below the finalized one. */
    method Prune(finalized: int64)
      modifies this
      ensures pending == Above(old(pending), finalized)
    {
      var heights := pending.Keys;
      while heights != {}
        invariant heights <= pending.Keys
        invariant forall k :: k in pending <==> k in old(pending) && (k in heights || k > finalized)
        invariant forall k :: k in pending ==> pending[k] == old(pending)[k]
      {
        var h :| h in heights;
        if h <= finalized {
          pending := pending - {h};
        }
        heights := heights - {h};
      }
    }
  }

  // ----- The history of a tracker -----

  datatype Op = Voted(height: int64, state: SignState) | Resolved(height: int64, blockSays: SignState)

  function Step(p: Pending, op: Op): Pending {
    match op
    case Voted(h, s) => Observe(p, h, s)
    case Resolved(h, b) => Resolve(p, h, b).1
  }

  /** The tracker's map after a history, starting from a new tracker. */
  function After(ops: seq<Op>): Pending {
    if ops == [] then map[] else Step(After(ops[..|ops| - 1]), ops[|ops| - 1])
  }

  /** A vote for exactly `height`, with no resolve at or above that height since. */
  predicate Counts(ops: seq<Op>, i: nat, height: int64) {
    && i < |ops| && ops[i].Voted? && ops[i].height == height
    && forall j :: i < j < |ops| ==> !(ops[j].Resolved? && ops[j].height >= height)
  }

  /** The greatest of `floor` and the votes that count for `height`. */
  ghost predicate IsBest(ops: seq<Op>, height: int64, floor: SignState, best: SignState) {
    && floor <= best
    && (forall i: nat :: Counts(ops, i, height) ==> ops[i].state <= best)
    && (best == floor || exists i: nat :: Counts(ops, i, height) && ops[i].state == best)
  }

  lemma CountsExtends(ops: seq<Op>, op: Op, i: nat, height: int64)
    ensures Counts(ops + [op], i, height) <==>
              if i == |ops| then op.Voted? && op.height == height
              else Counts(ops, i, height) && !(op.Resolved? && op.height >= height)
  {
    if i < |ops| {
      assert (ops + [op])[i] == ops[i] && (ops + [op])[|ops|] == op;
      if Counts(ops + [op], i, height) {
        assert forall j :: i < j < |ops| ==> (ops + [op])[j] == ops[j];
      }
    }
  }

  lemma BestExtends(ops: seq<Op>, op: Op, height: int64, best: SignState)
    requires IsBest(ops, height, MISSED, best)
    ensures IsBest(ops + [op], height, MISSED,
              if op.Voted? && op.height == height then Max(best, op.state)
              else if op.Resolved? && op.height >= height then MISSED
              else best)
  {
    hide Counts;
    var after := ops + [op];
    forall i: nat
      ensures Counts(after, i, height) <==>
                if i == |ops| then op.Voted? && op.height == height
                else Counts(ops, i, height) && !(op.Resolved? && op.height >= height)
      ensures Counts(ops, i, height) ==> i < |ops| && ops[i].Voted? && after[i] == ops[i]
    {
      CountsExtends(ops, op, i, height);
      CountsInRange(ops, i, height);
    }
    assert after[|ops|] == op;
    if best != MISSED {
      var i: nat :| Counts(ops, i, height) && ops[i].state == best;
      assert Counts(after, i, height) <==> !(op.Resolved? && op.height >= height);
    }
    if op.Voted? && op.height == height {
      assert Counts(after, |ops|, height);
    }
  }

  lemma CountsInRange(ops: seq<Op>, i: nat, height: int64)
    ensures Counts(ops, i, height) ==> i < |ops| && ops[i].Voted?
  {}

  /** What a tracker holds for a height is the greatest vote that counts for it. */
  lemma {:induction false} PendingIsBest(ops: seq<Op>, height: int64)
    ensures IsBest(ops, height, MISSED, At(After(ops), height))
    ensures height in After(ops) ==> At(After(ops), height) > MISSED
  {
    if ops != [] {
      var before, op := ops[..|ops| - 1], ops[|ops| - 1];
      PendingIsBest(before, height);
      BestExtends(before, op, height, At(After(before), height));
      assert before + [op] == ops;
      hide IsBest;
    }
  }

  /** The classification of a block is a function of the history: the greatest of what the
      block says and the votes that count for exactly its signed height. */
  lemma {:induction false} ResolveIsBest(ops: seq<Op>, height: int64, blockSays: SignState)
    requires blockSays >= MISSED
    ensures var (best, p) := Resolve(After(ops), height, blockSays);
            IsBest(ops, height, blockSays, best) && forall h :: h in p ==> h > height
  {
    PendingIsBest(ops, height);
    hide Counts;
  }

  /** Every resolve so far was for a lower height. */
  predicate AllBelow(ops: seq<Op>, height: int64) {
    forall i :: 0 <= i < |ops| && ops[i].Resolved? ==> ops[i].height < height
  }

  /** When signed heights strictly increase, every vote ever cast for the height counts, and
      nothing else does: the answer is the maximum over them and the block. */
  lemma {:induction false} ResolveIsMaximum(ops: seq<Op>, height: int64, blockSays: SignState)
    requires blockSays >= MISSED && AllBelow(ops, height)
    ensures var best := Resolve(After(ops), height, blockSays).0;
            && blockSays <= best
            && (forall i :: 0 <= i < |ops| && ops[i].Voted? && ops[i].height == height ==> ops[i].state <= best)
            && (best == blockSays
                || exists i :: 0 <= i < |ops| && ops[i].Voted? && ops[i].height == height && ops[i].state == best)
  {
    ResolveIsBest(ops, height, blockSays);
    assert forall i: nat :: Counts(ops, i, height) <==> i < |ops| && ops[i].Voted? && ops[i].height == height;
  }

  /** The order of the votes, late votes and votes for other heights do not matter: two
      histories with the same votes for a height give it the same answer. */
  lemma OnlyOwnVotesMatter(ops: seq<Op>, others: seq<Op>, height: int64, blockSays: SignState)
    requires blockSays >= MISSED && AllBelow(ops, height) && AllBelow(others, height)
    requires forall op: Op :: op.Voted? && op.height == height ==> (op in ops <==> op in others)
    ensures Resolve(After(ops), height, blockSays).0 == Resolve(After(others), height, blockSays).0
  {
    ResolveIsMaximum(ops, height, blockSays);
    ResolveIsMaximum(others, height, blockSays);
    hide Resolve, After;
    NoGreater(ops, others, height);
    NoGreater(others, ops, height);
  }

  lemma NoGreater(ops: seq<Op>, others: seq<Op>, height: int64)
    requires forall op: Op :: op.Voted? && op.height == height ==> (op in ops <==> op in others)
    ensures forall i :: 0 <= i < |ops| && ops[i].Voted? && ops[i].height == height ==>
              exists j :: 0 <= j < |others| && others[j] == ops[i]
  {
    forall i | 0 <= i < |ops| && ops[i].Voted? && ops[i].height == height
      ensures exists j :: 0 <= j < |others| && others[j] == ops[i]
    {
      assert ops[i] in others;
    }
  }

  // ----- When a vote is lost -----

  /** A vote for exactly `height`, whenever it was cast. */
  predicate CastFor(ops: seq<Op>, i: nat, height: int64) {
    i < |ops| && ops[i].Voted? && ops[i].height == height
  }

  /** The greatest of the block's word and every vote ever cast for `height`. */
  ghost predicate IsMaximum(ops: seq<Op>, height: int64, blockSays: SignState, best: SignState) {
    && blockSays <= best
    && (forall i: nat :: CastFor(ops, i, height) ==> ops[i].state <= best)
    && (best == blockSays || exists i: nat :: CastFor(ops, i, height) && ops[i].state == best)
  }

  /** A vote that a resolve at or above its height has pruned does no harm: the block says as
      much, or a vote that still counts does. */
  ghost predicate Outvoted(ops: seq<Op>, i: nat, height: int64, blockSays: SignState)
    requires CastFor(ops, i, height)
  {
    ops[i].state <= blockSays || exists j: nat :: Counts(ops, j, height) && ops[i].state <= ops[j].state
  }

  /** For every history, with heights in any order: the answer is the maximum over all votes
      ever cast for the height exactly when every vote that no longer counts is outvoted. */
  lemma {:induction false} MaximumIff(ops: seq<Op>, height: int64, blockSays: SignState)
    requires blockSays >= MISSED
    ensures IsMaximum(ops, height, blockSays, Resolve(After(ops), height, blockSays).0) <==>
              forall i: nat :: CastFor(ops, i, height) && !Counts(ops, i, height) ==>
                  Outvoted(ops, i, height, blockSays)
  {
    var best := Resolve(After(ops), height, blockSays).0;
    ResolveIsBest(ops, height, blockSays);
    hide Resolve, After;
    forall i: nat
      ensures Counts(ops, i, height) ==> CastFor(ops, i, height)
    {
    }
    if best != blockSays {
      var j: nat :| Counts(ops, j, height) && ops[j].state == best;
      assert CastFor(ops, j, height);
    }
    hide Counts, CastFor;
    if IsMaximum(ops, height, blockSays, best) {
      forall i: nat | CastFor(ops, i, height) && !Counts(ops, i, height)
        ensures Outvoted(ops, i, height, blockSays)
      {
        assert ops[i].state <= best;
      }
    }
    if forall i: nat :: CastFor(ops, i, height) && !Counts(ops, i, height) ==> Outvoted(ops, i, height, blockSays) {
      forall i: nat | CastFor(ops, i, height)
        ensures ops[i].state <= best
      {
        assert Counts(ops, i, height) || Outvoted(ops, i, height, blockSays);
      }
    }
  }

  /** No weaker condition on the resolved heights will do: they are all below a height nobody
      has voted for yet exactly when every early vote for it is heeded. */
  lemma {:induction false} AllBelowIsWeakest(ops: seq<Op>, height: int64)
    requires forall i: nat :: !CastFor(ops, i, height)
    ensures AllBelow(ops, height) <==>
              forall vote: SignState, blockSays: SignState :: blockSays >= MISSED ==>
                Resolve(After([Voted(height, vote)] + ops), height, blockSays).0 == Max(blockSays, vote)
  {
    forall vote: SignState, blockSays: SignState | blockSays >= MISSED
      ensures Resolve(After([Voted(height, vote)] + ops), height, blockSays).0 ==
                if AllBelow(ops, height) then Max(blockSays, vote) else blockSays
    {
      EarlyVote(ops, height, vote, blockSays);
    }
    hide Resolve, After, AllBelow;
    assert Max(MISSED, PROPOSED) == PROPOSED;
  }

  lemma EarlyVote(ops: seq<Op>, height: int64, vote: SignState, blockSays: SignState)
    requires blockSays >= MISSED && forall i: nat :: !CastFor(ops, i, height)
    ensures Resolve(After([Voted(height, vote)] + ops), height, blockSays).0 ==
              if AllBelow(ops, height) then Max(blockSays, vote) else blockSays
  {
    var all := [Voted(height, vote)] + ops;
    ResolveIsBest(all, height, blockSays);
    hide Resolve, After;
    assert all[0] == Voted(height, vote) && forall i :: 0 <= i < |ops| ==> all[i + 1] == ops[i];
    forall i: nat
      ensures Counts(all, i, height) <==> i == 0 && AllBelow(ops, height)
    {
      if 0 < i < |all| {
        assert !CastFor(ops, i - 1, height) && all[i] == ops[i - 1];
      }
      if i == 0 && !AllBelow(ops, height) {
        var j :| 0 <= j < |ops| && ops[j].Resolved? && ops[j].height >= height;
        assert all[j + 1] == ops[j];
      }
    }
  }

  /** Such histories exist: a height resolved twice forgets its votes. */
  lemma RepeatedHeightForgets()
    ensures var ops := [Voted(7, PRECOMMIT), Resolved(7, MISSED)];
            Resolve(After(ops[..1]), 7, MISSED).0 == PRECOMMIT && Resolve(After(ops), 7, MISSED).0 == MISSED
  {
    var ops := [Voted(7, PRECOMMIT), Resolved(7, MISSED)];
    assert ops[..1] == [Voted(7, PRECOMMIT)] && ops[..1][..0] == [];
    assert After(ops[..1]) == map[7 := PRECOMMIT];
  }
}
