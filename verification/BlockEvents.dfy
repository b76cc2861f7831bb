/** NewBlock and Vote events, and who signed a block's previous commit. */
module BlockEvents {
  import opened Texts
  import opened Words

  datatype CommitSig = CommitSig(blockIDFlag: int, validatorAddress: string, signature: string)

  /** The block's own height, its proposer, and the signatures of the previous commit. */
  datatype BlockEvent = BlockEvent(height: int64, proposer: string, commitHeight: int64, signatures: seq<CommitSig>)

  datatype VoteEvent = VoteEvent(kind: int, height: int64, validatorAddress: string)

  const BLOCK_ID_FLAG_COMMIT := 2

  /** Equal up to the case of ASCII letters. */
  predicate EqualFold(a: string, b: string) {
    |a| == |b| && forall i :: 0 <= i < |a| ==> Lower(a[i]) == Lower(b[i])
  }

  /** Characters are equal, or a capital letter and its small one, 32 further on. */
  lemma FoldMeans(a: string, b: string)
    ensures EqualFold(a, b) <==>
              |a| == |b| && forall i :: 0 <= i < |a| ==>
                a[i] == b[i] || ('A' <= a[i] <= 'Z' && b[i] as int == a[i] as int + 32)
                || ('A' <= b[i] <= 'Z' && a[i] as int == b[i] as int + 32)
  {}

  predicate IsCommit(s: CommitSig) {
    s.blockIDFlag == BLOCK_ID_FLAG_COMMIT && s.signature != ""
  }

  predicate SignedBy(sigs: seq<CommitSig>, addr: string) {
    exists i :: 0 <= i < |sigs| && IsCommit(sigs[i]) && EqualFold(sigs[i].validatorAddress, addr)
  }

  /** The positions that hold a commit signature. */
  function Commits(sigs: seq<CommitSig>): set<int> {
    set i | 0 <= i < |sigs| && IsCommit(sigs[i])
  }

  /** The fraction of entries that signed, 0 for an empty commit. */
  function Ratio(sigs: seq<CommitSig>): (r: real)
    ensures 0.0 <= r <= 1.0
  {
    if sigs == [] then 0.0
    else
      assert |Commits(sigs)| <= |sigs| by { CommitsBounded(sigs); }
      |Commits(sigs)| as real / |sigs| as real
  }

  lemma CommitsBounded(sigs: seq<CommitSig>)
    ensures |Commits(sigs)| <= |sigs|
  {
    if sigs == [] {
      assert Commits(sigs) == {};
    } else {
      CommitsBounded(sigs[..|sigs| - 1]);
      CommitsExtends(sigs[..|sigs| - 1], sigs[|sigs| - 1]);
      assert sigs == sigs[..|sigs| - 1] + [sigs[|sigs| - 1]];
    }
  }

  method Signed(b: BlockEvent, addr: string) returns (ok: bool, ratio: real)
    ensures ok <==> SignedBy(b.signatures, addr)
    ensures ratio == Ratio(b.signatures)
  {
    hide Commits, EqualFold, Ratio;
    var sigs := b.signatures;
    var total, signed := 0, 0;
    ok, ratio := false, 0.0;
    assert Commits(sigs[..0]) == {} by { NoCommits(); }
    for i := 0 to |sigs|
      invariant total == i && signed == |Commits(sigs[..i])|
      invariant ok <==> SignedBy(sigs[..i], addr)
    {
      CommitsExtends(sigs[..i], sigs[i]);
      SignedByExtends(sigs[..i], sigs[i], addr);
      assert sigs[..i + 1] == sigs[..i] + [sigs[i]];
      total := total + 1;
      if sigs[i].blockIDFlag == BLOCK_ID_FLAG_COMMIT && sigs[i].signature != "" {
        signed := signed + 1;
        if EqualFold(sigs[i].validatorAddress, addr) {
          ok := true;
        }
      }
    }
    assert sigs[..|sigs|] == sigs;
    RatioIs(sigs);
    if total > 0 {
      ratio := signed as real / total as real;
    }
  }

  lemma NoCommits()
    ensures Commits([]) == {}
  {}

  lemma RatioIs(sigs: seq<CommitSig>)
    ensures Ratio(sigs) == if sigs == [] then 0.0 else |Commits(sigs)| as real / |sigs| as real
  {
    hide Commits;
  }

  lemma SignedByExtends(sigs: seq<CommitSig>, next: CommitSig, addr: string)
    ensures SignedBy(sigs + [next], addr) <==>
              SignedBy(sigs, addr) || (IsCommit(next) && EqualFold(next.validatorAddress, addr))
  {
    hide EqualFold;
    var after := sigs + [next];
    assert after[|sigs|] == next;
    if i :| 0 <= i < |sigs| && IsCommit(sigs[i]) && EqualFold(sigs[i].validatorAddress, addr) {
      assert after[i] == sigs[i];
    }
  }

  lemma CommitsExtends(sigs: seq<CommitSig>, next: CommitSig)
    ensures |Commits(sigs + [next])| == |Commits(sigs)| + (if IsCommit(next) then 1 else 0)
  {
    var after := sigs + [next];
    assert forall i :: 0 <= i < |sigs| ==> after[i] == sigs[i];
    if IsCommit(next) {
      assert Commits(after) == Commits(sigs) + {|sigs|};
    } else {
      assert Commits(after) == Commits(sigs);
    }
  }

  /** One more entry adds to the count of signers exactly if it has the commit flag and a
      signature, and to the number of entries in any case. */
  lemma {:induction false} RatioExtends(sigs: seq<CommitSig>, next: CommitSig)
    ensures Ratio([]) == 0.0
    ensures Ratio(sigs + [next]) * (|sigs| + 1) as real ==
              Ratio(sigs) * |sigs| as real + if next.blockIDFlag == 2 && next.signature != "" then 1.0 else 0.0
  {
    CommitsExtends(sigs, next);
    RatioIs([]);
    RatioIs(sigs);
    RatioIs(sigs + [next]);
    hide Ratio, Commits;
    assert |sigs + [next]| == |sigs| + 1;
    Divide(|Commits(sigs + [next])|, |sigs| + 1);
    if sigs == [] {
      assert Commits(sigs) == {} by { NoCommits(); }
    } else {
      Divide(|Commits(sigs)|, |sigs|);
    }
  }

  lemma Divide(part: nat, whole: nat)
    requires whole > 0
    ensures part as real / whole as real * whole as real == part as real
  {}
}
