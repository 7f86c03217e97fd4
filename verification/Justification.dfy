/** Verification of GRANDPA justifications (primitives/header-chain/src/justification.rs). */
module Justification {
  import opened Wrappers
  import opened BridgedChain
  import opened Ancestry

  type Signature = nat

  datatype Precommit = Precommit(targetHash: Hash, targetNumber: nat)

  datatype SignedPrecommit = SignedPrecommit(id: AuthorityId, precommit: Precommit, signature: Signature)

  datatype GrandpaJustification = GrandpaJustification(
    round: nat, targetHash: Hash, targetNumber: nat, precommits: seq<SignedPrecommit>, votesAncestries: seq<Header>)

  /** What a signature is checked against. The signature scheme itself is an arbitrary predicate. */
  datatype Ballot = Ballot(vote: SignedPrecommit, round: nat, setId: nat)

  type SignatureCheck = Ballot -> bool

  datatype Error =
    | InvalidJustificationTarget
    | InvalidAuthoritySignature
    | PrecommitIsNotCommitDescendant
    | TooLowCumulativeWeight
    | ExtraHeadersInVotesAncestries

  // ---------------------------------------------------------------- voters

  function TotalWeight(voters: seq<Authority>): nat {
    if voters == [] then 0 else voters[0].weight + TotalWeight(voters[1..])
  }

  predicate DistinctIds(voters: seq<Authority>) {
    forall i, j | 0 <= i < j < |voters| :: voters[i].id != voters[j].id
  }

  /** A voter set: distinct voters of positive weight, whose total fits 64 bits. */
  predicate ValidVoters(voters: seq<Authority>) {
    && voters != []
    && DistinctIds(voters)
    && (forall i | 0 <= i < |voters| :: voters[i].weight > 0)
    && TotalWeight(voters) <= U64_MAX
  }

  type VoterSet = voters: seq<Authority> | ValidVoters(voters) witness [Authority(0, 1)]

  type Weight64 = n: int | 0 <= n <= U64_MAX

  predicate IsVoter(voters: seq<Authority>, id: AuthorityId) {
    exists i :: 0 <= i < |voters| && voters[i].id == id
  }

  function WeightOfVoter(voters: seq<Authority>, id: AuthorityId): nat {
    if voters == [] then 0
    else if voters[0].id == id then voters[0].weight
    else WeightOfVoter(voters[1..], id)
  }

  /** Summed weight of the voters whose ids are in `ids`. */
  function WeightOf(voters: seq<Authority>, ids: set<AuthorityId>): nat {
    if voters == [] then 0
    else (if voters[0].id in ids then voters[0].weight else 0) + WeightOf(voters[1..], ids)
  }

  /** The smallest weight that more than two thirds of the voters must reach. */
  function Threshold(voters: VoterSet): nat {
    TotalWeight(voters) - (TotalWeight(voters) - 1) / 3
  }

  /** The threshold is the least weight above two thirds of the total. */
  lemma ThresholdIsLeast(voters: VoterSet)
    ensures 3 * Threshold(voters) > 2 * TotalWeight(voters) >= 3 * (Threshold(voters) - 1)
  {}

  lemma {:induction false} NotAVoter(voters: seq<Authority>, ids: set<AuthorityId>, id: AuthorityId)
    requires !IsVoter(voters, id)
    ensures WeightOf(voters, ids + {id}) == WeightOf(voters, ids)
  {
    if voters != [] {
      assert voters[0].id != id;
      NotAVoter(voters[1..], ids, id);
    }
  }

  /** Adding a new voter to a set of ids adds exactly that voter's weight. */
  lemma {:induction false} WeightOfGrows(voters: seq<Authority>, ids: set<AuthorityId>, id: AuthorityId)
    requires DistinctIds(voters) && IsVoter(voters, id) && id !in ids
    ensures WeightOf(voters, ids + {id}) == WeightOf(voters, ids) + WeightOfVoter(voters, id)
  {
    assert DistinctIds(voters[1..]);
    if voters[0].id == id {
      assert !IsVoter(voters[1..], id);
      NotAVoter(voters[1..], ids, id);
    } else {
      var i :| 0 <= i < |voters| && voters[i].id == id;
      assert voters[1..][i - 1].id == id;
      WeightOfGrows(voters[1..], ids, id);
    }
  }

  lemma {:induction false} WeightOfIsBounded(voters: seq<Authority>, ids: set<AuthorityId>)
    ensures WeightOf(voters, ids) <= TotalWeight(voters)
  {
    if voters != [] { WeightOfIsBounded(voters[1..], ids); }
  }

  /** Weights of two sets of voters add up to the weights of their union and their intersection. */
  lemma {:induction false} InclusionExclusion(voters: seq<Authority>, a: set<AuthorityId>, b: set<AuthorityId>)
    ensures WeightOf(voters, a) + WeightOf(voters, b) == WeightOf(voters, a + b) + WeightOf(voters, a * b)
  {
    if voters != [] { InclusionExclusion(voters[1..], a, b); }
  }

  // ---------------------------------------------------------------- counting votes

  /** State of the vote loop. */
  datatype Tally = Tally(unvisited: set<Hash>, votes: set<AuthorityId>, weight: nat)

  /** Does this vote take part: a known authority that has not voted before. */
  predicate Counts(voters: seq<Authority>, votes: set<AuthorityId>, vote: SignedPrecommit) {
    IsVoter(voters, vote.id) && vote.id !in votes
  }

  function Counted(
    check: SignatureCheck, setId: nat, voters: VoterSet, j: GrandpaJustification, parents: Parents, t: Tally,
    vote: SignedPrecommit): Result<Tally, Error>
  {
    if !Counts(voters, t.votes, vote) then Ok(t)
    else if vote.precommit.targetNumber < j.targetNumber then Err(PrecommitIsNotCommitDescendant)
    else
      var descent := Ensured(parents, t.unvisited, j.targetHash, vote.precommit.targetHash);
      if !descent.ok then Err(PrecommitIsNotCommitDescendant)
      else if !check(Ballot(vote, j.round, setId)) then Err(InvalidAuthoritySignature)
      else Ok(Tally(descent.unvisited, t.votes + {vote.id}, t.weight + WeightOfVoter(voters, vote.id)))
  }

  /** The tally after the first `k` votes. */
  function TallyAfter(
    check: SignatureCheck, setId: nat, voters: VoterSet, j: GrandpaJustification, parents: Parents, k: nat)
    : Result<Tally, Error>
    requires k <= |j.precommits|
  {
    if k == 0 then Ok(Tally(parents.Keys, {}, 0))
    else
      match TallyAfter(check, setId, voters, j, parents, k - 1)
      case Err(e) => Err(e)
      case Ok(t) => Counted(check, setId, voters, j, parents, t, j.precommits[k - 1])
  }

  function Verdict(
    target: (Hash, nat), check: SignatureCheck, setId: nat, voters: VoterSet, j: GrandpaJustification, parents: Parents)
    : Result<(), Error>
  {
    if (j.targetHash, j.targetNumber) != target then Err(InvalidJustificationTarget)
    else
      match TallyAfter(check, setId, voters, j, parents, |j.precommits|)
      case Err(e) => Err(e)
      case Ok(t) =>
        if t.unvisited != {} then Err(ExtraHeadersInVotesAncestries)
        else if t.weight >= Threshold(voters) then Ok(())
        else Err(TooLowCumulativeWeight)
  }

  // ---------------------------------------------------------------- what acceptance means

  /** Vote `i` is the first vote of a known authority. */
  ghost predicate IsFirstVote(voters: seq<Authority>, j: GrandpaJustification, i: nat)
    requires i < |j.precommits|
  {
    IsVoter(voters, j.precommits[i].id) && forall h | 0 <= h < i :: j.precommits[h].id != j.precommits[i].id
  }

  /** Vote `i` is for a correctly signed descendant of the target, not below it. */
  ghost predicate SupportsTarget(check: SignatureCheck, setId: nat, j: GrandpaJustification, parents: Parents, i: nat)
    requires i < |j.precommits|
  {
    var vote := j.precommits[i];
    && j.targetNumber <= vote.precommit.targetNumber
    && Descends(parents, j.targetHash, vote.precommit.targetHash)
    && check(Ballot(vote, j.round, setId))
  }

  /** Header `h` lies on the way from some first vote down to the target. */
  ghost predicate OnVotedPath(voters: seq<Authority>, j: GrandpaJustification, parents: Parents, k: nat, h: Hash)
    requires k <= |j.precommits|
  {
    exists i: nat :: i < k && IsFirstVote(voters, j, i)
                     && Visits(parents, j.targetHash, j.precommits[i].precommit.targetHash, h)
  }

  /** Known authorities among the first `k` votes. */
  function Signers(voters: seq<Authority>, j: GrandpaJustification, k: nat): set<AuthorityId>
    requires k <= |j.precommits|
  {
    set i | 0 <= i < k && IsVoter(voters, j.precommits[i].id) :: j.precommits[i].id
  }

  /** The loop's tally of `k` votes describes exactly those votes. */
  ghost predicate TallyIs(
    check: SignatureCheck, setId: nat, voters: VoterSet, j: GrandpaJustification, parents: Parents, k: nat, t: Tally)
    requires k <= |j.precommits|
  {
    && t.votes == Signers(voters, j, k)
    && t.weight == WeightOf(voters, t.votes)
    && t.unvisited <= parents.Keys
    && Closed(parents, t.unvisited, j.targetHash)
    && (forall h | h in parents :: h !in t.unvisited <==> OnVotedPath(voters, j, parents, k, h))
    && (forall i | 0 <= i < k && IsFirstVote(voters, j, i) :: SupportsTarget(check, setId, j, parents, i))
  }

  lemma SignersGrow(voters: seq<Authority>, j: GrandpaJustification, k: nat)
    requires k < |j.precommits|
    ensures Signers(voters, j, k + 1)
            == Signers(voters, j, k) + if IsVoter(voters, j.precommits[k].id) then {j.precommits[k].id} else {}
    ensures Counts(voters, Signers(voters, j, k), j.precommits[k]) <==> IsFirstVote(voters, j, k)
  {
    var before, after := Signers(voters, j, k), Signers(voters, j, k + 1);
    var vote := j.precommits[k];
    forall id | id in after ensures id in before || (IsVoter(voters, vote.id) && id == vote.id) {
      var i :| 0 <= i < k + 1 && IsVoter(voters, j.precommits[i].id) && j.precommits[i].id == id;
    }
    if IsVoter(voters, vote.id) && vote.id !in before {
      forall h | 0 <= h < k ensures j.precommits[h].id != vote.id {}
    }
  }

  /** The paths walked for `k + 1` votes are those walked for `k` votes plus, for a first vote, its own. */
  lemma VotedPathGrows(voters: seq<Authority>, j: GrandpaJustification, parents: Parents, k: nat, h: Hash)
    requires k < |j.precommits|
    ensures OnVotedPath(voters, j, parents, k + 1, h)
            <==> OnVotedPath(voters, j, parents, k, h)
                 || (IsFirstVote(voters, j, k) && Visits(parents, j.targetHash, j.precommits[k].precommit.targetHash, h))
  {
    if OnVotedPath(voters, j, parents, k + 1, h) {
      var i: nat :| i < k + 1 && IsFirstVote(voters, j, i)
                    && Visits(parents, j.targetHash, j.precommits[i].precommit.targetHash, h);
      assert i < k ==> OnVotedPath(voters, j, parents, k, h);
    }
    if OnVotedPath(voters, j, parents, k, h) {
      var i: nat :| i < k && IsFirstVote(voters, j, i)
                    && Visits(parents, j.targetHash, j.precommits[i].precommit.targetHash, h);
      assert i < k + 1;
    }
  }

  /** A vote that does not count leaves the tally as it is. */
  lemma SkippedVote(
    check: SignatureCheck, setId: nat, voters: VoterSet, j: GrandpaJustification, parents: Parents, k: nat, t: Tally)
    requires k < |j.precommits| && TallyIs(check, setId, voters, j, parents, k, t) && !IsFirstVote(voters, j, k)
    ensures TallyIs(check, setId, voters, j, parents, k + 1, t)
  {
    hide IsFirstVote, OnVotedPath, SupportsTarget, Closed, Visits;
    SignersGrow(voters, j, k);
    forall h | h in parents ensures h !in t.unvisited <==> OnVotedPath(voters, j, parents, k + 1, h) {
      VotedPathGrows(voters, j, parents, k, h);
    }
  }

  /** A supporting first vote adds its voter, its weight and its path. */
  lemma AcceptedVote(
    check: SignatureCheck, setId: nat, voters: VoterSet, j: GrandpaJustification, parents: Parents, k: nat, t: Tally)
    requires k < |j.precommits| && TallyIs(check, setId, voters, j, parents, k, t)
    requires IsFirstVote(voters, j, k) && SupportsTarget(check, setId, j, parents, k)
    requires Ensured(parents, t.unvisited, j.targetHash, j.precommits[k].precommit.targetHash).ok
    ensures var vote := j.precommits[k];
            TallyIs(check, setId, voters, j, parents, k + 1,
                    Tally(Ensured(parents, t.unvisited, j.targetHash, vote.precommit.targetHash).unvisited,
                          t.votes + {vote.id}, t.weight + WeightOfVoter(voters, vote.id)))
  {
    hide SupportsTarget, OnVotedPath, Visits, Closed, GetsLost;
    var vote := j.precommits[k];
    SignersGrow(voters, j, k);
    EnsuredIsExact(parents, t.unvisited, j.targetHash, vote.precommit.targetHash);
    WeightOfGrows(voters, t.votes, vote.id);
    var left := Ensured(parents, t.unvisited, j.targetHash, vote.precommit.targetHash).unvisited;
    forall h | h in parents ensures h !in left <==> OnVotedPath(voters, j, parents, k + 1, h) {
      VotedPathGrows(voters, j, parents, k, h);
    }
  }

  /** One vote: it is refused exactly when it is a first vote that does not support the target. */
  lemma VoteIsExact(
    check: SignatureCheck, setId: nat, voters: VoterSet, j: GrandpaJustification, parents: Parents, k: nat, t: Tally)
    requires k < |j.precommits| && Acyclic(parents) && TallyIs(check, setId, voters, j, parents, k, t)
    ensures var r := Counted(check, setId, voters, j, parents, t, j.precommits[k]);
            && (r.Ok? <==> (IsFirstVote(voters, j, k) ==> SupportsTarget(check, setId, j, parents, k)))
            && (r.Ok? ==> TallyIs(check, setId, voters, j, parents, k + 1, r.value))
  {
    hide IsFirstVote, OnVotedPath, Visits, Closed, GetsLost, Descends, Acyclic, Ensured;
    var vote := j.precommits[k];
    SignersGrow(voters, j, k);
    EnsuredIsExact(parents, t.unvisited, j.targetHash, vote.precommit.targetHash);
    AcyclicDescentIff(parents, j.targetHash, vote.precommit.targetHash);
    if !IsFirstVote(voters, j, k) {
      SkippedVote(check, setId, voters, j, parents, k, t);
    } else if SupportsTarget(check, setId, j, parents, k) {
      AcceptedVote(check, setId, voters, j, parents, k, t);
    }
  }

  /** Votes up to `k` are all fine exactly when the tally goes through, and then it describes them. */
  lemma {:induction false} TallyIsExact(
    check: SignatureCheck, setId: nat, voters: VoterSet, j: GrandpaJustification, parents: Parents, k: nat)
    requires k <= |j.precommits| && Acyclic(parents)
    ensures var r := TallyAfter(check, setId, voters, j, parents, k);
            && (r.Ok? <==> forall i | 0 <= i < k && IsFirstVote(voters, j, i) :: SupportsTarget(check, setId, j, parents, i))
            && (r.Ok? ==> TallyIs(check, setId, voters, j, parents, k, r.value))
  {
    if k == 0 {
      NobodyWeighsNothing(voters);
    } else {
      TallyIsExact(check, setId, voters, j, parents, k - 1);
      var before := TallyAfter(check, setId, voters, j, parents, k - 1);
      if before.Ok? {
        VoteIsExact(check, setId, voters, j, parents, k - 1, before.value);
      }
    }
  }

  lemma {:induction false} NobodyWeighsNothing(voters: seq<Authority>)
    ensures WeightOf(voters, {}) == 0
  {
    if voters != [] { NobodyWeighsNothing(voters[1..]); }
  }

  /** What a justification must be to be accepted, in terms of plain walks and sets of signers. */
  ghost predicate Justifies(
    target: (Hash, nat), check: SignatureCheck, setId: nat, voters: VoterSet, j: GrandpaJustification, parents: Parents)
  {
    && (j.targetHash, j.targetNumber) == target
    && (forall i | 0 <= i < |j.precommits| && IsFirstVote(voters, j, i) :: SupportsTarget(check, setId, j, parents, i))
    && (forall h | h in parents :: OnVotedPath(voters, j, parents, |j.precommits|, h))
    && 3 * WeightOf(voters, Signers(voters, j, |j.precommits|)) > 2 * TotalWeight(voters)
  }

  /** Acceptance is exactly `Justifies`. */
  lemma AcceptedIff(
    target: (Hash, nat), check: SignatureCheck, setId: nat, voters: VoterSet, j: GrandpaJustification, parents: Parents)
    requires parents == ParentLinks(j.votesAncestries)
    ensures Verdict(target, check, setId, voters, j, parents).Ok? <==> Justifies(target, check, setId, voters, j, parents)
  {
    hide IsFirstVote, OnVotedPath, SupportsTarget, Closed, ParentLinks, Acyclic, TallyAfter;
    HeadersAreAcyclic(j.votesAncestries);
    ThresholdIsLeast(voters);
    TallyIsExact(check, setId, voters, j, parents, |j.precommits|);
    var r := TallyAfter(check, setId, voters, j, parents, |j.precommits|);
    if r.Ok? {
      assert r.value.unvisited == {} <==> forall h | h in parents :: h !in r.value.unvisited;
    }
  }

  /** The first first-vote that does not support the target decides the error, whatever follows it. */
  lemma {:induction false} FirstBadVoteDecides(
    check: SignatureCheck, setId: nat, voters: VoterSet, j: GrandpaJustification, parents: Parents, i: nat, k: nat)
    requires i < k <= |j.precommits| && Acyclic(parents)
    requires IsFirstVote(voters, j, i) && !SupportsTarget(check, setId, j, parents, i)
    requires forall h | 0 <= h < i && IsFirstVote(voters, j, h) :: SupportsTarget(check, setId, j, parents, h)
    ensures var vote := j.precommits[i];
            TallyAfter(check, setId, voters, j, parents, k)
            == Err(if j.targetNumber <= vote.precommit.targetNumber && Descends(parents, j.targetHash, vote.precommit.targetHash)
                   then InvalidAuthoritySignature else PrecommitIsNotCommitDescendant)
  {
    if k > i + 1 {
      FirstBadVoteDecides(check, setId, voters, j, parents, i, k - 1);
    } else {
      TallyIsExact(check, setId, voters, j, parents, i);
      var t := TallyAfter(check, setId, voters, j, parents, i).value;
      SignersGrow(voters, j, i);
      EnsuredIsExact(parents, t.unvisited, j.targetHash, j.precommits[i].precommit.targetHash);
      AcyclicDescentIff(parents, j.targetHash, j.precommits[i].precommit.targetHash);
    }
  }

  /** The verdict on a justification that carries its own ancestry. */
  function Verify(target: (Hash, nat), check: SignatureCheck, setId: nat, voters: VoterSet, j: GrandpaJustification)
    : Result<(), Error>
  {
    Verdict(target, check, setId, voters, j, ParentLinks(j.votesAncestries))
  }

  /** Any two accepted justifications of one voter set, whatever they finalize, share signers weighing more than a third
      of the total: conflicting finality needs that much weight to have signed twice. */
  lemma AcceptedQuorumsIntersect(
    target1: (Hash, nat), check1: SignatureCheck, setId1: nat, j1: GrandpaJustification,
    target2: (Hash, nat), check2: SignatureCheck, setId2: nat, j2: GrandpaJustification, voters: VoterSet)
    requires Verify(target1, check1, setId1, voters, j1).Ok?
    requires Verify(target2, check2, setId2, voters, j2).Ok?
    ensures var common := Signers(voters, j1, |j1.precommits|) * Signers(voters, j2, |j2.precommits|);
            3 * WeightOf(voters, common) > TotalWeight(voters)
  {
    AcceptedIff(target1, check1, setId1, voters, j1, ParentLinks(j1.votesAncestries));
    AcceptedIff(target2, check2, setId2, voters, j2, ParentLinks(j2.votesAncestries));
    var a, b := Signers(voters, j1, |j1.precommits|), Signers(voters, j2, |j2.precommits|);
    InclusionExclusion(voters, a, b);
    WeightOfIsBounded(voters, a + b);
  }

  /** Why a justification for the right target whose first votes are all fine is refused: headers that no vote's path
      needs, or else too little weight. */
  lemma RefusedBecause(
    target: (Hash, nat), check: SignatureCheck, setId: nat, voters: VoterSet, j: GrandpaJustification)
    requires (j.targetHash, j.targetNumber) == target
    requires var parents := ParentLinks(j.votesAncestries);
             forall i | 0 <= i < |j.precommits| && IsFirstVote(voters, j, i) :: SupportsTarget(check, setId, j, parents, i)
    ensures var parents := ParentLinks(j.votesAncestries);
            Verify(target, check, setId, voters, j)
            == if exists h :: h in parents && !OnVotedPath(voters, j, parents, |j.precommits|, h) then Err(ExtraHeadersInVotesAncestries)
               else if 3 * WeightOf(voters, Signers(voters, j, |j.precommits|)) > 2 * TotalWeight(voters) then Ok(())
               else Err(TooLowCumulativeWeight)
  {
    hide IsFirstVote, OnVotedPath, SupportsTarget, Closed, ParentLinks, Acyclic, TallyAfter;
    HeadersAreAcyclic(j.votesAncestries);
    ThresholdIsLeast(voters);
    TallyIsExact(check, setId, voters, j, ParentLinks(j.votesAncestries), |j.precommits|);
  }

  // ---------------------------------------------------------------- the procedure

  /** Position of an authority in the voter set, if it is there. */
  method FindVoter(voters: seq<Authority>, id: AuthorityId) returns (weight: Option<nat>)
    ensures weight.Some? <==> IsVoter(voters, id)
    ensures weight.Some? ==> weight.value == WeightOfVoter(voters, id)
  {
    for k := 0 to |voters|
      invariant forall i | 0 <= i < k :: voters[i].id != id
      invariant WeightOfVoter(voters[k..], id) == WeightOfVoter(voters, id)
    {
      if voters[k].id == id {
        return Some(voters[k].weight);
      }
      assert voters[k..][1..] == voters[k + 1..];
    }
    weight := None;
  }

  /** Accepts exactly the justifications of `Justifies`, with the errors of `Verify` otherwise; adding up the voters'
      weights never overflows 64 bits. */
  method VerifyJustification(
    target: (Hash, nat), check: SignatureCheck, setId: nat, voters: VoterSet, j: GrandpaJustification)
    returns (result: Result<(), Error>)
    ensures result == Verify(target, check, setId, voters, j)
    ensures result.Ok? <==> Justifies(target, check, setId, voters, j, ParentLinks(j.votesAncestries))
  {
    hide Justifies, IsVoter, Acyclic, ParentLinks, Ensured;
    var chain := new AncestryChain(j.votesAncestries);
    ghost var parents := ParentLinks(j.votesAncestries);
    AcceptedIff(target, check, setId, voters, j, parents);
    HeadersAreAcyclic(j.votesAncestries);
    if (j.targetHash, j.targetNumber) != target {
      return Err(InvalidJustificationTarget);
    }
    var votes: set<AuthorityId> := {};
    var cumulative: Weight64 := 0;
    for k := 0 to |j.precommits|
      invariant chain.parents == parents && fresh(chain)
      invariant TallyAfter(check, setId, voters, j, parents, k) == Ok(Tally(chain.unvisited, votes, cumulative))
    {
      var vote := j.precommits[k];
      TallyWeighsVotes(check, setId, voters, j, parents, k);
      ErrorIsFinal(check, setId, voters, j, parents, k + 1);
      var info := FindVoter(voters, vote.id);
      if info.None? || vote.id in votes {
        continue;
      }
      if vote.precommit.targetNumber < j.targetNumber {
        return Err(PrecommitIsNotCommitDescendant);
      }
      var ok, _ := chain.EnsureDescendant(j.targetHash, vote.precommit.targetHash);
      if !ok {
        return Err(PrecommitIsNotCommitDescendant);
      }
      WeightOfGrows(voters, votes, vote.id);
      WeightOfIsBounded(voters, votes + {vote.id});
      votes := votes + {vote.id};
      cumulative := cumulative + info.value;
      if !check(Ballot(vote, j.round, setId)) {
        return Err(InvalidAuthoritySignature);
      }
    }
    if chain.unvisited != {} {
      return Err(ExtraHeadersInVotesAncestries);
    }
    if cumulative >= Threshold(voters) {
      result := Ok(());
    } else {
      result := Err(TooLowCumulativeWeight);
    }
  }

  /** The weight tallied so far is the weight of the votes tallied so far. */
  lemma TallyWeighsVotes(
    check: SignatureCheck, setId: nat, voters: VoterSet, j: GrandpaJustification, parents: Parents, k: nat)
    requires k <= |j.precommits| && Acyclic(parents) && TallyAfter(check, setId, voters, j, parents, k).Ok?
    ensures var t := TallyAfter(check, setId, voters, j, parents, k).value;
            t.weight == WeightOf(voters, t.votes)
  {
    TallyIsExact(check, setId, voters, j, parents, k);
  }

  lemma {:induction false} ErrorIsFinal(
    check: SignatureCheck, setId: nat, voters: VoterSet, j: GrandpaJustification, parents: Parents, k: nat)
    requires k <= |j.precommits|
    ensures TallyAfter(check, setId, voters, j, parents, k).Err? ==>
              TallyAfter(check, setId, voters, j, parents, |j.precommits|) == TallyAfter(check, setId, voters, j, parents, k)
    decreases |j.precommits| - k
  {
    if k < |j.precommits| { ErrorIsFinal(check, setId, voters, j, parents, k + 1); }
  }
}
