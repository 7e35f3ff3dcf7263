/** bft/vote.go: the leader's book of votes, by round, phase and signed payload. */
module Votes {
  import opened Lib
  import opened Sums
  import opened Quorum
  import opened Bft

  /** What the signature of a vote covers besides the view: the payload and the leader it is for. */
  datatype Ballot = Ballot(payload: Payload, proposerKey: ReplicaId)

  /** The replica message: who signed which ballot in which round and phase, and what the
      certificate it may carry was found to be. */
  datatype SignedVote = SignedVote(voter: ReplicaId, round: nat, phase: Phase, ballot: Ballot)

  /** A tally of equal votes: the power counted so far, and the signers enabled in the multi-key. */
  datatype VoteSet = VoteSet(totalVotedPower: nat, signers: set<ReplicaId>)

  datatype AddResult = Added | NotInSet | DuplicateVote | InvalidHighQC | UnableToAddSigner

  type VotesForHeight = map<nat, map<Phase, map<Ballot, VoteSet>>>

  const EMPTY: VoteSet := VoteSet(0, {})

  /** The vote sets of one round and phase. */
  function SetsAt(votes: VotesForHeight, round: nat, phase: Phase): map<Ballot, VoteSet> {
    if round in votes && phase in votes[round] then votes[round][phase] else map[]
  }

  function SetFor(votes: VotesForHeight, round: nat, phase: Phase, b: Ballot): VoteSet {
    if b in SetsAt(votes, round, phase) then SetsAt(votes, round, phase)[b] else EMPTY
  }

  /** Each tally is the power of exactly its enabled signers, all of them members. */
  ghost predicate Accounted(c: Committee, votes: VotesForHeight) {
    forall r: nat, p: Phase, b :: Exact(c, SetFor(votes, r, p, b))
  }

  ghost predicate Exact(c: Committee, v: VoteSet) {
    v.signers <= c.Keys && v.totalVotedPower == Power(c, v.signers)
  }

  class VoteBook {
    const committee: Committee
    var votes: VotesForHeight

    constructor (c: Committee)
      ensures committee == c && Accounted(c, votes)
    {
      committee := c;
      votes := map[];
    }

    /** getVoteSet: fills the nested maps on demand and returns the set to count the vote in. */
    method GetVoteSet(v: SignedVote) returns (s: VoteSet)
      modifies this`votes
      ensures s == SetFor(old(votes), v.round, v.phase, v.ballot)
      ensures v.ballot in SetsAt(votes, v.round, v.phase)
      ensures forall r: nat, p: Phase, b :: SetFor(votes, r, p, b) == SetFor(old(votes), r, p, b)
    {
      if v.round !in votes {
        votes := votes[v.round := map[]];
      }
      if v.phase !in votes[v.round] {
        var byPhase: map<Phase, map<Ballot, VoteSet>> := votes[v.round];
        byPhase := byPhase[v.phase := map[]];
        votes := votes[v.round := byPhase];
      }
      if v.ballot !in votes[v.round][v.phase] {
        Write(v, EMPTY);
      }
      s := votes[v.round][v.phase][v.ballot];
    }

    method Write(v: SignedVote, s: VoteSet)
      requires v.round in votes && v.phase in votes[v.round]
      modifies this`votes
      ensures v.round in votes && v.phase in votes[v.round] && v.ballot in votes[v.round][v.phase]
      ensures SetFor(votes, v.round, v.phase, v.ballot) == s
      ensures forall r: nat, p: Phase, b :: (r, p, b) != (v.round, v.phase, v.ballot) ==>
                SetFor(votes, r, p, b) == SetFor(old(votes), r, p, b)
    {
      var byPhase: map<Phase, map<Ballot, VoteSet>> := votes[v.round];
      byPhase := byPhase[v.phase := votes[v.round][v.phase][v.ballot := s]];
      votes := votes[v.round := byPhase];
    }

    /** AddVote: nobody is counted twice, and the tallies stay exact unless the multi-key refuses the
        signer after the power was already added. */
    method AddVote(v: SignedVote, highQCValid: bool, signerAccepted: bool) returns (r: AddResult)
      requires Accounted(committee, votes)
      modifies this`votes
      ensures var before := SetFor(old(votes), v.round, v.phase, v.ballot);
              var after := SetFor(votes, v.round, v.phase, v.ballot);
              && (r.InvalidHighQC? <==> v.phase == ELECTION_VOTE && !highQCValid)
              && (r.NotInSet? <==> !r.InvalidHighQC? && v.voter !in committee)
              && (r.DuplicateVote? <==> !r.InvalidHighQC? && v.voter in before.signers)
              && (r.Added? ==> after == VoteSet(before.totalVotedPower + Get(committee, v.voter), before.signers + {v.voter}))
              && (r.InvalidHighQC? || r.NotInSet? || r.DuplicateVote? ==> after == before)
      ensures forall ro: nat, p: Phase, b :: (ro, p, b) != (v.round, v.phase, v.ballot) ==>
                SetFor(votes, ro, p, b) == SetFor(old(votes), ro, p, b)
      ensures Accounted(committee, votes) <==> !(r.UnableToAddSigner? && Get(committee, v.voter) > 0)
    {
      var s := GetVoteSet(v);
      assert Exact(committee, SetFor(votes, v.round, v.phase, v.ballot));
      if v.phase == ELECTION_VOTE && !highQCValid { return InvalidHighQC; }
      if v.voter !in committee { return NotInSet; }
      if v.voter in s.signers { return DuplicateVote; }
      s := s.(totalVotedPower := s.totalVotedPower + committee[v.voter]);
      Write(v, s);
      if !signerAccepted {
        assert Exact(committee, SetFor(votes, v.round, v.phase, v.ballot)) <==> Get(committee, v.voter) == 0;
        return UnableToAddSigner;
      }
      PowerAdd(committee, s.signers, v.voter);
      s := s.(signers := s.signers + {v.voter});
      Write(v, s);
      assert Exact(committee, s);
      return Added;
    }

    /** GetMajorityVote, in whatever order the map of the previous phase is read. */
    method GetMajorityVote(round: nat, phase: Phase, maj23: nat) returns (found: Option<Ballot>)
      requires maj23 == Maj23(committee)
      ensures found.Some? ==>
                && found.value in SetsAt(votes, round, phase)
                && SetFor(votes, round, phase, found.value).totalVotedPower >= maj23
      ensures found.None? ==> forall b :: SetFor(votes, round, phase, b).totalVotedPower < maj23
    {
      var sets := SetsAt(votes, round, phase);
      var rest := sets.Keys;
      while rest != {}
        invariant rest <= sets.Keys
        invariant forall b :: b in sets && b !in rest ==> sets[b].totalVotedPower < maj23
        decreases rest
      {
        var b :| b in rest;
        if sets[b].totalVotedPower >= maj23 { return Some(b); }
        rest := rest - {b};
      }
      return None;
    }
  }

  /** Two ballots of one round and phase that both reach the majority have common signers worth more
      than a third of the power; if those who sign twice hold less than a third, there is no such pair. */
  lemma {:induction false} TwoMajoritiesDoubleSign(c: Committee, votes: VotesForHeight, round: nat, phase: Phase, a: Ballot, b: Ballot)
    requires Accounted(c, votes)
    requires SetFor(votes, round, phase, a).totalVotedPower >= Maj23(c)
    requires SetFor(votes, round, phase, b).totalVotedPower >= Maj23(c)
    ensures 3 * Power(c, SetFor(votes, round, phase, a).signers * SetFor(votes, round, phase, b).signers) > Total(c)
  {
    assert Exact(c, SetFor(votes, round, phase, a)) && Exact(c, SetFor(votes, round, phase, b));
    QuorumsShareAThird(c, SetFor(votes, round, phase, a).signers, SetFor(votes, round, phase, b).signers);
  }

  /** So the answer of GetMajorityVote does not depend on the order of the map. */
  lemma {:induction false} OneMajority(c: Committee, byz: set<ReplicaId>, votes: VotesForHeight, round: nat, phase: Phase,
                                       a: Ballot, b: Ballot)
    requires Accounted(c, votes) && 3 * Power(c, byz) < Total(c)
    requires forall x, y :: x != y ==>
               SetFor(votes, round, phase, x).signers * SetFor(votes, round, phase, y).signers <= byz
    requires SetFor(votes, round, phase, a).totalVotedPower >= Maj23(c)
    requires SetFor(votes, round, phase, b).totalVotedPower >= Maj23(c)
    ensures a == b
  {
    if a != b {
      TwoMajoritiesDoubleSign(c, votes, round, phase, a, b);
      PowerMono(c, SetFor(votes, round, phase, a).signers * SetFor(votes, round, phase, b).signers, byz);
      assert false;
    }
  }
}
