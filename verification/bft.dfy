/** bft/bft.go: one replica of NestBFT, at one chain height and one root height. */
module Bft {
  import opened Lib
  import opened Quorum

  type Hash = nat

  /** What a replica votes on: the hash of a block and the hash of its certificate results. */
  datatype Payload = Payload(block: Hash, results: Hash)

  type Phase = p: nat | 1 <= p <= 10 witness 1
  const ELECTION: Phase := 1
  const ELECTION_VOTE: Phase := 2
  const PROPOSE: Phase := 3
  const PROPOSE_VOTE: Phase := 4
  const PRECOMMIT: Phase := 5
  const PRECOMMIT_VOTE: Phase := 6
  const COMMIT: Phase := 7
  const COMMIT_PROCESS: Phase := 8
  const ROUND_INTERRUPT: Phase := 9
  const PACEMAKER: Phase := 10

  /** A quorum certificate, reduced to what its signature is over: the view of the votes and their payload. */
  datatype QC = QC(phase: Phase, round: nat, payload: Payload)

  /** A block and results as they are stored, identified with their hashes; none when the pointer is nil. */
  datatype Content = Content(block: Option<Hash>, results: Option<Hash>)
  {
    predicate Fits(p: Payload) { (block.None? || block.value == p.block) && (results.None? || results.value == p.results) }
  }

  const NOTHING: Content := Content(None, None)

  /** The hash of absent results. */
  const NO_RESULTS: Hash := 0

  function ResultsHash(c: Content): Hash { if c.results.Some? then c.results.value else NO_RESULTS }

  /** A PROPOSE message, and a PRECOMMIT or COMMIT message justified by a certificate. */
  datatype Proposal = Proposal(sender: ReplicaId, payload: Payload, highQC: Option<QC>, rcBuildHeight: nat)
  datatype Justified = Justified(sender: ReplicaId, qc: QC, rcBuildHeight: nat)

  datatype Verdict = Safety | Liveness | NoJustification | MismatchedProposals | FailedPredicate
  {
    predicate Accepts() { Safety? || Liveness? }
  }

  /** SafeNode, with the mismatch test exactly as coded: it rejects only when BOTH hashes differ. */
  function SafeNode(lock: QC, msg: Proposal): Verdict {
    if msg.highQC.None? then NoJustification
    else if msg.payload.block != msg.highQC.value.payload.block
         && msg.payload.results != msg.highQC.value.payload.results then MismatchedProposals
    else if lock.payload == msg.highQC.value.payload then Safety
    else if msg.highQC.value.round > lock.round then Liveness
    else FailedPredicate
  }

  /** The fields of the BFT structure that decide what a replica signs: `locked` is the block and results kept
      with the lock, `stored` those of the round's proposal, and `blockHash` the hash computed from them once. */
  datatype Node = Node(
    id: ReplicaId,
    round: nat,
    phase: Phase,
    highQC: Option<QC>,
    locked: Content,
    rcBuildHeight: nat,
    stored: Content,
    blockHash: Option<Hash>,
    proposerKey: Option<ReplicaId>)

  datatype Effect = Silent | Proposes(msg: Proposal) | Votes(phase: Phase, payload: Payload) | Commits(payload: Payload)

  /** ProduceProposal: what it returns, and whether without an error. */
  datatype Produced = Produced(rcBuildHeight: nat, content: Content, ok: bool)

  /** Everything a phase reads from outside: the stored messages and the verdicts of the controller. */
  datatype Input = Input(
    proposal: Option<Proposal>,
    justified: Option<Justified>,
    produced: Produced,
    hasMajority: bool,                 // GetMajorityVote
    lastRootHeightUpdated: nat,
    validProposal: bool,               // ValidateProposal
    accepted: bool,                    // the quorum and phase tests of HandlePeerBlock
    peersRound: nat)                   // the round Pacemaker reads off the view messages

  /** GetBlockHash: computed when it is first asked for, and kept until the next round. */
  function HashOf(n: Node): Option<Hash> { if n.blockHash.Some? then n.blockHash else n.stored.block }

  function Hashed(n: Node): Node { n.(blockHash := HashOf(n)) }

  function Interrupted(n: Node): Node { n.(phase := ROUND_INTERRUPT) }

  /** What the other replicas take of a PROPOSE message: it needs a block with its hash, and results. */
  function Sent(n: Node): Effect {
    if n.stored.block.Some? && n.stored.results.Some? && HashOf(n) == n.stored.block
    then Proposes(Proposal(n.id, Payload(n.stored.block.value, n.stored.results.value), n.highQC, n.rcBuildHeight))
    else Silent
  }

  function OnPropose(n: Node, i: Input): (Node, Effect) {
    if !i.hasMajority then (n, Silent)
    else if n.highQC.Some? then
      var n := n.(stored := n.locked);
      (Hashed(n), Sent(n))
    else
      var n := n.(rcBuildHeight := i.produced.rcBuildHeight, stored := i.produced.content);
      if i.produced.ok then (Hashed(n), Sent(n)) else (n, Silent)
  }

  function OnProposeVote(n: Node, i: Input): (Node, Effect) {
    if i.proposal.None? then (Interrupted(n), Silent) else
      var msg := i.proposal.value;
      var n := n.(proposerKey := Some(msg.sender));
      if n.highQC.Some? && !SafeNode(n.highQC.value, msg).Accepts() then (Interrupted(n), Silent)
      else if msg.rcBuildHeight < i.lastRootHeightUpdated then (Interrupted(n), Silent)
      else if !i.validProposal then (Interrupted(n), Silent)
      else
        var n := Hashed(n.(stored := Content(Some(msg.payload.block), Some(msg.payload.results))));
        (n, Votes(PROPOSE_VOTE, Payload(n.blockHash.value, msg.payload.results)))
  }

  /** The second test of CheckProposerAndProposal: the hashes of the proposal voted on this round. */
  predicate Expected(n: Node, p: Payload) { HashOf(n) == Some(p.block) && ResultsHash(n.stored) == p.results }

  function OnPrecommitVote(n: Node, i: Input): (Node, Effect) {
    if i.justified.None? || n.proposerKey != Some(i.justified.value.sender) then (Interrupted(n), Silent) else
      var n, msg := Hashed(n), i.justified.value;
      if !Expected(n, msg.qc.payload) then (Interrupted(n), Silent)
      else (n.(highQC := Some(msg.qc), locked := n.stored, rcBuildHeight := msg.rcBuildHeight),
            Votes(PRECOMMIT_VOTE, msg.qc.payload))
  }

  /** The block sent to the controller is committed if the controller accepts the certificate and finds the block
      and results beside it that it is for. */
  function OnCommitProcess(n: Node, i: Input): (Node, Effect) {
    if i.justified.None? || n.proposerKey != Some(i.justified.value.sender) then (Interrupted(n), Silent) else
      var n, p := Hashed(n), i.justified.value.qc.payload;
      if !Expected(n, p) then (Interrupted(n), Silent)
      else (n, if i.accepted && n.stored == Content(Some(p.block), Some(p.results)) then Commits(p) else Silent)
  }

  function NewRound(n: Node): Node {
    n.(round := n.round + 1, proposerKey := None, stored := NOTHING, blockHash := None)
  }

  function OnPacemaker(n: Node, i: Input): Node {
    var n := NewRound(n);
    n.(round := Max(n.round, i.peersRound))
  }

  function RunPhase(n: Node, i: Input): (Node, Effect) {
    match n.phase
    case 2 => (n.(proposerKey := None), Silent)
    case 3 => OnPropose(n, i)
    case 4 => OnProposeVote(n, i)
    case 5 => (LeaderPhase(n, i), Silent)
    case 6 => OnPrecommitVote(n, i)
    case 7 => (LeaderPhase(n, i), Silent)
    case 8 => OnCommitProcess(n, i)
    case 10 => (OnPacemaker(n, i), Silent)
    case _ => (n, Silent)
  }

  /** StartPrecommitPhase and StartCommitPhase: a leader without its majority interrupts the round. */
  function LeaderPhase(n: Node, i: Input): Node {
    if n.proposerKey != Some(n.id) then n else if !i.hasMajority then Interrupted(n) else Hashed(n)
  }

  /** SetTimerForNextPhase. */
  function NextTimer(n: Node): Node {
    if n.phase == COMMIT_PROCESS then n
    else if n.phase == PACEMAKER then n.(phase := ELECTION)
    else n.(phase := n.phase + 1)
  }

  function HandlePhase(n: Node, i: Input): (Node, Effect) {
    var (n', e) := RunPhase(n, i);
    (NextTimer(n'), e)
  }

  /** Less, of the views of two certificates of one height. */
  predicate Less(a: QC, b: QC) { a.round < b.round || (a.round == b.round && a.phase < b.phase) }

  /** handleHighQCVDFAndEvidence: a reported certificate of a later view replaces the lock, and the block and
      results beside the vote (usually none) replace the stored ones, but not their hash. */
  function OnHighQC(n: Node, qc: QC, kept: Content, rcBuildHeight: nat, carried: Content): Node {
    if n.highQC.None? || Less(n.highQC.value, qc)
    then n.(highQC := Some(qc), locked := kept, stored := carried, rcBuildHeight := rcBuildHeight)
    else n
  }

  /** GetValidateMessageParams: any message has the stored block hashed. */
  function OnMessage(n: Node): Node { if n.stored.block.Some? then Hashed(n) else n }

  /** Views are ordered by round, then phase. */
  predicate ViewLess(r: nat, p: nat, r': nat, p': nat) {
    r < r' || (r == r' && p < p')
  }

  predicate SameView(n: Node, n': Node) { n'.round == n.round && n'.phase == n.phase }

  /** View progress: a phase timeout moves the view strictly forward, except that a replica which
      reached a commit stays where it is until it is reset; and only the vote phases sign anything. */
  lemma ViewProgress(n: Node, i: Input)
    ensures var (n', e) := HandlePhase(n, i);
            && (if n'.phase == COMMIT_PROCESS && n.phase == COMMIT_PROCESS then SameView(n, n')
                else ViewLess(n.round, n.phase, n'.round, n'.phase))
            && (e.Commits? ==> n.phase == COMMIT_PROCESS && SameView(n, n'))
            && (e.Votes? ==> e.phase == n.phase && n'.round == n.round && n.phase in {PROPOSE_VOTE, PRECOMMIT_VOTE})
  {
    if n.phase == COMMIT_PROCESS { assert !OnCommitProcess(n, i).1.Votes?; }
  }

  /** The lock changes only with a PRECOMMIT-VOTE, to the certificate that vote is for. */
  lemma LockMoves(n: Node, i: Input)
    ensures var (n', e) := HandlePhase(n, i);
            if e.Votes? && e.phase == PRECOMMIT_VOTE
            then i.justified.Some? && n'.highQC == Some(i.justified.value.qc) && e.payload == i.justified.value.qc.payload
            else n'.highQC == n.highQC && n'.locked == n.locked
  {}

  /** The hash, once computed, is that of the stored block; what is kept with the lock is what the lock is for;
      and a round starts with nothing stored. */
  predicate Coherent(n: Node) {
    && (n.blockHash.Some? && n.stored.block.Some? ==> n.blockHash == n.stored.block)
    && (n.highQC.Some? ==> n.locked.Fits(n.highQC.value.payload))
    && (n.phase <= PROPOSE ==> n.blockHash.None? && n.stored == NOTHING)
  }

  /** The block offered is the one already hashed this round, if any. */
  predicate Consistent(n: Node, msg: Proposal) { n.blockHash.None? || n.blockHash == Some(msg.payload.block) }

  /** A coherent replica stays so, signs what it was offered, and proposes its lock. */
  predicate Follows(n: Node, i: Input) {
    var (n', e) := HandlePhase(n, i);
    && Coherent(n')
    && (e.Votes? && e.phase == PROPOSE_VOTE ==> i.proposal.Some? && e.payload == i.proposal.value.payload)
    && (e.Proposes? ==> e.msg.highQC == n.highQC && (n.highQC.Some? ==> e.msg.payload == n.highQC.value.payload))
  }

  lemma FollowsAtPropose(n: Node, i: Input)
    requires Coherent(n) && n.phase == PROPOSE
    ensures Follows(n, i)
  {}

  lemma FollowsAtProposeVote(n: Node, i: Input)
    requires Coherent(n) && n.phase == PROPOSE_VOTE && (i.proposal.Some? ==> Consistent(n, i.proposal.value))
    ensures Follows(n, i)
  {}

  lemma FollowsAtPrecommitVote(n: Node, i: Input)
    requires Coherent(n) && n.phase == PRECOMMIT_VOTE
    ensures Follows(n, i)
  {}

  lemma FollowsElsewhere(n: Node, i: Input)
    requires Coherent(n) && n.phase !in {PROPOSE, PROPOSE_VOTE, PRECOMMIT_VOTE}
    ensures Follows(n, i)
  {}

  /** It does so at every timeout, if it is never offered a second block in a round. */
  lemma StaysCoherent(n: Node, i: Input)
    requires Coherent(n) && (n.phase == PROPOSE_VOTE && i.proposal.Some? ==> Consistent(n, i.proposal.value))
    ensures Follows(n, i)
  {
    if n.phase == PROPOSE {
      FollowsAtPropose(n, i);
    } else if n.phase == PROPOSE_VOTE {
      FollowsAtProposeVote(n, i);
    } else if n.phase == PRECOMMIT_VOTE {
      FollowsAtPrecommitVote(n, i);
    } else {
      FollowsElsewhere(n, i);
    }
  }

  /** What a locked replica must be able to rely on before it votes for a proposal. */
  predicate Protects(lock: QC, msg: Proposal) {
    && msg.highQC.Some?
    && msg.payload == msg.highQC.value.payload
    && (msg.payload == lock.payload || msg.highQC.value.round > lock.round)
  }

  /** Exactly one of the two hashes agrees with the certificate that should justify the proposal. */
  predicate HalfJustified(proposed: Payload, certified: Payload) {
    (proposed.block == certified.block) != (proposed.results == certified.results)
  }

  /** The coded predicate accepts what protects the lock, and beyond that exactly the proposals whose
      certificate passes the lock test while it matches only one of their two hashes. */
  lemma SafeNodeAccepts(lock: QC, msg: Proposal)
    ensures SafeNode(lock, msg).Accepts() <==>
            || Protects(lock, msg)
            || (msg.highQC.Some? && HalfJustified(msg.payload, msg.highQC.value.payload)
                && (lock.payload == msg.highQC.value.payload || msg.highQC.value.round > lock.round))
  {
    if msg.highQC.Some? {
      var q := msg.highQC.value.payload;
      assert msg.payload == q <==> msg.payload.block == q.block && msg.payload.results == q.results;
    }
  }

  // ---- Exactly when a replica acts ---------------------------------------

  /** A PROPOSE-VOTE is cast if and only if there is a proposal that passes the lock test (when there is a lock),
      was built no earlier than the last root height, and was found valid; otherwise the round is interrupted. */
  lemma VotesExactly(n: Node, i: Input)
    requires n.phase == PROPOSE_VOTE
    ensures var (n', e) := HandlePhase(n, i);
            && (e.Votes? <==>
                  && i.proposal.Some? && i.validProposal && i.proposal.value.rcBuildHeight >= i.lastRootHeightUpdated
                  && (n.highQC.Some? ==> SafeNode(n.highQC.value, i.proposal.value).Accepts()))
            && (e.Votes? ==>
                  && e.phase == PROPOSE_VOTE && e.payload.results == i.proposal.value.payload.results
                  && e.payload.block == (if n.blockHash.Some? then n.blockHash.value else i.proposal.value.payload.block)
                  && n'.phase == PRECOMMIT && n'.proposerKey == Some(i.proposal.value.sender)
                  && n'.stored == Content(Some(i.proposal.value.payload.block), Some(i.proposal.value.payload.results)))
            && (!e.Votes? ==> e.Silent? && n'.phase == PACEMAKER && n'.stored == n.stored)
            && n'.highQC == n.highQC && n'.round == n.round
  {}

  /** What CheckProposerAndProposal asks of a PRECOMMIT or COMMIT: the round's proposer, and certificate hashes that
      are those of the block hashed and the results stored this round. */
  predicate Answers(n: Node, msg: Justified) {
    && n.proposerKey == Some(msg.sender)
    && (if n.blockHash.Some? then n.blockHash else n.stored.block) == Some(msg.qc.payload.block)
    && (if n.stored.results.Some? then n.stored.results.value else NO_RESULTS) == msg.qc.payload.results
  }

  /** A PRECOMMIT-VOTE is cast, and the lock taken, if and only if the justification answers the proposal. */
  lemma PrecommitsExactly(n: Node, i: Input)
    requires n.phase == PRECOMMIT_VOTE
    ensures var (n', e) := HandlePhase(n, i);
            && (e.Votes? <==> i.justified.Some? && Answers(n, i.justified.value))
            && (e.Votes? ==>
                  && e.phase == PRECOMMIT_VOTE && e.payload == i.justified.value.qc.payload
                  && n'.highQC == Some(i.justified.value.qc) && n'.locked == n.stored
                  && n'.rcBuildHeight == i.justified.value.rcBuildHeight && n'.phase == COMMIT)
            && (!e.Votes? ==> e.Silent? && n'.phase == PACEMAKER && n'.highQC == n.highQC && n'.locked == n.locked)
  {}

  /** And a block is committed if and only if it does and the controller accepts it with the stored content. */
  lemma CommitsExactly(n: Node, i: Input)
    requires n.phase == COMMIT_PROCESS
    ensures var (n', e) := HandlePhase(n, i);
            && (e.Commits? <==>
                  && i.justified.Some? && Answers(n, i.justified.value) && i.accepted
                  && n.stored == Content(Some(i.justified.value.qc.payload.block), Some(i.justified.value.qc.payload.results)))
            && (e.Commits? ==> e.payload == i.justified.value.qc.payload)
            && (n'.phase == COMMIT_PROCESS <==> i.justified.Some? && Answers(n, i.justified.value))
            && n'.highQC == n.highQC
  {}

  /** A leader with its majority proposes its lock's content, or what it produced, whenever that is complete and its
      hash is the one it has; one without proposes nothing. */
  lemma ProposesExactly(n: Node, i: Input)
    requires n.phase == PROPOSE
    ensures var (n', e) := HandlePhase(n, i);
            var content := if n.highQC.Some? then n.locked else i.produced.content;
            && (e.Proposes? <==>
                  && i.hasMajority && (n.highQC.None? ==> i.produced.ok)
                  && content.block.Some? && content.results.Some? && (n.blockHash.None? || n.blockHash == content.block))
            && (e.Proposes? ==>
                  e.msg == Proposal(n.id, Payload(content.block.value, content.results.value), n.highQC,
                                    if n.highQC.Some? then n.rcBuildHeight else i.produced.rcBuildHeight))
            && (!e.Proposes? ==> e.Silent?)
            && n'.phase == PROPOSE_VOTE && n'.highQC == n.highQC && n'.stored == if i.hasMajority then content else n.stored
  {}

  /** After an interrupt the next round is the larger of the following one and the one the peers reached; the lock
      survives, the round's proposal does not. */
  lemma RoundAdvances(n: Node, i: Input)
    requires n.phase == PACEMAKER
    ensures var n' := HandlePhase(n, i).0;
            && n'.round > n.round && n'.round >= i.peersRound && (n'.round == n.round + 1 || n'.round == i.peersRound)
            && n' == Node(n.id, n'.round, ELECTION, n.highQC, n.locked, n.rcBuildHeight, NOTHING, None, None)
  {}

  /** In its two leading phases a leader without its majority interrupts the round, and nobody else does. */
  lemma LeaderInterrupts(n: Node, i: Input)
    requires n.phase == PRECOMMIT || n.phase == COMMIT
    ensures var (n', e) := HandlePhase(n, i);
            && e.Silent? && n'.highQC == n.highQC && n'.stored == n.stored
            && (n'.phase == PACEMAKER <==> n.proposerKey == Some(n.id) && !i.hasMajority)
            && (n'.phase != PACEMAKER ==> n'.phase == n.phase + 1)
  {}

  /** A replica keeps the certificate of the later view of the one it has and the one that is reported to it, with what was
      kept for that one; nothing else changes but what came beside the certificate it takes. */
  lemma KeepsLater(n: Node, qc: QC, kept: Content, rcBuildHeight: nat, carried: Content)
    ensures var n' := OnHighQC(n, qc, kept, rcBuildHeight, carried);
            && n'.highQC.Some? && !Less(n'.highQC.value, qc) && (n.highQC.Some? ==> !Less(n'.highQC.value, n.highQC.value))
            && (if n'.highQC != n.highQC then
                  n'.highQC == Some(qc) && n'.locked == kept && n'.stored == carried && n'.rcBuildHeight == rcBuildHeight
                else n.highQC != Some(qc) ==> n' == n)
            && n'.round == n.round && n'.phase == n.phase && n'.blockHash == n.blockHash && n'.proposerKey == n.proposerKey
  {}

  /** A round's election forgets the proposer, and only a proposal makes a replica accept one again. */
  lemma ProposerOfRound(n: Node, i: Input)
    ensures var (n', e) := HandlePhase(n, i);
            if n.phase == ELECTION_VOTE || n.phase == PACEMAKER then n'.proposerKey.None?
            else if n.phase == PROPOSE_VOTE && i.proposal.Some? then n'.proposerKey == Some(i.proposal.value.sender)
            else n'.proposerKey == n.proposerKey
  {}

  class BFT {
    const publicKey: ReplicaId
    var round: nat
    var phase: Phase
    var highQC: Option<QC>
    var locked: Content
    var rcBuildHeight: nat
    var stored: Content
    var blockHash: Option<Hash>
    var proposerKey: Option<ReplicaId>

    function State(): Node
      reads this
    {
      Node(publicKey, round, phase, highQC, locked, rcBuildHeight, stored, blockHash, proposerKey)
    }

    constructor (key: ReplicaId)
      ensures State() == Node(key, 0, ELECTION, None, NOTHING, 0, NOTHING, None, None)
    {
      publicKey := key;
      round, phase, highQC, locked, rcBuildHeight := 0, ELECTION, None, NOTHING, 0;
      stored, blockHash, proposerKey := NOTHING, None, None;
    }

    predicate SelfIsProposer()
      reads this
    {
      proposerKey == Some(publicKey)
    }

    method GetBlockHash() returns (hash: Option<Hash>)
      modifies this`blockHash
      ensures State() == Hashed(old(State())) && hash == HashOf(old(State()))
    {
      if blockHash == None { blockHash := stored.block; }
      return blockHash;
    }

    method RoundInterrupt()
      modifies this`phase
      ensures State() == Interrupted(old(State()))
    {
      phase := ROUND_INTERRUPT;
    }

    method StartProposePhase(i: Input) returns (e: Effect)
      modifies this`stored, this`rcBuildHeight, this`blockHash
      ensures (State(), e) == OnPropose(old(State()), i)
    {
      e := Silent;
      if !i.hasMajority { return; }
      if highQC == None {
        rcBuildHeight, stored := i.produced.rcBuildHeight, i.produced.content;
        if !i.produced.ok { return; }
      } else {
        stored := locked;
      }
      var hash := GetBlockHash();
      if stored.block.Some? && stored.results.Some? && hash == stored.block {
        e := Proposes(Proposal(publicKey, Payload(stored.block.value, stored.results.value), highQC, rcBuildHeight));
      }
    }

    method StartProposeVotePhase(i: Input) returns (e: Effect)
      modifies this`phase, this`stored, this`blockHash, this`proposerKey
      ensures (State(), e) == OnProposeVote(old(State()), i)
    {
      e := Silent;
      if i.proposal == None {
        RoundInterrupt();
        return;
      }
      var msg := i.proposal.value;
      proposerKey := Some(msg.sender);
      if highQC != None {
        var verdict := SafeNode(highQC.value, msg);
        if !verdict.Accepts() {
          RoundInterrupt();
          return;
        }
      }
      if msg.rcBuildHeight < i.lastRootHeightUpdated {
        RoundInterrupt();
        return;
      }
      if !i.validProposal {
        RoundInterrupt();
        return;
      }
      stored := Content(Some(msg.payload.block), Some(msg.payload.results));
      var hash := GetBlockHash();
      e := Votes(PROPOSE_VOTE, Payload(hash.value, msg.payload.results));
    }

    method StartLeaderPhase(i: Input)
      modifies this`phase, this`blockHash
      ensures State() == LeaderPhase(old(State()), i)
    {
      if !SelfIsProposer() { return; }
      if !i.hasMajority {
        RoundInterrupt();
        return;
      }
      var _ := GetBlockHash();
    }

    /** True if the sender or a hash is not the expected one; the hash is computed only for the right sender. */
    method CheckProposerAndProposal(msg: Justified) returns (interrupt: bool)
      modifies this`blockHash
      ensures var n := old(State());
              if n.proposerKey != Some(msg.sender) then interrupt && State() == n
              else State() == Hashed(n) && interrupt == !Expected(n, msg.qc.payload)
    {
      if proposerKey != Some(msg.sender) { return true; }
      var hash := GetBlockHash();
      return hash != Some(msg.qc.payload.block) || ResultsHash(stored) != msg.qc.payload.results;
    }

    method StartPrecommitVotePhase(i: Input) returns (e: Effect)
      modifies this`phase, this`highQC, this`locked, this`rcBuildHeight, this`blockHash
      ensures (State(), e) == OnPrecommitVote(old(State()), i)
    {
      e := Silent;
      if i.justified == None {
        RoundInterrupt();
        return;
      }
      var msg := i.justified.value;
      var interrupt := CheckProposerAndProposal(msg);
      if interrupt {
        RoundInterrupt();
        return;
      }
      highQC, locked := Some(msg.qc), stored;
      rcBuildHeight := msg.rcBuildHeight;
      e := Votes(PRECOMMIT_VOTE, Payload(blockHash.value, ResultsHash(stored)));
    }

    method StartCommitProcessPhase(i: Input) returns (e: Effect)
      modifies this`phase, this`blockHash
      ensures (State(), e) == OnCommitProcess(old(State()), i)
    {
      e := Silent;
      if i.justified == None {
        RoundInterrupt();
        return;
      }
      var msg := i.justified.value;
      var interrupt := CheckProposerAndProposal(msg);
      if interrupt {
        RoundInterrupt();
        return;
      }
      if i.accepted && stored == Content(Some(msg.qc.payload.block), Some(msg.qc.payload.results)) {
        e := Commits(msg.qc.payload);
      }
    }

    method StartPacemaker(i: Input)
      modifies this`round, this`stored, this`blockHash, this`proposerKey
      ensures State() == OnPacemaker(old(State()), i)
    {
      round := round + 1;
      proposerKey := None;
      stored, blockHash := NOTHING, None;
      if i.peersRound > round {
        round := i.peersRound;
      }
    }

    method SetTimerForNextPhase()
      modifies this`phase
      ensures State() == NextTimer(old(State()))
    {
      if phase == COMMIT_PROCESS { return; }
      if phase == PACEMAKER {
        phase := ELECTION;
      } else {
        phase := phase + 1;
      }
    }

    /** The phase loop body refines the function the multi-replica runs are built from. */
    method HandlePhaseTimeout(i: Input) returns (e: Effect)
      modifies this
      ensures (State(), e) == HandlePhase(old(State()), i)
    {
      e := Silent;
      match phase {
        case 2 => proposerKey := None;
        case 3 => e := StartProposePhase(i);
        case 4 => e := StartProposeVotePhase(i);
        case 5 => StartLeaderPhase(i);
        case 6 => e := StartPrecommitVotePhase(i);
        case 7 => StartLeaderPhase(i);
        case 8 => e := StartCommitProcessPhase(i);
        case 10 => StartPacemaker(i);
        case _ =>
      }
      SetTimerForNextPhase();
    }

    method ReceiveHighQC(qc: QC, kept: Content, buildHeight: nat, carried: Content)
      modifies this`highQC, this`locked, this`stored, this`rcBuildHeight
      ensures State() == OnHighQC(old(State()), qc, kept, buildHeight, carried)
    {
      if highQC == None || Less(highQC.value, qc) {
        highQC, locked := Some(qc), kept;
        stored := carried;
        rcBuildHeight := buildHeight;
      }
    }

    method ReceiveMessage()
      modifies this`blockHash
      ensures State() == OnMessage(old(State()))
    {
      if stored.block.Some? { var _ := GetBlockHash(); }
    }
  }
}
