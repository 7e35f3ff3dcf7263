/** Runs of a whole committee: honest replicas follow Bft.HandlePhase, the Byzantine minority signs anything,
    messages are lost, reordered and replayed at will. What else the checks of bft/msg.go let a leader or a voter
    send is a parameter of the runs. */
module Agreement {
  import opened Lib
  import opened Quorum
  import opened Bft

  datatype Config = Config(committee: Committee, byz: set<ReplicaId>)

  /** Byzantine replicas hold less than a third of the power. */
  ghost predicate HonestMajority(cfg: Config) {
    3 * Power(cfg.committee, cfg.byz) < Total(cfg.committee)
  }

  predicate Honest(cfg: Config, i: ReplicaId) { i in cfg.committee && i !in cfg.byz }

  /** A signed PROPOSE-VOTE or PRECOMMIT-VOTE. The log keeps them in the order of signing. */
  datatype Vote = Vote(voter: ReplicaId, phase: Phase, round: nat, payload: Payload)

  /** `sent` are the PROPOSE messages of honest leaders. */
  datatype System = System(nodes: map<ReplicaId, Node>, log: seq<Vote>, sent: seq<Proposal>, commits: seq<(ReplicaId, Payload)>)

  function Fresh(i: ReplicaId): Node { Node(i, 0, ELECTION, None, NOTHING, 0, NOTHING, None, None) }

  function Init(cfg: Config): System {
    System(map i | i in cfg.committee :: Fresh(i), [], [], [])
  }

  function Voters(cfg: Config, log: seq<Vote>, phase: Phase, round: nat, payload: Payload): set<ReplicaId> {
    set i | i in cfg.committee && Vote(i, phase, round, payload) in log
  }

  /** A quorum signed this payload in this round and phase. */
  ghost predicate Cert(cfg: Config, log: seq<Vote>, phase: Phase, round: nat, payload: Payload) {
    IsQuorum(cfg.committee, Voters(cfg, log, phase, round, payload))
  }

  /** A genuine certificate of a payload. The signatures of an ELECTION-VOTE cover no payload. */
  ghost predicate Certified(cfg: Config, log: seq<Vote>, qc: QC) {
    qc.phase in {PROPOSE_VOTE, PRECOMMIT_VOTE} && Cert(cfg, log, qc.phase, qc.round, qc.payload)
  }

  /** What may be sent. By a Byzantine leader: which pairs of proposed and certified payload (`mismatched`); a
      HighQc that is not genuine (`unbacked`); as justification of a PRECOMMIT, a certificate of another round
      (`stale`) or one of an election, whose hashes nobody signed (`uncertified`). By a Byzantine voter, a block and
      results beside the certificate it reports (`carried`). And whether a replica may be offered one block in a
      round in which it has hashed another (`rival`). */
  datatype Admission = Admission(mismatched: (Payload, Payload) -> bool, unbacked: bool, stale: bool, uncertified: bool,
                                 carried: bool, rival: bool)

  datatype Event =
    | PhaseTimeout(i: ReplicaId, input: Input)
    | HighQCReceived(i: ReplicaId, qc: QC, kept: Content, rcBuildHeight: nat, carried: Content)
    | MessageReceived(i: ReplicaId)
    | BlockReceived(i: ReplicaId, qc: QC)
    | ByzantineVote(vote: Vote)

  /** What an honest leader has sent (StartProposePhase), or whatever the admission lets others send. */
  ghost predicate ProposalAllowed(cfg: Config, admit: Admission, s: System, msg: Proposal) {
    || msg in s.sent
    || (msg.sender in cfg.byz
        && (msg.highQC.Some? ==>
              var qc := msg.highQC.value;
              && (Certified(cfg, s.log, qc) || admit.unbacked)
              && (msg.payload == qc.payload || admit.mismatched(msg.payload, qc.payload))))
  }

  /** A PRECOMMIT carries a genuine certificate of its round, unless the admission lets a Byzantine leader deviate. */
  ghost predicate JustifiedAllowed(cfg: Config, admit: Admission, s: System, n: Node, msg: Justified) {
    var byzantine := msg.sender in cfg.byz;
    && (msg.qc.round == n.round || (byzantine && admit.stale))
    && (Certified(cfg, s.log, msg.qc) || (byzantine && admit.uncertified && msg.qc.phase == ELECTION_VOTE))
  }

  /** What HandlePeerBlock accepts: a PRECOMMIT-VOTE certificate, of whatever round. */
  ghost predicate Final(cfg: Config, log: seq<Vote>, qc: QC) {
    qc.phase == PRECOMMIT_VOTE && Cert(cfg, log, PRECOMMIT_VOTE, qc.round, qc.payload)
  }

  ghost predicate InputAllowed(cfg: Config, admit: Admission, s: System, n: Node, input: Input) {
    && (n.phase == PROPOSE_VOTE && input.proposal.Some? ==>
          && ProposalAllowed(cfg, admit, s, input.proposal.value)
          && (Consistent(n, input.proposal.value) || admit.rival))
    && (n.phase == PRECOMMIT_VOTE && input.justified.Some? ==> JustifiedAllowed(cfg, admit, s, n, input.justified.value))
    && (n.phase == COMMIT_PROCESS && input.accepted ==> input.justified.Some? && Final(cfg, s.log, input.justified.value.qc))
  }

  ghost predicate Enabled(cfg: Config, admit: Admission, s: System, e: Event) {
    match e
    case PhaseTimeout(i, input) => Honest(cfg, i) && i in s.nodes && InputAllowed(cfg, admit, s, s.nodes[i], input)
    case HighQCReceived(i, qc, kept, _, carried) =>
      && Honest(cfg, i) && i in s.nodes
      && qc.phase == PROPOSE_VOTE && Certified(cfg, s.log, qc) && kept.Fits(qc.payload)
      && (carried == NOTHING || admit.carried)
    case MessageReceived(i) => Honest(cfg, i) && i in s.nodes
    case BlockReceived(i, qc) => Honest(cfg, i) && i in s.nodes && Final(cfg, s.log, qc)
    case ByzantineVote(vote) => vote.voter in cfg.byz
  }

  function Apply(s: System, e: Event): System {
    match e
    case PhaseTimeout(i, input) =>
      if i !in s.nodes then s else
        var n := s.nodes[i];
        var (n', effect) := HandlePhase(n, input);
        var s := s.(nodes := s.nodes[i := n']);
        (match effect
         case Silent => s
         case Proposes(msg) => s.(sent := s.sent + [msg])
         case Votes(phase, payload) => s.(log := s.log + [Vote(i, phase, n.round, payload)])
         case Commits(payload) => s.(commits := s.commits + [(i, payload)]))
    case HighQCReceived(i, qc, kept, h, carried) =>
      if i !in s.nodes then s else s.(nodes := s.nodes[i := OnHighQC(s.nodes[i], qc, kept, h, carried)])
    case MessageReceived(i) => if i !in s.nodes then s else s.(nodes := s.nodes[i := OnMessage(s.nodes[i])])
    case BlockReceived(i, qc) => s.(commits := s.commits + [(i, qc.payload)])
    case ByzantineVote(vote) => s.(log := s.log + [vote])
  }

  function After(cfg: Config, run: seq<Event>): System {
    if run == [] then Init(cfg) else Apply(After(cfg, run[..|run| - 1]), run[|run| - 1])
  }

  ghost predicate Legal(cfg: Config, admit: Admission, run: seq<Event>) {
    run != [] ==>
      && Legal(cfg, admit, run[..|run| - 1])
      && Enabled(cfg, admit, After(cfg, run[..|run| - 1]), run[|run| - 1])
  }

  /** No two honest replicas commit different blocks or results. */
  predicate Agreed(s: System) {
    forall j, k | 0 <= j < |s.commits| && 0 <= k < |s.commits| :: s.commits[j].1 == s.commits[k].1
  }

  // ---- The invariant -----------------------------------------------------

  predicate VoteBefore(a: Vote, b: Vote) { ViewLess(a.round, a.phase, b.round, b.phase) }

  /** Every honest vote lies strictly before its signer's current view. */
  predicate Past(cfg: Config, s: System) {
    && s.nodes.Keys == cfg.committee.Keys
    && forall k | 0 <= k < |s.log| && Honest(cfg, s.log[k].voter) ::
         var n := s.nodes[s.log[k].voter];
         ViewLess(s.log[k].round, s.log[k].phase, n.round, n.phase)
  }

  /** One replica's votes are signed in strictly increasing views: at most one per round and phase. */
  predicate Ordered(cfg: Config, log: seq<Vote>) {
    forall j, k | 0 <= j < k < |log| && log[j].voter == log[k].voter && Honest(cfg, log[j].voter) ::
      VoteBefore(log[j], log[k])
  }

  /** An honest PRECOMMIT-VOTE was cast for a certified payload. */
  ghost predicate Backed(cfg: Config, log: seq<Vote>) {
    forall k | 0 <= k < |log| && Honest(cfg, log[k].voter) && log[k].phase == PRECOMMIT_VOTE ::
      Cert(cfg, log[..k], PROPOSE_VOTE, log[k].round, log[k].payload)
  }

  ghost predicate CertFrom(cfg: Config, log: seq<Vote>, least: nat, payload: Payload) {
    exists l: nat :: l >= least && Cert(cfg, log, PROPOSE_VOTE, l, payload)
  }

  /** An honest PROPOSE-VOTE after a PRECOMMIT-VOTE of round r was, when it was cast, for a payload
      already certified in round r or later. */
  ghost predicate Guarded(cfg: Config, log: seq<Vote>) {
    forall j, k | 0 <= j < k < |log| && log[j].voter == log[k].voter && Honest(cfg, log[k].voter)
                  && log[j].phase == PRECOMMIT_VOTE && log[k].phase == PROPOSE_VOTE ::
      CertFrom(cfg, log[..k], log[j].round, log[k].payload)
  }

  /** A lock is never of an earlier round than its owner's PRECOMMIT votes. */
  predicate KeepsUp(cfg: Config, s: System) {
    && s.nodes.Keys == cfg.committee.Keys
    && forall k | 0 <= k < |s.log| && Honest(cfg, s.log[k].voter) && s.log[k].phase == PRECOMMIT_VOTE ::
         var lock := s.nodes[s.log[k].voter].highQC;
         lock.Some? && lock.value.round >= s.log[k].round
  }

  /** Every lock's payload was certified in its round. */
  ghost predicate Locked(cfg: Config, s: System) {
    && s.nodes.Keys == cfg.committee.Keys
    && forall i | Honest(cfg, i) && s.nodes[i].highQC.Some? ::
         Cert(cfg, s.log, PROPOSE_VOTE, s.nodes[i].highQC.value.round, s.nodes[i].highQC.value.payload)
  }

  /** An honest leader proposes anew, or exactly what its certified lock is for. */
  ghost predicate Proposed(cfg: Config, s: System) {
    forall k | 0 <= k < |s.sent| && s.sent[k].highQC.Some? ::
      var qc := s.sent[k].highQC.value;
      s.sent[k].payload == qc.payload && Cert(cfg, s.log, PROPOSE_VOTE, qc.round, qc.payload)
  }

  predicate AllCoherent(cfg: Config, s: System) {
    s.nodes.Keys == cfg.committee.Keys && forall i | i in cfg.committee :: Honest(cfg, i) ==> Coherent(s.nodes[i])
  }

  ghost predicate Chosen(cfg: Config, log: seq<Vote>, payload: Payload) {
    exists r: nat :: Cert(cfg, log, PRECOMMIT_VOTE, r, payload)
  }

  ghost predicate CommitsCertified(cfg: Config, s: System) {
    forall k | 0 <= k < |s.commits| :: Chosen(cfg, s.log, s.commits[k].1)
  }

  /** Nothing is admitted beyond what the checks are meant to let through: certificates are genuine and of their
      message's round, match a proposal fully or not at all, and no block replaces another that was hashed. */
  ghost predicate Strict(admit: Admission) {
    && !admit.unbacked && !admit.stale && !admit.uncertified && !admit.carried && !admit.rival
    && forall p, q :: admit.mismatched(p, q) ==> !HalfJustified(p, q)
  }

  ghost predicate Guards(cfg: Config, admit: Admission) { HonestMajority(cfg) && Strict(admit) }

  /** What holds whatever is sent. */
  ghost predicate Base(cfg: Config, s: System) { Past(cfg, s) && Ordered(cfg, s.log) && CommitsCertified(cfg, s) }

  /** What holds when nothing else is admitted. */
  ghost predicate Safe(cfg: Config, s: System) {
    Backed(cfg, s.log) && Guarded(cfg, s.log) && Locked(cfg, s) && Proposed(cfg, s) && AllCoherent(cfg, s)
  }

  /** The whole invariant, part by part as what is admitted allows it. */
  ghost predicate Inv(cfg: Config, admit: Admission, s: System) {
    && Base(cfg, s)
    && (!admit.stale ==> KeepsUp(cfg, s))
    && (Guards(cfg, admit) ==> Safe(cfg, s))
  }

  lemma CertGrows(cfg: Config, log: seq<Vote>, more: seq<Vote>, phase: Phase, round: nat, payload: Payload)
    requires Cert(cfg, log, phase, round, payload)
    ensures Cert(cfg, log + more, phase, round, payload)
  {
    PowerMono(cfg.committee, Voters(cfg, log, phase, round, payload), Voters(cfg, log + more, phase, round, payload));
  }

  // ---- Preservation ------------------------------------------------------

  lemma InitInv(cfg: Config, admit: Admission)
    ensures Inv(cfg, admit, Init(cfg))
  {}

  /** What an honest vote rests on when it is cast. */
  ghost predicate Founded(cfg: Config, log: seq<Vote>, v: Vote) {
    && (v.phase == PRECOMMIT_VOTE ==> Cert(cfg, log, PROPOSE_VOTE, v.round, v.payload))
    && (v.phase == PROPOSE_VOTE ==>
          forall j | 0 <= j < |log| && log[j].voter == v.voter && log[j].phase == PRECOMMIT_VOTE ::
            CertFrom(cfg, log, log[j].round, v.payload))
  }

  lemma OrderGrows(cfg: Config, log: seq<Vote>, v: Vote)
    requires Ordered(cfg, log)
    requires Honest(cfg, v.voter) ==> forall j | 0 <= j < |log| && log[j].voter == v.voter :: VoteBefore(log[j], v)
    ensures Ordered(cfg, log + [v])
  {}

  lemma LogGrows(cfg: Config, log: seq<Vote>, v: Vote)
    requires Backed(cfg, log) && Guarded(cfg, log) && (Honest(cfg, v.voter) ==> Founded(cfg, log, v))
    ensures Backed(cfg, log + [v]) && Guarded(cfg, log + [v])
  {
    var log' := log + [v];
    assert log'[..|log|] == log;
    forall k | 0 <= k < |log| ensures log'[..k] == log[..k] && log'[k] == log[k] {}
  }

  /** Certificates already present stay present, so locks, proposals and commits stay justified. */
  lemma CommitsSurvive(cfg: Config, s: System, v: Vote)
    requires CommitsCertified(cfg, s)
    ensures CommitsCertified(cfg, s.(log := s.log + [v]))
  {
    forall k | 0 <= k < |s.commits|
      ensures Chosen(cfg, s.log + [v], s.commits[k].1)
    {
      var r: nat :| Cert(cfg, s.log, PRECOMMIT_VOTE, r, s.commits[k].1);
      CertGrows(cfg, s.log, [v], PRECOMMIT_VOTE, r, s.commits[k].1);
    }
  }

  lemma LocksSurvive(cfg: Config, s: System, v: Vote)
    requires Locked(cfg, s) && Proposed(cfg, s)
    ensures Locked(cfg, s.(log := s.log + [v])) && Proposed(cfg, s.(log := s.log + [v]))
  {
    forall i | Honest(cfg, i) && s.nodes[i].highQC.Some?
      ensures Cert(cfg, s.log + [v], PROPOSE_VOTE, s.nodes[i].highQC.value.round, s.nodes[i].highQC.value.payload)
    {
      CertGrows(cfg, s.log, [v], PROPOSE_VOTE, s.nodes[i].highQC.value.round, s.nodes[i].highQC.value.payload);
    }
    forall k | 0 <= k < |s.sent| && s.sent[k].highQC.Some?
      ensures Cert(cfg, s.log + [v], PROPOSE_VOTE, s.sent[k].highQC.value.round, s.sent[k].highQC.value.payload)
    {
      CertGrows(cfg, s.log, [v], PROPOSE_VOTE, s.sent[k].highQC.value.round, s.sent[k].highQC.value.payload);
    }
  }

  lemma ByzantineKept(cfg: Config, admit: Admission, s: System, v: Vote)
    requires Inv(cfg, admit, s) && v.voter in cfg.byz
    ensures Inv(cfg, admit, s.(log := s.log + [v]))
  {
    OrderGrows(cfg, s.log, v);
    CommitsSurvive(cfg, s, v);
    if Guards(cfg, admit) {
      LogGrows(cfg, s.log, v);
      LocksSurvive(cfg, s, v);
    }
  }

  /** A PRECOMMIT quorum has honest signers, and they saw a PROPOSE-VOTE certificate of the same round. */
  lemma HonestSigner(cfg: Config, log: seq<Vote>, phase: Phase, round: nat, payload: Payload)
    returns (i: ReplicaId, k: nat)
    requires HonestMajority(cfg) && Cert(cfg, log, phase, round, payload)
    ensures Honest(cfg, i) && k < |log| && log[k] == Vote(i, phase, round, payload)
  {
    var quorum := Voters(cfg, log, phase, round, payload);
    i := QuorumsShareAnHonest(cfg.committee, cfg.byz, quorum, quorum);
    k :| 0 <= k < |log| && log[k] == Vote(i, phase, round, payload);
  }

  lemma PrecommitImpliesPropose(cfg: Config, log: seq<Vote>, r: nat, p: Payload)
    requires HonestMajority(cfg) && Backed(cfg, log) && Cert(cfg, log, PRECOMMIT_VOTE, r, p)
    ensures Cert(cfg, log, PROPOSE_VOTE, r, p)
  {
    var i, k := HonestSigner(cfg, log, PRECOMMIT_VOTE, r, p);
    assert Cert(cfg, log[..k], PROPOSE_VOTE, log[k].round, log[k].payload);
    CertGrows(cfg, log[..k], log[k..], PROPOSE_VOTE, r, p);
    assert log[..k] + log[k..] == log;
  }

  /** So a genuine certificate of either phase is as good as one of a PROPOSE-VOTE. */
  lemma CertifiedIsProposed(cfg: Config, log: seq<Vote>, qc: QC)
    requires HonestMajority(cfg) && Backed(cfg, log) && Certified(cfg, log, qc)
    ensures Cert(cfg, log, PROPOSE_VOTE, qc.round, qc.payload)
  {
    if qc.phase == PRECOMMIT_VOTE { PrecommitImpliesPropose(cfg, log, qc.round, qc.payload); }
  }

  /** The heart of safety: what an honest replica votes for was certified no earlier than anything
      it has precommitted to. */
  lemma AcceptedIsCertified(cfg: Config, admit: Admission, s: System, i: ReplicaId, input: Input, j: nat)
    requires Guards(cfg, admit) && KeepsUp(cfg, s) && Safe(cfg, s)
    requires Enabled(cfg, admit, s, PhaseTimeout(i, input))
    requires s.nodes[i].phase == PROPOSE_VOTE && HandlePhase(s.nodes[i], input).1.Votes?
    requires j < |s.log| && s.log[j].voter == i && s.log[j].phase == PRECOMMIT_VOTE
    ensures CertFrom(cfg, s.log, s.log[j].round, HandlePhase(s.nodes[i], input).1.payload)
  {
    StaysCoherent(s.nodes[i], input);
    var lock := s.nodes[i].highQC.value;
    var msg := input.proposal.value;
    SafeNodeAccepts(lock, msg);
    var qc := msg.highQC.value;
    AllowedIsCertified(cfg, admit, s, msg);
    assert Protects(lock, msg);
    if lock.payload == qc.payload {
      assert Cert(cfg, s.log, PROPOSE_VOTE, lock.round, msg.payload);
    } else {
      assert Cert(cfg, s.log, PROPOSE_VOTE, qc.round, msg.payload);
    }
  }

  lemma AllowedIsCertified(cfg: Config, admit: Admission, s: System, msg: Proposal)
    requires Guards(cfg, admit) && Safe(cfg, s) && ProposalAllowed(cfg, admit, s, msg) && msg.highQC.Some?
    ensures var qc := msg.highQC.value;
            Cert(cfg, s.log, PROPOSE_VOTE, qc.round, qc.payload) && !HalfJustified(msg.payload, qc.payload)
  {
    if msg in s.sent {
      var k :| 0 <= k < |s.sent| && s.sent[k] == msg;
    } else {
      CertifiedIsProposed(cfg, s.log, msg.highQC.value);
    }
  }

  /** A replica that has moved on without voting. */
  lemma QuietKept(cfg: Config, admit: Admission, s: System, i: ReplicaId, n': Node)
    requires Inv(cfg, admit, s) && Honest(cfg, i) && i in s.nodes
    requires SameView(s.nodes[i], n') || ViewLess(s.nodes[i].round, s.nodes[i].phase, n'.round, n'.phase)
    requires n'.highQC == s.nodes[i].highQC || (n'.highQC.Some? && LockRaised(cfg, s, s.nodes[i].highQC, n'.highQC.value))
    requires Guards(cfg, admit) ==> Coherent(n')
    ensures Inv(cfg, admit, s.(nodes := s.nodes[i := n']))
  {
    var s' := s.(nodes := s.nodes[i := n']);
    assert Past(cfg, s');
  }

  /** A lock taken over from a report: certified, and of no earlier round. */
  ghost predicate LockRaised(cfg: Config, s: System, lock: Option<QC>, qc: QC) {
    Cert(cfg, s.log, PROPOSE_VOTE, qc.round, qc.payload) && (lock.Some? ==> lock.value.round <= qc.round)
  }

  lemma CommitKept(cfg: Config, admit: Admission, s: System, i: ReplicaId, payload: Payload, round: nat)
    requires Inv(cfg, admit, s) && Cert(cfg, s.log, PRECOMMIT_VOTE, round, payload)
    ensures Inv(cfg, admit, s.(commits := s.commits + [(i, payload)]))
  {
    assert Chosen(cfg, s.log, payload);
  }

  lemma ProposalKept(cfg: Config, admit: Admission, s: System, msg: Proposal)
    requires Inv(cfg, admit, s)
    requires Guards(cfg, admit) && msg.highQC.Some? ==>
               var qc := msg.highQC.value; msg.payload == qc.payload && Cert(cfg, s.log, PROPOSE_VOTE, qc.round, qc.payload)
    ensures Inv(cfg, admit, s.(sent := s.sent + [msg]))
  {}

  lemma QuietKeepsInv(cfg: Config, admit: Admission, s: System, i: ReplicaId, input: Input)
    requires Inv(cfg, admit, s)
    requires Enabled(cfg, admit, s, PhaseTimeout(i, input))
    requires !HandlePhase(s.nodes[i], input).1.Votes?
    ensures Inv(cfg, admit, Apply(s, PhaseTimeout(i, input)))
  {
    var n := s.nodes[i];
    var (n', effect) := HandlePhase(n, input);
    ViewProgress(n, input);
    LockMoves(n, input);
    if Guards(cfg, admit) { StaysCoherent(n, input); }
    QuietKept(cfg, admit, s, i, n');
    var s' := s.(nodes := s.nodes[i := n']);
    if effect.Commits? {
      CommitKept(cfg, admit, s', i, effect.payload, input.justified.value.qc.round);
    } else if effect.Proposes? {
      ProposalKept(cfg, admit, s', effect.msg);
    }
  }

  /** A replica that has just voted, given what its vote rests on. */
  lemma VoteKept(cfg: Config, admit: Admission, s: System, i: ReplicaId, n': Node, v: Vote)
    requires Inv(cfg, admit, s) && i in s.nodes && Honest(cfg, i) && v.voter == i
    requires ViewLess(v.round, v.phase, n'.round, n'.phase)
    requires v.round == s.nodes[i].round && v.phase == s.nodes[i].phase
    requires if v.phase == PRECOMMIT_VOTE
             then n'.highQC.Some? && n'.highQC.value.payload == v.payload && (!admit.stale ==> n'.highQC.value.round == v.round)
             else n'.highQC == s.nodes[i].highQC
    requires Guards(cfg, admit) ==> Founded(cfg, s.log, v) && Coherent(n')
    ensures Inv(cfg, admit, s.(nodes := s.nodes[i := n'], log := s.log + [v]))
  {
    var s' := s.(nodes := s.nodes[i := n'], log := s.log + [v]);
    OrderGrows(cfg, s.log, v);
    CommitsSurvive(cfg, s, v);
    assert Past(cfg, s');
    if Guards(cfg, admit) {
      LogGrows(cfg, s.log, v);
      LocksSurvive(cfg, s, v);
      if v.phase == PRECOMMIT_VOTE { CertGrows(cfg, s.log, [v], PROPOSE_VOTE, v.round, v.payload); }
      assert Locked(cfg, s') && AllCoherent(cfg, s');
    }
  }

  lemma VoteIsFounded(cfg: Config, admit: Admission, s: System, i: ReplicaId, input: Input)
    requires Guards(cfg, admit) && KeepsUp(cfg, s) && Safe(cfg, s)
    requires Enabled(cfg, admit, s, PhaseTimeout(i, input)) && HandlePhase(s.nodes[i], input).1.Votes?
    ensures var n, e := s.nodes[i], HandlePhase(s.nodes[i], input).1;
            Founded(cfg, s.log, Vote(i, e.phase, n.round, e.payload))
  {
    var n, e := s.nodes[i], HandlePhase(s.nodes[i], input).1;
    ViewProgress(n, input);
    LockMoves(n, input);
    if e.phase == PRECOMMIT_VOTE {
      CertifiedIsProposed(cfg, s.log, input.justified.value.qc);
    } else {
      forall j | 0 <= j < |s.log| && s.log[j].voter == i && s.log[j].phase == PRECOMMIT_VOTE
        ensures CertFrom(cfg, s.log, s.log[j].round, e.payload)
      {
        AcceptedIsCertified(cfg, admit, s, i, input, j);
      }
    }
  }

  lemma VoteKeepsInv(cfg: Config, admit: Admission, s: System, i: ReplicaId, input: Input)
    requires Inv(cfg, admit, s)
    requires Enabled(cfg, admit, s, PhaseTimeout(i, input))
    requires HandlePhase(s.nodes[i], input).1.Votes?
    ensures Inv(cfg, admit, Apply(s, PhaseTimeout(i, input)))
  {
    var n := s.nodes[i];
    var (n', effect) := HandlePhase(n, input);
    ViewProgress(n, input);
    LockMoves(n, input);
    if Guards(cfg, admit) {
      StaysCoherent(n, input);
      VoteIsFounded(cfg, admit, s, i, input);
    }
    VoteKept(cfg, admit, s, i, n', Vote(i, effect.phase, n.round, effect.payload));
  }

  lemma ReportKeepsInv(cfg: Config, admit: Admission, s: System, e: Event)
    requires Inv(cfg, admit, s) && Enabled(cfg, admit, s, e) && (e.HighQCReceived? || e.MessageReceived?)
    ensures Inv(cfg, admit, Apply(s, e))
  {
    if e.HighQCReceived? {
      QuietKept(cfg, admit, s, e.i, OnHighQC(s.nodes[e.i], e.qc, e.kept, e.rcBuildHeight, e.carried));
    } else {
      QuietKept(cfg, admit, s, e.i, OnMessage(s.nodes[e.i]));
    }
  }

  lemma StepKeepsInv(cfg: Config, admit: Admission, s: System, e: Event)
    requires Inv(cfg, admit, s) && Enabled(cfg, admit, s, e)
    ensures Inv(cfg, admit, Apply(s, e))
  {
    match e
    case PhaseTimeout(i, input) =>
      if HandlePhase(s.nodes[i], input).1.Votes? {
        VoteKeepsInv(cfg, admit, s, i, input);
      } else {
        QuietKeepsInv(cfg, admit, s, i, input);
      }
    case HighQCReceived(_, _, _, _, _) => ReportKeepsInv(cfg, admit, s, e);
    case MessageReceived(_) => ReportKeepsInv(cfg, admit, s, e);
    case BlockReceived(i, qc) => CommitKept(cfg, admit, s, i, qc.payload, qc.round);
    case ByzantineVote(vote) => ByzantineKept(cfg, admit, s, vote);
  }

  lemma {:induction false} RunKeepsInv(cfg: Config, admit: Admission, run: seq<Event>)
    requires Legal(cfg, admit, run)
    ensures Inv(cfg, admit, After(cfg, run))
  {
    if run == [] {
      InitInv(cfg, admit);
    } else {
      RunKeepsInv(cfg, admit, run[..|run| - 1]);
      StepKeepsInv(cfg, admit, After(cfg, run[..|run| - 1]), run[|run| - 1]);
    }
  }

  // ---- Safety ------------------------------------------------------------

  /** A replica that follows the protocol signs at most one payload per round and phase, whatever is sent; and its
      lock is never of an earlier round than its latest PRECOMMIT-VOTE, unless a PRECOMMIT may be justified by a
      certificate of another round. */
  lemma {:induction false} OneVotePerView(cfg: Config, admit: Admission, run: seq<Event>, j: nat, k: nat)
    requires Legal(cfg, admit, run)
    requires var log := After(cfg, run).log;
             && j < |log| && k < |log| && log[j].voter == log[k].voter && Honest(cfg, log[j].voter)
    ensures var s := After(cfg, run);
            && (s.log[j].round == s.log[k].round && s.log[j].phase == s.log[k].phase ==> j == k)
            && (!admit.stale && s.log[j].phase == PRECOMMIT_VOTE ==>
                  && s.log[j].voter in s.nodes && s.nodes[s.log[j].voter].highQC.Some?
                  && s.nodes[s.log[j].voter].highQC.value.round >= s.log[j].round)
  {
    RunKeepsInv(cfg, admit, run);
  }

  /** One round certifies at most one payload. */
  lemma OneCertPerRound(cfg: Config, s: System, phase: Phase, r: nat, p: Payload, q: Payload)
    requires HonestMajority(cfg) && Ordered(cfg, s.log)
    requires Cert(cfg, s.log, phase, r, p) && Cert(cfg, s.log, phase, r, q)
    ensures p == q
  {
    var i := QuorumsShareAnHonest(cfg.committee, cfg.byz, Voters(cfg, s.log, phase, r, p), Voters(cfg, s.log, phase, r, q));
    var j :| 0 <= j < |s.log| && s.log[j] == Vote(i, phase, r, p);
    var k :| 0 <= k < |s.log| && s.log[k] == Vote(i, phase, r, q);
  }

  /** Behind a certificate of a later round stands one of round r or later that was complete earlier,
      for the same payload: an honest replica in both quorums had precommitted when it voted. */
  lemma EarlierCert(cfg: Config, s: System, r: nat, p: Payload, k: nat, l: nat, q: Payload)
    returns (k': nat, l': nat)
    requires HonestMajority(cfg) && Ordered(cfg, s.log) && Guarded(cfg, s.log)
    requires Cert(cfg, s.log, PRECOMMIT_VOTE, r, p)
    requires k <= |s.log| && l > r && Cert(cfg, s.log[..k], PROPOSE_VOTE, l, q)
    ensures k' < k && l' >= r && Cert(cfg, s.log[..k'], PROPOSE_VOTE, l', q)
  {
    var i := QuorumsShareAnHonest(cfg.committee, cfg.byz,
      Voters(cfg, s.log, PRECOMMIT_VOTE, r, p), Voters(cfg, s.log[..k], PROPOSE_VOTE, l, q));
    var m :| 0 <= m < |s.log| && s.log[m] == Vote(i, PRECOMMIT_VOTE, r, p);
    var n :| 0 <= n < k && s.log[..k][n] == Vote(i, PROPOSE_VOTE, l, q);
    assert m < n;
    assert CertFrom(cfg, s.log[..n], r, q);
    k' := n;
    l' :| l' >= r && Cert(cfg, s.log[..n], PROPOSE_VOTE, l', q);
  }

  /** Once a quorum has precommitted p in round r, whatever was certified by the time of any prefix of
      the log, in round r or later, is p: a bad certificate would need an earlier bad certificate. */
  lemma {:induction false} ChosenIsFinal(cfg: Config, s: System, r: nat, p: Payload, k: nat, l: nat, q: Payload)
    requires HonestMajority(cfg) && Ordered(cfg, s.log) && Backed(cfg, s.log) && Guarded(cfg, s.log)
    requires Cert(cfg, s.log, PRECOMMIT_VOTE, r, p)
    requires k <= |s.log| && l >= r && Cert(cfg, s.log[..k], PROPOSE_VOTE, l, q)
    ensures q == p
    decreases k
  {
    if l == r {
      CertGrows(cfg, s.log[..k], s.log[k..], PROPOSE_VOTE, l, q);
      assert s.log[..k] + s.log[k..] == s.log;
      PrecommitImpliesPropose(cfg, s.log, r, p);
      OneCertPerRound(cfg, s, PROPOSE_VOTE, r, p, q);
    } else {
      var k', l' := EarlierCert(cfg, s, r, p, k, l, q);
      ChosenIsFinal(cfg, s, r, p, k', l', q);
    }
  }

  /** Finality, stated of runs: after a PRECOMMIT quorum for p in round r, every PROPOSE-VOTE or
      PRECOMMIT-VOTE certificate of round r or later carries p. */
  lemma {:induction false} Finality(cfg: Config, admit: Admission, run: seq<Event>, r: nat, p: Payload, phase: Phase, l: nat, q: Payload)
    requires HonestMajority(cfg) && Strict(admit) && Legal(cfg, admit, run)
    requires Cert(cfg, After(cfg, run).log, PRECOMMIT_VOTE, r, p)
    requires phase in {PROPOSE_VOTE, PRECOMMIT_VOTE} && l >= r
    requires Cert(cfg, After(cfg, run).log, phase, l, q)
    ensures q == p
  {
    RunKeepsInv(cfg, admit, run);
    var s := After(cfg, run);
    if phase == PRECOMMIT_VOTE {
      PrecommitImpliesPropose(cfg, s.log, l, q);
    }
    assert s.log[..|s.log|] == s.log;
    ChosenIsFinal(cfg, s, r, p, |s.log|, l, q);
  }

  /** Agreement over every run in which nothing else is admitted. */
  lemma {:induction false} AgreementHolds(cfg: Config, admit: Admission, run: seq<Event>)
    requires HonestMajority(cfg) && Strict(admit) && Legal(cfg, admit, run)
    ensures Agreed(After(cfg, run))
  {
    RunKeepsInv(cfg, admit, run);
    var s := After(cfg, run);
    forall j, k | 0 <= j < |s.commits| && 0 <= k < |s.commits|
      ensures s.commits[j].1 == s.commits[k].1
    {
      assert Chosen(cfg, s.log, s.commits[j].1) && Chosen(cfg, s.log, s.commits[k].1);
      var rj: nat :| Cert(cfg, s.log, PRECOMMIT_VOTE, rj, s.commits[j].1);
      var rk: nat :| Cert(cfg, s.log, PRECOMMIT_VOTE, rk, s.commits[k].1);
      if rj <= rk {
        Finality(cfg, admit, run, rj, s.commits[j].1, PRECOMMIT_VOTE, rk, s.commits[k].1);
      } else {
        Finality(cfg, admit, run, rk, s.commits[k].1, PRECOMMIT_VOTE, rj, s.commits[j].1);
      }
    }
  }

  // ---- Validity ----------------------------------------------------------

  /** An honest replica was offered p in this event, and its controller found p valid. */
  predicate FoundValid(cfg: Config, e: Event, p: Payload) {
    e.PhaseTimeout? && Honest(cfg, e.i) && e.input.validProposal && e.input.proposal.Some? && e.input.proposal.value.payload == p
  }

  ghost predicate Validated(cfg: Config, run: seq<Event>, p: Payload) {
    exists k | 0 <= k < |run| :: FoundValid(cfg, run[k], p)
  }

  lemma ValidatedStays(cfg: Config, run: seq<Event>, e: Event, p: Payload)
    requires Validated(cfg, run, p) || FoundValid(cfg, e, p)
    ensures Validated(cfg, run + [e], p)
  {
    if Validated(cfg, run, p) {
      var k :| 0 <= k < |run| && FoundValid(cfg, run[k], p);
      assert FoundValid(cfg, (run + [e])[k], p);
    } else {
      assert FoundValid(cfg, (run + [e])[|run|], p);
    }
  }

  ghost predicate VotesValidated(cfg: Config, run: seq<Event>, log: seq<Vote>) {
    forall j | 0 <= j < |log| && Honest(cfg, log[j].voter) && log[j].phase == PROPOSE_VOTE :: Validated(cfg, run, log[j].payload)
  }

  /** Every PROPOSE-VOTE of an honest replica is for a payload it was offered and found valid. */
  lemma {:induction false} VotesAreValid(cfg: Config, admit: Admission, run: seq<Event>)
    requires HonestMajority(cfg) && Strict(admit) && Legal(cfg, admit, run)
    ensures VotesValidated(cfg, run, After(cfg, run).log)
  {
    if run != [] {
      var before, e := run[..|run| - 1], run[|run| - 1];
      var s, s' := After(cfg, before), After(cfg, run);
      VotesAreValid(cfg, admit, before);
      RunKeepsInv(cfg, admit, before);
      assert before + [e] == run;
      if s'.log != s.log { OneMoreVote(cfg, admit, s, e); }
      forall j | 0 <= j < |s'.log| && Honest(cfg, s'.log[j].voter) && s'.log[j].phase == PROPOSE_VOTE
        ensures Validated(cfg, run, s'.log[j].payload)
      {
        if j < |s.log| { assert s'.log[j] == s.log[j]; }
        ValidatedStays(cfg, before, e, s'.log[j].payload);
      }
    }
  }

  lemma OneMoreVote(cfg: Config, admit: Admission, s: System, e: Event)
    requires Guards(cfg, admit) && Inv(cfg, admit, s) && Enabled(cfg, admit, s, e) && Apply(s, e).log != s.log
    ensures var log := Apply(s, e).log;
            && |log| == |s.log| + 1 && log[..|s.log|] == s.log
            && var v := log[|s.log|]; Honest(cfg, v.voter) && v.phase == PROPOSE_VOTE ==> FoundValid(cfg, e, v.payload)
  {
    if e.PhaseTimeout? {
      var n := s.nodes[e.i];
      ViewProgress(n, e.input);
      if n.phase == PROPOSE_VOTE {
        VotesExactly(n, e.input);
        StaysCoherent(n, e.input);
      }
    }
  }

  /** External validity. In every run in which nothing else is admitted, whatever a quorum has PROPOSE-VOTED for, and
      hence whatever an honest replica commits, was offered to some honest replica and found valid by it. */
  lemma {:induction false} CertifiedIsValid(cfg: Config, admit: Admission, run: seq<Event>, r: nat, p: Payload)
    requires HonestMajority(cfg) && Strict(admit) && Legal(cfg, admit, run)
    requires Cert(cfg, After(cfg, run).log, PROPOSE_VOTE, r, p)
    ensures Validated(cfg, run, p)
  {
    VotesAreValid(cfg, admit, run);
    var i, k := HonestSigner(cfg, After(cfg, run).log, PROPOSE_VOTE, r, p);
  }

  lemma {:induction false} CommittedIsValid(cfg: Config, admit: Admission, run: seq<Event>, k: nat)
    requires HonestMajority(cfg) && Strict(admit) && Legal(cfg, admit, run)
    requires k < |After(cfg, run).commits|
    ensures Validated(cfg, run, After(cfg, run).commits[k].1)
  {
    RunKeepsInv(cfg, admit, run);
    var s := After(cfg, run);
    assert Chosen(cfg, s.log, s.commits[k].1);
    var r: nat :| Cert(cfg, s.log, PRECOMMIT_VOTE, r, s.commits[k].1);
    PrecommitImpliesPropose(cfg, s.log, r, s.commits[k].1);
    CertifiedIsValid(cfg, admit, run, r, s.commits[k].1);
  }
}
