/** What happens when more is sent than the checks are meant to let through, and the exact condition for agreement.
    The runs are of three replicas: one Byzantine leader, one replica that votes with it, and one that does not. */
module Fork {
  import opened Lib
  import opened Quorum
  import opened Bft
  import opened Agreement

  const OTHER: ReplicaId := 0
  const VOTER: ReplicaId := 1
  const LEADER: ReplicaId := 2

  /** The leader has less than a third of the power, and with the voter a quorum. */
  function Three(): Config { Config(map[OTHER := 3, VOTER := 4, LEADER := 3], {LEADER}) }

  const IDLE: Input := Input(None, None, Produced(0, NOTHING, false), false, 0, true, false, 0)

  function Of(p: Payload): Content { Content(Some(p.block), Some(p.results)) }

  lemma {:induction false} PowerOfTwo(s: set<ReplicaId>)
    requires {VOTER, LEADER} <= s
    ensures Power(Three().committee, s) >= 7
  {
    var w := Three().committee;
    PowerAdd(w, {}, VOTER);
    PowerAdd(w, {VOTER}, LEADER);
    assert {} + {VOTER} == {VOTER} && {VOTER} + {LEADER} == {VOTER, LEADER};
    PowerMono(w, {VOTER, LEADER}, s);
  }

  lemma ThreeIsFaultTolerant()
    ensures HonestMajority(Three()) && Maj23(Three().committee) == 7
  {
    var w := Three().committee;
    PowerAdd(w, {}, OTHER);
    PowerAdd(w, {OTHER}, VOTER);
    PowerAdd(w, {OTHER, VOTER}, LEADER);
    PowerAdd(w, {}, LEADER);
    assert {} + {OTHER} == {OTHER} && {OTHER} + {VOTER} == {OTHER, VOTER};
    assert {OTHER, VOTER} + {LEADER} == w.Keys && {} + {LEADER} == {LEADER};
  }

  lemma TwoVotesCertify(log: seq<Vote>, phase: Phase, r: nat, p: Payload)
    requires Vote(VOTER, phase, r, p) in log && Vote(LEADER, phase, r, p) in log
    ensures Cert(Three(), log, phase, r, p)
  {
    ThreeIsFaultTolerant();
    PowerOfTwo(Voters(Three(), log, phase, r, p));
  }

  lemma CertStays(log: seq<Vote>, log': seq<Vote>, phase: Phase, r: nat, p: Payload)
    requires log <= log' && Cert(Three(), log, phase, r, p)
    ensures Cert(Three(), log', phase, r, p)
  {
    CertGrows(Three(), log, log'[|log|..], phase, r, p);
    assert log + log'[|log|..] == log';
  }

  // ---- Reachable states --------------------------------------------------

  /** A set of states that every enabled event stays inside. */
  ghost predicate Closed(admit: Admission, states: iset<System>) {
    && Init(Three()) in states
    && forall s, e | s in states && Enabled(Three(), admit, s, e) :: Apply(s, e) in states
  }

  ghost predicate Reachable(admit: Admission, s: System) {
    exists run: seq<Event> :: Legal(Three(), admit, run) && After(Three(), run) == s
  }

  lemma ReachableIsClosed(admit: Admission)
    ensures Closed(admit, iset s | Reachable(admit, s))
  {
    assert Legal(Three(), admit, []) && After(Three(), []) == Init(Three());
    forall s, e | Reachable(admit, s) && Enabled(Three(), admit, s, e)
      ensures Reachable(admit, Apply(s, e))
    {
      var run: seq<Event> :| Legal(Three(), admit, run) && After(Three(), run) == s;
      assert (run + [e])[..|run|] == run;
      assert Legal(Three(), admit, run + [e]);
    }
  }

  /** Two different payloads with PRECOMMIT quorums: either replica commits one of them. */
  lemma Splits(admit: Admission, states: iset<System>, s: System, p: Payload, q: Payload, r: nat, l: nat)
    returns (s': System)
    requires Closed(admit, states) && s in states && s.nodes.Keys == {OTHER, VOTER, LEADER} && p != q
    requires Cert(Three(), s.log, PRECOMMIT_VOTE, r, p) && Cert(Three(), s.log, PRECOMMIT_VOTE, l, q)
    ensures s' in states && !Agreed(s')
  {
    var e, f := BlockReceived(VOTER, QC(PRECOMMIT_VOTE, r, p)), BlockReceived(OTHER, QC(PRECOMMIT_VOTE, l, q));
    assert Enabled(Three(), admit, s, e);
    var s1 := Apply(s, e);
    assert Enabled(Three(), admit, s1, f);
    s' := Apply(s1, f);
    var n := |s.commits|;
    assert s'.commits[n].1 == p && s'.commits[n + 1].1 == q;
  }

  /** A state that a given set cannot avoid is reached by some run. */
  lemma RunOf(admit: Admission, s: System) returns (run: seq<Event>)
    requires s in (iset t | Reachable(admit, t))
    ensures Legal(Three(), admit, run) && After(Three(), run) == s
  {
    run :| Legal(Three(), admit, run) && After(Three(), run) == s;
  }

  // ---- The steps of an honest replica ------------------------------------

  /** At the start of a round. */
  function Ready(i: ReplicaId, r: nat, lock: Option<QC>, locked: Content): Node {
    Node(i, r, ELECTION, lock, locked, 0, NOTHING, None, None)
  }

  function With(s: System, i: ReplicaId, n: Node): System { s.(nodes := s.nodes[i := n]) }

  /** A phase in which the replica has nothing to sign times out. */
  lemma Idle(admit: Admission, states: iset<System>, s: System, i: ReplicaId, input: Input, next: Node)
    requires Closed(admit, states) && s in states && i < LEADER && i in s.nodes
    requires input == IDLE || input == IDLE.(hasMajority := true)
    requires HandlePhase(s.nodes[i], input) == (next, Silent)
    ensures With(s, i, next) in states
  {
    var e := PhaseTimeout(i, input);
    assert Enabled(Three(), admit, s, e);
    assert Apply(s, e) in states;
  }

  /** From the start of a round to the PROPOSE phase. */
  lemma Elect(admit: Admission, states: iset<System>, s: System, i: ReplicaId)
    requires Closed(admit, states) && s in states && i < LEADER && i in s.nodes
    requires s.nodes[i].phase == ELECTION && s.nodes[i].proposerKey == None
    ensures With(s, i, s.nodes[i].(phase := PROPOSE)) in states
  {
    var n := s.nodes[i];
    Idle(admit, states, s, i, IDLE, n.(phase := ELECTION_VOTE));
    var s1 := With(s, i, n.(phase := ELECTION_VOTE));
    Idle(admit, states, s1, i, IDLE, n.(phase := PROPOSE));
    assert With(s1, i, n.(phase := PROPOSE)) == With(s, i, n.(phase := PROPOSE));
  }

  /** Without a majority of its own, it waits for a proposal. */
  lemma Await(admit: Admission, states: iset<System>, s: System, i: ReplicaId)
    requires Closed(admit, states) && s in states && i < LEADER && i in s.nodes
    requires s.nodes[i].phase == ELECTION && s.nodes[i].proposerKey == None
    ensures With(s, i, s.nodes[i].(phase := PROPOSE_VOTE)) in states
  {
    var n := s.nodes[i];
    Elect(admit, states, s, i);
    var s1 := With(s, i, n.(phase := PROPOSE));
    Idle(admit, states, s1, i, IDLE, n.(phase := PROPOSE_VOTE));
    assert With(s1, i, n.(phase := PROPOSE_VOTE)) == With(s, i, n.(phase := PROPOSE_VOTE));
  }

  function Led(n: Node, p: Payload): Node { n.(phase := PROPOSE_VOTE, stored := Of(p), blockHash := Some(p.block)) }

  /** With one, it leads: it proposes its lock's content, or something new. */
  lemma Lead(admit: Admission, states: iset<System>, s: System, i: ReplicaId, p: Payload)
    requires Closed(admit, states) && s in states && i < LEADER && i in s.nodes
    requires var n := s.nodes[i]; n == Ready(i, n.round, n.highQC, n.locked) && (n.highQC.Some? ==> n.locked == Of(p))
    ensures With(s, i, Led(s.nodes[i], p)).(sent := s.sent + [Proposal(i, p, s.nodes[i].highQC, 0)]) in states
  {
    var n := s.nodes[i];
    Elect(admit, states, s, i);
    var s1 := With(s, i, n.(phase := PROPOSE));
    var e := PhaseTimeout(i, IDLE.(hasMajority := true, produced := Produced(0, Of(p), true)));
    assert Enabled(Three(), admit, s1, e);
    assert Apply(s1, e) in states;
    assert Apply(s1, e).nodes == s.nodes[i := Led(n, p)];
  }

  /** What a replica signs when it is offered p: the hash it has, or else p's. */
  function Signed(n: Node, p: Payload): Payload { Payload(if n.blockHash.Some? then n.blockHash.value else p.block, p.results) }

  function Polled(n: Node, sender: ReplicaId, p: Payload): Node {
    n.(phase := PRECOMMIT, stored := Of(p), blockHash := Some(Signed(n, p).block), proposerKey := Some(sender))
  }

  function Voted(s: System, i: ReplicaId, sender: ReplicaId, p: Payload): System
    requires i in s.nodes
  {
    var n := s.nodes[i];
    With(s, i, Polled(n, sender, p)).(log := s.log + [Vote(i, PROPOSE_VOTE, n.round, Signed(n, p))])
  }

  lemma VoteFor(admit: Admission, states: iset<System>, s: System, i: ReplicaId, msg: Proposal)
    requires Closed(admit, states) && s in states && i < LEADER && i in s.nodes && msg.rcBuildHeight == 0
    requires var n := s.nodes[i];
             && n.phase == PROPOSE_VOTE && (n.highQC.Some? ==> SafeNode(n.highQC.value, msg).Accepts())
             && (Consistent(n, msg) || admit.rival)
    requires ProposalAllowed(Three(), admit, s, msg)
    ensures Voted(s, i, msg.sender, msg.payload) in states
  {
    var e := PhaseTimeout(i, IDLE.(proposal := Some(msg)));
    assert Enabled(Three(), admit, s, e);
    assert Apply(s, e) in states;
    assert Apply(s, e) == Voted(s, i, msg.sender, msg.payload);
  }

  function Relocked(n: Node, qc: QC): Node { n.(phase := COMMIT, highQC := Some(qc), locked := n.stored) }

  function LockedOn(s: System, i: ReplicaId, qc: QC): System
    requires i in s.nodes
  {
    With(s, i, Relocked(s.nodes[i], qc)).(log := s.log + [Vote(i, PRECOMMIT_VOTE, s.nodes[i].round, qc.payload)])
  }

  /** From the PROPOSE-VOTE to the lock and the PRECOMMIT-VOTE; a leader has its majority. */
  lemma LockOn(admit: Admission, states: iset<System>, s: System, i: ReplicaId, sender: ReplicaId, qc: QC)
    requires Closed(admit, states) && s in states && i < LEADER && i in s.nodes
    requires var n := s.nodes[i];
             && n.id == i && n.phase == PRECOMMIT && n.proposerKey == Some(sender) && n.rcBuildHeight == 0
             && n.blockHash == Some(qc.payload.block) && ResultsHash(n.stored) == qc.payload.results
             && JustifiedAllowed(Three(), admit, s, n, Justified(sender, qc, 0))
    ensures LockedOn(s, i, qc) in states
  {
    var n := s.nodes[i];
    Idle(admit, states, s, i, IDLE.(hasMajority := true), n.(phase := PRECOMMIT_VOTE));
    var s1 := With(s, i, n.(phase := PRECOMMIT_VOTE));
    var e := PhaseTimeout(i, IDLE.(justified := Some(Justified(sender, qc, 0))));
    assert JustifiedAllowed(Three(), admit, s1, s1.nodes[i], Justified(sender, qc, 0));
    assert Enabled(Three(), admit, s1, e);
    assert Apply(s1, e) in states;
    assert Apply(s1, e).nodes == LockedOn(s, i, qc).nodes;
  }

  /** The next message of the leader does not arrive: the replica interrupts the round and enters the next one. */
  lemma Miss(admit: Admission, states: iset<System>, s: System, i: ReplicaId)
    requires Closed(admit, states) && s in states && i < LEADER && i in s.nodes
    requires var n := s.nodes[i];
             n.phase in {PRECOMMIT, COMMIT} && n.id == i && n.rcBuildHeight == 0 && n.proposerKey.Some? && n.blockHash.Some?
    ensures With(s, i, Ready(i, s.nodes[i].round + 1, s.nodes[i].highQC, s.nodes[i].locked)) in states
  {
    var n := s.nodes[i];
    var n1 := n.(phase := n.phase + 1);
    Idle(admit, states, s, i, IDLE.(hasMajority := true), n1);
    var s1 := With(s, i, n1);
    var n2 := n.(phase := PACEMAKER);
    Idle(admit, states, s1, i, IDLE, n2);
    var s2 := With(s1, i, n2);
    var n3 := Ready(i, n.round + 1, n.highQC, n.locked);
    Idle(admit, states, s2, i, IDLE, n3);
    assert With(s2, i, n3) == With(s, i, n3);
  }

  lemma LeaderSigns(admit: Admission, states: iset<System>, s: System, v: Vote)
    requires Closed(admit, states) && s in states && v.voter == LEADER
    ensures s.(log := s.log + [v]) in states
  {
    assert Enabled(Three(), admit, s, ByzantineVote(v));
    assert Apply(s, ByzantineVote(v)) in states;
  }

  // ---- Rounds ------------------------------------------------------------

  /** What a round leaves as it found it: the other replica, the proposals sent, and the votes cast before. */
  ghost predicate Continues(s: System, s': System, i: ReplicaId, n': Node) {
    s'.nodes == s.nodes[i := n'] && s'.sent == s.sent && s.log <= s'.log
  }

  /** A replica waiting for a proposal votes, and so does the leader. */
  lemma PollAt(admit: Admission, states: iset<System>, s0: System, i: ReplicaId, msg: Proposal) returns (s: System)
    requires Closed(admit, states) && s0 in states && i < LEADER && i in s0.nodes && msg.rcBuildHeight == 0
    requires var n := s0.nodes[i];
             && n.phase == PROPOSE_VOTE && (n.highQC.Some? ==> SafeNode(n.highQC.value, msg).Accepts())
             && (Consistent(n, msg) || admit.rival)
    requires ProposalAllowed(Three(), admit, s0, msg)
    ensures var n, p := s0.nodes[i], Signed(s0.nodes[i], msg.payload);
            && s in states && Continues(s0, s, i, Polled(n, msg.sender, msg.payload))
            && (i == VOTER ==> Cert(Three(), s.log, PROPOSE_VOTE, n.round, p))
  {
    var r, p := s0.nodes[i].round, Signed(s0.nodes[i], msg.payload);
    VoteFor(admit, states, s0, i, msg);
    var s1 := Voted(s0, i, msg.sender, msg.payload);
    LeaderSigns(admit, states, s1, Vote(LEADER, PROPOSE_VOTE, r, p));
    s := s1.(log := s1.log + [Vote(LEADER, PROPOSE_VOTE, r, p)]);
    if i == VOTER {
      assert s.log[|s0.log|] == Vote(VOTER, PROPOSE_VOTE, r, p) && s.log[|s0.log| + 1] == Vote(LEADER, PROPOSE_VOTE, r, p);
      TwoVotesCertify(s.log, PROPOSE_VOTE, r, p);
    }
  }

  lemma Poll(admit: Admission, states: iset<System>, s0: System, i: ReplicaId, msg: Proposal) returns (s: System)
    requires Closed(admit, states) && s0 in states && i < LEADER && i in s0.nodes && msg.rcBuildHeight == 0
    requires var n := s0.nodes[i];
             && n == Ready(i, n.round, n.highQC, n.locked)
             && (n.highQC.Some? ==> SafeNode(n.highQC.value, msg).Accepts())
    requires ProposalAllowed(Three(), admit, s0, msg)
    ensures var n := s0.nodes[i];
            && s in states && Continues(s0, s, i, Polled(n, msg.sender, msg.payload))
            && (i == VOTER ==> Cert(Three(), s.log, PROPOSE_VOTE, n.round, msg.payload))
  {
    Await(admit, states, s0, i);
    s := PollAt(admit, states, With(s0, i, s0.nodes[i].(phase := PROPOSE_VOTE)), i, msg);
  }

  /** A round in which the PRECOMMIT does not arrive. */
  lemma Withheld(admit: Admission, states: iset<System>, s0: System, i: ReplicaId, msg: Proposal) returns (s: System)
    requires Closed(admit, states) && s0 in states && i < LEADER && i in s0.nodes && msg.rcBuildHeight == 0
    requires var n := s0.nodes[i];
             && n == Ready(i, n.round, n.highQC, n.locked)
             && (n.highQC.Some? ==> SafeNode(n.highQC.value, msg).Accepts())
    requires ProposalAllowed(Three(), admit, s0, msg)
    ensures var n := s0.nodes[i];
            && s in states && Continues(s0, s, i, Ready(i, n.round + 1, n.highQC, n.locked))
            && (i == VOTER ==> Cert(Three(), s.log, PROPOSE_VOTE, n.round, msg.payload))
  {
    var s1 := Poll(admit, states, s0, i, msg);
    Miss(admit, states, s1, i);
    s := With(s1, i, Ready(i, s1.nodes[i].round + 1, s1.nodes[i].highQC, s1.nodes[i].locked));
  }

  /** The rest of a round from the PROPOSE-VOTE on: lock, PRECOMMIT votes, and no COMMIT. */
  lemma Precommit(admit: Admission, states: iset<System>, s0: System, i: ReplicaId, sender: ReplicaId, qc: QC) returns (s: System)
    requires Closed(admit, states) && s0 in states && i < LEADER && i in s0.nodes
    requires var n := s0.nodes[i];
             && n.id == i && n.phase == PRECOMMIT && n.proposerKey == Some(sender) && n.rcBuildHeight == 0
             && n.blockHash == Some(qc.payload.block) && ResultsHash(n.stored) == qc.payload.results
             && JustifiedAllowed(Three(), admit, s0, n, Justified(sender, qc, 0))
    ensures var n := s0.nodes[i];
            && s in states && Continues(s0, s, i, Ready(i, n.round + 1, Some(qc), n.stored))
            && (i == VOTER ==> Cert(Three(), s.log, PRECOMMIT_VOTE, n.round, qc.payload))
  {
    var r := s0.nodes[i].round;
    LockOn(admit, states, s0, i, sender, qc);
    var s1 := LockedOn(s0, i, qc);
    LeaderSigns(admit, states, s1, Vote(LEADER, PRECOMMIT_VOTE, r, qc.payload));
    var s2 := s1.(log := s1.log + [Vote(LEADER, PRECOMMIT_VOTE, r, qc.payload)]);
    if i == VOTER {
      assert s2.log[|s0.log|] == Vote(VOTER, PRECOMMIT_VOTE, r, qc.payload);
      assert s2.log[|s0.log| + 1] == Vote(LEADER, PRECOMMIT_VOTE, r, qc.payload);
      TwoVotesCertify(s2.log, PRECOMMIT_VOTE, r, qc.payload);
    }
    Miss(admit, states, s2, i);
    s := With(s2, i, Ready(i, r + 1, s2.nodes[i].highQC, s2.nodes[i].locked));
  }

  /** A whole round of the voter under a leader other than itself, ending in a genuine lock. */
  lemma Round(admit: Admission, states: iset<System>, s0: System, msg: Proposal) returns (s: System)
    requires Closed(admit, states) && s0 in states && VOTER in s0.nodes && msg.rcBuildHeight == 0
    requires var n := s0.nodes[VOTER];
             && n == Ready(VOTER, n.round, n.highQC, n.locked)
             && (n.highQC.Some? ==> SafeNode(n.highQC.value, msg).Accepts())
    requires ProposalAllowed(Three(), admit, s0, msg)
    ensures var r, p := s0.nodes[VOTER].round, msg.payload;
            && s in states && Continues(s0, s, VOTER, Ready(VOTER, r + 1, Some(QC(PROPOSE_VOTE, r, p)), Of(p)))
            && Cert(Three(), s.log, PROPOSE_VOTE, r, p) && Cert(Three(), s.log, PRECOMMIT_VOTE, r, p)
  {
    var r, p := s0.nodes[VOTER].round, msg.payload;
    var s1 := Poll(admit, states, s0, VOTER, msg);
    s := Precommit(admit, states, s1, VOTER, msg.sender, QC(PROPOSE_VOTE, r, p));
    CertStays(s1.log, s.log, PROPOSE_VOTE, r, p);
  }

  function Offer(p: Payload, highQC: Option<QC>): Proposal { Proposal(LEADER, p, highQC, 0) }

  // ---- A PROPOSE with a bad certificate ----------------------------------

  /** What the leader may put beside p to have it accepted over a lock on q in round 0: the certificate of q,
      when p half-matches it, or a certificate of p and a later round that nobody signed. */
  predicate Excuses(admit: Admission, p: Payload, q: Payload, qc: QC) {
    || (qc == QC(PROPOSE_VOTE, 0, q) && HalfJustified(p, q) && admit.mismatched(p, q))
    || (qc == QC(PROPOSE_VOTE, 1, p) && p != q && admit.unbacked)
  }

  lemma ExcuseAllowed(admit: Admission, p: Payload, q: Payload, qc: QC, s: System)
    requires Excuses(admit, p, q, qc)
    requires qc == QC(PROPOSE_VOTE, 0, q) ==> Cert(Three(), s.log, PROPOSE_VOTE, 0, q)
    ensures p != q && ProposalAllowed(Three(), admit, s, Offer(p, Some(qc)))
    ensures SafeNode(QC(PROPOSE_VOTE, 0, q), Offer(p, Some(qc))).Accepts()
  {
    SafeNodeAccepts(QC(PROPOSE_VOTE, 0, q), Offer(p, Some(qc)));
  }

  /** Round 0 ends in a lock on q, and in round 1 the leader has p accepted over it. */
  lemma ExcuseForked(admit: Admission, states: iset<System>, p: Payload, q: Payload, qc: QC) returns (s: System)
    requires Excuses(admit, p, q, qc) && Closed(admit, states)
    ensures s in states && !Agreed(s)
  {
    var s1 := Round(admit, states, Init(Three()), Offer(q, None));
    ExcuseAllowed(admit, p, q, qc, s1);
    var s2 := Round(admit, states, s1, Offer(p, Some(qc)));
    CertStays(s1.log, s2.log, PRECOMMIT_VOTE, 0, q);
    s := Splits(admit, states, s2, q, p, 0, 1);
  }

  lemma ExcuseForks(admit: Admission, p: Payload, q: Payload, qc: QC) returns (run: seq<Event>)
    requires Excuses(admit, p, q, qc)
    ensures Legal(Three(), admit, run) && !Agreed(After(Three(), run))
  {
    ReachableIsClosed(admit);
    var s := ExcuseForked(admit, (iset t | Reachable(admit, t)), p, q, qc);
    run := RunOf(admit, s);
  }

  lemma HalfJustifiedForks(admit: Admission, p: Payload, q: Payload) returns (run: seq<Event>)
    requires HalfJustified(p, q) && admit.mismatched(p, q)
    ensures Legal(Three(), admit, run) && !Agreed(After(Three(), run))
  {
    run := ExcuseForks(admit, p, q, QC(PROPOSE_VOTE, 0, q));
  }

  /** A leader that may attach a certificate of its own making forks the chain with any two payloads: its
      proposal matches both hashes and its round is believed. */
  lemma UnbackedForks(admit: Admission, p: Payload, q: Payload) returns (run: seq<Event>)
    requires p != q && admit.unbacked
    ensures Legal(Three(), admit, run) && !Agreed(After(Three(), run))
  {
    run := ExcuseForks(admit, p, q, QC(PROPOSE_VOTE, 1, p));
  }

  // ---- A PRECOMMIT with a bad certificate --------------------------------

  /** Genuine certificates of p in round 0 and of q in round 1 are withheld. In round 2 everybody votes for p, and
      the leader justifies the PRECOMMIT with the one of round 0: the lock is of round 0, though the vote is not. */
  lemma StaleLock(admit: Admission, states: iset<System>, p: Payload, q: Payload) returns (s: System)
    requires p != q && admit.stale && Closed(admit, states)
    ensures s in states && s.nodes.Keys == {OTHER, VOTER, LEADER}
    ensures s.nodes[VOTER] == Ready(VOTER, 3, Some(QC(PROPOSE_VOTE, 0, p)), Of(p))
    ensures Cert(Three(), s.log, PROPOSE_VOTE, 1, q) && Cert(Three(), s.log, PRECOMMIT_VOTE, 2, p)
  {
    var s1 := Withheld(admit, states, Init(Three()), VOTER, Offer(p, None));
    var s2 := Withheld(admit, states, s1, VOTER, Offer(q, None));
    var s3 := Poll(admit, states, s2, VOTER, Offer(p, None));
    CertStays(s1.log, s3.log, PROPOSE_VOTE, 0, p);
    s := Precommit(admit, states, s3, VOTER, LEADER, QC(PROPOSE_VOTE, 0, p));
    CertStays(s2.log, s.log, PROPOSE_VOTE, 1, q);
  }

  /** So the certificate of round 1 undoes it. */
  lemma StaleForked(admit: Admission, states: iset<System>, p: Payload, q: Payload) returns (s: System)
    requires p != q && admit.stale && Closed(admit, states)
    ensures s in states && !Agreed(s)
  {
    var s1 := StaleLock(admit, states, p, q);
    var s2 := Round(admit, states, s1, Offer(q, Some(QC(PROPOSE_VOTE, 1, q))));
    CertStays(s1.log, s2.log, PRECOMMIT_VOTE, 2, p);
    s := Splits(admit, states, s2, p, q, 2, 3);
  }

  lemma StaleForks(admit: Admission, p: Payload, q: Payload) returns (run: seq<Event>)
    requires p != q && admit.stale
    ensures Legal(Three(), admit, run) && !Agreed(After(Three(), run))
  {
    ReachableIsClosed(admit);
    var s := StaleForked(admit, (iset t | Reachable(admit, t)), p, q);
    run := RunOf(admit, s);
  }

  /** The voter locks on q in round 0. The other replica, which is not locked, is made to lock on p in round 1 by an
      election certificate. */
  lemma ForgedLock(admit: Admission, states: iset<System>, p: Payload, q: Payload) returns (s: System)
    requires p != q && admit.uncertified && Closed(admit, states)
    ensures s in states && s.nodes.Keys == {OTHER, VOTER, LEADER}
    ensures s.nodes[VOTER] == Ready(VOTER, 1, Some(QC(PROPOSE_VOTE, 0, q)), Of(q))
    ensures s.nodes[OTHER] == Ready(OTHER, 2, Some(QC(ELECTION_VOTE, 1, p)), Of(p))
    ensures Cert(Three(), s.log, PROPOSE_VOTE, 0, q) && Cert(Three(), s.log, PRECOMMIT_VOTE, 0, q)
  {
    var s1 := Round(admit, states, Init(Three()), Offer(q, None));
    var s2 := Withheld(admit, states, s1, OTHER, Offer(p, None));
    var s3 := Poll(admit, states, s2, OTHER, Offer(p, None));
    s := Precommit(admit, states, s3, OTHER, LEADER, QC(ELECTION_VOTE, 1, p));
    CertStays(s1.log, s.log, PROPOSE_VOTE, 0, q);
    CertStays(s1.log, s.log, PRECOMMIT_VOTE, 0, q);
  }

  /** And when that replica leads round 2, its lock undoes the voter's. */
  lemma UncertifiedForked(admit: Admission, states: iset<System>, p: Payload, q: Payload) returns (s: System)
    requires p != q && admit.uncertified && Closed(admit, states)
    ensures s in states && !Agreed(s)
  {
    var s1 := ForgedLock(admit, states, p, q);
    var msg := Proposal(OTHER, p, Some(QC(ELECTION_VOTE, 1, p)), 0);
    var s2 := Withheld(admit, states, s1, VOTER, Offer(q, Some(QC(PROPOSE_VOTE, 0, q))));
    Lead(admit, states, s2, OTHER, p);
    var s3 := With(s2, OTHER, Led(s2.nodes[OTHER], p)).(sent := s2.sent + [msg]);
    assert s3.sent[|s2.sent|] == msg;
    var s4 := Round(admit, states, s3, msg);
    CertStays(s1.log, s4.log, PRECOMMIT_VOTE, 0, q);
    s := Splits(admit, states, s4, q, p, 0, 2);
  }

  lemma UncertifiedForks(admit: Admission, p: Payload, q: Payload) returns (run: seq<Event>)
    requires p != q && admit.uncertified
    ensures Legal(Three(), admit, run) && !Agreed(After(Three(), run))
  {
    ReachableIsClosed(admit);
    var s := UncertifiedForked(admit, (iset t | Reachable(admit, t)), p, q);
    run := RunOf(admit, s);
  }

  // ---- A hash and a block that do not belong together --------------------

  /** The voter has locked on q while the block it keeps with the lock is another's: when it leads the next round, it
      proposes that block under its lock's certificate, which matches in the results. */
  lemma MisplacedForked(admit: Admission, states: iset<System>, s0: System, p: Payload, q: Payload) returns (s: System)
    requires Closed(admit, states) && s0 in states && s0.nodes.Keys == {OTHER, VOTER, LEADER}
    requires p.block != q.block && p.results == q.results
    requires s0.nodes[VOTER] == Ready(VOTER, 1, Some(QC(PROPOSE_VOTE, 0, q)), Of(p))
    requires Cert(Three(), s0.log, PRECOMMIT_VOTE, 0, q)
    ensures s in states && !Agreed(s)
  {
    var msg := Proposal(VOTER, p, Some(QC(PROPOSE_VOTE, 0, q)), 0);
    Lead(admit, states, s0, VOTER, p);
    var s1 := With(s0, VOTER, Led(s0.nodes[VOTER], p)).(sent := s0.sent + [msg]);
    assert s1.sent[|s0.sent|] == msg;
    SafeNodeAccepts(QC(PROPOSE_VOTE, 0, q), msg);
    var s2 := PollAt(admit, states, s1, VOTER, msg);
    var s3 := Precommit(admit, states, s2, VOTER, VOTER, QC(PROPOSE_VOTE, 1, p));
    CertStays(s0.log, s3.log, PRECOMMIT_VOTE, 0, q);
    s := Splits(admit, states, s3, q, p, 0, 1);
  }

  /** Between its two votes for q the voter is sent q's certificate with another block beside it. */
  lemma CarriedForked(admit: Admission, states: iset<System>, p: Payload, q: Payload) returns (s: System)
    requires p.block != q.block && p.results == q.results && admit.carried && Closed(admit, states)
    ensures s in states && !Agreed(s)
  {
    var qc := QC(PROPOSE_VOTE, 0, q);
    var s1 := Poll(admit, states, Init(Three()), VOTER, Offer(q, None));
    var e := HighQCReceived(VOTER, qc, NOTHING, 0, Of(p));
    assert Enabled(Three(), admit, s1, e);
    var s2 := Apply(s1, e);
    var s3 := Precommit(admit, states, s2, VOTER, LEADER, qc);
    s := MisplacedForked(admit, states, s3, p, q);
  }

  lemma CarriedForks(admit: Admission, p: Payload, q: Payload) returns (run: seq<Event>)
    requires p.block != q.block && p.results == q.results && admit.carried
    ensures Legal(Three(), admit, run) && !Agreed(After(Three(), run))
  {
    ReachableIsClosed(admit);
    var s := CarriedForked(admit, (iset t | Reachable(admit, t)), p, q);
    run := RunOf(admit, s);
  }

  /** The voter leads round 0 and has hashed its own block when it takes another leader's proposal: it signs its own
      block's hash with the other's results, and keeps the other's block. */
  lemma RivalForked(admit: Admission, states: iset<System>, p: Payload, q: Payload) returns (s: System)
    requires p.block != q.block && p.results == q.results && admit.rival && Closed(admit, states)
    ensures s in states && !Agreed(s)
  {
    var s0 := Init(Three());
    Lead(admit, states, s0, VOTER, q);
    var s1 := With(s0, VOTER, Led(s0.nodes[VOTER], q)).(sent := s0.sent + [Proposal(VOTER, q, None, 0)]);
    var s2 := PollAt(admit, states, s1, VOTER, Offer(p, None));
    var s3 := Precommit(admit, states, s2, VOTER, LEADER, QC(PROPOSE_VOTE, 0, q));
    s := MisplacedForked(admit, states, s3, p, q);
  }

  lemma RivalForks(admit: Admission, p: Payload, q: Payload) returns (run: seq<Event>)
    requires p.block != q.block && p.results == q.results && admit.rival
    ensures Legal(Three(), admit, run) && !Agreed(After(Three(), run))
  {
    ReachableIsClosed(admit);
    var s := RivalForked(admit, (iset t | Reachable(admit, t)), p, q);
    run := RunOf(admit, s);
  }

  // ---- The exact condition -----------------------------------------------

  ghost predicate AlwaysAgrees(admit: Admission) {
    forall cfg: Config, run: seq<Event> | HonestMajority(cfg) && Legal(cfg, admit, run) ::
      Agreed(After(cfg, run))
  }

  /** Agreement holds in every run of every committee with a Byzantine minority if and only if nothing is sent beyond
      what the checks are meant to let through: every certificate a PROPOSE carries is genuine and none matches
      exactly one of the two hashes proposed; every certificate of a PRECOMMIT is of its round and of votes on a
      payload; no vote carries a block; and nobody is offered a second block in a round. */
  lemma AgreementExactly(admit: Admission)
    ensures AlwaysAgrees(admit) <==>
            && !admit.unbacked && !admit.stale && !admit.uncertified && !admit.carried && !admit.rival
            && forall p, q :: admit.mismatched(p, q) ==> !HalfJustified(p, q)
  {
    if Strict(admit) {
      forall cfg: Config, run: seq<Event> | HonestMajority(cfg) && Legal(cfg, admit, run)
        ensures Agreed(After(cfg, run))
      {
        AgreementHolds(cfg, admit, run);
      }
    } else {
      ThreeIsFaultTolerant();
      var run := LaxForks(admit);
    }
  }

  lemma LaxForks(admit: Admission) returns (run: seq<Event>)
    requires !Strict(admit)
    ensures Legal(Three(), admit, run) && !Agreed(After(Three(), run))
  {
    var p, q := Payload(0, 0), Payload(1, 0);
    if admit.unbacked {
      run := UnbackedForks(admit, p, q);
    } else if admit.stale {
      run := StaleForks(admit, p, q);
    } else if admit.uncertified {
      run := UncertifiedForks(admit, p, q);
    } else if admit.carried {
      run := CarriedForks(admit, p, q);
    } else if admit.rival {
      run := RivalForks(admit, p, q);
    } else {
      var a, b :| admit.mismatched(a, b) && HalfJustified(a, b);
      run := HalfJustifiedForks(admit, a, b);
    }
  }
}
