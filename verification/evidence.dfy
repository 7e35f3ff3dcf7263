/** bft/evidence.go: which replicas a list of double-sign evidence convicts, and of which heights. */
module Evidence {
  import opened Lib
  import opened Quorum
  import opened Bft
  import opened Votes
  import A = Agreement

  /** A certificate, partial or not. Signers are the bits of its aggregate signature; `verified` is the
      verdict of the signature check against the committee of its height. */
  datatype Certificate = Certificate(height: nat, round: nat, phase: Phase, ballot: Ballot,
                                     signers: set<ReplicaId>, hasBlock: bool, hasResults: bool, verified: bool)

  datatype Evidence = Evidence(a: Certificate, b: Certificate)

  datatype DoubleSigner = DoubleSigner(id: ReplicaId, heights: seq<nat>)

  datatype Error = MismatchedHeaders | TooOld | NonNilBlock | NonNilResults | InvalidCertificate | NonEquivocating | WrongPhase

  datatype Outcome = Convicted(signers: seq<DoubleSigner>) | Rejected(error: Error)

  /** What the controller answers: the committee of a height in validator-set order, the least height
      still punishable from there, and who was not yet slashed for it. */
  datatype Chain = Chain(committee: nat -> seq<ReplicaId>, minimum: nat -> nat, isValid: (nat, ReplicaId) -> bool)

  predicate SameHeader(a: Certificate, b: Certificate) {
    a.height == b.height && a.round == b.round && a.phase == b.phase
  }

  /** CheckBasic and Check, in the order their tests are made. */
  function Check(e: Evidence, minimum: nat): Option<Error> {
    if !SameHeader(e.a, e.b) then Some(MismatchedHeaders)
    else if e.a.height < minimum then Some(TooOld)
    else if e.a.hasBlock || e.b.hasBlock then Some(NonNilBlock)
    else if e.a.hasResults || e.b.hasResults then Some(NonNilResults)
    else if !e.a.verified || !e.b.verified then Some(InvalidCertificate)
    else if e.a.ballot == e.b.ballot then Some(NonEquivocating)
    else if e.a.phase <= PROPOSE then Some(WrongPhase)
    else None
  }

  ghost predicate Listed(signers: seq<DoubleSigner>, id: ReplicaId, h: nat) {
    exists k | 0 <= k < |signers| :: signers[k].id == id && h in signers[k].heights
  }

  /** One entry per signer, at least one height in it, and no height twice. */
  ghost predicate Distinct(signers: seq<DoubleSigner>) {
    && (forall j, k | 0 <= j < k < |signers| :: signers[j].id != signers[k].id)
    && (forall k | 0 <= k < |signers| :: signers[k].heights != [] && NoRepeats(signers[k].heights))
  }

  ghost predicate NoRepeats(hs: seq<nat>) { forall i, j | 0 <= i < j < |hs| :: hs[i] != hs[j] }

  predicate Names(chain: Chain, e: Evidence, id: ReplicaId, h: nat) {
    e.a.height == h && id in chain.committee(h) && id in e.a.signers * e.b.signers && chain.isValid(h, id)
  }

  /** Some piece of evidence among the first n convicts the replica of the height. */
  ghost predicate Supported(chain: Chain, dse: seq<Evidence>, n: nat, id: ReplicaId, h: nat)
    requires n <= |dse|
  {
    exists k | 0 <= k < n :: Names(chain, dse[k], id, h)
  }

  method GetDoubleSigners(committee: seq<ReplicaId>, a: set<ReplicaId>, b: set<ReplicaId>) returns (both: seq<ReplicaId>)
    ensures forall id :: id in both <==> id in committee && id in a * b
  {
    both := [];
    for k := 0 to |committee|
      invariant forall id :: id in both <==> id in committee[..k] && id in a * b
    {
      if committee[k] in a && committee[k] in b {
        both := both + [committee[k]];
      }
    }
  }

  /** The inner loop of ProcessDSE: extend the entry of a signer already listed, or append a new one. */
  method Convict(signers: seq<DoubleSigner>, id: ReplicaId, h: nat) returns (out: seq<DoubleSigner>)
    requires Distinct(signers)
    ensures Distinct(out)
    ensures forall i, g :: Listed(out, i, g) <==> Listed(signers, i, g) || (i == id && g == h)
  {
    for k := 0 to |signers|
      invariant forall j | 0 <= j < k :: signers[j].id != id
    {
      if signers[k].id == id {
        if h in signers[k].heights { return signers; }
        var entry := DoubleSigner(id, signers[k].heights + [h]);
        out := signers[k := entry];
        assert NoRepeats(entry.heights);
        forall i, g ensures Listed(out, i, g) <==> Listed(signers, i, g) || (i == id && g == h) {
          if Listed(signers, i, g) {
            var j :| 0 <= j < |signers| && signers[j].id == i && g in signers[j].heights;
            assert out[j].id == i && g in out[j].heights;
          }
          assert out[k].id == id && h in out[k].heights;
        }
        return;
      }
    }
    var entry := DoubleSigner(id, [h]);
    out := signers + [entry];
    assert out[|signers|] == entry;
    forall i, g ensures Listed(out, i, g) <==> Listed(signers, i, g) || (i == id && g == h) {
      if Listed(signers, i, g) {
        var j :| 0 <= j < |signers| && signers[j].id == i && g in signers[j].heights;
        assert out[j] == signers[j];
      }
    }
  }

  /** ProcessDSE fails on the first bad piece; otherwise it lists exactly the supported convictions. */
  method ProcessDSE(chain: Chain, dse: seq<Evidence>) returns (r: Outcome)
    ensures r.Rejected? <==> exists k | 0 <= k < |dse| :: Check(dse[k], chain.minimum(dse[k].a.height)).Some?
    ensures r.Convicted? ==> Distinct(r.signers)
    ensures r.Convicted? ==> forall id, h :: Listed(r.signers, id, h) <==> Supported(chain, dse, |dse|, id, h)
  {
    var signers: seq<DoubleSigner> := [];
    for n := 0 to |dse|
      invariant Distinct(signers)
      invariant forall k | 0 <= k < n :: Check(dse[k], chain.minimum(dse[k].a.height)).None?
      invariant forall id, h :: Listed(signers, id, h) <==> Supported(chain, dse, n, id, h)
    {
      var e := dse[n];
      var verdict := Check(e, chain.minimum(e.a.height));
      if verdict.Some? { return Rejected(verdict.value); }
      signers := ConvictAll(chain, e, signers);
      forall id, h ensures Supported(chain, dse, n + 1, id, h) <==> Supported(chain, dse, n, id, h) || Names(chain, e, id, h) {}
    }
    return Convicted(signers);
  }

  method ConvictAll(chain: Chain, e: Evidence, signers: seq<DoubleSigner>) returns (out: seq<DoubleSigner>)
    requires Distinct(signers)
    ensures Distinct(out)
    ensures forall id, h :: Listed(out, id, h) <==> Listed(signers, id, h) || Names(chain, e, id, h)
  {
    var h := e.a.height;
    var both := GetDoubleSigners(chain.committee(h), e.a.signers, e.b.signers);
    out := signers;
    for k := 0 to |both|
      invariant Distinct(out)
      invariant forall id, g :: Listed(out, id, g) <==>
                  Listed(signers, id, g) || (g == h && id in both[..k] && chain.isValid(h, id))
    {
      if chain.isValid(h, both[k]) {
        out := Convict(out, both[k], h);
      }
    }
  }

  /** A slash is justified when its replica is convicted of some height, and of each height it names. */
  ghost predicate Justified(chain: Chain, dse: seq<Evidence>, d: DoubleSigner) {
    && (exists h :: Supported(chain, dse, |dse|, d.id, h))
    && forall h | h in d.heights :: Supported(chain, dse, |dse|, d.id, h)
  }

  predicate Covers(entry: DoubleSigner, d: DoubleSigner) {
    entry.id == d.id && forall h | h in d.heights :: h in entry.heights
  }

  lemma CoveredIsJustified(chain: Chain, dse: seq<Evidence>, signers: seq<DoubleSigner>, d: DoubleSigner)
    requires Distinct(signers)
    requires forall id, h :: Listed(signers, id, h) <==> Supported(chain, dse, |dse|, id, h)
    ensures (exists j | 0 <= j < |signers| :: Covers(signers[j], d)) <==> Justified(chain, dse, d)
  {
    if j :| 0 <= j < |signers| && Covers(signers[j], d) {
      assert Listed(signers, d.id, signers[j].heights[0]);
      forall h | h in d.heights ensures Supported(chain, dse, |dse|, d.id, h) {
        assert Listed(signers, d.id, h);
      }
    }
    if Justified(chain, dse, d) {
      var g :| Supported(chain, dse, |dse|, d.id, g);
      assert Listed(signers, d.id, g);
      var j :| 0 <= j < |signers| && signers[j].id == d.id && g in signers[j].heights;
      forall h | h in d.heights ensures h in signers[j].heights {
        assert Listed(signers, d.id, h);
      }
      assert Covers(signers[j], d);
    }
  }

  ghost predicate AllJustified(chain: Chain, slashes: seq<DoubleSigner>, dse: seq<Evidence>) {
    && (forall k | 0 <= k < |dse| :: Check(dse[k], chain.minimum(dse[k].a.height)).None?)
    && (forall k | 0 <= k < |slashes| :: Justified(chain, dse, slashes[k]))
  }

  /** ValidateByzantineEvidence accepts a proposal's slashes exactly when there are none, or when every
      piece of evidence is sound and every slash is justified by it. */
  method ValidateByzantineEvidence(chain: Chain, slashes: seq<DoubleSigner>, dse: seq<Evidence>) returns (ok: bool)
    ensures ok <==> slashes == [] || AllJustified(chain, slashes, dse)
  {
    if slashes == [] { return true; }
    var r := ProcessDSE(chain, dse);
    if r.Rejected? { return false; }
    for k := 0 to |slashes|
      invariant forall j | 0 <= j < k :: Justified(chain, dse, slashes[j])
    {
      CoveredIsJustified(chain, dse, r.signers, slashes[k]);
      if !exists j | 0 <= j < |r.signers| :: Covers(r.signers[j], slashes[k]) { return false; }
    }
    return true;
  }

  // ---- No honest replica is ever convicted -------------------------------

  /** What was signed at each step of a height's run: the vote of the log, and the leader it named. */
  ghost predicate Signatures(log: seq<A.Vote>, ballots: seq<Ballot>) {
    |ballots| == |log| && forall k | 0 <= k < |log| :: ballots[k].payload == log[k].payload
  }

  /** Genuine: every signer signed exactly this ballot in this round and phase of the run. */
  ghost predicate Genuine(log: seq<A.Vote>, ballots: seq<Ballot>, cert: Certificate)
    requires Signatures(log, ballots)
  {
    forall i | i in cert.signers :: exists k :: 0 <= k < |log| && SignedAt(log, ballots, k, i, cert)
  }

  predicate SignedAt(log: seq<A.Vote>, ballots: seq<Ballot>, k: nat, i: ReplicaId, cert: Certificate)
    requires Signatures(log, ballots) && k < |log|
  {
    log[k].voter == i && log[k].round == cert.round && log[k].phase == cert.phase && ballots[k] == cert.ballot
  }

  /** Whatever evidence is put together from the signatures of one height's run, with however many
      Byzantine replicas and leaders, a replica that obeyed the protocol is not convicted of that height. */
  lemma {:induction false} HonestNeverConvicted(cfg: A.Config, admit: A.Admission, run: seq<A.Event>, ballots: seq<Ballot>,
                             chain: Chain, dse: seq<Evidence>, h: nat, id: ReplicaId)
    requires A.Legal(cfg, admit, run) && A.Honest(cfg, id)
    requires Signatures(A.After(cfg, run).log, ballots)
    requires forall k | 0 <= k < |dse| :: Check(dse[k], chain.minimum(dse[k].a.height)).None?
    requires forall k | 0 <= k < |dse| && dse[k].a.height == h ::
               Genuine(A.After(cfg, run).log, ballots, dse[k].a) && Genuine(A.After(cfg, run).log, ballots, dse[k].b)
    ensures !Supported(chain, dse, |dse|, id, h)
  {
    var log := A.After(cfg, run).log;
    if Supported(chain, dse, |dse|, id, h) {
      var n :| 0 <= n < |dse| && Names(chain, dse[n], id, h);
      var j :| 0 <= j < |log| && SignedAt(log, ballots, j, id, dse[n].a);
      var k :| 0 <= k < |log| && SignedAt(log, ballots, k, id, dse[n].b);
      A.OneVotePerView(cfg, admit, run, j, k);
      assert false;
    }
  }
}
