/** Pacemaker's reading of the view messages (bft/bft.go). */
module PacemakerRound {
  import opened Lib
  import opened Sums
  import opened Quorum

  /** A view message: who reported reaching which round. */
  datatype Report = Report(voter: ReplicaId, round: nat)

  predicate SortedDescending(reports: seq<Report>) {
    forall j, k | 0 <= j < k < |reports| :: reports[j].round >= reports[k].round
  }

  /** One message per public key, as the message map keeps them. */
  predicate OnePerVoter(reports: seq<Report>) {
    forall j, k | 0 <= j < k < |reports| :: reports[j].voter != reports[k].voter
  }

  /** The members that reported reaching or passing a round. */
  function Reached(c: Committee, reports: seq<Report>, round: nat): set<ReplicaId> {
    set k | 0 <= k < |reports| && reports[k].round >= round && reports[k].voter in c :: reports[k].voter
  }

  /** Someone reached the round, and those who did hold the threshold. */
  ghost predicate Backed(c: Committee, reports: seq<Report>, threshold: nat, round: nat) {
    Reached(c, reports, round) != {} && Power(c, Reached(c, reports, round)) >= threshold
  }

  /** The greatest round that validators holding the threshold have reported reaching or passing, or 0. */
  ghost predicate IsPeersRound(c: Committee, reports: seq<Report>, threshold: nat, round: nat) {
    && (round == 0 || Backed(c, reports, threshold, round))
    && forall r: nat | r > round :: !Backed(c, reports, threshold, r)
  }

  function ReachedIn(c: Committee, reports: seq<Report>, n: nat): set<ReplicaId>
    requires n <= |reports|
  {
    set k | 0 <= k < n && reports[k].voter in c :: reports[k].voter
  }

  /** lib.Uint64ReducePercentage(MinimumMaj23, 50). */
  function Threshold(maj23: nat): nat { maj23 * 50 / 100 }

  /** In a descending list, those who reached a round above the n-th entry stand among the first n. */
  lemma ReachedPrefix(c: Committee, reports: seq<Report>, n: nat, round: nat)
    requires SortedDescending(reports) && n <= |reports|
    requires n < |reports| ==> round > reports[n].round
    ensures Reached(c, reports, round) <= ReachedIn(c, reports, n)
  {
    forall k | 0 <= k < |reports| && reports[k].round >= round && reports[k].voter in c
      ensures reports[k].voter in ReachedIn(c, reports, n)
    {
      assert k < n;
    }
  }

  lemma ReachedStep(c: Committee, reports: seq<Report>, n: nat)
    requires OnePerVoter(reports) && n < |reports|
    ensures reports[n].voter in c ==> ReachedIn(c, reports, n + 1) == ReachedIn(c, reports, n) + {reports[n].voter}
    ensures reports[n].voter !in c ==> ReachedIn(c, reports, n + 1) == ReachedIn(c, reports, n)
    ensures reports[n].voter !in ReachedIn(c, reports, n)
  {}

  /** The first n reports fall short of the threshold: no round above the next one is backed. */
  lemma {:induction false} NothingAbove(c: Committee, reports: seq<Report>, n: nat, threshold: nat, round: nat)
    requires SortedDescending(reports) && n <= |reports|
    requires Power(c, ReachedIn(c, reports, n)) < threshold || ReachedIn(c, reports, n) == {}
    requires n < |reports| ==> round > reports[n].round
    ensures !Backed(c, reports, threshold, round)
  {
    ReachedPrefix(c, reports, n, round);
    PowerMono(c, Reached(c, reports, round), ReachedIn(c, reports, n));
  }

  /** The report that lifts the count to the threshold names the round. */
  lemma {:induction false} CrossingReport(c: Committee, reports: seq<Report>, n: nat, threshold: nat)
    requires SortedDescending(reports) && n < |reports| && reports[n].voter in c
    requires Power(c, ReachedIn(c, reports, n)) < threshold || ReachedIn(c, reports, n) == {}
    requires Power(c, ReachedIn(c, reports, n + 1)) >= threshold
    ensures IsPeersRound(c, reports, threshold, reports[n].round)
  {
    var round := reports[n].round;
    assert reports[n].voter in Reached(c, reports, round);
    PowerMono(c, ReachedIn(c, reports, n + 1), Reached(c, reports, round));
    forall r: nat | r > round ensures !Backed(c, reports, threshold, r) {
      NothingAbove(c, reports, n, threshold, r);
    }
  }

  /** The loop of Pacemaker over the sorted messages: any sort order among equal rounds, hence any order
      in which the message map was read, gives the same round. */
  method PeersRound(c: Committee, reports: seq<Report>, maj23: nat) returns (round: nat)
    requires SortedDescending(reports) && OnePerVoter(reports)
    ensures IsPeersRound(c, reports, Threshold(maj23), round)
  {
    var total := 0;
    var threshold := Threshold(maj23);
    for k := 0 to |reports|
      invariant total == Power(c, ReachedIn(c, reports, k))
      invariant total < threshold || ReachedIn(c, reports, k) == {}
    {
      ReachedStep(c, reports, k);
      if reports[k].voter in c {
        PowerAdd(c, ReachedIn(c, reports, k), reports[k].voter);
        total := total + c[reports[k].voter];
        if total >= threshold {
          CrossingReport(c, reports, k, threshold);
          return reports[k].round;
        }
      }
    }
    forall r: nat | r > 0 ensures !Backed(c, reports, threshold, r) {
      NothingAbove(c, reports, |reports|, threshold, r);
    }
    return 0;
  }

  lemma PeersRoundIsUnique(c: Committee, a: seq<Report>, b: seq<Report>, threshold: nat, ra: nat, rb: nat)
    requires multiset(a) == multiset(b)
    requires IsPeersRound(c, a, threshold, ra) && IsPeersRound(c, b, threshold, rb)
    ensures ra == rb
  {
    SameReached(c, a, b, ra);
    SameReached(c, b, a, ra);
    SameReached(c, a, b, rb);
    SameReached(c, b, a, rb);
    assert Reached(c, a, ra) == Reached(c, b, ra);
    assert Reached(c, a, rb) == Reached(c, b, rb);
    assert ra > rb ==> !Backed(c, b, threshold, ra);
    assert rb > ra ==> !Backed(c, a, threshold, rb);
  }

  lemma SameReached(c: Committee, a: seq<Report>, b: seq<Report>, r: nat)
    requires multiset(a) == multiset(b)
    ensures Reached(c, a, r) <= Reached(c, b, r)
  {
    forall k | 0 <= k < |a| && a[k].round >= r && a[k].voter in c ensures a[k].voter in Reached(c, b, r) {
      assert a[k] in multiset(b);
      var j :| 0 <= j < |b| && b[j] == a[k];
    }
  }

  // ---- Whether a round that is believed was ever reached -------------------

  ghost predicate HonestBacker(c: Committee, byz: set<ReplicaId>, reports: seq<Report>, round: nat) {
    exists v :: v in Reached(c, reports, round) && v !in byz
  }

  /** In every committee of this power every round that is backed by the threshold was reported by an honest member. */
  ghost predicate AlwaysHonest(total: nat) {
    forall c, byz, reports, round | Total(c) == total && 3 * Power(c, byz) < total
      && Backed(c, reports, Threshold(Maj23(c)), round) :: HonestBacker(c, byz, reports, round)
  }

  lemma MinorityShort(total: nat, power: nat)
    requires 3 * power < total && total % 3 != 1
    ensures power < Threshold(2 * total / 3 + 1)
  {}

  /** One member with a third of a power that leaves a remainder of one reaches the threshold alone. */
  lemma LoneBacker(k: nat)
    ensures !AlwaysHonest(3 * k + 1)
  {
    var c: Committee := map[0 := k, 1 := 2 * k + 1];
    var reports := [Report(0, 1)];
    assert {} + {0} == {0} && {0} + {1} == {0, 1} == c.Keys;
    PowerAdd(c, {}, 0);
    PowerAdd(c, {0}, 1);
    assert reports[0].voter in Reached(c, reports, 1);
    assert Reached(c, reports, 1) == {0};
    assert Threshold(Maj23(c)) == k;
    assert Backed(c, reports, Threshold(Maj23(c)), 1) && !HonestBacker(c, {0}, reports, 1);
  }

  /** A round that the peers are believed to have reached was reported by an honest member, in all committees of a given
      power, if and only if that power does not leave a remainder of one when divided by three: half of the two-thirds
      power, rounded down, can then be held by a minority of less than a third. */
  lemma PeersRoundIsHonest(total: nat)
    ensures AlwaysHonest(total) <==> total % 3 != 1
  {
    if total % 3 == 1 {
      LoneBacker(total / 3);
    } else {
      forall c, byz, reports, round | Total(c) == total && 3 * Power(c, byz) < total
        && Backed(c, reports, Threshold(Maj23(c)), round)
        ensures HonestBacker(c, byz, reports, round)
      {
        MinorityShort(total, Power(c, byz));
        if Reached(c, reports, round) <= byz { PowerMono(c, Reached(c, reports, round), byz); }
      }
    }
  }
}
