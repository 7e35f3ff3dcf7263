/** Voting power, the two-thirds threshold of lib/consensus.go, and what two quorums share. */
module Quorum {
  import opened Lib
  import opened Sums

  type ReplicaId = nat

  /** A validator set: the voting power of each member. */
  type Committee = map<ReplicaId, nat>

  ghost function Power(c: Committee, s: set<ReplicaId>): nat {
    if s == {} then 0 else
      var x :| x in s;
      Get(c, x) + Power(c, s - {x})
  }

  ghost function Total(c: Committee): nat { Power(c, c.Keys) }

  /** MinimumMaj23: more than two thirds of the whole power. */
  ghost function Maj23(c: Committee): nat { 2 * Total(c) / 3 + 1 }

  lemma {:induction false} PowerRemove(c: Committee, s: set<ReplicaId>, x: ReplicaId)
    requires x in s
    ensures Power(c, s) == Get(c, x) + Power(c, s - {x})
  {
    var y :| y in s && Power(c, s) == Get(c, y) + Power(c, s - {y});
    if y != x {
      PowerRemove(c, s - {y}, x);
      PowerRemove(c, s - {x}, y);
      assert s - {x} - {y} == s - {y} - {x};
    }
  }

  lemma {:induction false} PowerAdd(c: Committee, s: set<ReplicaId>, x: ReplicaId)
    requires x !in s
    ensures Power(c, s + {x}) == Power(c, s) + Get(c, x)
  {
    PowerRemove(c, s + {x}, x);
    assert s + {x} - {x} == s;
  }

  lemma {:induction false} PowerMono(c: Committee, a: set<ReplicaId>, b: set<ReplicaId>)
    requires a <= b
    ensures Power(c, a) <= Power(c, b)
    decreases b
  {
    if a != {} {
      var x :| x in a;
      PowerRemove(c, a, x);
      PowerRemove(c, b, x);
      PowerMono(c, a - {x}, b - {x});
    }
  }

  lemma {:induction false} PowerUnion(c: Committee, a: set<ReplicaId>, b: set<ReplicaId>)
    ensures Power(c, a) + Power(c, b) == Power(c, a + b) + Power(c, a * b)
    decreases a
  {
    if a == {} {
      assert a + b == b && a * b == {};
    } else {
      var x :| x in a;
      var r := a - {x};
      PowerRemove(c, a, x);
      PowerUnion(c, r, b);
      if x in b {
        assert a + b == r + b && a * b - {x} == r * b;
        PowerRemove(c, a * b, x);
      } else {
        assert a + b - {x} == r + b && a * b == r * b;
        PowerRemove(c, a + b, x);
      }
    }
  }

  /** A set of members that carries the two-thirds majority. */
  ghost predicate IsQuorum(c: Committee, s: set<ReplicaId>) {
    s <= c.Keys && Power(c, s) >= Maj23(c)
  }

  /** Any two quorums share more than a third of the power. */
  lemma {:induction false} QuorumsShareAThird(c: Committee, a: set<ReplicaId>, b: set<ReplicaId>)
    requires IsQuorum(c, a) && IsQuorum(c, b)
    ensures 3 * Power(c, a * b) > Total(c)
  {
    PowerUnion(c, a, b);
    PowerMono(c, a + b, c.Keys);
  }

  /** Hence a Byzantine minority cannot be all that two quorums have in common. */
  lemma QuorumsShareAnHonest(c: Committee, byz: set<ReplicaId>, a: set<ReplicaId>, b: set<ReplicaId>)
    returns (honest: ReplicaId)
    requires IsQuorum(c, a) && IsQuorum(c, b)
    requires 3 * Power(c, byz) < Total(c)
    ensures honest in a && honest in b && honest !in byz
  {
    QuorumsShareAThird(c, a, b);
    if a * b <= byz {
      PowerMono(c, a * b, byz);
      assert false;
    }
    honest :| honest in a * b && honest !in byz;
  }
}
