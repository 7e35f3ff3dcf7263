/** Reward percents: who computes them (controller/result.go), who checks and accumulates them
    (lib/certificate.go, fsm/automatic.go), and how a reward pool is paid out (fsm/committee.go). */
module Rewards {
  import opened Lib
  import opened Sums
  import opened Points
  import opened Ledgers
  import opened Machine
  import opened Transfers

  datatype Percent = Percent(addr: Address, percent: nat, chain: ChainId)

  function SumFor(ps: seq<Percent>, chain: ChainId): nat {
    if ps == [] then 0 else (if ps[0].chain == chain then ps[0].percent else 0) + SumFor(ps[1..], chain)
  }

  function SumAll(ps: seq<Percent>): nat { if ps == [] then 0 else ps[0].percent + SumAll(ps[1..]) }

  /** The percent one address has on one chain. */
  function PercentOf(ps: seq<Percent>, a: Address, chain: ChainId): nat {
    if ps == [] then 0
    else (if ps[0].addr == a && ps[0].chain == chain then ps[0].percent else 0) + PercentOf(ps[1..], a, chain)
  }

  /** One entry per address and chain, none of them empty. */
  predicate Tidy(ps: seq<Percent>) {
    && (forall j, k | 0 <= j < k < |ps| :: ps[j].addr != ps[k].addr || ps[j].chain != ps[k].chain)
    && (forall k | 0 <= k < |ps| :: ps[k].percent > 0)
  }

  /** One address got n more on each of the given chains, and nothing else changed. */
  ghost predicate Credited(ps: seq<Percent>, out: seq<Percent>, a: Address, n: nat, chains: set<ChainId>) {
    && (forall b, c :: PercentOf(out, b, c) == PercentOf(ps, b, c) + if b == a && c in chains then n else 0)
    && (forall c :: SumFor(out, c) == SumFor(ps, c) + if c in chains then n else 0)
  }

  lemma {:induction false} SumForAt(ps: seq<Percent>, i: nat, n: nat, a: Address, chain: ChainId)
    requires i < |ps|
    ensures var out := ps[i := ps[i].(percent := ps[i].percent + n)];
            && SumFor(out, chain) == SumFor(ps, chain) + (if chain == ps[i].chain then n else 0)
            && PercentOf(out, a, chain) == PercentOf(ps, a, chain) + if a == ps[i].addr && chain == ps[i].chain then n else 0
  {
    var p := ps[i].(percent := ps[i].percent + n);
    if i == 0 {
      assert ps[i := p][1..] == ps[1..];
    } else {
      SumForAt(ps[1..], i - 1, n, a, chain);
      assert ps[i := p][1..] == ps[1..][i - 1 := p];
    }
  }

  lemma {:induction false} SumForAppend(ps: seq<Percent>, p: Percent, a: Address, chain: ChainId)
    ensures SumFor(ps + [p], chain) == SumFor(ps, chain) + if chain == p.chain then p.percent else 0
    ensures PercentOf(ps + [p], a, chain) == PercentOf(ps, a, chain) + if a == p.addr && chain == p.chain then p.percent else 0
  {
    if ps == [] {
      assert ps + [p] == [p];
      assert SumFor([p][1..], chain) == 0 && PercentOf([p][1..], a, chain) == 0;
    } else {
      SumForAppend(ps[1..], p, a, chain);
      assert (ps + [p])[1..] == ps[1..] + [p];
    }
  }

  lemma RaiseCredits(ps: seq<Percent>, i: nat, n: nat)
    requires i < |ps|
    ensures Credited(ps, ps[i := ps[i].(percent := ps[i].percent + n)], ps[i].addr, n, {ps[i].chain})
  {
    forall a, c { SumForAt(ps, i, n, a, c); }
    forall c { SumForAt(ps, i, n, ps[i].addr, c); }
  }

  lemma AppendCredits(ps: seq<Percent>, p: Percent)
    ensures Credited(ps, ps + [p], p.addr, p.percent, {p.chain})
  {
    forall a, c { SumForAppend(ps, p, a, c); }
    forall c { SumForAppend(ps, p, p.addr, c); }
  }

  // ---- Computing the recipients ------------------------------------------

  /** addPaymentPercent: raise the entry of this address and chain, or append one; a cut of 0 adds nothing. */
  method AddPaymentPercentFor(ps: seq<Percent>, addr: Address, cut: nat, chain: ChainId) returns (out: seq<Percent>)
    requires Tidy(ps)
    ensures Tidy(out) && Credited(ps, out, addr, cut, {chain})
  {
    if cut == 0 { return ps; }
    for i := 0 to |ps|
      invariant forall j | 0 <= j < i :: ps[j].addr != addr || ps[j].chain != chain
    {
      if ps[i].addr == addr && ps[i].chain == chain {
        RaiseCredits(ps, i, cut);
        return ps[i := ps[i].(percent := ps[i].percent + cut)];
      }
    }
    AppendCredits(ps, Percent(addr, cut, chain));
    return ps + [Percent(addr, cut, chain)];
  }

  datatype Winner = Winner(addr: Address, cut: nat)

  /** AddPaymentPercent: for the root chain, and for this chain when it is not its own root. */
  method AddPaymentPercent(ps: seq<Percent>, w: Winner, root: ChainId, own: ChainId) returns (out: seq<Percent>)
    requires Tidy(ps)
    ensures Tidy(out) && Credited(ps, out, w.addr, w.cut, {root, own})
  {
    out := AddPaymentPercentFor(ps, w.addr, w.cut, root);
    if root != own {
      out := AddPaymentPercentFor(out, w.addr, w.cut, own);
    }
  }

  predicate Refuses(left: nat, w: Option<Winner>) { w.None? || left < w.value.cut }

  /** A winner's cut comes out of what is left to the proposer and goes to the winner; it is refused when it is
      more than what is left. */
  ghost predicate Taken(left: nat, ps: seq<Percent>, w: Option<Winner>, chains: set<ChainId>, rest: nat, out: seq<Percent>) {
    if Refuses(left, w) then rest == left && out == ps
    else rest == left - w.value.cut && Credited(ps, out, w.value.addr, w.value.cut, chains)
  }

  /** AddRewardRecipient. */
  method AddRewardRecipient(left: nat, ps: seq<Percent>, w: Option<Winner>, root: ChainId, own: ChainId)
    returns (rest: nat, out: seq<Percent>)
    requires Tidy(ps)
    ensures Tidy(out) && Taken(left, ps, w, {root, own}, rest, out)
  {
    if w.None? || left < w.value.cut { return left, ps; }
    rest := left - w.value.cut;
    out := AddPaymentPercent(ps, w.value, root, own);
  }

  function CutOf(left: nat, w: Option<Winner>): (r: nat)
    ensures r <= left
  {
    if Refuses(left, w) then 0 else w.value.cut
  }

  function Won(a: Address, w: Option<Winner>, cut: nat): nat { if w.Some? && w.value.addr == a then cut else 0 }

  /** What an address is due: its cuts, taken in this order out of 100, and what is left for the proposer. */
  function Due(a: Address, proposer: Address, delegate: Option<Winner>, nestedValidator: Option<Winner>,
               nestedDelegate: Option<Winner>, nested: bool): nat {
    var d := CutOf(100, delegate);
    var v := if nested then CutOf(100 - d, nestedValidator) else 0;
    var n := if nested then CutOf(100 - d - v, nestedDelegate) else 0;
    Won(a, delegate, d) + Won(a, nestedValidator, v) + Won(a, nestedDelegate, n) + if a == proposer then 100 - d - v - n else 0
  }

  /** One turn as one address sees it on one chain, which may be one of those rewarded or not. */
  predicate Turn(left: nat, sum: nat, percent: nat, w: Option<Winner>, rewarded: bool, a: Address, rest: nat, sum': nat, percent': nat) {
    && rest == left - CutOf(left, w)
    && sum' == sum + (if rewarded then CutOf(left, w) else 0)
    && percent' == percent + if rewarded then Won(a, w, CutOf(left, w)) else 0
  }

  lemma {:induction false} TakenIsTurn(left: nat, ps: seq<Percent>, w: Option<Winner>, chains: set<ChainId>, rest: nat, out: seq<Percent>,
                    a: Address, c: ChainId)
    requires Taken(left, ps, w, chains, rest, out)
    ensures Turn(left, SumFor(ps, c), PercentOf(ps, a, c), w, c in chains, a, rest, SumFor(out, c), PercentOf(out, a, c))
  {}

  lemma TurnsAddUp(left1: nat, left2: nat, left3: nat, s1: nat, s2: nat, s3: nat, s4: nat, p1: nat, p2: nat, p3: nat, p4: nat,
                   proposer: Address, delegate: Option<Winner>, nestedValidator: Option<Winner>, nestedDelegate: Option<Winner>,
                   nested: bool, rewarded: bool, a: Address)
    requires Turn(100, 0, 0, delegate, rewarded, a, left1, s1, p1)
    requires if nested then Turn(left1, s1, p1, nestedValidator, rewarded, a, left2, s2, p2)
             else left2 == left1 && s2 == s1 && p2 == p1
    requires if nested then Turn(left2, s2, p2, nestedDelegate, rewarded, a, left3, s3, p3)
             else left3 == left2 && s3 == s2 && p3 == p2
    requires Turn(left3, s3, p3, Some(Winner(proposer, left3)), rewarded, a, 0, s4, p4)
    ensures s4 == if rewarded then 100 else 0
    ensures p4 == if rewarded then Due(a, proposer, delegate, nestedValidator, nestedDelegate, nested) else 0
  {}

  /** Every winner has its cut and the proposer the rest, on the given chains and nowhere else; the percents sum
      to exactly 100 on each. */
  ghost predicate Dealt(ps: seq<Percent>, chains: set<ChainId>, proposer: Address, delegate: Option<Winner>,
                        nestedValidator: Option<Winner>, nestedDelegate: Option<Winner>, nested: bool) {
    && (forall c :: SumFor(ps, c) == if c in chains then 100 else 0)
    && (forall a, c :: PercentOf(ps, a, c)
          == if c in chains then Due(a, proposer, delegate, nestedValidator, nestedDelegate, nested) else 0)
  }

  /** The winners' turns, one after the other, deal out the whole 100. */
  lemma TurnsDeal(left1: nat, ps1: seq<Percent>, left2: nat, ps2: seq<Percent>, left3: nat, ps3: seq<Percent>, ps: seq<Percent>,
                  chains: set<ChainId>, proposer: Address, delegate: Option<Winner>,
                  nestedValidator: Option<Winner>, nestedDelegate: Option<Winner>, nested: bool)
    requires Taken(100, [], delegate, chains, left1, ps1)
    requires if nested then Taken(left1, ps1, nestedValidator, chains, left2, ps2) else left2 == left1 && ps2 == ps1
    requires if nested then Taken(left2, ps2, nestedDelegate, chains, left3, ps3) else left3 == left2 && ps3 == ps2
    requires Taken(left3, ps3, Some(Winner(proposer, left3)), chains, 0, ps)
    ensures Dealt(ps, chains, proposer, delegate, nestedValidator, nestedDelegate, nested)
  {
    forall a, c
      ensures SumFor(ps, c) == if c in chains then 100 else 0
      ensures PercentOf(ps, a, c)
                == if c in chains then Due(a, proposer, delegate, nestedValidator, nestedDelegate, nested) else 0
    {
      TakenIsTurn(100, [], delegate, chains, left1, ps1, a, c);
      if nested {
        TakenIsTurn(left1, ps1, nestedValidator, chains, left2, ps2, a, c);
        TakenIsTurn(left2, ps2, nestedDelegate, chains, left3, ps3, a, c);
      }
      TakenIsTurn(left3, ps3, Some(Winner(proposer, left3)), chains, 0, ps, a, c);
      TurnsAddUp(left1, left2, left3, SumFor(ps1, c), SumFor(ps2, c), SumFor(ps3, c), SumFor(ps, c),
                 PercentOf(ps1, a, c), PercentOf(ps2, a, c), PercentOf(ps3, a, c), PercentOf(ps, a, c),
                 proposer, delegate, nestedValidator, nestedDelegate, nested, c in chains, a);
    }
    forall c ensures SumFor(ps, c) == if c in chains then 100 else 0 {
      assert PercentOf(ps, 0, c) >= 0;
    }
  }

  /** CalculateRewardRecipients: whoever wins the lotteries and whatever cuts they were promised, every winner
      has its cut, the proposer has the rest, on the root chain and on this chain alike and nowhere else; the
      percents sum to exactly 100 for either, with one entry per address and chain. */
  method CalculateRewardRecipients(proposer: Address, delegate: Option<Winner>, nestedValidator: Option<Winner>,
                                   nestedDelegate: Option<Winner>, root: ChainId, own: ChainId) returns (ps: seq<Percent>)
    ensures Tidy(ps) && Dealt(ps, {root, own}, proposer, delegate, nestedValidator, nestedDelegate, root != own)
  {
    var left := 100;
    ps := [];
    left, ps := AddRewardRecipient(left, ps, delegate, root, own);
    ghost var left1, ps1, left2, ps2 := left, ps, left, ps;
    if root != own {
      left, ps := AddRewardRecipient(left, ps, nestedValidator, root, own);
      left2, ps2 := left, ps;
      left, ps := AddRewardRecipient(left, ps, nestedDelegate, root, own);
    }
    ghost var ps3 := ps;
    ps := AddPaymentPercent(ps, Winner(proposer, left), root, own);
    TurnsDeal(left1, ps1, left2, ps2, left, ps3, ps, {root, own}, proposer, delegate, nestedValidator, nestedDelegate, root != own);
  }

  // ---- Checking and accumulating -----------------------------------------

  /** RewardRecipients.CheckBasic: between 1 and 100 entries, real chain ids, at most 100 percent a chain. */
  predicate CheckedRecipients(ps: seq<Percent>) {
    && 0 < |ps| <= 100
    && (forall k | 0 <= k < |ps| :: ps[k].chain != 0 && SumFor(ps, ps[k].chain) <= 100)
  }

  lemma {:induction false} SumForPrefix(ps: seq<Percent>, n: nat, chain: ChainId)
    requires n <= |ps|
    ensures SumFor(ps[..n], chain) <= SumFor(ps, chain)
    ensures n < |ps| ==> SumFor(ps[..n + 1], chain) == SumFor(ps[..n], chain) + if ps[n].chain == chain then ps[n].percent else 0
  {
    if n < |ps| {
      assert ps[..n + 1] == ps[..n] + [ps[n]];
      SumForAppend(ps[..n], ps[n], ps[n].addr, chain);
      SumForPrefixUp(ps, n, chain);
    } else {
      assert ps[..n] == ps;
    }
  }

  lemma {:induction false} SumForPrefixUp(ps: seq<Percent>, n: nat, chain: ChainId)
    requires n <= |ps|
    ensures SumFor(ps[..n], chain) <= SumFor(ps, chain)
  {
    if n > 0 {
      SumForPrefixUp(ps[1..], n - 1, chain);
      assert ps[..n][1..] == ps[1..][..n - 1];
    }
  }

  /** The check keeps a running total per chain and stops when one exceeds 100. */
  method CheckBasic(ps: seq<Percent>) returns (ok: bool)
    ensures ok <==> CheckedRecipients(ps)
  {
    if |ps| == 0 || |ps| > 100 { return false; }
    var totals: map<ChainId, nat> := map[];
    for k := 0 to |ps|
      invariant forall c :: Get(totals, c) == SumFor(ps[..k], c)
      invariant forall c :: Get(totals, c) <= 100
      invariant forall j | 0 <= j < k :: ps[j].chain != 0
    {
      if ps[k].chain == 0 { return false; }
      var total := Get(totals, ps[k].chain) + ps[k].percent;
      SumForPrefix(ps, k, ps[k].chain);
      if total > 100 {
        SumForPrefix(ps, k + 1, ps[k].chain);
        return false;
      }
      var totals' := totals[ps[k].chain := total];
      forall c ensures Get(totals', c) == SumFor(ps[..k + 1], c) && Get(totals', c) <= 100 {
        SumForPrefix(ps, k, c);
        assert Get(totals, c) == SumFor(ps[..k], c);
      }
      totals := totals';
    }
    assert ps[..|ps|] == ps;
    return true;
  }

  /** What HandleCertificateResults does to each percent before it is stored. */
  function Reduced(ps: seq<Percent>, nonSigners: nat): seq<Percent> {
    if ps == [] then [] else
      var left := if nonSigners >= 100 then 0 else ps[0].percent * (100 - nonSigners) / 100;
      [ps[0].(percent := left)] + Reduced(ps[1..], nonSigners)
  }

  lemma {:induction false} ReducedSum(ps: seq<Percent>, nonSigners: nat, chain: ChainId)
    ensures |Reduced(ps, nonSigners)| == |ps|
    ensures SumFor(Reduced(ps, nonSigners), chain) <= SumFor(ps, chain)
  {
    if ps != [] {
      ReducedSum(ps[1..], nonSigners, chain);
      if nonSigners < 100 {
        ReducedOne(ps[0].percent, nonSigners);
      }
      assert Reduced(ps, nonSigners)[1..] == Reduced(ps[1..], nonSigners);
    }
  }

  lemma ReducedOne(percent: nat, nonSigners: nat)
    requires nonSigners < 100
    ensures percent * (100 - nonSigners) / 100 <= percent
  {
    MulMono(100 - nonSigners, 100, percent);
    QuotientTimes(percent * (100 - nonSigners), 100);
    Cancel(percent * (100 - nonSigners) / 100, percent, 100);
  }

  /** What is stored for a committee between two payouts. */
  datatype Committee = Committee(percents: seq<Percent>, samples: nat)

  function EntryOf(ps: seq<Percent>, a: Address): (r: nat)
    ensures r <= |ps|
    ensures r < |ps| ==> ps[r].addr == a
  {
    if ps == [] then 0 else if ps[0].addr == a then 0 else 1 + EntryOf(ps[1..], a)
  }

  /** addPercents, by address alone. */
  function AddedPercent(ps: seq<Percent>, p: Percent): Result<seq<Percent>> {
    var i := EntryOf(ps, p.addr);
    if p.percent == 0 then Ok(ps)
    else if i < |ps| then
      if ps[i].percent + p.percent > MAX then Err(InvalidAmount) else Ok(ps[i := ps[i].(percent := ps[i].percent + p.percent)])
    else Ok(ps + [p])
  }

  /** Combine: take over the percents meant for this chain, and count one more sample. */
  function CombineFrom(ps: seq<Percent>, sent: seq<Percent>, k: nat, own: ChainId): Result<seq<Percent>>
    requires k <= |sent|
    decreases |sent| - k
  {
    if k == |sent| then Ok(ps)
    else if sent[k].chain != own then CombineFrom(ps, sent, k + 1, own)
    else
      match AddedPercent(ps, sent[k])
      case Err(e) => Err(e)
      case Ok(ps') => CombineFrom(ps', sent, k + 1, own)
  }

  function Combine(c: Committee, sent: seq<Percent>, own: ChainId): Result<Committee> {
    match CombineFrom(c.percents, sent, 0, own)
    case Err(e) => Err(e)
    case Ok(ps) => if c.samples == MAX then Err(InvalidAmount) else Ok(Committee(ps, c.samples + 1))
  }

  lemma {:induction false} SumAllAt(ps: seq<Percent>, i: nat, n: nat)
    requires i < |ps|
    ensures SumAll(ps[i := ps[i].(percent := ps[i].percent + n)]) == SumAll(ps) + n
  {
    var ps' := ps[i := ps[i].(percent := ps[i].percent + n)];
    if i == 0 {
      assert ps'[1..] == ps[1..];
    } else {
      SumAllAt(ps[1..], i - 1, n);
      assert ps'[1..] == ps[1..][i - 1 := ps[1..][i - 1].(percent := ps[i].percent + n)];
    }
  }

  lemma {:induction false} SumAllAppend(ps: seq<Percent>, p: Percent)
    ensures SumAll(ps + [p]) == SumAll(ps) + p.percent
  {
    if ps == [] {
      assert ps + [p] == [p];
      assert SumAll([p][1..]) == 0;
    } else {
      SumAllAppend(ps[1..], p);
      assert (ps + [p])[1..] == ps[1..] + [p];
    }
  }

  lemma {:induction false} CombineFromSum(ps: seq<Percent>, sent: seq<Percent>, k: nat, own: ChainId)
    requires k <= |sent| && CombineFrom(ps, sent, k, own).Ok?
    ensures SumAll(CombineFrom(ps, sent, k, own).value) == SumAll(ps) + SumFor(sent[k..], own)
    decreases |sent| - k
  {
    if k < |sent| {
      assert sent[k..][1..] == sent[k + 1..];
      if sent[k].chain == own {
        var i := EntryOf(ps, sent[k].addr);
        if sent[k].percent != 0 {
          if i < |ps| { SumAllAt(ps, i, sent[k].percent); } else { SumAllAppend(ps, sent[k]); }
        }
        CombineFromSum(AddedPercent(ps, sent[k]).value, sent, k + 1, own);
      } else {
        CombineFromSum(ps, sent, k + 1, own);
      }
    }
  }

  /** The percents stored for a committee never sum to more than 100 times its samples. */
  predicate Normal(c: Committee) { SumAll(c.percents) <= 100 * c.samples }

  lemma {:induction false} CombineNormal(c: Committee, sent: seq<Percent>, nonSigners: nat, own: ChainId)
    requires Normal(c) && CheckedRecipients(sent) && Combine(c, Reduced(sent, nonSigners), own).Ok?
    ensures Normal(Combine(c, Reduced(sent, nonSigners), own).value)
  {
    var ps := Reduced(sent, nonSigners);
    assert ps[0..] == ps;
    CombineFromSum(c.percents, ps, 0, own);
    ReducedSum(sent, nonSigners, own);
    CheckedSum(sent, own);
  }

  /** Everything stored for a committee is meant for this chain. */
  predicate AllOn(ps: seq<Percent>, own: ChainId) { forall k | 0 <= k < |ps| :: ps[k].chain == own }

  lemma {:induction false} CombineFromEach(ps: seq<Percent>, sent: seq<Percent>, k: nat, own: ChainId, a: Address)
    requires k <= |sent| && AllOn(ps, own) && CombineFrom(ps, sent, k, own).Ok?
    ensures var out := CombineFrom(ps, sent, k, own).value;
            AllOn(out, own) && PercentOf(out, a, own) == PercentOf(ps, a, own) + PercentOf(sent[k..], a, own)
    decreases |sent| - k
  {
    if k < |sent| {
      assert sent[k..][1..] == sent[k + 1..];
      if sent[k].chain == own {
        var i := EntryOf(ps, sent[k].addr);
        if sent[k].percent != 0 {
          if i < |ps| { SumForAt(ps, i, sent[k].percent, a, own); } else { SumForAppend(ps, sent[k], a, own); }
        }
        CombineFromEach(AddedPercent(ps, sent[k]).value, sent, k + 1, own, a);
      } else {
        CombineFromEach(ps, sent, k + 1, own, a);
      }
    }
  }

  /** The part of a percent that the signers' share leaves of it, rounded down. */
  function Signed(percent: nat, nonSigners: nat): (n: nat)
    ensures nonSigners <= 100 ==> n * 100 <= percent * (100 - nonSigners) < (n + 1) * 100
    ensures nonSigners > 100 ==> n == 0
  {
    if nonSigners >= 100 then MulNonNeg(percent, 0); 0 else
      MulNonNeg(percent, 100 - nonSigners);
      QuotientTimes(percent * (100 - nonSigners), 100);
      percent * (100 - nonSigners) / 100
  }

  /** What a certificate adds for an address on a chain. */
  function SignedFor(sent: seq<Percent>, nonSigners: nat, a: Address, chain: ChainId): nat {
    if sent == [] then 0 else
      (if sent[0].addr == a && sent[0].chain == chain then Signed(sent[0].percent, nonSigners) else 0)
      + SignedFor(sent[1..], nonSigners, a, chain)
  }

  lemma {:induction false} ReducedEach(sent: seq<Percent>, nonSigners: nat, a: Address, chain: ChainId)
    ensures PercentOf(Reduced(sent, nonSigners), a, chain) == SignedFor(sent, nonSigners, a, chain)
  {
    if sent != [] {
      ReducedEach(sent[1..], nonSigners, a, chain);
      assert Reduced(sent, nonSigners)[1..] == Reduced(sent[1..], nonSigners);
    }
  }

  /** A certificate adds to what is stored for each address exactly the signed part of its percents on this chain, and counts
      one sample. */
  lemma {:induction false} CombineAddsEach(c: Committee, sent: seq<Percent>, nonSigners: nat, own: ChainId, a: Address)
    requires AllOn(c.percents, own) && Combine(c, Reduced(sent, nonSigners), own).Ok?
    ensures var c' := Combine(c, Reduced(sent, nonSigners), own).value;
            && AllOn(c'.percents, own) && c'.samples == c.samples + 1
            && PercentOf(c'.percents, a, own) == PercentOf(c.percents, a, own) + SignedFor(sent, nonSigners, a, own)
  {
    var ps := Reduced(sent, nonSigners);
    assert ps[0..] == ps;
    CombineFromEach(c.percents, ps, 0, own, a);
    ReducedEach(sent, nonSigners, a, own);
  }

  lemma {:induction false} WithinAll(ps: seq<Percent>, i: nat)
    requires i < |ps|
    ensures ps[i].percent <= SumAll(ps)
  {
    if i > 0 { WithinAll(ps[1..], i - 1); }
  }

  lemma {:induction false} CombineFromSucceeds(ps: seq<Percent>, sent: seq<Percent>, k: nat, own: ChainId)
    requires k <= |sent| && SumAll(ps) + SumFor(sent[k..], own) <= MAX
    ensures CombineFrom(ps, sent, k, own).Ok?
    decreases |sent| - k
  {
    if k < |sent| {
      assert sent[k..][1..] == sent[k + 1..];
      if sent[k].chain == own {
        var i := EntryOf(ps, sent[k].addr);
        if i < |ps| {
          WithinAll(ps, i);
          SumAllAt(ps, i, sent[k].percent);
        } else {
          SumAllAppend(ps, sent[k]);
        }
        CombineFromSucceeds(AddedPercent(ps, sent[k]).value, sent, k + 1, own);
      } else {
        CombineFromSucceeds(ps, sent, k + 1, own);
      }
    }
  }

  /** While what is stored leaves room for another 100 percent, a checked certificate is refused exactly when the samples
      cannot be counted any more. */
  lemma {:induction false} CombineSucceedsExactly(c: Committee, sent: seq<Percent>, nonSigners: nat, own: ChainId)
    requires CheckedRecipients(sent) && SumAll(c.percents) + 100 <= MAX
    ensures Combine(c, Reduced(sent, nonSigners), own).Ok? <==> c.samples != MAX
  {
    var ps := Reduced(sent, nonSigners);
    assert ps[0..] == ps;
    ReducedSum(sent, nonSigners, own);
    CheckedSum(sent, own);
    CombineFromSucceeds(c.percents, ps, 0, own);
  }

  lemma {:induction false} NoneOf(ps: seq<Percent>, chain: ChainId)
    requires forall k | 0 <= k < |ps| :: ps[k].chain != chain
    ensures SumFor(ps, chain) == 0
  {
    if ps != [] { NoneOf(ps[1..], chain); }
  }

  lemma {:induction false} CheckedSum(ps: seq<Percent>, chain: ChainId)
    requires CheckedRecipients(ps)
    ensures SumFor(ps, chain) <= 100
  {
    if forall k | 0 <= k < |ps| :: ps[k].chain != chain {
      NoneOf(ps, chain);
    }
  }

  method CombineInto(c: Committee, sent: seq<Percent>, own: ChainId) returns (r: Result<Committee>)
    ensures r == Combine(c, sent, own)
  {
    var ps := c.percents;
    for k := 0 to |sent|
      invariant CombineFrom(c.percents, sent, 0, own) == CombineFrom(ps, sent, k, own)
    {
      if sent[k].chain == own {
        var added := AddPercents(ps, sent[k]);
        if added.Err? { return Err(added.error); }
        ps := added.value;
      }
    }
    if c.samples == MAX { return Err(InvalidAmount); }
    return Ok(Committee(ps, c.samples + 1));
  }

  method AddPercents(ps: seq<Percent>, p: Percent) returns (r: Result<seq<Percent>>)
    ensures r == AddedPercent(ps, p)
  {
    if p.percent == 0 { return Ok(ps); }
    for i := 0 to |ps|
      invariant EntryOf(ps, p.addr) == i + EntryOf(ps[i..], p.addr)
    {
      assert ps[i..][1..] == ps[i + 1..];
      if ps[i].addr == p.addr {
        if ps[i].percent > MAX || p.percent > MAX - ps[i].percent { return Err(InvalidAmount); }
        return Ok(ps[i := ps[i].(percent := ps[i].percent + p.percent)]);
      }
    }
    return Ok(ps + [p]);
  }

  // ---- Paying out --------------------------------------------------------

  /** Who stands behind an address: nobody, a compounding validator, or one that pays out elsewhere. */
  datatype Payee = Stranger | Compounder | PaysTo(output: Address)

  function FullReward(percent: nat, pool: nat, samples: nat): nat {
    if samples == 0 then 0 else
      MulNonNeg(percent, pool);
      (percent * pool / (samples * 100)) % U64
  }

  function EarlyReward(full: nat, penalty: nat): nat {
    if penalty >= 100 || full == 0 then 0 else if penalty == 0 then full else MulDiv(full, 100 - penalty, 100)
  }

  function PayOut(l: Ledger, addr: Address, full: nat, early: nat, payee: Payee): Result<(Ledger, nat)> {
    match payee
    case Compounder => Ok((AddStake(l, addr, full), full))
    case Stranger => (match AccountAdd(l, addr, early) case Err(e) => Err(e) case Ok(l') => Ok((l', early)))
    case PaysTo(o) => (match AccountAdd(l, o, early) case Err(e) => Err(e) case Ok(l') => Ok((l', early)))
  }

  /** DistributeCommitteeReward: the ledger after one stub, and what it took from the pool. */
  function PayStub(l: Ledger, stub: Percent, pool: nat, samples: nat, penalty: nat, payee: Payee): Result<(Ledger, nat)> {
    var full := FullReward(stub.percent, pool, samples);
    PayOut(l, stub.addr, full, EarlyReward(full, penalty), payee)
  }

  /** Paying one stub out of one committee's pool. */
  type Pay = (Ledger, Percent) -> Result<(Ledger, nat)>

  function Payer(pool: nat, samples: nat, penalty: nat, who: Address -> Payee): Pay {
    (l: Ledger, stub: Percent) => PayStub(l, stub, pool, samples, penalty, who(stub.addr))
  }

  function PayFrom(l: Ledger, total: nat, stubs: seq<Percent>, k: nat, pay: Pay): Result<(Ledger, nat)>
    requires k <= |stubs|
    decreases |stubs| - k
  {
    if k == |stubs| then Ok((l, total)) else
      match pay(l, stubs[k])
      case Err(e) => Err(e)
      case Ok((l', paid)) => if total + paid > MAX then Err(InvalidAmount) else PayFrom(l', total + paid, stubs, k + 1, pay)
  }

  /** DistributeCommitteeRewards for one committee: pay the stubs, burn the rest, zero the pool. */
  function Distribute(l: Ledger, id: ChainId, c: Committee, penalty: nat, who: Address -> Payee): Result<Ledger> {
    if c.percents == [] then Ok(l) else
      var pool := PoolBalance(l, id);
      match PayFrom(l, 0, c.percents, 0, Payer(pool, c.samples, penalty, who))
      case Err(e) => Err(e)
      case Ok((l', total)) =>
        match SubFromSupply(l', WrapSub(pool, total))
        case Err(e) => Err(e)
        case Ok(l2) => Ok(SetPool(l2, id, 0))
  }

  lemma StubBound(percent: nat, pool: nat, samples: nat, penalty: nat)
    ensures FullReward(percent, pool, samples) * (samples * 100) <= percent * pool
    ensures EarlyReward(FullReward(percent, pool, samples), penalty) <= FullReward(percent, pool, samples)
  {
    MulNonNeg(percent, pool);
    var full := FullReward(percent, pool, samples);
    if samples != 0 {
      QuotientTimes(percent * pool, samples * 100);
      MulMono(full, percent * pool / (samples * 100), samples * 100);
    }
    if 0 < penalty < 100 { MulDivShare(full, 100 - penalty, 100); }
  }

  /** A stub of at most 100 percent a sample gets the exact floor of its part of the pool, and an early
      withdrawal the exact floor of what the penalty leaves. */
  lemma StubExact(percent: nat, pool: nat, samples: nat, penalty: nat)
    requires samples > 0 && percent <= samples * 100 && pool <= MAX && penalty <= 100
    ensures var full := FullReward(percent, pool, samples);
            var early := EarlyReward(full, penalty);
            && full * (samples * 100) <= pool * percent < (full + 1) * (samples * 100)
            && early * 100 <= full * (100 - penalty) < (early + 1) * 100
  {
    MulDivExact(pool, percent, samples * 100);
    QuotientTimes(pool * percent, samples * 100);
    var full := FullReward(percent, pool, samples);
    assert full == MulDiv(pool, percent, samples * 100);
    assert (full + 1) * (samples * 100) == full * (samples * 100) + samples * 100;
    PenaltyExact(full, penalty);
  }

  lemma PenaltyExact(full: nat, penalty: nat)
    requires full <= MAX && penalty <= 100
    ensures EarlyReward(full, penalty) * 100 <= full * (100 - penalty) < (EarlyReward(full, penalty) + 1) * 100
  {
    if 0 < penalty < 100 && full > 0 {
      MulDivExact(full, 100 - penalty, 100);
      QuotientTimes(full * (100 - penalty), 100);
    }
  }

  /** Midway: the payouts made so far came to `total`, still to be taken out of the pool. */
  ghost predicate Paying(l: Ledger, l': Ledger, id: ChainId, total: nat) {
    Tokens(l') == Tokens(l) + total && l'.supply == l.supply && l'.pools == l.pools && total <= PoolBalance(l, id)
  }

  lemma StubPays(l: Ledger, l': Ledger, id: ChainId, total: nat, stub: Percent, samples: nat, penalty: nat, payee: Payee)
    requires Tokens(l) <= MAX && Paying(l, l', id, total)
    requires total + FullReward(stub.percent, PoolBalance(l, id), samples) <= PoolBalance(l, id)
    ensures var out := PayStub(l', stub, PoolBalance(l, id), samples, penalty, payee);
            && out.Ok? && out.value.1 <= FullReward(stub.percent, PoolBalance(l, id), samples)
            && Paying(l, out.value.0, id, total + out.value.1)
  {
    var full := FullReward(stub.percent, PoolBalance(l, id), samples);
    StubBound(stub.percent, PoolBalance(l, id), samples, penalty);
    if payee.Compounder? {
      CompoundFits(l, l', id, stub.addr, total, full);
    } else {
      CreditsFit(l, l', id, if payee.PaysTo? then payee.output else stub.addr, total, EarlyReward(full, penalty));
    }
  }

  lemma CompoundFits(l: Ledger, l': Ledger, id: ChainId, v: Address, total: nat, n: nat)
    requires Tokens(l) <= MAX && Paying(l, l', id, total) && total + n <= PoolBalance(l, id)
    ensures Paying(l, AddStake(l', v, n), id, total + n)
  {
    SumPut(l.pools, id, 0);
    SumPut(l'.stakes, v, 0);
    AddStakeTokens(l', v, n);
  }

  /** An account and the pool that will be debited fit together, so crediting ahead of the debit is safe. */
  lemma CreditsFit(l: Ledger, l': Ledger, id: ChainId, a: Address, total: nat, n: nat)
    requires Tokens(l) <= MAX && Paying(l, l', id, total) && total + n <= PoolBalance(l, id)
    ensures AccountAdd(l', a, n).Ok?
    ensures Tokens(AccountAdd(l', a, n).value) == Tokens(l') + n
    ensures AccountAdd(l', a, n).value.pools == l'.pools && AccountAdd(l', a, n).value.supply == l'.supply
  {
    SumPut(l.pools, id, 0);
    SumPut(l'.accounts, a, 0);
    AccountAddTokens(l', a, n);
  }

  /** What the stubs would take without any early-withdrawal penalty. */
  function FullSum(stubs: seq<Percent>, full: nat -> nat): nat {
    if stubs == [] then 0 else full(stubs[0].percent) + FullSum(stubs[1..], full)
  }

  function Full(pool: nat, samples: nat): nat -> nat { percent => FullReward(percent, pool, samples) }

  lemma {:induction false} FullSumScaled(stubs: seq<Percent>, pool: nat, samples: nat)
    ensures FullSum(stubs, Full(pool, samples)) * (samples * 100) <= SumAll(stubs) * pool
  {
    if stubs == [] {
      MulNonNeg(SumAll(stubs), pool);
    } else {
      FullSumScaled(stubs[1..], pool, samples);
      StubBound(stubs[0].percent, pool, samples, 0);
      AddScaled(FullReward(stubs[0].percent, pool, samples), FullSum(stubs[1..], Full(pool, samples)), samples * 100,
                stubs[0].percent, SumAll(stubs[1..]), pool);
    }
  }

  lemma AddScaled(a: nat, b: nat, d: nat, p: nat, q: nat, pool: nat)
    requires a * d <= p * pool && b * d <= q * pool
    ensures (a + b) * d <= (p + q) * pool
  {
    assert (a + b) * d == a * d + b * d;
    assert (p + q) * pool == p * pool + q * pool;
  }

  /** The floored shares of percents that sum to at most 100 a sample never exceed the pool. */
  lemma {:induction false} FullSumWithinPool(stubs: seq<Percent>, pool: nat, samples: nat)
    requires SumAll(stubs) <= 100 * samples
    ensures FullSum(stubs, Full(pool, samples)) <= pool
  {
    if samples == 0 {
      NoFull(stubs, pool);
    } else {
      FullSumScaled(stubs, pool, samples);
      MulMono(SumAll(stubs), samples * 100, pool);
      Cancel(FullSum(stubs, Full(pool, samples)), pool, samples * 100);
    }
  }

  lemma {:induction false} NoFull(stubs: seq<Percent>, pool: nat)
    ensures FullSum(stubs, Full(pool, 0)) == 0
  {
    if stubs != [] { NoFull(stubs[1..], pool); }
  }

  // ---- Who is paid what ----------------------------------------------------

  /** The floor of percent / (100 * samples) of the pool. */
  function Whole(percent: nat, pool: nat, samples: nat): nat {
    if samples == 0 then 0 else
      MulNonNeg(pool, percent);
      Quotient(pool * percent, samples * 100)
  }

  /** What an early withdrawal leaves of it. */
  function Penalised(whole: nat, penalty: nat): nat {
    if penalty >= 100 then 0 else
      MulNonNeg(whole, 100 - penalty);
      Quotient(whole * (100 - penalty), 100)
  }

  /** The account that stands behind an address. */
  predicate PaidTo(payee: Payee, addr: Address, a: Address) {
    match payee case Compounder => false case Stranger => addr == a case PaysTo(o) => o == a
  }

  /** What a stub brings one account. */
  function Cash(stub: Percent, pool: nat, samples: nat, penalty: nat, payee: Payee, a: Address): nat {
    if PaidTo(payee, stub.addr, a) then Penalised(Whole(stub.percent, pool, samples), penalty) else 0
  }

  /** And one compounding validator's stake. */
  function Compounded(stub: Percent, pool: nat, samples: nat, payee: Payee, v: Address): nat {
    if stub.addr == v && payee.Compounder? then Whole(stub.percent, pool, samples) else 0
  }

  function ToAccount(pool: nat, samples: nat, penalty: nat, who: Address -> Payee, a: Address): Percent -> nat {
    (stub: Percent) => Cash(stub, pool, samples, penalty, who(stub.addr), a)
  }

  function ToStake(pool: nat, samples: nat, who: Address -> Payee, v: Address): Percent -> nat {
    (stub: Percent) => Compounded(stub, pool, samples, who(stub.addr), v)
  }

  function Tally(stubs: seq<Percent>, k: nat, gain: Percent -> nat): nat
    requires k <= |stubs|
    decreases |stubs| - k
  {
    if k == |stubs| then 0 else gain(stubs[k]) + Tally(stubs, k + 1, gain)
  }

  lemma FullIsWhole(percent: nat, pool: nat, samples: nat, penalty: nat)
    requires percent <= samples * 100 && pool <= MAX
    ensures FullReward(percent, pool, samples) == Whole(percent, pool, samples) <= MAX
    ensures EarlyReward(FullReward(percent, pool, samples), penalty) == Penalised(Whole(percent, pool, samples), penalty)
  {
    if samples > 0 {
      MulDivExact(pool, percent, samples * 100);
      assert FullReward(percent, pool, samples) == MulDiv(pool, percent, samples * 100);
    }
    if 0 < penalty < 100 { MulDivExact(Whole(percent, pool, samples), 100 - penalty, 100); }
  }

  lemma PayOutEach(l: Ledger, addr: Address, full: nat, early: nat, payee: Payee, a: Address)
    requires PayOut(l, addr, full, early, payee).Ok? && StakeOf(l, addr) + full <= MAX
    ensures var l' := PayOut(l, addr, full, early, payee).value.0;
            && Balance(l', a) == Balance(l, a) + (if PaidTo(payee, addr, a) then early else 0)
            && StakeOf(l', a) == StakeOf(l, a) + if addr == a && payee.Compounder? then full else 0
  {}

  lemma StubPaysEach(l: Ledger, stub: Percent, pool: nat, samples: nat, penalty: nat, payee: Payee, a: Address)
    requires stub.percent <= samples * 100 && pool <= MAX
    requires PayStub(l, stub, pool, samples, penalty, payee).Ok? && StakeOf(l, stub.addr) + Whole(stub.percent, pool, samples) <= MAX
    ensures var l' := PayStub(l, stub, pool, samples, penalty, payee).value.0;
            && Balance(l', a) == Balance(l, a) + Cash(stub, pool, samples, penalty, payee, a)
            && StakeOf(l', a) == StakeOf(l, a) + Compounded(stub, pool, samples, payee, a)
  {
    var full := FullReward(stub.percent, pool, samples);
    FullIsWhole(stub.percent, pool, samples, penalty);
    PayOutEach(l, stub.addr, full, EarlyReward(full, penalty), payee, a);
  }

  /** A stake and the pool that will be debited fit together. */
  lemma StakeFits(l: Ledger, l': Ledger, id: ChainId, total: nat, v: Address, n: nat)
    requires Tokens(l) <= MAX && Paying(l, l', id, total) && total + n <= PoolBalance(l, id)
    ensures StakeOf(l', v) + n <= MAX
  {
    SumPut(l.pools, id, 0);
    SumPut(l'.stakes, v, 0);
  }

  /** Where `sound` holds and there is room, a stub of no more than `limit` percent is paid its due or less, and brings this
      address what it should. */
  ghost predicate PaysEach(sound: (Ledger, nat) -> bool, pool: nat, pay: Pay, full: nat -> nat, limit: nat, a: Address,
                           account: Percent -> nat, stake: Percent -> nat, m: Ledger, total: nat, stub: Percent) {
    sound(m, total) && total + full(stub.percent) <= pool && stub.percent <= limit ==>
      var out := pay(m, stub);
      && out.Ok? && out.value.1 <= full(stub.percent) && sound(out.value.0, total + out.value.1)
      && Balance(out.value.0, a) == Balance(m, a) + account(stub)
      && StakeOf(out.value.0, a) == StakeOf(m, a) + stake(stub)
  }

  lemma SumsSplit(stubs: seq<Percent>, k: nat, full: nat -> nat)
    requires k < |stubs|
    ensures SumAll(stubs[k..]) == stubs[k].percent + SumAll(stubs[k + 1..])
    ensures FullSum(stubs[k..], full) == full(stubs[k].percent) + FullSum(stubs[k + 1..], full)
  {
    assert stubs[k..][1..] == stubs[k + 1..];
  }

  lemma {:induction false} PayFromTally(sound: (Ledger, nat) -> bool, m: Ledger, total: nat, stubs: seq<Percent>, k: nat, pool: nat,
                                        pay: Pay, full: nat -> nat, limit: nat, a: Address, account: Percent -> nat, stake: Percent -> nat)
    requires k <= |stubs| && sound(m, total) && pool <= MAX && SumAll(stubs[k..]) <= limit
    requires forall n, t, stub :: PaysEach(sound, pool, pay, full, limit, a, account, stake, n, t, stub)
    requires total + FullSum(stubs[k..], full) <= pool
    ensures var out := PayFrom(m, total, stubs, k, pay);
            && out.Ok? && sound(out.value.0, out.value.1)
            && Balance(out.value.0, a) == Balance(m, a) + Tally(stubs, k, account)
            && StakeOf(out.value.0, a) == StakeOf(m, a) + Tally(stubs, k, stake)
    decreases |stubs| - k
  {
    if k < |stubs| {
      SumsSplit(stubs, k, full);
      assert PaysEach(sound, pool, pay, full, limit, a, account, stake, m, total, stubs[k]);
      var (m1, paid) := pay(m, stubs[k]).value;
      PayFromTally(sound, m1, total + paid, stubs, k + 1, pool, pay, full, limit, a, account, stake);
    }
  }

  lemma StubTally(l: Ledger, m: Ledger, id: ChainId, total: nat, stub: Percent, samples: nat, penalty: nat, payee: Payee, a: Address)
    requires Tokens(l) <= MAX && Paying(l, m, id, total) && PoolBalance(l, id) <= MAX
    requires total + FullReward(stub.percent, PoolBalance(l, id), samples) <= PoolBalance(l, id) && stub.percent <= samples * 100
    ensures var out, pool := PayStub(m, stub, PoolBalance(l, id), samples, penalty, payee), PoolBalance(l, id);
            && out.Ok? && out.value.1 <= FullReward(stub.percent, pool, samples) && Paying(l, out.value.0, id, total + out.value.1)
            && Balance(out.value.0, a) == Balance(m, a) + Cash(stub, pool, samples, penalty, payee, a)
            && StakeOf(out.value.0, a) == StakeOf(m, a) + Compounded(stub, pool, samples, payee, a)
  {
    var pool := PoolBalance(l, id);
    StubPays(l, m, id, total, stub, samples, penalty, payee);
    FullIsWhole(stub.percent, pool, samples, penalty);
    StakeFits(l, m, id, total, stub.addr, Whole(stub.percent, pool, samples));
    StubPaysEach(m, stub, pool, samples, penalty, payee, a);
  }

  lemma {:induction false} AllStubsPay(l: Ledger, id: ChainId, c: Committee, penalty: nat, who: Address -> Payee, a: Address)
    requires Tokens(l) <= MAX && Normal(c)
    ensures var pool := PoolBalance(l, id);
            var out := PayFrom(l, 0, c.percents, 0, Payer(pool, c.samples, penalty, who));
            && out.Ok? && Paying(l, out.value.0, id, out.value.1)
            && Balance(out.value.0, a) == Balance(l, a) + Tally(c.percents, 0, ToAccount(pool, c.samples, penalty, who, a))
            && StakeOf(out.value.0, a) == StakeOf(l, a) + Tally(c.percents, 0, ToStake(pool, c.samples, who, a))
  {
    var pool := PoolBalance(l, id);
    var pay, full := Payer(pool, c.samples, penalty, who), Full(pool, c.samples);
    var account, stake := ToAccount(pool, c.samples, penalty, who, a), ToStake(pool, c.samples, who, a);
    var sound := (m: Ledger, t: nat) => Paying(l, m, id, t);
    SumPut(l.pools, id, 0);
    forall m, t: nat, stub ensures PaysEach(sound, pool, pay, full, c.samples * 100, a, account, stake, m, t, stub) {
      if Paying(l, m, id, t) && t + full(stub.percent) <= pool && stub.percent <= c.samples * 100 {
        StubTally(l, m, id, t, stub, c.samples, penalty, who(stub.addr), a);
      }
    }
    assert c.percents[0..] == c.percents;
    FullSumWithinPool(c.percents, pool, c.samples);
    PayFromTally(sound, l, 0, c.percents, 0, pool, pay, full, c.samples * 100, a, account, stake);
  }

  /** Reward distribution. While the stored percents sum to at most 100 times the samples, a payout cannot
      fail, the floored payouts stay within the pool, and payouts plus what is burned off the supply are
      exactly the pool, which is then empty: the books stay right. */
  lemma {:induction false} DistributionExact(l: Ledger, id: ChainId, c: Committee, penalty: nat, who: Address -> Payee)
    requires Conserved(l) && Normal(c)
    ensures var out := Distribute(l, id, c, penalty, who);
            && out.Ok? && Conserved(out.value)
            && (forall j | j != id :: PoolBalance(out.value, j) == PoolBalance(l, j))
            && (c.percents != [] ==>
                  var paid := PayFrom(l, 0, c.percents, 0, Payer(PoolBalance(l, id), c.samples, penalty, who));
                  && PoolBalance(out.value, id) == 0
                  && paid.Ok? && paid.value.1 <= PoolBalance(l, id)
                  && paid.value.1 + (l.supply - out.value.supply) == PoolBalance(l, id))
  {
    if c.percents != [] {
      SumPut(l.pools, id, 0);
      AllStubsPay(l, id, c, penalty, who, 0);
      var (l', total) := PayFrom(l, 0, c.percents, 0, Payer(PoolBalance(l, id), c.samples, penalty, who)).value;
      WrapSubExact(PoolBalance(l, id), total);
      SetPoolTokens(SubFromSupply(l', PoolBalance(l, id) - total).value, id, 0);
    }
  }

  /** A payout brings every account the floored, penalised parts of the stubs behind which it stands, and every compounding
      validator's stake the full parts of its own stubs; nobody gains anything else, and nobody loses. */
  lemma {:induction false} DistributionPaysEach(l: Ledger, id: ChainId, c: Committee, penalty: nat, who: Address -> Payee, a: Address)
    requires Conserved(l) && Normal(c)
    ensures var out, pool := Distribute(l, id, c, penalty, who), PoolBalance(l, id);
            && out.Ok?
            && Balance(out.value, a) == Balance(l, a) + Tally(c.percents, 0, ToAccount(pool, c.samples, penalty, who, a))
            && StakeOf(out.value, a) == StakeOf(l, a) + Tally(c.percents, 0, ToStake(pool, c.samples, who, a))
  {
    DistributionExact(l, id, c, penalty, who);
    if c.percents != [] { AllStubsPay(l, id, c, penalty, who, a); }
  }

  /** A payment leaves this stake alone. */
  ghost predicate SparesStake(pay: Pay, v: Address) {
    forall l, stub :: pay(l, stub).Ok? ==> StakeOf(pay(l, stub).value.0, v) == StakeOf(l, v)
  }

  lemma {:induction false} PayFromSpares(l: Ledger, total: nat, stubs: seq<Percent>, k: nat, pay: Pay, v: Address)
    requires k <= |stubs| && SparesStake(pay, v) && PayFrom(l, total, stubs, k, pay).Ok?
    ensures StakeOf(PayFrom(l, total, stubs, k, pay).value.0, v) == StakeOf(l, v)
    decreases |stubs| - k
  {
    if k < |stubs| {
      var out := pay(l, stubs[k]).value;
      PayFromSpares(out.0, total + out.1, stubs, k + 1, pay, v);
    }
  }

  /** Only compounders' stakes change in a payout. */
  lemma DistributeSpares(l: Ledger, id: ChainId, c: Committee, penalty: nat, who: Address -> Payee, v: Address)
    requires !who(v).Compounder? && Distribute(l, id, c, penalty, who).Ok?
    ensures StakeOf(Distribute(l, id, c, penalty, who).value, v) == StakeOf(l, v)
  {
    if c.percents != [] {
      var pool := PoolBalance(l, id);
      var pay := Payer(pool, c.samples, penalty, who);
      forall m, stub | pay(m, stub).Ok? ensures StakeOf(pay(m, stub).value.0, v) == StakeOf(m, v) {
        StubSpares(m, stub, pool, c.samples, penalty, who(stub.addr), v);
      }
      PayFromSpares(l, 0, c.percents, 0, pay, v);
    }
  }

  lemma StubSpares(l: Ledger, stub: Percent, pool: nat, samples: nat, penalty: nat, payee: Payee, v: Address)
    requires PayStub(l, stub, pool, samples, penalty, payee).Ok? && (payee.Compounder? ==> stub.addr != v)
    ensures StakeOf(PayStub(l, stub, pool, samples, penalty, payee).value.0, v) == StakeOf(l, v)
  {}

  method DistributeCommitteeReward(s: StateMachine, stub: Percent, pool: nat, samples: nat, penalty: nat, payee: Payee)
    returns (r: Result<nat>)
    modifies s`ledger
    ensures match PayStub(old(s.ledger), stub, pool, samples, penalty, payee)
            case Ok((l, paid)) => r == Ok(paid) && s.ledger == l
            case Err(e) => r == Err(e)
  {
    var full := FullReward(stub.percent, pool, samples);
    var early := EarlyReward(full, penalty);
    if payee.Compounder? {
      s.ledger := AddStake(s.ledger, stub.addr, full);
      return Ok(full);
    }
    var paid := s.AccountAdd(if payee.PaysTo? then payee.output else stub.addr, early);
    if paid.Err? { return Err(paid.error); }
    return Ok(early);
  }

  /** The inner loop of DistributeCommitteeRewards. */
  method PayStubs(s: StateMachine, stubs: seq<Percent>, pool: nat, samples: nat, penalty: nat, who: Address -> Payee)
    returns (r: Result<nat>)
    modifies s`ledger
    ensures match PayFrom(old(s.ledger), 0, stubs, 0, Payer(pool, samples, penalty, who))
            case Ok((l, total)) => r == Ok(total) && s.ledger == l
            case Err(e) => r == Err(e)
  {
    var total: nat := 0;
    ghost var pay := Payer(pool, samples, penalty, who);
    for k := 0 to |stubs|
      invariant PayFrom(old(s.ledger), 0, stubs, 0, pay) == PayFrom(s.ledger, total, stubs, k, pay)
    {
      var paid := DistributeCommitteeReward(s, stubs[k], pool, samples, penalty, who(stubs[k].addr));
      if paid.Err? { return Err(paid.error); }
      if total + paid.value > MAX { return Err(InvalidAmount); }
      total := total + paid.value;
    }
    return Ok(total);
  }

  /** One committee of the outer loop of DistributeCommitteeRewards. */
  method DistributeCommitteeRewards(s: StateMachine, id: ChainId, c: Committee, penalty: nat, who: Address -> Payee)
    returns (r: Result<Committee>)
    modifies s`ledger
    ensures match Distribute(old(s.ledger), id, c, penalty, who)
            case Ok(l) => r == Ok(if c.percents == [] then c else Committee([], 0)) && s.ledger == l
            case Err(e) => r == Err(e)
  {
    if c.percents == [] { return Ok(c); }
    var pool := PoolBalance(s.ledger, id);
    var paid := PayStubs(s, c.percents, pool, c.samples, penalty, who);
    if paid.Err? { return Err(paid.error); }
    var total := paid.value;
    var burned := WrapSub(pool, total);
    if s.ledger.supply < burned { return Err(InsufficientFunds); }
    s.ledger := SetPool(s.ledger.(supply := s.ledger.supply - burned), id, 0);
    return Ok(Committee([], 0));
  }
}
