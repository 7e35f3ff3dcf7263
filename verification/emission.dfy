/** The block reward of fsm/committee.go: how much is minted, to whom, and how much there can ever be. */
module Emission {
  import opened Lib
  import opened Sums
  import opened Points
  import opened Ledgers
  import opened Machine
  import opened Transfers

  /** Configuration: the first block reward and how often it halves. */
  datatype Schedule = Schedule(initial: nat, blocksPerHalvening: nat)

  function Pow2(n: nat): (r: nat)
    ensures r > 0
  {
    if n == 0 then 1 else 2 * Pow2(n - 1)
  }

  /** The reward of a block: the initial one shifted right by the number of halvenings. */
  function BlockReward(c: Schedule, height: nat): nat
    requires c.blocksPerHalvening > 0
  {
    RewardAt(c.initial, height / c.blocksPerHalvening)
  }

  function RewardAt(initial: nat, halvenings: nat): nat {
    Quotient(initial, Pow2(halvenings))
  }

  function AfterCut(total: nat, daoPercent: nat): nat {
    if daoPercent >= 100 || total == 0 then 0 else if daoPercent == 0 then total else MulDiv(total, 100 - daoPercent, 100)
  }

  datatype MintStats = MintStats(daoCut: nat, perCommittee: nat)

  /** GetBlockMintStats, given the committees that qualify. None when there is nothing to mint. */
  function GetBlockMintStats(c: Schedule, height: nat, daoPercent: nat, committees: nat): Option<MintStats>
    requires c.blocksPerHalvening > 0
  {
    var total := BlockReward(c, height);
    if committees == 0 || total == 0 then None else
      MulDivShareOf(total, daoPercent);
      Some(MintStats(total - AfterCut(total, daoPercent), AfterCut(total, daoPercent) / committees))
  }

  lemma MulDivShareOf(total: nat, daoPercent: nat)
    ensures AfterCut(total, daoPercent) <= total
  {
    if 0 < daoPercent < 100 { MulDivShare(total, 100 - daoPercent, 100); }
  }

  /** Mint the committees' part, from committee i on. */
  function MintFrom(l: Ledger, ids: seq<ChainId>, i: nat, n: nat): Ledger
    requires i <= |ids|
    decreases |ids| - i
  {
    if i == |ids| then l else MintFrom(MintToPool(l, ids[i], n), ids, i + 1, n)
  }

  function Fund(l: Ledger, c: Schedule, height: nat, daoPercent: nat, ids: seq<ChainId>): Result<Ledger> {
    if c.blocksPerHalvening == 0 then Err(InvalidAmount) else
      match GetBlockMintStats(c, height, daoPercent, |ids|)
      case None => Ok(l)
      case Some(m) => Ok(MintFrom(MintToPool(l, DAO_POOL_ID, m.daoCut), ids, 0, m.perCommittee))
  }

  method FundCommitteeRewardPools(s: StateMachine, c: Schedule, daoPercent: nat, ids: seq<ChainId>) returns (r: Result<()>)
    modifies s`ledger
    ensures match Fund(old(s.ledger), c, s.height, daoPercent, ids)
            case Ok(l) => r == Ok(()) && s.ledger == l
            case Err(e) => r == Err(e)
  {
    if c.blocksPerHalvening == 0 { return Err(InvalidAmount); }
    var stats := GetBlockMintStats(c, s.height, daoPercent, |ids|);
    if stats.None? { return Ok(()); }
    MintTokensToPool(s, DAO_POOL_ID, stats.value.daoCut);
    ghost var start := s.ledger;
    for i := 0 to |ids|
      invariant MintFrom(start, ids, 0, stats.value.perCommittee) == MintFrom(s.ledger, ids, i, stats.value.perCommittee)
    {
      MintTokensToPool(s, ids[i], stats.value.perCommittee);
    }
    return Ok(());
  }

  // ---- One block ---------------------------------------------------------

  /** The DAO's cut and all committee mints of a block never exceed its reward. */
  lemma BlockWithinReward(c: Schedule, height: nat, daoPercent: nat, committees: nat)
    requires c.blocksPerHalvening > 0 && GetBlockMintStats(c, height, daoPercent, committees).Some?
    ensures var m := GetBlockMintStats(c, height, daoPercent, committees).value;
            m.daoCut + committees * m.perCommittee <= BlockReward(c, height)
  {
    var after := AfterCut(BlockReward(c, height), daoPercent);
    MulDivShareOf(BlockReward(c, height), daoPercent);
    QuotientTimes(after, committees);
  }

  /** Mints into reward pools and the DAO pool, every one of them recorded in the supply. */
  ghost predicate MintedInto(l: Ledger, l': Ledger, n: nat) {
    && Tokens(l') == Tokens(l) + n && l'.supply == l.supply + n
    && l'.accounts == l.accounts && l'.stakes == l.stakes
    && forall id | id > MAX_CHAIN_ID && id != DAO_POOL_ID :: PoolBalance(l', id) == PoolBalance(l, id)
  }

  /** n minted count times. */
  function Times(count: nat, n: nat): nat { if count == 0 then 0 else n + Times(count - 1, n) }

  lemma {:induction false} TimesIs(count: nat, n: nat)
    ensures Times(count, n) == count * n
  {
    if count > 0 { TimesIs(count - 1, n); }
  }

  lemma {:induction false} MintFromExact(l: Ledger, ids: seq<ChainId>, i: nat, n: nat)
    requires i <= |ids| && Conserved(l) && l.supply + Times(|ids| - i, n) <= MAX
    requires forall k | 0 <= k < |ids| :: ids[k] <= MAX_CHAIN_ID
    ensures MintedInto(l, MintFrom(l, ids, i, n), Times(|ids| - i, n))
    decreases |ids| - i
  {
    if i < |ids| {
      PoolAddTokens(AddToSupply(l, n), ids[i], n);
      MintFromExact(MintToPool(l, ids[i], n), ids, i + 1, n);
    }
  }

  /** Funding a block mints at most its reward, exactly and with the books right, while that fits 64 bits. */
  lemma FundExact(l: Ledger, c: Schedule, height: nat, daoPercent: nat, ids: seq<ChainId>)
    requires c.blocksPerHalvening > 0 && Conserved(l) && l.supply + BlockReward(c, height) <= MAX
    requires forall k | 0 <= k < |ids| :: ids[k] <= MAX_CHAIN_ID
    ensures var l' := Fund(l, c, height, daoPercent, ids);
            && l'.Ok? && Conserved(l'.value)
            && l.supply <= l'.value.supply <= l.supply + BlockReward(c, height)
            && MintedInto(l, l'.value, l'.value.supply - l.supply)
  {
    var stats := GetBlockMintStats(c, height, daoPercent, |ids|);
    if stats.Some? {
      BlockWithinReward(c, height, daoPercent, |ids|);
      TimesIs(|ids|, stats.value.perCommittee);
      MintAllExact(l, ids, stats.value.daoCut, stats.value.perCommittee);
    }
  }

  lemma {:induction false} MintAllExact(l: Ledger, ids: seq<ChainId>, daoCut: nat, n: nat)
    requires Conserved(l) && l.supply + daoCut + Times(|ids|, n) <= MAX
    requires forall k | 0 <= k < |ids| :: ids[k] <= MAX_CHAIN_ID
    ensures var l' := MintFrom(MintToPool(l, DAO_POOL_ID, daoCut), ids, 0, n);
            Conserved(l') && MintedInto(l, l', daoCut + Times(|ids|, n))
  {
    PoolAddTokens(AddToSupply(l, daoCut), DAO_POOL_ID, daoCut);
    MintFromExact(MintToPool(l, DAO_POOL_ID, daoCut), ids, 0, n);
  }

  /** The reward starts at the configured one, and after every period it is half of what it was. */
  lemma RewardHalves(c: Schedule, height: nat)
    requires c.blocksPerHalvening > 0
    ensures height < c.blocksPerHalvening ==> BlockReward(c, height) == c.initial
    ensures BlockReward(c, height + c.blocksPerHalvening) == BlockReward(c, height) / 2
  {
    var B, k := c.blocksPerHalvening, height / c.blocksPerHalvening;
    QuotientTimes(height, B);
    assert (k + 1) * B == k * B + B;
    QuotientIs(height + B, B, k + 1);
    if height < B { QuotientIs(height, B, 0); }
    HalfOf(c.initial, Pow2(k));
  }

  lemma HalfOf(n: nat, p: nat)
    requires p > 0
    ensures Quotient(n, 2 * p) == Quotient(n, p) / 2
  {
    var q := n / p;
    QuotientTimes(n, p);
    QuotientTimes(q, 2);
    assert q / 2 * (2 * p) == q / 2 * 2 * p;
    MulMono(q / 2 * 2, q, p);
    MulMono(q + 1, q / 2 * 2 + 2, p);
    assert (q + 1) * p == q * p + p && (q / 2 * 2 + 2) * p == q / 2 * 2 * p + 2 * p;
    QuotientIs(n, 2 * p, q / 2);
  }

  /** The reward is minted whenever it is positive and there is a committee: the DAO has what the committees' percentage,
      rounded down, leaves of it, and every committee the same floored part of that. */
  lemma SplitExact(c: Schedule, height: nat, daoPercent: nat, committees: nat)
    requires c.blocksPerHalvening > 0 && daoPercent <= 100 && BlockReward(c, height) <= MAX
    ensures var reward, stats := BlockReward(c, height), GetBlockMintStats(c, height, daoPercent, committees);
            && (stats.Some? <==> committees > 0 && reward > 0)
            && (stats.Some? ==>
                  var rest := reward - stats.value.daoCut;
                  && 0 <= rest && rest * 100 <= reward * (100 - daoPercent) < (rest + 1) * 100
                  && stats.value.perCommittee * committees <= rest < (stats.value.perCommittee + 1) * committees)
  {
    var reward := BlockReward(c, height);
    if committees > 0 && reward > 0 {
      var rest := AfterCut(reward, daoPercent);
      MulDivShareOf(reward, daoPercent);
      if 0 < daoPercent < 100 { MulDivExact(reward, 100 - daoPercent, 100); }
      QuotientTimes(reward * (100 - daoPercent), 100);
      QuotientTimes(rest, committees);
      assert (rest / committees + 1) * committees == rest / committees * committees + committees;
    }
  }

  /** How often a committee is listed from i on. */
  function Listed(ids: seq<ChainId>, i: nat, j: PoolId): nat
    requires i <= |ids|
    decreases |ids| - i
  {
    if i == |ids| then 0 else (if ids[i] == j then 1 else 0) + Listed(ids, i + 1, j)
  }

  lemma MintOnce(l: Ledger, id: PoolId, n: nat, j: PoolId)
    requires Conserved(l) && l.supply + n <= MAX
    ensures var l' := MintToPool(l, id, n);
            Conserved(l') && l'.supply == l.supply + n && PoolBalance(l', j) == PoolBalance(l, j) + if id == j then n else 0
  {
    PoolAddTokens(AddToSupply(l, n), id, n);
  }

  lemma {:induction false} MintFromEach(l: Ledger, ids: seq<ChainId>, i: nat, n: nat, j: PoolId)
    requires i <= |ids| && Conserved(l) && l.supply + Times(|ids| - i, n) <= MAX
    ensures PoolBalance(MintFrom(l, ids, i, n), j) == PoolBalance(l, j) + Times(Listed(ids, i, j), n)
    decreases |ids| - i
  {
    if i < |ids| {
      MintOnce(l, ids[i], n, j);
      MintFromEach(MintToPool(l, ids[i], n), ids, i + 1, n, j);
    }
  }

  /** Funding a block gives the DAO's pool its cut, each committee's pool its part for every time it is listed, and no other
      pool anything. */
  lemma {:induction false} FundsEach(l: Ledger, c: Schedule, height: nat, daoPercent: nat, ids: seq<ChainId>, j: PoolId)
    requires c.blocksPerHalvening > 0 && Conserved(l) && l.supply + BlockReward(c, height) <= MAX
    requires GetBlockMintStats(c, height, daoPercent, |ids|).Some?
    ensures var l', m := Fund(l, c, height, daoPercent, ids), GetBlockMintStats(c, height, daoPercent, |ids|).value;
            && l'.Ok?
            && PoolBalance(l'.value, j) == PoolBalance(l, j) + (if j == DAO_POOL_ID then m.daoCut else 0)
                                           + Listed(ids, 0, j) * m.perCommittee
  {
    var m := GetBlockMintStats(c, height, daoPercent, |ids|).value;
    BlockWithinReward(c, height, daoPercent, |ids|);
    TimesIs(|ids|, m.perCommittee);
    MintOnce(l, DAO_POOL_ID, m.daoCut, j);
    MintFromEach(MintToPool(l, DAO_POOL_ID, m.daoCut), ids, 0, m.perCommittee, j);
    TimesIs(Listed(ids, 0, j), m.perCommittee);
  }

  // ---- All blocks --------------------------------------------------------

  /** The rewards of the first n blocks. */
  function Emitted(c: Schedule, n: nat): nat
    requires c.blocksPerHalvening > 0
  {
    if n == 0 then 0 else Emitted(c, n - 1) + BlockReward(c, n - 1)
  }

  lemma HalveningHalves(initial: nat, k: nat)
    ensures 2 * RewardAt(initial, k + 1) <= RewardAt(initial, k) <= initial
  {
    var p := Pow2(k);
    var a, b := RewardAt(initial, k), RewardAt(initial, k + 1);
    QuotientTimes(initial, 2 * p);
    QuotientTimes(initial, p);
    TwiceWithin(initial, p, a, b);
    MulMono(1, p, a);
  }

  lemma TwiceWithin(n: nat, p: nat, a: nat, b: nat)
    requires p > 0 && b * (2 * p) <= n && n < a * p + p
    ensures 2 * b <= a
  {
    assert b * (2 * p) == 2 * b * p;
    if 2 * b > a {
      MulMono(a + 1, 2 * b, p);
      assert false;
    }
  }

  /** After r blocks of period k, whose reward is a: at most 2B * (initial - a) from the finished periods, and
      r blocks of a from this one. */
  lemma {:induction false} EmittedBound(c: Schedule, k: nat, r: nat)
    requires c.blocksPerHalvening > 0 && r <= c.blocksPerHalvening
    ensures RewardAt(c.initial, k) <= c.initial
    ensures k * c.blocksPerHalvening + r >= 0
    ensures Emitted(c, k * c.blocksPerHalvening + r)
         <= Budget(c.blocksPerHalvening, c.initial - RewardAt(c.initial, k)) + r * RewardAt(c.initial, k)
    decreases k, r
  {
    var B := c.blocksPerHalvening;
    HalveningHalves(c.initial, k);
    MulNonNeg(k, B);
    if r > 0 {
      EmittedBound(c, k, r - 1);
      QuotientIs(k * B + (r - 1), B, k);
      OneMore(r, RewardAt(c.initial, k));
    } else if k > 0 {
      EmittedBound(c, k - 1, B);
      HalveningHalves(c.initial, k - 1);
      PeriodEnds(B, c.initial, RewardAt(c.initial, k - 1), RewardAt(c.initial, k));
      OneMore(k, B);
    }
  }

  /** What a fall of the block reward by this much can have cost. */
  function Budget(B: nat, fall: nat): nat { 2 * B * fall }

  lemma OneMore(r: nat, a: nat)
    requires r > 0
    ensures (r - 1) * a + a == r * a
  {}

  lemma QuotientIs(n: nat, B: nat, q: nat)
    requires B > 0 && q * B <= n < q * B + B
    ensures n / B == q
  {
    QuotientTimes(n, B);
    if n / B < q {
      MulMono(n / B + 1, q, B);
      assert false;
    }
    if n / B > q {
      MulMono(q + 1, n / B, B);
      assert false;
    }
  }

  lemma PeriodEnds(B: nat, initial: nat, a: nat, b: nat)
    requires 2 * b <= a <= initial
    ensures Budget(B, initial - a) + B * a <= Budget(B, initial - b)
  {
    MulMono(2 * b, a, B);
    assert 2 * B * (initial - b) == 2 * B * (initial - a) + 2 * (B * a) - B * (2 * b);
  }

  /** Emission cap: over any number of blocks, at most 2 * InitialTokensPerBlock * BlocksPerHalvening. */
  lemma {:induction false} EmissionCap(c: Schedule, n: nat)
    requires c.blocksPerHalvening > 0
    ensures Emitted(c, n) <= 2 * c.blocksPerHalvening * c.initial
  {
    var B, k := c.blocksPerHalvening, n / c.blocksPerHalvening;
    QuotientTimes(n, B);
    EmittedBound(c, k, n - k * B);
    CapReached(B, c.initial, RewardAt(c.initial, k), n - k * B);
  }

  lemma CapReached(B: nat, initial: nat, a: nat, r: nat)
    requires a <= initial && r <= B
    ensures Budget(B, initial - a) + r * a <= 2 * B * initial
  {
    MulMono(r, 2 * B, a);
    assert 2 * B * (initial - a) + 2 * B * a == 2 * B * initial;
  }
}
