/** Everything at once: runs in which every kind of token movement of the chain is interleaved freely. */
module Solvency {
  import opened Lib
  import opened Sums
  import opened Points
  import opened Pipeline
  import opened Ledgers
  import D = Dex
  import E = Escrow
  import M = Machine
  import S = Swaps
  import T = Transfers
  import R = Rewards
  import B = Slashing
  import F = Emission
  import G = Genesis

  /** What is stored for one counter chain beside its two pools. */
  datatype Counter = Counter(shares: Shares, locked: Option<Batch>, next: Option<Batch>, height: nat)

  /** The state of a chain; `height` counts the funded blocks, `granted` what was minted outside the schedule. */
  datatype World = World(ledger: Ledger, orders: map<M.OrderKey, M.SellOrder>, counters: map<ChainId, Counter>,
                         committees: map<Address, seq<ChainId>>, tracker: B.Tracker, rewards: map<ChainId, R.Committee>,
                         height: nat, granted: nat)

  datatype Event =
    | SendTx(from: Address, to: Address, n: nat, vesting: nat, accepted: bool)
    | FeeTx(from: Address, n: nat, chain: ChainId, vesting: nat)
    | SubsidyTx(from: Address, n: nat, chain: ChainId, vesting: nat, retired: bool)
    | DaoTx(to: Address, n: nat, mint: bool, approved: bool)
    | FaucetTx(a: Address, faucet: Option<Address>, required: nat, vesting: nat)
    | StakeTx(signer: Address, v: Address, n: nat, minimum: nat, ids: seq<ChainId>, vesting: nat)
    | EditStakeTx(signer: Address, v: Address, n: nat, ids: seq<ChainId>, vesting: nat, authorised: bool)
    | Unstaked(v: Address, output: Address)
    | Slashes(list: seq<Address>, chain: ChainId, percent: nat, params: B.Params)
    | OrderTx(order: S.Event)
    | DexTx(id: ChainId, dex: E.Event)
    | Certificate(id: ChainId, percents: seq<R.Percent>, nonSigners: nat)
    | Payout(id: ChainId, penalty: nat, who: Address -> R.Payee)
    | Funding(daoPercent: nat, ids: seq<ChainId>)
    | NewBlock

  function CounterAt(w: World, id: ChainId): Counter {
    if id in w.counters then w.counters[id] else Counter(Shares([], 0), None, None, 0)
  }

  function StoreAt(w: World, id: ChainId): D.Store {
    var c := CounterAt(w, id);
    D.Store(w.ledger, c.shares, c.locked, c.next, c.height)
  }

  function WithStore(w: World, id: ChainId, s: D.Store): World {
    w.(ledger := s.ledger, counters := w.counters[id := Counter(s.shares, s.locked, s.next, s.height)])
  }

  function RewardsAt(w: World, id: ChainId): R.Committee {
    if id in w.rewards then w.rewards[id] else R.Committee([], 0)
  }

  function OrElse(r: Result<Ledger>, l: Ledger): Ledger { match r case Ok(l') => l' case Err(_) => l }

  /** Only validators compound; an address that is none is paid itself. */
  function Payees(committees: map<Address, seq<ChainId>>, who: Address -> R.Payee): Address -> R.Payee {
    (a: Address) => if a in committees then who(a) else R.Stranger
  }

  /** What a grant outside the schedule really mints. */
  function Granted(w: World, e: Event): nat {
    match e
    case DaoTx(to, n, mint, approved) => if mint && T.DaoTransfer(w.ledger, to, n, mint, approved).Ok? then n else 0
    case FaucetTx(a, faucet, required, vesting) =>
      if T.TopUp(w.ledger, a, faucet, required, vesting).Ok? then T.Missing(w.ledger, a, faucet, required, vesting) else 0
    case _ => 0
  }

  /** Inputs as the stateless checks let them through: ordinary chain ids and fresh order ids. */
  ghost predicate Checked(w: World, e: Event) {
    match e
    case FeeTx(_, _, chain, _) => chain <= MAX_CHAIN_ID
    case SubsidyTx(_, _, chain, _, _) => chain <= MAX_CHAIN_ID
    case OrderTx(order) => S.Fresh(S.Market(w.ledger, w.orders), order)
    case DexTx(id, dex) => 0 < id <= MAX_CHAIN_ID && E.Delivered(dex)
    case Certificate(_, percents, _) => R.CheckedRecipients(percents)
    case Payout(id, _, _) => id <= MAX_CHAIN_ID
    case Funding(_, ids) => forall k | 0 <= k < |ids| :: ids[k] <= MAX_CHAIN_ID
    case _ => true
  }

  /** The ledger part of the events that move tokens one transfer at a time. */
  function Transfer(w: World, e: Event): Result<Ledger> {
    match e
    case SendTx(from, to, n, vesting, accepted) => T.Send(w.ledger, from, to, n, vesting, accepted)
    case FeeTx(from, n, chain, vesting) => T.DeductFee(w.ledger, from, n, chain, vesting)
    case SubsidyTx(from, n, chain, vesting, retired) => T.Subsidize(w.ledger, from, n, chain, vesting, retired)
    case DaoTx(to, n, mint, approved) => T.DaoTransfer(w.ledger, to, n, mint, approved)
    case FaucetTx(a, faucet, required, vesting) => T.TopUp(w.ledger, a, faucet, required, vesting)
    case StakeTx(signer, v, n, minimum, _, vesting) => T.Stake(w.ledger, signer, v, n, minimum, vesting, v in w.committees)
    case EditStakeTx(signer, v, n, _, vesting, authorised) =>
      T.EditStake(w.ledger, signer, v, n, vesting, v in w.committees && authorised)
    case Unstaked(v, output) => T.FinishUnstaking(w.ledger, v, output, v in w.committees)
    case _ => Ok(w.ledger)
  }

  /** And what they do to the validators' committee lists. */
  function CommitteesAfter(w: World, e: Event): map<Address, seq<ChainId>> {
    match e
    case StakeTx(_, v, _, _, ids, _) => w.committees[v := ids]
    case EditStakeTx(_, v, _, ids, _, _) => w.committees[v := ids]
    case Unstaked(v, _) => w.committees - {v}
    case _ => w.committees
  }

  /** One event. A handler's error leaves the world as it was. */
  ghost function Step(c: F.Schedule, own: ChainId, w: World, e: Event): World
    requires c.blocksPerHalvening > 0 && Checked(w, e)
  {
    match e
    case Slashes(list, chain, percent, params) =>
      (match B.SlashFrom(B.Stakes(w.ledger, w.committees, w.tracker), list, 0, chain, percent, params)
       case Ok(s) => w.(ledger := s.ledger, committees := s.committees, tracker := s.tracker)
       case Err(_) => w)
    case OrderTx(order) =>
      var m := S.Step(S.Market(w.ledger, w.orders), order);
      w.(ledger := m.ledger, orders := m.orders)
    case DexTx(id, dex) => WithStore(w, id, E.Next(StoreAt(w, id), id, dex))
    case Certificate(id, percents, nonSigners) =>
      (match R.Combine(RewardsAt(w, id), R.Reduced(percents, nonSigners), own)
       case Ok(r) => w.(rewards := w.rewards[id := r])
       case Err(_) => w)
    case Payout(id, penalty, who) =>
      (match R.Distribute(w.ledger, id, RewardsAt(w, id), penalty, Payees(w.committees, who))
       case Ok(l) => w.(ledger := l, rewards := w.rewards[id := R.Committee([], 0)])
       case Err(_) => w)
    case Funding(daoPercent, ids) =>
      w.(ledger := OrElse(F.Fund(w.ledger, c, w.height, daoPercent, ids), w.ledger), height := w.height + 1)
    case NewBlock => w.(tracker := map[])
    case _ => TransferStep(w, e)
  }

  function TransferStep(w: World, e: Event): World {
    match Transfer(w, e)
    case Ok(l) => w.(ledger := l, committees := CommitteesAfter(w, e), granted := w.granted + Granted(w, e))
    case Err(_) => w
  }

  predicate IsTransfer(e: Event) {
    || e.SendTx? || e.FeeTx? || e.SubsidyTx? || e.DaoTx? || e.FaucetTx? || e.StakeTx? || e.EditStakeTx? || e.Unstaked?
  }

  // ---- The invariant -----------------------------------------------------

  /** The books are right; only validators have stake; every committee's escrow pool is what its orders have
      for sale; every counter chain's holding pool is what its batches owe; every stored percent list is within
      its samples. */
  ghost predicate Solvent(w: World) {
    && Conserved(w.ledger)
    && T.OnlyValidatorsStake(w.ledger, w.committees)
    && S.Backed(S.Market(w.ledger, w.orders))
    && (forall id | 0 < id <= MAX_CHAIN_ID :: E.Safe(StoreAt(w, id), id))
    && (forall id | id in w.rewards :: R.Normal(w.rewards[id]))
  }

  /** What can have been created on top of `base`: the schedule's rewards and the explicit grants. */
  ghost predicate WithinBudget(c: F.Schedule, base: nat, w: World)
    requires c.blocksPerHalvening > 0
  {
    w.ledger.supply <= base + F.Emitted(c, w.height) + w.granted
  }

  /** What one event may create: a block's reward, or what a grant mints. */
  function Created(c: F.Schedule, w: World, e: Event): nat
    requires c.blocksPerHalvening > 0
  {
    if e.Funding? then F.BlockReward(c, w.height) else Granted(w, e)
  }

  /** All holding and escrow pools are as they were. */
  ghost predicate EscrowsKept(l: Ledger, l': Ledger) {
    && (forall id | 0 < id <= MAX_CHAIN_ID :: PoolBalance(l', HoldingPool(id)) == PoolBalance(l, HoldingPool(id)))
    && (forall id: nat | id <= MAX_CHAIN_ID :: PoolBalance(l', EscrowPool(id)) == PoolBalance(l, EscrowPool(id)))
  }

  lemma LedgerStep(w: World, w': World)
    requires Solvent(w)
    requires w'.orders == w.orders && w'.counters == w.counters
    requires Conserved(w'.ledger) && EscrowsKept(w.ledger, w'.ledger)
    requires T.OnlyValidatorsStake(w'.ledger, w'.committees)
    requires forall id | id in w'.rewards :: R.Normal(w'.rewards[id])
    ensures Solvent(w')
  {
    forall id | 0 < id <= MAX_CHAIN_ID ensures E.Safe(StoreAt(w', id), id) {
      assert E.Safe(StoreAt(w, id), id);
    }
  }

  /** The pools a transfer may touch. */
  function Touched(e: Event): set<PoolId> {
    match e
    case FeeTx(_, _, chain, _) => {chain}
    case SubsidyTx(_, _, chain, _, _) => {chain}
    case DaoTx(_, _, _, _) => {DAO_POOL_ID}
    case _ => {}
  }

  /** Tokens and record grew by n alike, and only these pools may have changed. */
  ghost predicate Grew(l: Ledger, l': Ledger, n: nat, touched: set<PoolId>) {
    Tokens(l') == Tokens(l) + n && l'.supply == l.supply + n && T.OnlyPools(l, l', touched)
  }

  lemma GrewKeepsEscrows(l: Ledger, l': Ledger, n: nat, touched: set<PoolId>)
    requires Grew(l, l', n, touched)
    requires forall id | id in touched :: id <= MAX_CHAIN_ID || id == DAO_POOL_ID
    ensures EscrowsKept(l, l')
  {
    forall id | id !in touched ensures PoolBalance(l', id) == PoolBalance(l, id) {
      if id in l.pools.Keys + l'.pools.Keys {}
    }
  }

  /** A transfer that goes through creates what it grants, touches no escrow, and gives stake to validators only. */
  lemma TransferMoves(w: World, e: Event)
    requires Solvent(w) && IsTransfer(e) && Transfer(w, e).Ok? && w.ledger.supply + Granted(w, e) <= MAX
    ensures Grew(w.ledger, Transfer(w, e).value, Granted(w, e), Touched(e))
    ensures T.OnlyValidatorsStake(Transfer(w, e).value, CommitteesAfter(w, e))
  {
    match e
    case SendTx(from, to, n, vesting, accepted) => T.SendMoves(w.ledger, from, to, n, vesting, accepted);
    case FeeTx(from, n, chain, vesting) => T.FeeMoves(w.ledger, from, n, chain, vesting);
    case SubsidyTx(from, n, chain, vesting, _) => T.FeeMoves(w.ledger, from, n, chain, vesting);
    case DaoTx(to, n, mint, approved) => T.DaoMoves(w.ledger, to, n, mint, approved);
    case FaucetTx(a, faucet, required, vesting) =>
      T.MintToAccountExact(w.ledger, a, T.Missing(w.ledger, a, faucet, required, vesting));
    case StakeTx(signer, v, n, minimum, _, vesting) => T.StakeMoves(w.ledger, signer, v, n, minimum, vesting, v in w.committees);
    case EditStakeTx(signer, v, n, _, vesting, authorised) =>
      T.EditStakeMoves(w.ledger, signer, v, n, vesting, v in w.committees && authorised);
    case Unstaked(v, output) => T.UnstakeMoves(w.ledger, v, output, v in w.committees);
  }

  lemma TransferKeeps(w: World, e: Event)
    requires Solvent(w) && IsTransfer(e) && Checked(w, e) && w.ledger.supply + Granted(w, e) <= MAX
    ensures var w' := TransferStep(w, e);
            Solvent(w') && w'.ledger.supply <= w.ledger.supply + Granted(w, e)
  {
    if Transfer(w, e).Ok? {
      TransferMoves(w, e);
      GrewKeepsEscrows(w.ledger, Transfer(w, e).value, Granted(w, e), Touched(e));
      LedgerStep(w, TransferStep(w, e));
    }
  }

  lemma OrderStep(w: World, order: S.Event)
    requires Solvent(w) && S.Fresh(S.Market(w.ledger, w.orders), order)
    ensures var m := S.Step(S.Market(w.ledger, w.orders), order);
            Solvent(w.(ledger := m.ledger, orders := m.orders)) && m.ledger.supply == w.ledger.supply
  {
    S.StepBacked(S.Market(w.ledger, w.orders), order);
    var m := S.Step(S.Market(w.ledger, w.orders), order);
    var w' := w.(ledger := m.ledger, orders := m.orders);
    assert S.Market(w'.ledger, w'.orders) == m;
    forall id | 0 < id <= MAX_CHAIN_ID ensures E.Safe(StoreAt(w', id), id) {
      assert E.Safe(StoreAt(w, id), id);
      PoolIdsApart(id, if S.ChainOf(order) == 0 then 1 else S.ChainOf(order));
    }
  }

  lemma DexStep(w: World, id: ChainId, dex: E.Event)
    requires Solvent(w) && 0 < id <= MAX_CHAIN_ID && E.Delivered(dex)
    ensures var w' := WithStore(w, id, E.Next(StoreAt(w, id), id, dex));
            Solvent(w') && w'.ledger.supply == w.ledger.supply
  {
    var s := E.Next(StoreAt(w, id), id, dex);
    var w' := WithStore(w, id, s);
    assert E.Safe(StoreAt(w, id), id);
    E.NextSafe(StoreAt(w, id), id, dex);
    forall j | 0 < j <= MAX_CHAIN_ID ensures E.Safe(StoreAt(w', j), j) {
      if j == id {
        assert StoreAt(w', id) == s;
      } else {
        assert E.Safe(StoreAt(w, j), j);
        assert CounterAt(w', j) == CounterAt(w, j);
      }
    }
    assert S.Backed(S.Market(w'.ledger, w'.orders)) by {
      assert S.Backed(S.Market(w.ledger, w.orders));
    }
  }

  lemma PayoutStep(w: World, id: ChainId, penalty: nat, who: Address -> R.Payee)
    requires Solvent(w) && id <= MAX_CHAIN_ID
    ensures var out := R.Distribute(w.ledger, id, RewardsAt(w, id), penalty, Payees(w.committees, who));
            && out.Ok? && Solvent(w.(ledger := out.value, rewards := w.rewards[id := R.Committee([], 0)]))
            && out.value.supply <= w.ledger.supply
  {
    var payees := Payees(w.committees, who);
    R.DistributionExact(w.ledger, id, RewardsAt(w, id), penalty, payees);
    var l := R.Distribute(w.ledger, id, RewardsAt(w, id), penalty, payees).value;
    forall v | v !in w.committees ensures T.StakeOf(l, v) == 0 {
      R.DistributeSpares(w.ledger, id, RewardsAt(w, id), penalty, payees, v);
    }
    LedgerStep(w, w.(ledger := l, rewards := w.rewards[id := R.Committee([], 0)]));
  }

  lemma FundingStep(c: F.Schedule, w: World, daoPercent: nat, ids: seq<ChainId>)
    requires c.blocksPerHalvening > 0 && Solvent(w) && w.ledger.supply + F.BlockReward(c, w.height) <= MAX
    requires forall k | 0 <= k < |ids| :: ids[k] <= MAX_CHAIN_ID
    ensures var l := F.Fund(w.ledger, c, w.height, daoPercent, ids);
            && l.Ok? && Solvent(w.(ledger := l.value, height := w.height + 1))
            && l.value.supply <= w.ledger.supply + F.BlockReward(c, w.height)
  {
    F.FundExact(w.ledger, c, w.height, daoPercent, ids);
    LedgerStep(w, w.(ledger := F.Fund(w.ledger, c, w.height, daoPercent, ids).value, height := w.height + 1));
  }

  lemma SlashKeeps(c: F.Schedule, own: ChainId, w: World, e: Event)
    requires c.blocksPerHalvening > 0 && Solvent(w) && Checked(w, e) && e.Slashes?
    ensures Solvent(Step(c, own, w, e)) && Step(c, own, w, e).ledger.supply <= w.ledger.supply
  {
    B.SlashesConserve(B.Stakes(w.ledger, w.committees, w.tracker), e.list, 0, e.chain, e.percent, e.params);
    B.SlashesKeepValidators(B.Stakes(w.ledger, w.committees, w.tracker), e.list, 0, e.chain, e.percent, e.params);
    LedgerStep(w, Step(c, own, w, e));
  }

  lemma CertificateKeeps(c: F.Schedule, own: ChainId, w: World, e: Event)
    requires c.blocksPerHalvening > 0 && Solvent(w) && Checked(w, e) && e.Certificate?
    ensures Solvent(Step(c, own, w, e)) && Step(c, own, w, e).ledger == w.ledger
  {
    var ps := R.Reduced(e.percents, e.nonSigners);
    if R.Combine(RewardsAt(w, e.id), ps, own).Ok? {
      R.CombineNormal(RewardsAt(w, e.id), e.percents, e.nonSigners, own);
    }
    LedgerStep(w, Step(c, own, w, e));
  }

  /** The events that are neither a transfer, nor slashes, nor a certificate. */
  lemma ChainKeeps(c: F.Schedule, own: ChainId, w: World, e: Event)
    requires c.blocksPerHalvening > 0 && Checked(w, e) && Solvent(w)
    requires e.OrderTx? || e.DexTx? || e.Payout? || e.Funding? || e.NewBlock?
    requires w.ledger.supply + Created(c, w, e) <= MAX
    ensures Solvent(Step(c, own, w, e)) && Step(c, own, w, e).ledger.supply <= w.ledger.supply + Created(c, w, e)
  {
    match e
    case OrderTx(order) => OrderStep(w, order);
    case DexTx(id, dex) => DexStep(w, id, dex);
    case Payout(id, penalty, who) => PayoutStep(w, id, penalty, who);
    case Funding(daoPercent, ids) => FundingStep(c, w, daoPercent, ids);
    case NewBlock => LedgerStep(w, w.(tracker := map[]));
  }

  lemma StepSolvent(c: F.Schedule, own: ChainId, w: World, e: Event)
    requires c.blocksPerHalvening > 0 && Checked(w, e) && Solvent(w)
    requires w.ledger.supply + Created(c, w, e) <= MAX
    ensures Solvent(Step(c, own, w, e)) && Step(c, own, w, e).ledger.supply <= w.ledger.supply + Created(c, w, e)
  {
    if IsTransfer(e) {
      TransferKeeps(w, e);
    } else if e.Slashes? {
      SlashKeeps(c, own, w, e);
    } else if e.Certificate? {
      CertificateKeeps(c, own, w, e);
    } else {
      ChainKeeps(c, own, w, e);
    }
  }

  /** The schedule and the grants advance by what a step may create; a failed transfer grants nothing. */
  lemma {:induction false} Accrues(c: F.Schedule, own: ChainId, w: World, e: Event)
    requires c.blocksPerHalvening > 0 && Checked(w, e)
    ensures var w' := Step(c, own, w, e);
            && w'.height == w.height + (if e.Funding? then 1 else 0) && w'.granted == w.granted + Granted(w, e)
            && F.Emitted(c, w'.height) + w'.granted == F.Emitted(c, w.height) + w.granted + Created(c, w, e)
  {
    if IsTransfer(e) {
    } else if e.Slashes? || e.Certificate? {
      assert Step(c, own, w, e).height == w.height && Step(c, own, w, e).granted == w.granted;
    }
  }

  lemma {:induction false} StepKeeps(c: F.Schedule, own: ChainId, base: nat, w: World, e: Event)
    requires c.blocksPerHalvening > 0 && Checked(w, e)
    requires Solvent(w) && WithinBudget(c, base, w)
    requires base + F.Emitted(c, Step(c, own, w, e).height) + Step(c, own, w, e).granted <= MAX
    ensures Solvent(Step(c, own, w, e)) && WithinBudget(c, base, Step(c, own, w, e))
  {
    Accrues(c, own, w, e);
    StepSolvent(c, own, w, e);
  }

  // ---- Runs --------------------------------------------------------------

  ghost predicate Runs(c: F.Schedule, own: ChainId, w: World, run: seq<Event>)
    requires c.blocksPerHalvening > 0
    decreases |run|
  {
    run == [] || (Checked(w, run[0]) && Runs(c, own, Step(c, own, w, run[0]), run[1..]))
  }

  ghost function After(c: F.Schedule, own: ChainId, w: World, run: seq<Event>): World
    requires c.blocksPerHalvening > 0 && Runs(c, own, w, run)
    decreases |run|
  {
    if run == [] then w else After(c, own, Step(c, own, w, run[0]), run[1..])
  }

  lemma {:induction false} GrantsGrow(c: F.Schedule, own: ChainId, w: World, run: seq<Event>)
    requires c.blocksPerHalvening > 0 && Runs(c, own, w, run)
    ensures w.granted <= After(c, own, w, run).granted
    decreases |run|
  {
    if run != [] {
      Accrues(c, own, w, run[0]);
      GrantsGrow(c, own, Step(c, own, w, run[0]), run[1..]);
    }
  }

  lemma {:induction false} RunKeeps(c: F.Schedule, own: ChainId, base: nat, w: World, run: seq<Event>)
    requires c.blocksPerHalvening > 0 && Runs(c, own, w, run)
    requires Solvent(w) && WithinBudget(c, base, w)
    requires base + 2 * c.blocksPerHalvening * c.initial + After(c, own, w, run).granted <= MAX
    ensures Solvent(After(c, own, w, run)) && WithinBudget(c, base, After(c, own, w, run))
    decreases |run|
  {
    if run != [] {
      var w' := Step(c, own, w, run[0]);
      F.EmissionCap(c, w'.height);
      GrantsGrow(c, own, w', run[1..]);
      StepKeeps(c, own, base, w, run[0]);
      RunKeeps(c, own, base, w', run[1..]);
    }
  }

  /** Solvency. From any solvent state at height 0, over every run of every kind of token movement in any
      order: if the starting supply, the whole emission schedule and the explicit grants fit 64 bits, then
      accounts, pools and stakes always sum to the recorded supply, that supply stays within the schedule
      and the grants, only validators have stake, and every escrow is backed token for token. */
  lemma {:induction false} AlwaysSolvent(c: F.Schedule, own: ChainId, w: World, run: seq<Event>)
    requires c.blocksPerHalvening > 0 && Runs(c, own, w, run)
    requires Solvent(w) && w.height == 0 && w.granted == 0
    requires w.ledger.supply + 2 * c.blocksPerHalvening * c.initial + After(c, own, w, run).granted <= MAX
    ensures var v := After(c, own, w, run);
            && Conserved(v.ledger) && T.OnlyValidatorsStake(v.ledger, v.committees)
            && v.ledger.supply <= w.ledger.supply + 2 * c.blocksPerHalvening * c.initial + v.granted
            && S.Backed(S.Market(v.ledger, v.orders))
            && (forall id | 0 < id <= MAX_CHAIN_ID :: E.EscrowHolds(StoreAt(v, id), id) && Sound(CounterAt(v, id).shares))
  {
    RunKeeps(c, own, w.ledger.supply, w, run);
    F.EmissionCap(c, After(c, own, w, run).height);
    forall id | 0 < id <= MAX_CHAIN_ID
      ensures E.EscrowHolds(StoreAt(After(c, own, w, run), id), id) && Sound(CounterAt(After(c, own, w, run), id).shares)
    {
      assert E.Safe(StoreAt(After(c, own, w, run), id), id);
    }
  }

  // ---- From genesis ------------------------------------------------------

  /** The counter chains' points as loaded, and no batches yet. */
  function Start(s: G.State): World {
    World(s.ledger, s.orders, map c | c in s.points :: Counter(s.points[c], None, None, 0), s.committees, map[], map[], 0, 0)
  }

  lemma StartSolvent(s: G.State)
    requires Conserved(s.ledger) && G.Sane(s)
    ensures Solvent(Start(s))
  {
    forall id | 0 < id <= MAX_CHAIN_ID ensures E.Safe(StoreAt(Start(s), id), id) {
      assert PoolBalance(s.ledger, HoldingPool(id)) == 0;
      assert CounterAt(Start(s), id) == Counter(if id in s.points then s.points[id] else Shares([], 0), None, None, 0);
    }
  }

  lemma {:induction false} GenesisSolvent(lines: seq<G.Line>)
    requires G.LoadFrom(G.EMPTY, lines, 0).Ok? && G.ClashFree(lines, 0) && G.EscrowsLeftToOrders(lines) && G.PointsAddUp(lines)
    ensures Solvent(Start(G.LoadFrom(G.EMPTY, lines, 0).value))
  {
    G.GenesisSane(lines);
    StartSolvent(G.LoadFrom(G.EMPTY, lines, 0).value);
  }

  /** So a chain stays solvent that starts from a file without clashes, which leaves the escrows to its orders and
      whose pools' points add up. */
  lemma {:induction false} SolventFromGenesis(lines: seq<G.Line>, c: F.Schedule, own: ChainId, run: seq<Event>)
    requires G.LoadFrom(G.EMPTY, lines, 0).Ok? && G.ClashFree(lines, 0) && G.EscrowsLeftToOrders(lines) && G.PointsAddUp(lines)
    requires c.blocksPerHalvening > 0 && Runs(c, own, Start(G.LoadFrom(G.EMPTY, lines, 0).value), run)
    requires var w := Start(G.LoadFrom(G.EMPTY, lines, 0).value);
             w.ledger.supply + 2 * c.blocksPerHalvening * c.initial + After(c, own, w, run).granted <= MAX
    ensures var w := Start(G.LoadFrom(G.EMPTY, lines, 0).value);
            var v := After(c, own, w, run);
            && Conserved(v.ledger) && T.OnlyValidatorsStake(v.ledger, v.committees)
            && v.ledger.supply <= w.ledger.supply + 2 * c.blocksPerHalvening * c.initial + v.granted
            && S.Backed(S.Market(v.ledger, v.orders))
            && (forall id | 0 < id <= MAX_CHAIN_ID :: E.EscrowHolds(StoreAt(v, id), id) && Sound(CounterAt(v, id).shares))
  {
    GenesisSolvent(lines);
    AlwaysSolvent(c, own, Start(G.LoadFrom(G.EMPTY, lines, 0).value), run);
  }
}
