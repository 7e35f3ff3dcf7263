/** The cross-chain batch pipeline of fsm/dex.go on one chain: batches, hashes and a trigger. */
module Pipeline {
  import opened Lib
  import opened Points
  import opened Amm

  const MAX_ORDERS: nat := 10_000
  const MAX_DEPOSITS: nat := 5_000
  const MAX_WITHDRAWALS: nat := 5_000

  /** Hashes are collision-free: a hash carries what was hashed. */
  datatype Hash = NoHash | EmptyReceipts | HashOf(batch: Batch)

  datatype Batch = Batch(receiptHash: Hash, orders: seq<Order>, withdrawals: seq<Withdrawal>, deposits: seq<Deposit>,
                         poolSize: nat, receipts: seq<nat>, lockedHeight: nat)

  predicate IsEmpty(b: Batch) {
    b.receiptHash == NoHash && b.receipts == [] && b.orders == [] && b.withdrawals == [] && b.deposits == []
  }

  /** DexBatch.Hash: an empty batch is hashed as if it carried the empty receipts. */
  function HashBatch(b: Batch): Hash {
    HashOf(if IsEmpty(b) then b.(receiptHash := EmptyReceipts) else b)
  }

  /** How many batches a hash reaches back. */
  function Depth(h: Hash): nat {
    match h case HashOf(b) => 1 + Depth(b.receiptHash) case _ => 0
  }

  /** What a chain keeps for one counter chain: its liquidity pool and points, and the two batches. */
  datatype Chain = Chain(pool: nat, shares: Shares, locked: Option<Batch>, next: Option<Batch>, height: nat)

  /** GetDexBatch: an absent batch reads as an empty one with the present pool size. */
  function Stored(b: Option<Batch>, pool: nat): Batch {
    match b case Some(x) => x case None => Batch(NoHash, [], [], [], pool, [], 0)
  }

  /** What the counter chain is shown. */
  function Shown(c: Chain): Batch { Stored(c.locked, c.pool) }

  // ---- One batch, as the two chains see it -------------------------------

  datatype Moved = Moved(r: Reserves, shares: Shares)

  /** Withdrawals and then deposits, the part both chains compute alike. */
  function Settle(r: Reserves, s: Shares, b: Batch): Result<Moved> {
    match Withdraw(r, s, b.withdrawals)
    case Err(e) => Err(e)
    case Ok(w) =>
      match DepositAll(w.r, w.shares, b.deposits)
      case Err(e) => Err(e)
      case Ok((r', s')) => Ok(Moved(r', s'))
  }

  /** HandleRemoteChainLockedBatch: execute the counter chain's batch, producing receipts. */
  function Execute(r: Reserves, s: Shares, b: Batch, perm: seq<nat>): Result<(Moved, seq<nat>)>
    requires IsPermutation(perm, |b.orders|)
  {
    match Exec(r, b.orders, perm)
    case Err(e) => Err(e)
    case Ok(out) =>
      match Settle(out.r, s, b)
      case Err(e) => Err(e)
      case Ok(m) => Ok((m, out.receipts))
  }

  /** HandleReceiptsForOurLockedBatch: replay our own batch from its receipts. */
  function Replay(r: Reserves, s: Shares, b: Batch, receipts: seq<nat>): Result<Moved>
    requires |b.orders| == |receipts|
  {
    match ApplyReceipts(r, b.orders, receipts)
    case Err(e) => Err(e)
    case Ok(r') => Settle(r', s, b)
  }

  /** Whatever shuffle the executing chain used, its owner's replay from the same reserves and points
      ends in the same reserves and points. */
  lemma ReplayMirrorsExecution(r: Reserves, s: Shares, b: Batch, perm: seq<nat>)
    requires IsPermutation(perm, |b.orders|) && r.x <= MAX
    requires Execute(r, s, b, perm).Ok?
    ensures var (m, receipts) := Execute(r, s, b, perm).value;
            |receipts| == |b.orders| && Replay(r, s, b, receipts) == Ok(m)
  {
    ReceiptsMirrorExecution(r, b.orders, perm);
  }

  lemma ReservesFit(r: Reserves, s: Shares, b: Batch)
    requires r.x <= MAX && r.y <= MAX && Settle(r, s, b).Ok?
    ensures Settle(r, s, b).value.r.x <= MAX && Settle(r, s, b).value.r.y <= MAX
  {
    var w := Withdraw(r, s, b.withdrawals).value;
    assert w.r.x <= MAX && w.r.y <= MAX;
    DepositFits(w.r, w.shares, b.deposits);
  }

  lemma {:induction false} MintFits(d: Deposited, ds: seq<Deposit>, k: nat, totalDL: nat, totalDeposit: nat)
    requires k <= |ds| && d.x <= MAX && MintFrom(d, ds, k, totalDL, totalDeposit).Ok?
    ensures MintFrom(d, ds, k, totalDL, totalDeposit).value.x <= MAX
    decreases |ds| - k
  {
    if k < |ds| {
      MintFits(MintOne(d, ds[k], totalDL, totalDeposit).value, ds, k + 1, totalDL, totalDeposit);
    }
  }

  lemma DepositFits(r: Reserves, s: Shares, ds: seq<Deposit>)
    requires r.x <= MAX && DepositAll(r, s, ds).Ok?
    ensures DepositAll(r, s, ds).value.0.x <= MAX && DepositAll(r, s, ds).value.0.y == r.y
  {
    if !NoDeposit(r, ds) {
      MintFits(Deposited(r.x, Seeded(r, s).value, 0), ds, 0, Growth(r, s, TotalDeposit(ds)), TotalDeposit(ds));
    }
  }

  lemma ExecutionFits(r: Reserves, s: Shares, b: Batch, perm: seq<nat>)
    requires IsPermutation(perm, |b.orders|) && r.x <= MAX && r.y <= MAX
    requires Execute(r, s, b, perm).Ok?
    ensures Execute(r, s, b, perm).value.0.r.x <= MAX && Execute(r, s, b, perm).value.0.r.y <= MAX
  {
    ExecSound(r, b.orders, perm);
    ReservesFit(Exec(r, b.orders, perm).value.r, s, b);
  }

  // ---- A trigger ---------------------------------------------------------

  /** RotateDexBatches: the next batch is locked unless one is still waiting for its receipts. */
  function Rotate(c: Chain, hash: Hash, poolSize: nat, receipts: seq<nat>): Chain {
    if c.locked.Some? then c else
      var b := Stored(c.next, c.pool);
      var b := b.(poolSize := poolSize, receiptHash := hash, lockedHeight := c.height);
      var b := if receipts != [] then b.(receipts := receipts) else b;
      c.(next := None, locked := Some(b))
  }

  /** The remote batch does not answer the batch we have locked. */
  predicate Waiting(c: Chain, remote: Batch) {
    c.locked.Some? && (remote.receiptHash != HashBatch(c.locked.value) || |c.locked.value.orders| != |remote.receipts|)
  }

  /** Step 1: the pool after our receipts, and the advanced shadow of the counter chain's pool. */
  function Advance(c: Chain, remote: Batch): Result<(Chain, nat)>
    requires !Waiting(c, remote)
  {
    if c.locked.None? then Ok((c, remote.poolSize)) else
      match Replay(Reserves(c.pool, remote.poolSize), c.shares, c.locked.value, remote.receipts)
      case Err(e) => Err(e)
      case Ok(m) => Ok((c.(pool := m.r.x, shares := m.shares, locked := None), m.r.y))
  }

  /** HandleRemoteDexBatch behind the guard of HandleDexBatch. An error leaves the chain as it was. */
  function Trigger(c: Chain, remote: Batch, perm: seq<nat>): Result<Chain>
    requires IsPermutation(perm, |remote.orders|)
  {
    if c.pool == 0 then Ok(c)
    else if IsEmpty(remote) then Ok(Rotate(c, HashBatch(remote), c.pool, []))
    else if Waiting(c, remote) then Ok(c)
    else
      match Advance(c, remote)
      case Err(e) => Err(e)
      case Ok((c1, shadow)) =>
        match Execute(Reserves(shadow, c1.pool), c1.shares, remote, perm)
        case Err(e) => Err(e)
        case Ok((m, receipts)) =>
          Ok(Rotate(c1.(pool := m.r.y, shares := m.shares), HashBatch(remote), c1.pool, receipts))
  }

  /** The trigger goes through the remote batch rather than waiting, failing or only rotating. */
  predicate Processes(c: Chain, remote: Batch, perm: seq<nat>)
    requires IsPermutation(perm, |remote.orders|)
  {
    c.pool != 0 && !IsEmpty(remote) && !Waiting(c, remote) && Trigger(c, remote, perm).Ok?
  }

  // ---- Users and block ends ----------------------------------------------

  datatype Op = Sell(order: Order) | Provide(deposit: Deposit) | Redeem(withdrawal: Withdrawal)

  /** Why the three message handlers keep an operation out of the next batch. */
  function Refusal(c: Chain, op: Op): Option<Error> {
    var b := Stored(c.next, c.pool);
    match op
    case Sell(_) =>
      if b.poolSize == 0 then Some(InvalidLiquidityPool)
      else if |b.orders| >= MAX_ORDERS then Some(MaxDexBatchSize) else None
    case Provide(_) =>
      if c.pool == 0 || |c.shares.holders| >= MAX_LIQUIDITY_PROVIDERS then Some(InvalidLiquidityPool)
      else if |b.deposits| >= MAX_DEPOSITS then Some(MaxDexBatchSize) else None
    case Redeem(w) =>
      if b.poolSize == 0 then Some(InvalidLiquidityPool)
      else if |b.withdrawals| >= MAX_WITHDRAWALS then Some(MaxDexBatchSize)
      else if PointsFor(c.shares, w.addr).None? then Some(PointHolderNotFound) else None
  }

  function Submit(c: Chain, op: Op): Chain {
    if Refusal(c, op).Some? then c else
      var b := Stored(c.next, c.pool);
      c.(next := Some(match op
        case Sell(o) => b.(orders := b.orders + [o])
        case Provide(d) => b.(deposits := b.deposits + [d])
        case Redeem(w) => b.(withdrawals := b.withdrawals + [w])))
  }

  function CanMove(lockedLen: nat, nextLen: nat, max: nat): nat {
    if nextLen == 0 || lockedLen >= max then 0 else Min(nextLen, max - lockedLen)
  }

  /** IncludeSameBlockDex: operations of the block in which a batch was locked still join it. */
  function IncludeSameBlock(c: Chain): Chain {
    if c.locked.None? || c.locked.value.lockedHeight != c.height then c else
      var l, n := c.locked.value, Stored(c.next, c.pool);
      var o := CanMove(|l.orders|, |n.orders|, MAX_ORDERS);
      var d := CanMove(|l.deposits|, |n.deposits|, MAX_DEPOSITS);
      var w := CanMove(|l.withdrawals|, |n.withdrawals|, MAX_WITHDRAWALS);
      if o == 0 && d == 0 && w == 0 then c else
        var l' := l.(orders := l.orders + n.orders[..o], deposits := l.deposits + n.deposits[..d],
                     withdrawals := l.withdrawals + n.withdrawals[..w]);
        var n' := n.(orders := n.orders[o..], deposits := n.deposits[d..], withdrawals := n.withdrawals[w..]);
        c.(locked := Some(l'),
           next := if n'.orders == [] && n'.deposits == [] && n'.withdrawals == [] then None else Some(n'))
  }

  function EndBlock(c: Chain): Chain {
    var c := IncludeSameBlock(c);
    c.(height := c.height + 1)
  }

  /** A list l has been filled from the front of n, as far as n reaches or the cap allows. */
  ghost predicate Filled<T>(l: seq<T>, n: seq<T>, l': seq<T>, n': seq<T>, max: nat) {
    l' + n' == l + n && |l| <= |l'| <= Max(|l|, max) && (n' == [] || |l'| >= max)
  }

  lemma MoveFills<T>(l: seq<T>, n: seq<T>, max: nat)
    ensures var m := CanMove(|l|, |n|, max); m <= |n| && Filled(l, n, l + n[..m], n[m..], max)
  {
    var m := CanMove(|l|, |n|, max);
    assert n[..m] + n[m..] == n;
  }

  /** A batch locked in this very block is filled up from the next one, list by list and in order, and changes in nothing
      else; a batch locked earlier, which may have been shown, does not change. */
  lemma IncludeFills(c: Chain)
    ensures var c' := IncludeSameBlock(c);
            && c'.pool == c.pool && c'.shares == c.shares && c'.height == c.height
            && if c.locked.None? || c.locked.value.lockedHeight != c.height then c' == c else
                 && c'.locked.Some?
                 && var l, n, l', n' := c.locked.value, Stored(c.next, c.pool), c'.locked.value, Stored(c'.next, c.pool);
                 && l' == l.(orders := l'.orders, deposits := l'.deposits, withdrawals := l'.withdrawals)
                 && Filled(l.orders, n.orders, l'.orders, n'.orders, MAX_ORDERS)
                 && Filled(l.deposits, n.deposits, l'.deposits, n'.deposits, MAX_DEPOSITS)
                 && Filled(l.withdrawals, n.withdrawals, l'.withdrawals, n'.withdrawals, MAX_WITHDRAWALS)
  {
    if c.locked.Some? && c.locked.value.lockedHeight == c.height {
      var l, n := c.locked.value, Stored(c.next, c.pool);
      MoveFills(l.orders, n.orders, MAX_ORDERS);
      MoveFills(l.deposits, n.deposits, MAX_DEPOSITS);
      MoveFills(l.withdrawals, n.withdrawals, MAX_WITHDRAWALS);
      if IncludeSameBlock(c) == c {
        NothingMoved(l.orders, n.orders, MAX_ORDERS);
        NothingMoved(l.deposits, n.deposits, MAX_DEPOSITS);
        NothingMoved(l.withdrawals, n.withdrawals, MAX_WITHDRAWALS);
      }
    }
  }

  lemma NothingMoved<T>(l: seq<T>, n: seq<T>, max: nat)
    requires CanMove(|l|, |n|, max) == 0
    ensures Filled(l, n, l, n, max)
  {}

  /** No list of a batch is longer than it may be. */
  predicate WithinCaps(b: Option<Batch>) {
    b.Some? ==> |b.value.orders| <= MAX_ORDERS && |b.value.deposits| <= MAX_DEPOSITS && |b.value.withdrawals| <= MAX_WITHDRAWALS
  }

  /** Users and block ends keep both batches within their caps. */
  lemma CapsKept(c: Chain, op: Op)
    requires WithinCaps(c.locked) && WithinCaps(c.next)
    ensures WithinCaps(Submit(c, op).next) && Submit(c, op).locked == c.locked
    ensures WithinCaps(EndBlock(c).locked) && WithinCaps(EndBlock(c).next)
  {
    IncludeFills(c);
  }

  /** What users submit in the block in which a batch is locked still joins it, as long as there is room. */
  lemma SameBlockJoins(c: Chain, hash: Hash, poolSize: nat, receipts: seq<nat>, op: Op)
    requires c.locked.None? && WithinCaps(c.next) && Refusal(Rotate(c, hash, poolSize, receipts), op).None?
    ensures var b, c' := Stored(c.next, c.pool), EndBlock(Submit(Rotate(c, hash, poolSize, receipts), op));
            && c'.locked.Some? && c'.height == c.height + 1
            && var l := c'.locked.value;
               && l.poolSize == poolSize && l.receiptHash == hash && l.lockedHeight == c.height
               && l.receipts == (if receipts == [] then b.receipts else receipts)
               && (op.Sell? && |b.orders| < MAX_ORDERS ==> l.orders == b.orders + [op.order] && c'.next.None?)
               && (op.Provide? && |b.deposits| < MAX_DEPOSITS ==> l.deposits == b.deposits + [op.deposit] && c'.next.None?)
               && (op.Redeem? && |b.withdrawals| < MAX_WITHDRAWALS ==> l.withdrawals == b.withdrawals + [op.withdrawal] && c'.next.None?)
  {
    var b, c1 := Stored(c.next, c.pool), Rotate(c, hash, poolSize, receipts);
    assert Stored(c1.next, c1.pool) == Batch(NoHash, [], [], [], c1.pool, [], 0);
    assert b.orders + [] == b.orders && b.deposits + [] == b.deposits && b.withdrawals + [] == b.withdrawals;
  }
}
