/** The loops of fsm/dex.go and the DEX message handlers of fsm/message.go, each changing the state machine
    in place and proved against the function that Dex gives for it. */
module DexHandlers {
  import opened Lib
  import opened Sums
  import opened Points
  import opened Amm
  import opened Pipeline
  import opened Ledgers
  import opened Dex
  import opened Machine

  // ---- Orders ------------------------------------------------------------

  method HandleOrderReceipts(s: StateMachine, id: ChainId, orders: seq<Order>, receipts: seq<nat>, x: nat, y: nat)
    returns (r: Result<Reserves>)
    requires |orders| == |receipts|
    modifies s`ledger
    ensures match ReceiptsFrom(Book(old(s.ledger), Reserves(x, y), s.PointsOf(id)), id, orders, receipts, 0)
            case Ok(b) => r == Ok(b.r) && s.ledger == b.ledger && s.PointsOf(id) == b.shares
            case Err(e) => r == Err(e)
  {
    ghost var start := Book(s.ledger, Reserves(x, y), s.PointsOf(id));
    var x: nat, y: nat := x, y;
    for k := 0 to |orders|
      invariant ReceiptsFrom(start, id, orders, receipts, 0)
             == ReceiptsFrom(Book(s.ledger, Reserves(x, y), s.PointsOf(id)), id, orders, receipts, k)
    {
      var removed := s.PoolSub(HoldingPool(id), orders[k].amount);
      if removed.Err? { return Err(removed.error); }
      var dY := receipts[k];
      if dY != 0 {
        if y <= dY { return Err(RemotePoolSizeDebit); }
        x, y := (x + orders[k].amount) % U64, y - dY;
        s.PoolAdd(LiquidityPool(id), orders[k].amount);
      } else {
        var refunded := s.AccountAdd(orders[k].addr, orders[k].amount);
        if refunded.Err? { return Err(refunded.error); }
      }
    }
    return Ok(Reserves(x, y));
  }

  /** The first loop of HandleDexBatchOrders; `perm` is the order that sorting by hash key gives. */
  method ComputeReceipts(orders: seq<Order>, perm: seq<nat>, x: nat, y: nat) returns (r: Result<Executed>)
    requires IsPermutation(perm, |orders|)
    ensures r == Exec(Reserves(x, y), orders, perm)
  {
    if x == 0 || y == 0 { return Err(InvalidLiquidityPool); }
    var e := Executed(Reserves(x, y), seq(|orders|, i => 0));
    ghost var start := e;
    for k := 0 to |orders|
      invariant e.r.x > 0 && e.r.y > 0 && |e.receipts| == |orders|
      invariant ExecFrom(start, orders, perm, 0) == ExecFrom(e, orders, perm, k)
    {
      var o := orders[perm[k]];
      SwapKeepsProduct(e.r.x, e.r.y, o.amount);
      var dY := ComputeDY(e.r.x, e.r.y, o.amount);
      if dY < o.requested { dY := 0; }
      if dY != 0 && e.r.x + o.amount > MAX { return Err(InvalidLiquidityPool); }
      e := Executed(if dY != 0 then Reserves(e.r.x + o.amount, e.r.y - dY) else e.r, e.receipts[perm[k] := dY]);
    }
    return Ok(e);
  }

  /** The second loop: pay the receipts in batch order. */
  method PayReceipts(s: StateMachine, id: ChainId, orders: seq<Order>, receipts: seq<nat>) returns (r: Result<()>)
    requires |orders| == |receipts|
    modifies s`ledger
    ensures match PayOrdersFrom(old(s.ledger), id, orders, receipts, 0)
            case Ok(l) => r == Ok(()) && s.ledger == l
            case Err(e) => r == Err(e)
  {
    for i := 0 to |orders|
      invariant PayOrdersFrom(old(s.ledger), id, orders, receipts, 0) == PayOrdersFrom(s.ledger, id, orders, receipts, i)
    {
      if receipts[i] != 0 {
        var paid := s.PoolSub(LiquidityPool(id), receipts[i]);
        if paid.Err? { return Err(paid.error); }
        paid := s.AccountAdd(orders[i].addr, receipts[i]);
        if paid.Err? { return Err(paid.error); }
      }
    }
    return Ok(());
  }

  method HandleDexBatchOrders(s: StateMachine, id: ChainId, orders: seq<Order>, perm: seq<nat>, x: nat, y: nat)
    returns (r: Result<Executed>)
    requires IsPermutation(perm, |orders|)
    modifies s`ledger
    ensures match HandleOrders(Book(old(s.ledger), Reserves(x, y), s.PointsOf(id)), id, orders, perm)
            case Ok((b, receipts)) => r == Ok(Executed(b.r, receipts)) && s.ledger == b.ledger
            case Err(e) => r == Err(e)
  {
    r := ComputeReceipts(orders, perm, x, y);
    if r.Err? { return; }
    ExecShape(Reserves(x, y), orders, perm);
    var paid := PayReceipts(s, id, orders, r.value.receipts);
    if paid.Err? { return Err(paid.error); }
  }

  // ---- Withdrawals and deposits ------------------------------------------

  method SetPoolObject(s: StateMachine, id: ChainId, p: Pool)
    modifies s`ledger, s`points
    ensures s.ledger == SetPool(old(s.ledger), LiquidityPool(id), p.amount)
    ensures s.points == old(s.points)[id := p.State()]
  {
    s.ledger := SetPool(s.ledger, LiquidityPool(id), p.amount);
    s.points := s.points[id := p.State()];
  }

  /** The first pass: sum the claims, stopping at an overflow. */
  method SumClaims(p: Pool, ws: seq<Withdrawal>) returns (total: Option<nat>)
    ensures total == if Claims(p.State(), ws) > MAX then None else Some(Claims(p.State(), ws))
  {
    var sum := 0;
    for k := 0 to |ws|
      invariant sum + Claims(p.State(), ws[k..]) == Claims(p.State(), ws) && sum <= MAX
    {
      assert ws[k..][1..] == ws[k + 1..];
      var initial := p.GetPointsFor(ws[k].addr);
      if initial.Some? {
        sum := sum + MulDiv(initial.value, ws[k].percent, 100);
        if sum > MAX { return None; }
      } else {
        assert MulDiv(0, ws[k].percent, 100) == 0;
      }
    }
    return Some(sum);
  }

  /** The second pass of HandleBatchWithdraw, for one request: `payments` are those made before it. */
  method PayRequest(s: StateMachine, p: Pool, w: Withdrawal, totalX: nat, totalY: nat, claims: nat, local: bool,
                    ghost payments: seq<Payment>)
    returns (r: Result<Option<Payment>>)
    modifies s`ledger, p
    ensures match DrawOne(old(s.ledger), Payouts(old(p.State()), payments), w, totalX, totalY, claims, local)
            case Ok((l, p')) =>
              && r.Ok? && s.ledger == l && p.State() == p'.shares
              && p'.payments == payments + (if r.value.Some? then [r.value.value] else [])
            case Err(e) => r == Err(e)
  {
    var initial := p.GetPointsFor(w.addr);
    if initial.None? { return Ok(None); }
    var points := MulDiv(initial.value, w.percent, 100);
    var payment := Payment(w.addr, points, MulDiv(totalX, points, claims), MulDiv(totalY, points, claims));
    var removed := p.RemovePoints(w.addr, points);
    if removed.Err? { return Err(removed.error); }
    var credited := s.AccountAdd(w.addr, if local then payment.xShare else payment.yShare);
    if credited.Err? { return Err(credited.error); }
    return Ok(Some(payment));
  }

  method HandleBatchWithdraw(s: StateMachine, id: ChainId, ws: seq<Withdrawal>, x: nat, y: nat, local: bool)
    returns (r: Result<Reserves>)
    modifies s`ledger, s`points
    ensures match HandleWithdraw(Book(old(s.ledger), Reserves(x, y), old(s.PointsOf(id))), id, ws, local)
            case Ok(b) => r == Ok(b.r) && s.ledger == b.ledger && s.PointsOf(id) == b.shares
            case Err(e) => r == Err(e)
    ensures forall j | j != id :: s.PointsOf(j) == old(s.PointsOf(j))
  {
    if ws == [] { return Ok(Reserves(x, y)); }
    var p := new Pool(PoolBalance(s.ledger, LiquidityPool(id)), s.PointsOf(id));
    var claims := SumClaims(p, ws);
    if claims.None? { return Err(InvalidLiquidityPool); }
    if claims.value == 0 || p.totalPoolPoints == 0 { return Ok(Reserves(x, y)); }
    var totalX := MulDiv(x, claims.value, p.totalPoolPoints);
    var totalY := MulDiv(y, claims.value, p.totalPoolPoints);
    var paidX, paidY := 0, 0;
    ghost var payments := [];
    ghost var start := Payouts(p.State(), []);
    for k := 0 to |ws|
      invariant DrawFrom(old(s.ledger), start, ws, 0, totalX, totalY, claims.value, local)
             == DrawFrom(s.ledger, Payouts(p.State(), payments), ws, k, totalX, totalY, claims.value, local)
      invariant paidX == SumX(payments) && paidY == SumY(payments)
      invariant fresh(p) && s.points == old(s.points)
    {
      var paid := PayRequest(s, p, ws[k], totalX, totalY, claims.value, local, payments);
      if paid.Err? { return Err(paid.error); }
      if paid.value.Some? {
        var payment := paid.value.value;
        paidX, paidY := paidX + payment.xShare, paidY + payment.yShare;
        assert (payments + [payment])[..|payments|] == payments;
        payments := payments + [payment];
      }
    }
    var x', y' := WrapSub(x, paidX), WrapSub(y, paidY);
    p.amount := if local then x' else y';
    SetPoolObject(s, id, p);
    return Ok(Reserves(x', y'));
  }

  method SumDeposits(ds: seq<Deposit>) returns (total: Option<nat>)
    ensures total == if TotalDeposit(ds) > MAX then None else Some(TotalDeposit(ds))
  {
    var sum := 0;
    for k := 0 to |ds|
      invariant sum + TotalDeposit(ds[k..]) == TotalDeposit(ds) && sum <= MAX
    {
      assert ds[k..][1..] == ds[k + 1..];
      sum := sum + ds[k].amount;
      if sum > MAX { return None; }
    }
    return Some(sum);
  }

  /** The loop body of HandleBatchDeposit, for one depositor. */
  method MintDeposit(s: StateMachine, p: Pool, id: ChainId, deposit: Deposit, x: nat, distributed: nat, totalDL: nat,
                     totalDeposit: nat, local: bool)
    returns (r: Result<(nat, nat)>)
    modifies s`ledger, p
    ensures var before := Minted(old(s.ledger), old(p.amount), Deposited(x, old(p.State()), distributed));
            match DepositOne(before, id, deposit, totalDL, totalDeposit, local)
            case Ok(m) =>
              && r == Ok((m.d.x, m.d.distributed))
              && s.ledger == m.ledger && p.amount == m.amount && p.State() == m.d.shares
            case Err(e) => r == Err(e)
  {
    var share := MulDiv(totalDL, deposit.amount, totalDeposit);
    if share > 0 {
      var holder := p.GetPointsFor(deposit.addr);
      if holder.None? && |p.points| >= MAX_LIQUIDITY_PROVIDERS { return Err(InvalidLiquidityPool); }
    }
    var added := p.AddPoints(deposit.addr, share);
    if added.Err? { return Err(added.error); }
    if x + deposit.amount > MAX { return Err(InvalidLiquidityPool); }
    if local {
      var taken := s.PoolSub(HoldingPool(id), deposit.amount);
      if taken.Err? { return Err(taken.error); }
      if p.amount + deposit.amount > MAX { return Err(InvalidLiquidityPool); }
      p.amount := p.amount + deposit.amount;
    }
    return Ok((x + deposit.amount, distributed + share));
  }

  /** The loop over the deposits; `p` is the pool object that is written back afterwards. */
  method DistributePoints(s: StateMachine, p: Pool, id: ChainId, ds: seq<Deposit>, x: nat, totalDL: nat, totalDeposit: nat,
                          local: bool)
    returns (r: Result<(nat, nat)>)
    modifies s`ledger, p
    ensures var start := Minted(old(s.ledger), old(p.amount), Deposited(x, old(p.State()), 0));
            match DepositFrom(start, id, ds, 0, totalDL, totalDeposit, local)
            case Ok(m) =>
              && r == Ok((m.d.x, m.d.distributed))
              && s.ledger == m.ledger && p.amount == m.amount && p.State() == m.d.shares
            case Err(e) => r == Err(e)
  {
    var distributed: nat, x': nat := 0, x;
    ghost var start := Minted(s.ledger, p.amount, Deposited(x, p.State(), 0));
    for k := 0 to |ds|
      invariant DepositFrom(start, id, ds, 0, totalDL, totalDeposit, local)
             == DepositFrom(Minted(s.ledger, p.amount, Deposited(x', p.State(), distributed)), id, ds, k, totalDL,
                            totalDeposit, local)
    {
      var minted := MintDeposit(s, p, id, ds[k], x', distributed, totalDL, totalDeposit, local);
      if minted.Err? { return Err(minted.error); }
      x', distributed := minted.value.0, minted.value.1;
    }
    return Ok((x', distributed));
  }

  method SettlePoints(s: StateMachine, p: Pool, id: ChainId, ds: seq<Deposit>, x: nat, y: nat, totalDL: nat,
                      totalDeposit: nat, local: bool)
    returns (r: Result<Reserves>)
    requires totalDeposit == TotalDeposit(ds) && p.amount == PoolBalance(s.ledger, LiquidityPool(id))
    modifies s`ledger, s`points, p
    ensures match Dex.Distribute(Book(old(s.ledger), Reserves(x, y), old(p.State())), id, ds, totalDL, local)
            case Ok(b) => r == Ok(b.r) && s.ledger == b.ledger && s.PointsOf(id) == b.shares
            case Err(e) => r == Err(e)
    ensures forall j | j != id :: s.PointsOf(j) == old(s.PointsOf(j))
  {
    var out := DistributePoints(s, p, id, ds, x, totalDL, totalDeposit, local);
    if out.Err? { return Err(out.error); }
    var (x', distributed) := out.value;
    var dust := p.AddPoints(DEAD, WrapSub(totalDL, distributed));
    if dust.Err? { return Err(dust.error); }
    SetPoolObject(s, id, p);
    return Ok(Reserves(x', y));
  }

  /** Seed an empty pool at the dead address and size the new points from the growth of the square root. */
  method PlanPoints(p: Pool, x: nat, y: nat, totalDeposit: nat) returns (r: Result<nat>)
    modifies p`points, p`totalPoolPoints
    ensures match Plan(Reserves(x, y), old(p.State()), totalDeposit)
            case Ok((seeded, totalDL)) => r == Ok(totalDL) && p.State() == seeded
            case Err(e) => r == Err(e)
  {
    var L := p.totalPoolPoints;
    var oldK := SqrtProduct(x, y);
    if L == 0 {
      L := oldK;
      var seeded := p.AddPoints(DEAD, L);
      if seeded.Err? { return Err(seeded.error); }
    }
    if oldK == 0 { return Err(InvalidLiquidityPool); }
    if x + totalDeposit > MAX { return Err(InvalidLiquidityPool); }
    var newK := SqrtProduct(x + totalDeposit, y);
    SqrtMono(x, x + totalDeposit, y);
    return Ok(MulDiv(L, newK - oldK, oldK));
  }

  method HandleBatchDeposit(s: StateMachine, id: ChainId, ds: seq<Deposit>, x: nat, y: nat, local: bool)
    returns (r: Result<Reserves>)
    modifies s`ledger, s`points
    ensures match HandleDeposit(Book(old(s.ledger), Reserves(x, y), old(s.PointsOf(id))), id, ds, local)
            case Ok(b) => r == Ok(b.r) && s.ledger == b.ledger && s.PointsOf(id) == b.shares
            case Err(e) => r == Err(e)
    ensures forall j | j != id :: s.PointsOf(j) == old(s.PointsOf(j))
  {
    if ds == [] { return Ok(Reserves(x, y)); }
    var p := new Pool(PoolBalance(s.ledger, LiquidityPool(id)), s.PointsOf(id));
    var total := SumDeposits(ds);
    if total.None? { return Err(InvalidLiquidityPool); }
    if total.value == 0 || x == 0 || y == 0 { return Ok(Reserves(x, y)); }
    var planned := PlanPoints(p, x, y, total.value);
    if planned.Err? { return Err(planned.error); }
    r := SettlePoints(s, p, id, ds, x, y, planned.value, total.value, local);
  }

  method HandleBatchSettle(s: StateMachine, id: ChainId, batch: Batch, x: nat, y: nat, local: bool) returns (r: Result<Reserves>)
    modifies s`ledger, s`points
    ensures match HandleSettle(Book(old(s.ledger), Reserves(x, y), old(s.PointsOf(id))), id, batch, local)
            case Ok(b) => r == Ok(b.r) && s.ledger == b.ledger && s.PointsOf(id) == b.shares
            case Err(e) => r == Err(e)
    ensures forall j | j != id :: s.PointsOf(j) == old(s.PointsOf(j))
  {
    r := HandleBatchWithdraw(s, id, batch.withdrawals, x, y, local);
    if r.Ok? {
      r := HandleBatchDeposit(s, id, batch.deposits, r.value.x, r.value.y, local);
    }
  }

  // ---- A trigger ---------------------------------------------------------

  datatype Receipted = Unanswered | Advanced(shadow: nat)

  /** HandleReceiptsForOurLockedBatch: waiting, or the advanced shadow of the counter chain's pool. */
  method HandleReceiptsForOurLockedBatch(s: StateMachine, id: ChainId, remote: Batch) returns (r: Result<Receipted>)
    modifies s`ledger, s`points, s`locked
    ensures var st := old(s.StoreOf(id));
            if Waiting(View(st, id), remote) then r == Ok(Unanswered) && s.StoreOf(id) == st
            else match HandleOwn(st, id, remote)
                 case Ok((st', shadow)) => r == Ok(Advanced(shadow)) && s.StoreOf(id) == st'
                 case Err(e) => r == Err(e)
    ensures forall j | j != id :: s.PointsOf(j) == old(s.PointsOf(j)) && s.LockedBatch(j) == old(s.LockedBatch(j))
  {
    if id !in s.locked { return Ok(Advanced(remote.poolSize)); }
    var own := s.locked[id];
    if remote.receiptHash != HashBatch(own) || |own.orders| != |remote.receipts| { return Ok(Unanswered); }
    var pool := PoolBalance(s.ledger, LiquidityPool(id));
    var reserves := HandleOrderReceipts(s, id, own.orders, remote.receipts, pool, remote.poolSize);
    if reserves.Err? { return Err(reserves.error); }
    reserves := HandleBatchSettle(s, id, own, reserves.value.x, reserves.value.y, true);
    if reserves.Err? { return Err(reserves.error); }
    s.locked := s.locked - {id};
    return Ok(Advanced(reserves.value.y));
  }

  method HandleRemoteChainLockedBatch(s: StateMachine, id: ChainId, remote: Batch, shadow: nat, perm: seq<nat>)
    returns (r: Result<seq<nat>>)
    requires IsPermutation(perm, |remote.orders|)
    modifies s`ledger, s`points
    ensures match HandleTheirs(old(s.StoreOf(id)), id, remote, shadow, perm)
            case Ok((st, receipts)) => r == Ok(receipts) && s.StoreOf(id) == st
            case Err(e) => r == Err(e)
    ensures forall j | j != id :: s.PointsOf(j) == old(s.PointsOf(j))
  {
    var executed := HandleDexBatchOrders(s, id, remote.orders, perm, shadow, PoolBalance(s.ledger, LiquidityPool(id)));
    if executed.Err? { return Err(executed.error); }
    var out := executed.value;
    var settled := HandleBatchSettle(s, id, remote, out.r.x, out.r.y, false);
    if settled.Err? { return Err(settled.error); }
    return Ok(out.receipts);
  }

  method RotateDexBatches(s: StateMachine, id: ChainId, hash: Hash, poolSize: nat, receipts: seq<nat>)
    modifies s`locked, s`next
    ensures s.StoreOf(id) == RotateStore(old(s.StoreOf(id)), id, hash, poolSize, receipts)
    ensures forall j | j != id :: s.LockedBatch(j) == old(s.LockedBatch(j)) && s.NextBatch(j) == old(s.NextBatch(j))
  {
    if id in s.locked { return; }
    var b := s.GetDexBatch(id, false);
    b := b.(poolSize := poolSize, receiptHash := hash, lockedHeight := s.height);
    if |receipts| != 0 {
      b := b.(receipts := receipts);
    }
    s.next := s.next - {id};
    s.locked := s.locked[id := b];
  }

  /** HandleDexBatch and HandleRemoteDexBatch: one step of the pipeline on the stored state. On an error the
      caller discards the transaction, so nothing is promised about the state then. */
  method HandleDexBatch(s: StateMachine, id: ChainId, remote: Batch, perm: seq<nat>) returns (r: Result<()>)
    requires IsPermutation(perm, |remote.orders|)
    modifies s`ledger, s`points, s`locked, s`next
    ensures match HandleRemote(old(s.StoreOf(id)), id, remote, perm)
            case Ok(st) => r == Ok(()) && s.StoreOf(id) == st
            case Err(e) => r == Err(e)
    ensures forall j | j != id :: s.PointsOf(j) == old(s.PointsOf(j)) &&
                                  s.LockedBatch(j) == old(s.LockedBatch(j)) && s.NextBatch(j) == old(s.NextBatch(j))
  {
    var midpoint := PoolBalance(s.ledger, LiquidityPool(id));
    if midpoint == 0 { return Ok(()); }
    var receipts := [];
    if !IsEmpty(remote) {
      var own := HandleReceiptsForOurLockedBatch(s, id, remote);
      if own.Err? { return Err(own.error); }
      if own.value.Unanswered? { return Ok(()); }
      midpoint := PoolBalance(s.ledger, LiquidityPool(id));
      var theirs := HandleRemoteChainLockedBatch(s, id, remote, own.value.shadow, perm);
      if theirs.Err? { return Err(theirs.error); }
      receipts := theirs.value;
    }
    RotateDexBatches(s, id, HashBatch(remote), midpoint, receipts);
    return Ok(());
  }

  method HandleLivenessFallback(s: StateMachine, id: ChainId, pts: Shares) returns (r: Result<()>)
    modifies s`ledger, s`points, s`locked
    ensures match Fallback(old(s.StoreOf(id)), id, pts)
            case Ok(st) => r == Ok(()) && s.StoreOf(id) == st
            case Err(e) => r == Err(e)
    ensures forall j | j != id :: s.PointsOf(j) == old(s.PointsOf(j)) && s.LockedBatch(j) == old(s.LockedBatch(j))
  {
    var own := Stored(s.LockedBatch(id), 0);
    for k := 0 to |own.orders|
      invariant RefundOrders(old(s.ledger), id, own.orders, 0) == RefundOrders(s.ledger, id, own.orders, k)
      invariant s.points == old(s.points) && s.locked == old(s.locked)
    {
      var step := Refund(s, id, own.orders[k].addr, own.orders[k].amount);
      if step.Err? { return step; }
    }
    ghost var mid := s.ledger;
    for k := 0 to |own.deposits|
      invariant RefundDeposits(mid, id, own.deposits, 0) == RefundDeposits(s.ledger, id, own.deposits, k)
      invariant s.points == old(s.points) && s.locked == old(s.locked)
    {
      var step := Refund(s, id, own.deposits[k].addr, own.deposits[k].amount);
      if step.Err? { return step; }
    }
    s.points := s.points[id := pts];
    s.locked := s.locked - {id};
    return Ok(());
  }

  method Refund(s: StateMachine, id: ChainId, a: Address, n: nat) returns (r: Result<()>)
    modifies s`ledger
    ensures match RefundOne(old(s.ledger), id, a, n)
            case Ok(l) => r == Ok(()) && s.ledger == l
            case Err(e) => r == Err(e)
  {
    r := s.PoolSub(HoldingPool(id), n);
    if r.Ok? {
      r := s.AccountAdd(a, n);
    }
  }

  // ---- Users and block ends ----------------------------------------------

  method HandleMessageDexLimitOrder(s: StateMachine, id: ChainId, o: Order, vesting: nat) returns (r: Result<()>)
    modifies s`ledger, s`next
    ensures match SubmitOp(old(s.StoreOf(id)), id, s.chainId, Sell(o), vesting)
            case Ok(st) => r == Ok(()) && s.StoreOf(id) == st
            case Err(e) => r == Err(e)
    ensures forall j | j != id :: s.NextBatch(j) == old(s.NextBatch(j))
  {
    var b := s.GetDexBatch(id, false);
    if b.poolSize == 0 || s.chainId == id { return Err(InvalidLiquidityPool); }
    if |b.orders| >= MAX_ORDERS { return Err(MaxDexBatchSize); }
    r := s.AccountSub(o.addr, o.amount, vesting);
    if r.Err? { return; }
    s.PoolAdd(HoldingPool(id), o.amount);
    s.next := s.next[id := b.(orders := b.orders + [o])];
  }

  method HandleMessageDexLiquidityDeposit(s: StateMachine, id: ChainId, d: Deposit, vesting: nat) returns (r: Result<()>)
    modifies s`ledger, s`next
    ensures match SubmitOp(old(s.StoreOf(id)), id, s.chainId, Provide(d), vesting)
            case Ok(st) => r == Ok(()) && s.StoreOf(id) == st
            case Err(e) => r == Err(e)
    ensures forall j | j != id :: s.NextBatch(j) == old(s.NextBatch(j))
  {
    var b := s.GetDexBatch(id, false);
    var holders := |s.PointsOf(id).holders|;
    if PoolBalance(s.ledger, LiquidityPool(id)) == 0 || s.chainId == id || holders >= MAX_LIQUIDITY_PROVIDERS {
      return Err(InvalidLiquidityPool);
    }
    if |b.deposits| >= MAX_DEPOSITS { return Err(MaxDexBatchSize); }
    r := s.AccountSub(d.addr, d.amount, vesting);
    if r.Err? { return; }
    s.PoolAdd(HoldingPool(id), d.amount);
    s.next := s.next[id := b.(deposits := b.deposits + [d])];
  }

  method HandleMessageDexLiquidityWithdraw(s: StateMachine, id: ChainId, w: Withdrawal) returns (r: Result<()>)
    modifies s`next
    ensures match SubmitOp(old(s.StoreOf(id)), id, s.chainId, Redeem(w), 0)
            case Ok(st) => r == Ok(()) && s.StoreOf(id) == st
            case Err(e) => r == Err(e)
    ensures forall j | j != id :: s.NextBatch(j) == old(s.NextBatch(j))
  {
    var b := s.GetDexBatch(id, false);
    if b.poolSize == 0 || s.chainId == id { return Err(InvalidLiquidityPool); }
    if |b.withdrawals| >= MAX_WITHDRAWALS { return Err(MaxDexBatchSize); }
    var p := new Pool(0, s.PointsOf(id));
    var held := p.GetPointsFor(w.addr);
    if held.None? { return Err(PointHolderNotFound); }
    s.next := s.next[id := b.(withdrawals := b.withdrawals + [w])];
    return Ok(());
  }

  /** IncludeSameBlockDex for one locked batch. */
  method IncludeOne(s: StateMachine, id: ChainId)
    requires id in s.locked
    modifies s`locked, s`next
    ensures var c := IncludeSameBlock(View(old(s.StoreOf(id)), id));
            s.LockedBatch(id) == c.locked && s.NextBatch(id) == c.next
    ensures s.locked.Keys == old(s.locked.Keys)
    ensures forall j | j != id :: s.LockedBatch(j) == old(s.LockedBatch(j)) && s.NextBatch(j) == old(s.NextBatch(j))
  {
    var l := s.locked[id];
    if l.lockedHeight != s.height { return; }
    var n := s.GetDexBatch(id, false);
    var o := CanMove(|l.orders|, |n.orders|, MAX_ORDERS);
    var d := CanMove(|l.deposits|, |n.deposits|, MAX_DEPOSITS);
    var w := CanMove(|l.withdrawals|, |n.withdrawals|, MAX_WITHDRAWALS);
    if o == 0 && d == 0 && w == 0 { return; }
    s.locked := s.locked[id := l.(orders := l.orders + n.orders[..o], deposits := l.deposits + n.deposits[..d],
                                  withdrawals := l.withdrawals + n.withdrawals[..w])];
    n := n.(orders := n.orders[o..], deposits := n.deposits[d..], withdrawals := n.withdrawals[w..]);
    if n.orders == [] && n.deposits == [] && n.withdrawals == [] {
      s.next := s.next - {id};
    } else {
      s.next := s.next[id := n];
    }
  }

  /** IncludeSameBlockDex: every counter chain's locked batch once, in whatever order they are stored. */
  method IncludeSameBlockDex(s: StateMachine)
    modifies s`locked, s`next
    ensures forall id :: var c := IncludeSameBlock(View(old(s.StoreOf(id)), id));
                         s.LockedBatch(id) == c.locked && s.NextBatch(id) == c.next
  {
    var rest := s.locked.Keys;
    while rest != {}
      invariant rest <= s.locked.Keys == old(s.locked.Keys)
      invariant forall id | id in rest :: s.LockedBatch(id) == old(s.LockedBatch(id)) && s.NextBatch(id) == old(s.NextBatch(id))
      invariant forall id | id !in rest :: var c := IncludeSameBlock(View(old(s.StoreOf(id)), id));
                                           s.LockedBatch(id) == c.locked && s.NextBatch(id) == c.next
      decreases rest
    {
      var id :| id in rest;
      IncludeOne(s, id);
      rest := rest - {id};
    }
  }
}
