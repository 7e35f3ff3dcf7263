/** The ledger never stands in the way of the pipeline: with the escrow intact and all tokens within 64 bits
    a trigger succeeds on the ledger exactly when it succeeds on the reserves, keeps every token, and leaves
    the holding pool equal to what the batches still owe. */
module Escrow {
  import opened Lib
  import opened Sums
  import opened Points
  import opened Amm
  import opened Pipeline
  import opened Ledgers
  import opened Dex

  ghost predicate Bounded(l: Ledger) { Tokens(l) <= MAX }

  function Hold(l: Ledger, id: ChainId): nat { PoolBalance(l, HoldingPool(id)) }

  function Liq(l: Ledger, id: ChainId): nat { PoolBalance(l, LiquidityPool(id)) }

  /** No token created or lost, and nothing touched beyond accounts and the two pools of the chain. */
  ghost predicate Kept(l: Ledger, l': Ledger, id: ChainId) {
    && Tokens(l') == Tokens(l)
    && l'.stakes == l.stakes && l'.supply == l.supply
    && forall j | j != HoldingPool(id) && j != LiquidityPool(id) :: PoolBalance(l', j) == PoolBalance(l, j)
  }

  function Sales(orders: seq<Order>): nat {
    if orders == [] then 0 else orders[0].amount + Sales(orders[1..])
  }

  /** What the holding pool keeps for a batch. */
  function Owed(b: Batch): nat { Sales(b.orders) + TotalDeposit(b.deposits) }

  function OwedFor(b: Option<Batch>): nat { match b case Some(x) => Owed(x) case None => 0 }

  // ---- Receipts ----------------------------------------------------------

  lemma ReceiptOneLedger(b: Book, id: ChainId, o: Order, dY: nat)
    requires Bounded(b.ledger) && Liq(b.ledger, id) == b.r.x && Hold(b.ledger, id) >= o.amount
    ensures ReceiptOne(b, id, o, dY).Ok? <==> dY == 0 || b.r.y > dY
    ensures !ReceiptOne(b, id, o, dY).Ok? ==> ReceiptOne(b, id, o, dY) == Err(RemotePoolSizeDebit)
    ensures ReceiptOne(b, id, o, dY).Ok? ==>
              var b' := ReceiptOne(b, id, o, dY).value;
              && Kept(b.ledger, b'.ledger, id) && Liq(b'.ledger, id) == b'.r.x
              && Hold(b'.ledger, id) == Hold(b.ledger, id) - o.amount
              && b'.shares == b.shares
              && b'.r == if dY == 0 then b.r else Reserves((b.r.x + o.amount) % U64, b.r.y - dY)
  {
    PoolSubTokens(b.ledger, HoldingPool(id), o.amount);
    var l := PoolSub(b.ledger, HoldingPool(id), o.amount).value;
    if dY == 0 {
      AccountAddTokens(l, o.addr, o.amount);
    } else {
      SetPoolTokens(l, LiquidityPool(id), 0);
      PoolAddTokens(l, LiquidityPool(id), o.amount);
    }
  }

  lemma {:induction false} ReceiptsLedger(b: Book, id: ChainId, orders: seq<Order>, receipts: seq<nat>, k: nat)
    requires |orders| == |receipts| && k <= |orders|
    requires Bounded(b.ledger) && Liq(b.ledger, id) == b.r.x && Hold(b.ledger, id) >= Sales(orders[k..])
    ensures var out, spec := ReceiptsFrom(b, id, orders, receipts, k), ApplyFrom(b.r, orders, receipts, k);
            && (out.Ok? <==> spec.Ok?)
            && (out.Ok? ==>
                  && out.value.r == spec.value && out.value.shares == b.shares
                  && Kept(b.ledger, out.value.ledger, id) && Liq(out.value.ledger, id) == out.value.r.x
                  && Hold(out.value.ledger, id) == Hold(b.ledger, id) - Sales(orders[k..]))
    decreases |orders| - k
  {
    if k < |orders| {
      assert orders[k..][1..] == orders[k + 1..];
      ReceiptOneLedger(b, id, orders[k], receipts[k]);
      if ReceiptOne(b, id, orders[k], receipts[k]).Ok? {
        ReceiptsLedger(ReceiptOne(b, id, orders[k], receipts[k]).value, id, orders, receipts, k + 1);
      }
    }
  }

  // ---- Orders ------------------------------------------------------------

  lemma PayOrderLedger(l: Ledger, id: ChainId, o: Order, out: nat)
    requires Bounded(l) && Liq(l, id) >= out
    ensures var l' := PayOrder(l, id, o, out);
            && l'.Ok? && Kept(l, l'.value, id)
            && Liq(l'.value, id) == Liq(l, id) - out && Hold(l'.value, id) == Hold(l, id)
  {
    if out != 0 {
      PoolSubTokens(l, LiquidityPool(id), out);
      AccountAddTokens(PoolSub(l, LiquidityPool(id), out).value, o.addr, out);
    }
  }

  lemma {:induction false} PayOrdersLedger(l: Ledger, id: ChainId, orders: seq<Order>, receipts: seq<nat>, k: nat)
    requires |orders| == |receipts| && k <= |orders|
    requires Bounded(l) && Liq(l, id) >= PaidOut(receipts[k..])
    ensures var out := PayOrdersFrom(l, id, orders, receipts, k);
            && out.Ok? && Kept(l, out.value, id)
            && Liq(out.value, id) == Liq(l, id) - PaidOut(receipts[k..]) && Hold(out.value, id) == Hold(l, id)
    decreases |orders| - k
  {
    if k < |orders| {
      assert receipts[k..][1..] == receipts[k + 1..];
      PayOrderLedger(l, id, orders[k], receipts[k]);
      PayOrdersLedger(PayOrder(l, id, orders[k], receipts[k]).value, id, orders, receipts, k + 1);
    }
  }

  /** The stored liquidity pool falls by exactly the receipts, as the reserve does. */
  lemma OrdersLedger(b: Book, id: ChainId, orders: seq<Order>, perm: seq<nat>)
    requires IsPermutation(perm, |orders|) && b.r.x <= MAX
    requires Bounded(b.ledger) && Liq(b.ledger, id) == b.r.y
    ensures var out, spec := HandleOrders(b, id, orders, perm), Exec(b.r, orders, perm);
            && (out.Ok? <==> spec.Ok?)
            && (out.Ok? ==>
                  && out.value.0.r == spec.value.r && out.value.1 == spec.value.receipts && out.value.0.shares == b.shares
                  && Kept(b.ledger, out.value.0.ledger, id) && Liq(out.value.0.ledger, id) == out.value.0.r.y
                  && Hold(out.value.0.ledger, id) == Hold(b.ledger, id))
  {
    if Exec(b.r, orders, perm).Ok? {
      ExecSound(b.r, orders, perm);
      var receipts := Exec(b.r, orders, perm).value.receipts;
      assert receipts[0..] == receipts;
      PayOrdersLedger(b.ledger, id, orders, receipts, 0);
    }
  }

  // ---- Withdrawals -------------------------------------------------------

  /** Paid so far on the side that pays here. */
  function Paid(p: Payouts, local: bool): nat { if local then SumX(p.payments) else SumY(p.payments) }

  /** Accounts have been credited ahead of the pool's debit, within the pool. */
  ghost predicate Drawing(l: Ledger, l': Ledger, p: Payouts, local: bool) {
    && Tokens(l') == Tokens(l) + Paid(p, local)
    && l'.pools == l.pools && l'.stakes == l.stakes && l'.supply == l.supply
  }

  /** A credit on top of others fits because the account and the pool that will be debited fit together. */
  lemma CreditFits(l: Ledger, l': Ledger, id: ChainId, a: Address, paid: nat, n: nat)
    requires Bounded(l) && l'.pools == l.pools && l'.stakes == l.stakes && Tokens(l') == Tokens(l) + paid
    requires paid + n <= Liq(l, id)
    ensures AccountAdd(l', a, n).Ok?
    ensures Tokens(AccountAdd(l', a, n).value) == Tokens(l) + paid + n
    ensures AccountAdd(l', a, n).value.pools == l.pools
    ensures AccountAdd(l', a, n).value.stakes == l.stakes && AccountAdd(l', a, n).value.supply == l'.supply
  {
    SumPut(l.pools, LiquidityPool(id), 0);
    SumPut(l'.accounts, a, 0);
    AccountAddTokens(l', a, n);
  }

  lemma DrawOneLedger(l: Ledger, l': Ledger, id: ChainId, s: Shares, p: Payouts, w: Withdrawal,
                      totalX: nat, totalY: nat, claims: nat, reserve: nat, local: bool)
    requires Bounded(l) && Drawing(l, l', p, local) && reserve == Liq(l, id) && w.percent <= 100
    requires claims > 0 && Paying(s, p, totalX, totalY, claims)
    requires (if local then totalX else totalY) * s.total <= reserve * claims
    ensures var out, spec := DrawOne(l', p, w, totalX, totalY, claims, local), PayOne(p, w, totalX, totalY, claims);
            && (out.Ok? <==> spec.Ok?)
            && (out.Ok? ==> out.value.1 == spec.value && Drawing(l, out.value.0, spec.value, local)
                            && Paying(s, spec.value, totalX, totalY, claims))
  {
    if PayOne(p, w, totalX, totalY, claims).Ok? {
      PayOnePays(s, p, w, totalX, totalY, claims);
      var p' := PayOne(p, w, totalX, totalY, claims).value;
      if PointsFor(p.shares, w.addr).Some? {
        var n := Payout(p'.payments[|p'.payments| - 1], local);
        assert p'.payments[..|p'.payments| - 1] == p.payments;
        PaymentsWithinReserve(reserve, if local then totalX else totalY, claims, s.total, Burned(p'.payments), Paid(p', local));
        CreditFits(l, l', id, w.addr, Paid(p, local), n);
      }
    }
  }

  lemma {:induction false} DrawFromLedger(l: Ledger, l': Ledger, id: ChainId, s: Shares, p: Payouts, ws: seq<Withdrawal>, k: nat,
                                          totalX: nat, totalY: nat, claims: nat, local: bool)
    requires k <= |ws| && Percents(ws)
    requires Bounded(l) && Drawing(l, l', p, local)
    requires claims > 0 && Paying(s, p, totalX, totalY, claims)
    requires (if local then totalX else totalY) * s.total <= Liq(l, id) * claims
    ensures var out, spec := DrawFrom(l', p, ws, k, totalX, totalY, claims, local), PayFrom(p, ws, k, totalX, totalY, claims);
            && (out.Ok? <==> spec.Ok?)
            && (out.Ok? ==> out.value.1 == spec.value && Drawing(l, out.value.0, spec.value, local))
    decreases |ws| - k
  {
    if k < |ws| {
      DrawOneLedger(l, l', id, s, p, ws[k], totalX, totalY, claims, Liq(l, id), local);
      if PayOne(p, ws[k], totalX, totalY, claims).Ok? {
        var (l1, p1) := DrawOne(l', p, ws[k], totalX, totalY, claims, local).value;
        DrawFromLedger(l, l1, id, s, p1, ws, k + 1, totalX, totalY, claims, local);
      }
    }
  }

  /** The reserve that is this chain's own liquidity pool. */
  function Local(r: Reserves, local: bool): nat { if local then r.x else r.y }

  lemma WithdrawLedger(b: Book, id: ChainId, ws: seq<Withdrawal>, local: bool)
    requires Bounded(b.ledger) && Liq(b.ledger, id) == Local(b.r, local)
    requires Sound(b.shares) && Percents(ws) && b.r.x <= MAX && b.r.y <= MAX
    ensures var out, spec := HandleWithdraw(b, id, ws, local), Withdraw(b.r, b.shares, ws);
            && (out.Ok? <==> spec.Ok?)
            && (out.Ok? ==>
                  && out.value.r == spec.value.r && out.value.shares == spec.value.shares
                  && Kept(b.ledger, out.value.ledger, id) && Liq(out.value.ledger, id) == Local(out.value.r, local)
                  && Hold(out.value.ledger, id) == Hold(b.ledger, id))
  {
    var claims := Claims(b.shares, ws);
    if ws != [] && 0 < claims <= MAX && b.shares.total > 0 {
      var totalX, totalY := MulDiv(b.r.x, claims, b.shares.total), MulDiv(b.r.y, claims, b.shares.total);
      MulDivBound(b.r.x, claims, b.shares.total);
      MulDivBound(b.r.y, claims, b.shares.total);
      DrawFromLedger(b.ledger, b.ledger, id, b.shares, Payouts(b.shares, []), ws, 0, totalX, totalY, claims, local);
      if Withdraw(b.r, b.shares, ws).Ok? {
        WithdrawSolvent(b.r, b.shares, ws);
        var (l, p) := DrawFrom(b.ledger, Payouts(b.shares, []), ws, 0, totalX, totalY, claims, local).value;
        SetPoolTokens(l, LiquidityPool(id), Local(Withdraw(b.r, b.shares, ws).value.r, local));
      }
    }
  }

  // ---- Deposits ----------------------------------------------------------

  /** Deposits taken out of the holding pool ahead of the liquidity pool's credit. */
  ghost predicate Taking(l: Ledger, m: Minted, id: ChainId, moved: nat) {
    && Tokens(m.ledger) + moved == Tokens(l)
    && Hold(m.ledger, id) + moved == Hold(l, id)
    && m.amount == Liq(l, id) + moved
    && (forall j | j != HoldingPool(id) :: PoolBalance(m.ledger, j) == PoolBalance(l, j))
    && m.ledger.stakes == l.stakes && m.ledger.supply == l.supply
  }

  lemma {:induction false} DepositFromLedger(l: Ledger, m: Minted, id: ChainId, ds: seq<Deposit>, k: nat,
                                             totalDL: nat, totalDeposit: nat, local: bool, moved: nat)
    requires k <= |ds|
    requires Bounded(l) && Taking(l, m, id, moved)
    requires local ==> Hold(m.ledger, id) >= TotalDeposit(ds[k..])
    ensures var out, spec := DepositFrom(m, id, ds, k, totalDL, totalDeposit, local), MintFrom(m.d, ds, k, totalDL, totalDeposit);
            && (out.Ok? <==> spec.Ok?)
            && (out.Ok? ==> out.value.d == spec.value
                            && Taking(l, out.value, id, moved + if local then TotalDeposit(ds[k..]) else 0))
    decreases |ds| - k
  {
    if k < |ds| {
      assert ds[k..][1..] == ds[k + 1..];
      if MintOne(m.d, ds[k], totalDL, totalDeposit).Ok? {
        if local {
          PoolSubTokens(m.ledger, HoldingPool(id), ds[k].amount);
          var l1 := PoolSub(m.ledger, HoldingPool(id), ds[k].amount).value;
          TakingFits(l, m, id, moved, ds[k].amount);
          var m' := DepositOne(m, id, ds[k], totalDL, totalDeposit, local).value;
          assert Taking(l, m', id, moved + ds[k].amount);
          DepositFromLedger(l, m', id, ds, k + 1, totalDL, totalDeposit, local, moved + ds[k].amount);
        } else {
          var m' := DepositOne(m, id, ds[k], totalDL, totalDeposit, local).value;
          DepositFromLedger(l, m', id, ds, k + 1, totalDL, totalDeposit, local, moved);
        }
      }
    }
  }

  lemma TakingFits(l: Ledger, m: Minted, id: ChainId, moved: nat, n: nat)
    requires Bounded(l) && Taking(l, m, id, moved) && n <= Hold(m.ledger, id)
    ensures m.amount + n <= MAX
  {
    SumAtLeastTwo(l.pools, HoldingPool(id), LiquidityPool(id));
  }

  lemma {:induction false} DepositLedger(b: Book, id: ChainId, ds: seq<Deposit>, local: bool)
    requires Bounded(b.ledger) && Liq(b.ledger, id) == Local(b.r, local)
    requires Sound(b.shares) && b.r.x <= MAX
    requires local ==> Hold(b.ledger, id) >= TotalDeposit(ds)
    ensures var out, spec := HandleDeposit(b, id, ds, local), DepositAll(b.r, b.shares, ds);
            && (out.Ok? <==> spec.Ok?)
            && (out.Ok? ==>
                  && out.value.r == spec.value.0 && out.value.shares == spec.value.1
                  && Kept(b.ledger, out.value.ledger, id) && Liq(out.value.ledger, id) == Local(out.value.r, local)
                  && Hold(out.value.ledger, id)
                     == Hold(b.ledger, id) - (if local && !NoDeposit(b.r, ds) then TotalDeposit(ds) else 0))
  {
    var D := TotalDeposit(ds);
    if D <= MAX && !NoDeposit(b.r, ds) && Seeded(b.r, b.shares).Ok? {
      var totalDL := Growth(b.r, b.shares, D);
      var start := Minted(b.ledger, Liq(b.ledger, id), Deposited(b.r.x, Seeded(b.r, b.shares).value, 0));
      assert ds[0..] == ds;
      DepositFromLedger(b.ledger, start, id, ds, 0, totalDL, D, local, 0);
      if DepositAll(b.r, b.shares, ds).Ok? {
        DepositFair(b.r, b.shares, ds);
        var m := DepositFrom(start, id, ds, 0, totalDL, D, local).value;
        SetPoolTokens(m.ledger, LiquidityPool(id), m.amount);
      }
    }
  }

  // ---- A whole trigger ---------------------------------------------------

  /** What a handler is given agrees with the ledger: the local reserve is the stored liquidity pool. */
  ghost predicate Ready(b: Book, id: ChainId, local: bool) {
    Bounded(b.ledger) && Liq(b.ledger, id) == Local(b.r, local) && Sound(b.shares) && b.r.x <= MAX && b.r.y <= MAX
  }

  lemma SettleLedger(b: Book, id: ChainId, batch: Batch, local: bool)
    requires Ready(b, id, local) && Percents(batch.withdrawals) && b.r.x > 0
    requires local ==> Hold(b.ledger, id) >= TotalDeposit(batch.deposits)
    ensures var out, spec := HandleSettle(b, id, batch, local), Settle(b.r, b.shares, batch);
            && (out.Ok? <==> spec.Ok?)
            && (out.Ok? ==>
                  && out.value.r == spec.value.r && out.value.shares == spec.value.shares
                  && Kept(b.ledger, out.value.ledger, id) && Ready(out.value, id, local)
                  && out.value.r.x > 0
                  && (b.r.y > 0 <==> out.value.r.y > 0)
                  && Hold(out.value.ledger, id)
                     == Hold(b.ledger, id) - (if local && b.r.y > 0 then TotalDeposit(batch.deposits) else 0))
  {
    WithdrawLedger(b, id, batch.withdrawals, local);
    if Withdraw(b.r, b.shares, batch.withdrawals).Ok? {
      WithdrawSolvent(b.r, b.shares, batch.withdrawals);
      var b1 := HandleWithdraw(b, id, batch.withdrawals, local).value;
      DepositLedger(b1, id, batch.deposits, local);
      if DepositAll(b1.r, b1.shares, batch.deposits).Ok? {
        DepositFair(b1.r, b1.shares, batch.deposits);
        if batch.deposits == [] { assert TotalDeposit(batch.deposits) == 0; }
      }
    }
  }

  lemma {:induction false} ApplyKeepsPositive(r: Reserves, orders: seq<Order>, receipts: seq<nat>, k: nat)
    requires |orders| == |receipts| && k <= |orders| && ApplyFrom(r, orders, receipts, k).Ok?
    ensures var r' := ApplyFrom(r, orders, receipts, k).value;
            (r.y > 0 <==> r'.y > 0) && r'.y <= r.y && (r.x <= MAX ==> r'.x <= MAX)
    decreases |orders| - k
  {
    if k < |orders| {
      if receipts[k] == 0 {
        ApplyKeepsPositive(r, orders, receipts, k + 1);
      } else {
        ApplyKeepsPositive(Reserves((r.x + orders[k].amount) % U64, r.y - receipts[k]), orders, receipts, k + 1);
      }
    }
  }

  /** The receipts of sold orders only add to the local pool. */
  lemma {:induction false} ReceiptsAdd(b: Book, id: ChainId, orders: seq<Order>, receipts: seq<nat>, k: nat)
    requires |orders| == |receipts| && k <= |orders|
    requires Bounded(b.ledger) && Liq(b.ledger, id) == b.r.x && Hold(b.ledger, id) >= Sales(orders[k..])
    requires ReceiptsFrom(b, id, orders, receipts, k).Ok?
    ensures ReceiptsFrom(b, id, orders, receipts, k).value.r.x >= b.r.x
    decreases |orders| - k
  {
    if k < |orders| {
      assert orders[k..][1..] == orders[k + 1..];
      ReceiptOneLedger(b, id, orders[k], receipts[k]);
      SumAtLeastTwo(b.ledger.pools, HoldingPool(id), LiquidityPool(id));
      ReceiptsAdd(ReceiptOne(b, id, orders[k], receipts[k]).value, id, orders, receipts, k + 1);
    }
  }

  predicate FairPercents(b: Option<Batch>) { b.Some? ==> Percents(b.value.withdrawals) }

  /** The holding pool equals the orders and deposits of the next and the locked batch. */
  predicate EscrowHolds(s: Store, id: ChainId) {
    Hold(s.ledger, id) == OwedFor(s.locked) + OwedFor(s.next)
  }

  ghost predicate Safe(s: Store, id: ChainId) {
    && Bounded(s.ledger) && Sound(s.shares)
    && FairPercents(s.locked) && FairPercents(s.next)
    && EscrowHolds(s, id)
  }

  lemma PoolWithinTokens(l: Ledger, id: PoolId)
    ensures PoolBalance(l, id) <= Tokens(l)
  {
    SumPut(l.pools, id, 0);
  }

  /** Settling our own batch: the ledger follows the reserves, and afterwards the holding pool owes just the
      next batch, unless the counter chain's reserve was reported empty: then our deposits stay behind. */
  lemma OwnLedger(s: Store, id: ChainId, remote: Batch)
    requires Safe(s, id) && Liq(s.ledger, id) > 0 && remote.poolSize <= MAX
    requires !Waiting(View(s, id), remote)
    ensures var out, spec := HandleOwn(s, id, remote), Advance(View(s, id), remote);
            && (out.Ok? <==> spec.Ok?)
            && (out.Ok? ==>
                  var (s', shadow) := out.value;
                  && View(s', id) == spec.value.0 && shadow == spec.value.1 <= MAX
                  && s'.locked.None? && s'.next == s.next && s'.height == s.height
                  && Kept(s.ledger, s'.ledger, id) && Sound(s'.shares) && Liq(s'.ledger, id) > 0
                  && (remote.poolSize > 0 <==> shadow > 0)
                  && Hold(s'.ledger, id) == OwedFor(s.next)
                       + (if s.locked.Some? && remote.poolSize == 0 then TotalDeposit(s.locked.value.deposits) else 0))
  {
    if s.locked.Some? {
      var own := s.locked.value;
      var b := Book(s.ledger, Reserves(Liq(s.ledger, id), remote.poolSize), s.shares);
      PoolWithinTokens(s.ledger, LiquidityPool(id));
      assert own.orders[0..] == own.orders && remote.receipts[0..] == remote.receipts;
      ReceiptsLedger(b, id, own.orders, remote.receipts, 0);
      var r1 := ReceiptsFrom(b, id, own.orders, remote.receipts, 0);
      if r1.Ok? {
        ApplyKeepsPositive(b.r, own.orders, remote.receipts, 0);
        ReceiptsAdd(b, id, own.orders, remote.receipts, 0);
        SettleLedger(r1.value, id, own, true);
      }
    }
  }

  lemma TheirsLedger(s: Store, id: ChainId, remote: Batch, shadow: nat, perm: seq<nat>)
    requires Bounded(s.ledger) && Sound(s.shares) && Percents(remote.withdrawals) && shadow <= MAX
    requires IsPermutation(perm, |remote.orders|)
    ensures var out := HandleTheirs(s, id, remote, shadow, perm);
            var spec := Execute(Reserves(shadow, Liq(s.ledger, id)), s.shares, remote, perm);
            && (out.Ok? <==> spec.Ok?)
            && (out.Ok? ==>
                  var (s', receipts) := out.value;
                  && Liq(s'.ledger, id) == spec.value.0.r.y > 0 && s'.shares == spec.value.0.shares && receipts == spec.value.1
                  && s'.locked == s.locked && s'.next == s.next && s'.height == s.height
                  && Kept(s.ledger, s'.ledger, id) && Sound(s'.shares)
                  && Hold(s'.ledger, id) == Hold(s.ledger, id))
  {
    var b := Book(s.ledger, Reserves(shadow, Liq(s.ledger, id)), s.shares);
    PoolWithinTokens(s.ledger, LiquidityPool(id));
    OrdersLedger(b, id, remote.orders, perm);
    if Exec(b.r, remote.orders, perm).Ok? {
      ExecSound(b.r, remote.orders, perm);
      SettleLedger(HandleOrders(b, id, remote.orders, perm).value.0, id, remote, false);
    }
  }

  lemma RotateOwes(s: Store, id: ChainId, hash: Hash, poolSize: nat, receipts: seq<nat>)
    ensures var s' := RotateStore(s, id, hash, poolSize, receipts);
            && s'.ledger == s.ledger && s'.shares == s.shares
            && OwedFor(s'.locked) + OwedFor(s'.next) == OwedFor(s.locked) + OwedFor(s.next)
            && View(s', id) == Rotate(View(s, id), hash, poolSize, receipts)
            && (FairPercents(s.locked) && FairPercents(s.next) ==> FairPercents(s'.locked) && FairPercents(s'.next))
  {}

  /** Refinement. On a safe store, a trigger succeeds exactly when the pipeline's trigger does; it then
      yields the pipeline's chain, keeps every token, touches nothing else, and leaves the store safe. In
      particular no batch ever fails for want of funds in the holding or the liquidity pool. A counter
      reserve reported as empty would strand our deposits, but such a batch cannot be executed at all. */
  lemma TriggerRefines(s: Store, id: ChainId, remote: Batch, perm: seq<nat>)
    requires Safe(s, id)
    requires Percents(remote.withdrawals) && remote.poolSize <= MAX && IsPermutation(perm, |remote.orders|)
    ensures var out, spec := HandleRemote(s, id, remote, perm), Trigger(View(s, id), remote, perm);
            && (out.Ok? <==> spec.Ok?)
            && (out.Ok? ==> View(out.value, id) == spec.value && Kept(s.ledger, out.value.ledger, id) && Safe(out.value, id))
  {
    if Liq(s.ledger, id) == 0 {
    } else if IsEmpty(remote) {
      RotateOwes(s, id, HashBatch(remote), Liq(s.ledger, id), []);
    } else if !Waiting(View(s, id), remote) {
      OwnLedger(s, id, remote);
      if HandleOwn(s, id, remote).Ok? {
        var (s1, shadow) := HandleOwn(s, id, remote).value;
        TheirsLedger(s1, id, remote, shadow, perm);
        if HandleTheirs(s1, id, remote, shadow, perm).Ok? {
          var (s2, receipts) := HandleTheirs(s1, id, remote, shadow, perm).value;
          RotateOwes(s2, id, HashBatch(remote), Liq(s1.ledger, id), receipts);
        }
      }
    }
  }

  // ---- Users, block ends and the liveness refund -------------------------

  lemma {:induction false} SalesConcat(a: seq<Order>, b: seq<Order>)
    ensures Sales(a + b) == Sales(a) + Sales(b)
  {
    if a == [] {
      assert a + b == b;
    } else {
      SalesConcat(a[1..], b);
      assert (a + b)[1..] == a[1..] + b;
    }
  }

  lemma {:induction false} DepositsConcat(a: seq<Deposit>, b: seq<Deposit>)
    ensures TotalDeposit(a + b) == TotalDeposit(a) + TotalDeposit(b)
  {
    if a == [] {
      assert a + b == b;
    } else {
      DepositsConcat(a[1..], b);
      assert (a + b)[1..] == a[1..] + b;
    }
  }

  /** A percentage between 1 and 100, as the message check demands. */
  predicate WellFormed(op: Op) { op.Redeem? ==> 1 <= op.withdrawal.percent <= 100 }

  lemma SubmitOwes(c: Chain, op: Op)
    requires Refusal(c, op).None? && WellFormed(op)
    ensures OwedFor(Submit(c, op).next) == OwedFor(c.next) + Escrowed(op)
    ensures FairPercents(c.next) ==> FairPercents(Submit(c, op).next)
    ensures Submit(c, op).locked == c.locked
  {
    var b := Stored(c.next, c.pool);
    match op
    case Sell(o) => SalesConcat(b.orders, [o]);
    case Provide(d) => DepositsConcat(b.deposits, [d]);
    case Redeem(_) =>
  }

  /** A submitted operation moves its tokens from the user into the holding pool and is owed in full. */
  lemma SubmitSafe(s: Store, id: ChainId, own: ChainId, op: Op, vesting: nat)
    requires Safe(s, id) && WellFormed(op) && SubmitOp(s, id, own, op, vesting).Ok?
    ensures var s' := SubmitOp(s, id, own, op, vesting).value;
            Safe(s', id) && Kept(s.ledger, s'.ledger, id) && Liq(s'.ledger, id) == Liq(s.ledger, id)
  {
    SubmitOwes(View(s, id), op);
    if !op.Redeem? {
      AccountSubTokens(s.ledger, User(op), Escrowed(op), vesting);
      PoolAddTokens(AccountSub(s.ledger, User(op), Escrowed(op), vesting).value, HoldingPool(id), Escrowed(op));
    }
  }

  /** Moving the first operations of one batch to the end of another changes neither what is owed nor the
      percentages asked for. */
  lemma MoveOwes(l: Batch, n: Batch, o: nat, d: nat)
    requires o <= |n.orders| && d <= |n.deposits|
    ensures Sales(l.orders + n.orders[..o]) + Sales(n.orders[o..]) == Sales(l.orders) + Sales(n.orders)
    ensures TotalDeposit(l.deposits + n.deposits[..d]) + TotalDeposit(n.deposits[d..])
         == TotalDeposit(l.deposits) + TotalDeposit(n.deposits)
  {
    SalesConcat(l.orders, n.orders[..o]);
    SalesConcat(n.orders[..o], n.orders[o..]);
    assert n.orders[..o] + n.orders[o..] == n.orders;
    DepositsConcat(l.deposits, n.deposits[..d]);
    DepositsConcat(n.deposits[..d], n.deposits[d..]);
    assert n.deposits[..d] + n.deposits[d..] == n.deposits;
  }

  lemma IncludeOwes(c: Chain)
    ensures OwedFor(IncludeSameBlock(c).locked) + OwedFor(IncludeSameBlock(c).next) == OwedFor(c.locked) + OwedFor(c.next)
  {
    if c.locked.Some? {
      var l, n := c.locked.value, Stored(c.next, c.pool);
      MoveOwes(l, n, CanMove(|l.orders|, |n.orders|, MAX_ORDERS), CanMove(|l.deposits|, |n.deposits|, MAX_DEPOSITS));
    }
  }

  lemma IncludeKeepsPercents(c: Chain)
    requires FairPercents(c.locked) && FairPercents(c.next)
    ensures FairPercents(IncludeSameBlock(c).locked) && FairPercents(IncludeSameBlock(c).next)
  {}

  lemma RefundOneLedger(l: Ledger, id: ChainId, a: Address, n: nat)
    requires Bounded(l) && Hold(l, id) >= n
    ensures var out := RefundOne(l, id, a, n);
            && out.Ok? && Kept(l, out.value, id)
            && Liq(out.value, id) == Liq(l, id) && Hold(out.value, id) == Hold(l, id) - n
  {
    PoolSubTokens(l, HoldingPool(id), n);
    AccountAddTokens(PoolSub(l, HoldingPool(id), n).value, a, n);
  }

  lemma {:induction false} RefundOrdersLedger(l: Ledger, id: ChainId, orders: seq<Order>, k: nat)
    requires k <= |orders| && Bounded(l) && Hold(l, id) >= Sales(orders[k..])
    ensures var out := RefundOrders(l, id, orders, k);
            && out.Ok? && Kept(l, out.value, id)
            && Liq(out.value, id) == Liq(l, id) && Hold(out.value, id) == Hold(l, id) - Sales(orders[k..])
    decreases |orders| - k
  {
    if k < |orders| {
      assert orders[k..][1..] == orders[k + 1..];
      RefundOneLedger(l, id, orders[k].addr, orders[k].amount);
      RefundOrdersLedger(RefundOne(l, id, orders[k].addr, orders[k].amount).value, id, orders, k + 1);
    }
  }

  lemma {:induction false} RefundDepositsLedger(l: Ledger, id: ChainId, ds: seq<Deposit>, k: nat)
    requires k <= |ds| && Bounded(l) && Hold(l, id) >= TotalDeposit(ds[k..])
    ensures var out := RefundDeposits(l, id, ds, k);
            && out.Ok? && Kept(l, out.value, id)
            && Liq(out.value, id) == Liq(l, id) && Hold(out.value, id) == Hold(l, id) - TotalDeposit(ds[k..])
    decreases |ds| - k
  {
    if k < |ds| {
      assert ds[k..][1..] == ds[k + 1..];
      RefundOneLedger(l, id, ds[k].addr, ds[k].amount);
      RefundDepositsLedger(RefundOne(l, id, ds[k].addr, ds[k].amount).value, id, ds, k + 1);
    }
  }

  /** The liveness refund always succeeds on a safe store and gives back all the locked batch had escrowed. */
  lemma FallbackSafe(s: Store, id: ChainId, points: Shares)
    requires Safe(s, id) && Sound(points)
    ensures Fallback(s, id, points).Ok?
    ensures var s' := Fallback(s, id, points).value;
            Safe(s', id) && Kept(s.ledger, s'.ledger, id) && Hold(s'.ledger, id) == OwedFor(s.next)
  {
    var own := Stored(s.locked, 0);
    assert own.orders[0..] == own.orders && own.deposits[0..] == own.deposits;
    RefundOrdersLedger(s.ledger, id, own.orders, 0);
    RefundDepositsLedger(RefundOrders(s.ledger, id, own.orders, 0).value, id, own.deposits, 0);
  }

  // ---- Runs of one chain -------------------------------------------------

  datatype Event =
    | UserOp(own: ChainId, op: Op, vesting: nat)
    | Remote(remote: Batch, perm: seq<nat>)
    | Liveness(points: Shares)
    | BlockEnd

  /** What reaches a handler: checked messages, and counter batches that passed their basic check. */
  ghost predicate Delivered(e: Event) {
    match e
    case UserOp(_, op, _) => WellFormed(op)
    case Remote(remote, perm) =>
      Percents(remote.withdrawals) && remote.poolSize <= MAX && IsPermutation(perm, |remote.orders|)
    case Liveness(points) => Sound(points)
    case BlockEnd => true
  }

  /** A handler's error leaves the store as it was. */
  function OrElse(r: Result<Store>, s: Store): Store { match r case Ok(s') => s' case Err(_) => s }

  ghost function Next(s: Store, id: ChainId, e: Event): Store
    requires Delivered(e)
  {
    match e
    case UserOp(own, op, vesting) => OrElse(SubmitOp(s, id, own, op, vesting), s)
    case Remote(remote, perm) => OrElse(HandleRemote(s, id, remote, perm), s)
    case Liveness(points) => OrElse(Fallback(s, id, points), s)
    case BlockEnd => EndOfBlock(s, id)
  }

  ghost function AfterAll(s: Store, id: ChainId, run: seq<Event>): Store
    requires forall k | 0 <= k < |run| :: Delivered(run[k])
  {
    if run == [] then s else Next(AfterAll(s, id, run[..|run| - 1]), id, run[|run| - 1])
  }

  lemma NextSafe(s: Store, id: ChainId, e: Event)
    requires Safe(s, id) && Delivered(e)
    ensures Safe(Next(s, id, e), id) && Kept(s.ledger, Next(s, id, e).ledger, id)
  {
    match e
    case UserOp(own, op, vesting) =>
      if SubmitOp(s, id, own, op, vesting).Ok? { SubmitSafe(s, id, own, op, vesting); }
    case Remote(remote, perm) => TriggerRefines(s, id, remote, perm);
    case Liveness(points) => FallbackSafe(s, id, points);
    case BlockEnd =>
      IncludeOwes(View(s, id));
      IncludeKeepsPercents(View(s, id));
  }

  /** Holding escrow and conservation over every run of one chain: users, triggers with any delivered batch,
      liveness refunds and block ends in any order. */
  lemma {:induction false} EscrowOverRuns(s: Store, id: ChainId, run: seq<Event>)
    requires Safe(s, id) && forall k | 0 <= k < |run| :: Delivered(run[k])
    ensures var s' := AfterAll(s, id, run);
            && EscrowHolds(s', id) && Sound(s'.shares)
            && Kept(s.ledger, s'.ledger, id)
            && (Conserved(s.ledger) ==> Conserved(s'.ledger))
            && Safe(s', id)
  {
    if run != [] {
      EscrowOverRuns(s, id, run[..|run| - 1]);
      NextSafe(AfterAll(s, id, run[..|run| - 1]), id, run[|run| - 1]);
    }
  }
}
