/** Who is paid, burned and credited what by the handlers of fsm/dex.go: the points and shares of each holder, and the
    account of each address. */
module Payees {
  import opened Lib
  import opened Sums
  import opened Points
  import opened Amm
  import opened Pipeline
  import opened Ledgers
  import opened Dex

  // ---- Withdrawals -------------------------------------------------------

  /** q is the floor of a * b / c. */
  predicate FloorOf(q: nat, a: nat, b: nat, c: nat) { q * c <= a * b < (q + 1) * c }

  lemma MulDivIsFloor(a: nat, b: nat, c: nat)
    requires 0 < c && b <= c && a <= MAX
    ensures FloorOf(MulDiv(a, b, c), a, b, c)
  {
    MulDivExact(a, b, c);
    QuotientTimes(a * b, c);
    var q := MulDiv(a, b, c);
    assert (q + 1) * c == q * c + c;
  }

  function SharesX(ps: seq<Payment>, a: Address): nat {
    if ps == [] then 0 else SharesX(ps[..|ps| - 1], a) + if ps[|ps| - 1].addr == a then ps[|ps| - 1].xShare else 0
  }

  function SharesY(ps: seq<Payment>, a: Address): nat {
    if ps == [] then 0 else SharesY(ps[..|ps| - 1], a) + if ps[|ps| - 1].addr == a then ps[|ps| - 1].yShare else 0
  }

  lemma {:induction false} PaymentCredits(ps: seq<Payment>, payment: Payment, a: Address)
    ensures SharesX(ps + [payment], a) == SharesX(ps, a) + if payment.addr == a then payment.xShare else 0
    ensures SharesY(ps + [payment], a) == SharesY(ps, a) + if payment.addr == a then payment.yShare else 0
  {
    assert (ps + [payment])[..|ps|] == ps;
  }

  /** One address before and after some requests: n of its points burned, x and y paid to it. */
  ghost predicate Drew(p: Payouts, p': Payouts, a: Address, n: nat, x: nat, y: nat) {
    && Held(p'.shares, a) + n == Held(p.shares, a)
    && SharesX(p'.payments, a) == SharesX(p.payments, a) + x
    && SharesY(p'.payments, a) == SharesY(p.payments, a) + y
  }

  lemma ClaimIsFloor(s: Shares, w: Withdrawal)
    requires Sound(s) && w.percent <= 100
    ensures FloorOf(Claim(s, w), Held(s, w.addr), w.percent, 100) && Claim(s, w) <= Held(s, w.addr)
  {
    HeldBound(s, w.addr);
    MulDivIsFloor(Held(s, w.addr), w.percent, 100);
    MulDivShare(Held(s, w.addr), w.percent, 100);
  }

  /** A request of somebody who holds nothing is skipped; any other is recorded under its own address, for the claimed
      part of what is held when it is looked at and the pro-rata parts of the two totals; nobody else is touched. */
  lemma PayOneDraws(p: Payouts, w: Withdrawal, totalX: nat, totalY: nat, claims: nat, a: Address)
    requires w.percent <= 100 && Sound(p.shares) && PayOne(p, w, totalX, totalY, claims).Ok?
    ensures var p', n := PayOne(p, w, totalX, totalY, claims).value, Claim(p.shares, w);
            && Sound(p'.shares)
            && if a == w.addr then Drew(p, p', a, n, MulDiv(totalX, n, claims), MulDiv(totalY, n, claims)) else Drew(p, p', a, 0, 0, 0)
  {
    var n := Claim(p.shares, w);
    ClaimIsFloor(p.shares, w);
    if PointsFor(p.shares, w.addr).None? {
      NoShareOfNothing(totalX, claims);
      NoShareOfNothing(totalY, claims);
    } else {
      RemoveKeepsSound(p.shares, w.addr, n);
      PaymentCredits(p.payments, Payment(w.addr, n, MulDiv(totalX, n, claims), MulDiv(totalY, n, claims)), a);
    }
  }

  lemma NoShareOfNothing(total: nat, claims: nat)
    ensures MulDiv(total, 0, claims) == 0
  {}

  lemma {:induction false} ClaimWithin(s: Shares, ws: seq<Withdrawal>, j: nat)
    requires j < |ws|
    ensures Claim(s, ws[j]) <= Claims(s, ws)
  {
    if j > 0 { ClaimWithin(s, ws[1..], j - 1); }
  }

  lemma {:induction false} TotalPositive(s: Shares, ws: seq<Withdrawal>)
    requires Sound(s) && Percents(ws) && Claims(s, ws) > 0
    ensures s.total > 0
  {
    HeldBound(s, ws[0].addr);
    MulDivShare(Held(s, ws[0].addr), ws[0].percent, 100);
    if Claim(s, ws[0]) == 0 {
      assert Percents(ws[1..]);
      TotalPositive(s, ws[1..]);
    }
  }

  // ---- One address at a time ----------------------------------------------

  /** What a percentage of h points comes to. */
  function Part(h: nat, percent: nat): (n: nat)
    requires percent <= 100
    ensures FloorOf(n, h, percent, 100) && n <= h
  {
    MulMono(percent, 100, h);
    QuotientTimes(h * percent, 100);
    Cancel(h * percent / 100, h, 100);
    h * percent / 100
  }

  /** What n of `whole` come to of a total. */
  function ShareOf(total: nat, n: nat, whole: nat): nat
    requires whole > 0
  {
    MulNonNeg(total, n);
    total * n / whole
  }

  lemma ShareIsFloor(total: nat, n: nat, whole: nat)
    requires whole > 0
    ensures FloorOf(ShareOf(total, n, whole), total, n, whole)
  {
    var q := ShareOf(total, n, whole);
    QuotientTimes(total * n, whole);
    assert (q + 1) * whole == q * whole + whole;
  }

  /** The points an address with h of them is left with: each of its requests takes its part of what the earlier ones left. */
  function Left(h: nat, ws: seq<Withdrawal>, k: nat, a: Address): nat
    requires k <= |ws| && Percents(ws)
    decreases |ws| - k
  {
    if k == |ws| then h
    else if ws[k].addr == a then Left(h - Part(h, ws[k].percent), ws, k + 1, a)
    else Left(h, ws, k + 1, a)
  }

  /** And what those parts bring it, when `total` is paid out for `claims` points. */
  function Gain(h: nat, ws: seq<Withdrawal>, k: nat, a: Address, total: nat, claims: nat): nat
    requires k <= |ws| && Percents(ws) && claims > 0
    decreases |ws| - k
  {
    if k == |ws| then 0
    else if ws[k].addr == a then
      var n := Part(h, ws[k].percent);
      ShareOf(total, n, claims) + Gain(h - n, ws, k + 1, a, total, claims)
    else Gain(h, ws, k + 1, a, total, claims)
  }

  /** No single request of the address claims more than the batch does. */
  predicate Within(h: nat, ws: seq<Withdrawal>, k: nat, a: Address, claims: nat)
    requires Percents(ws)
  {
    forall j | k <= j < |ws| && ws[j].addr == a :: Part(h, ws[j].percent) <= claims
  }

  lemma PartMono(h: nat, h': nat, percent: nat)
    requires h' <= h && percent <= 100
    ensures Part(h', percent) <= Part(h, percent)
  {
    MulMono(h', h, percent);
    FloorMono(Part(h', percent), h' * percent, Part(h, percent), h * percent, 100);
  }

  lemma FloorMono(q: nat, n: nat, q': nat, n': nat, d: nat)
    requires n <= n' && q * d <= n && n' < (q' + 1) * d
    ensures q <= q'
  {
    if q' < q {
      MulMono(q' + 1, q, d);
      assert false;
    }
  }

  lemma WithinStays(h: nat, h': nat, ws: seq<Withdrawal>, k: nat, a: Address, claims: nat)
    requires Percents(ws) && h' <= h && Within(h, ws, k, a, claims)
    ensures Within(h', ws, k + 1, a, claims)
  {
    forall j | k + 1 <= j < |ws| && ws[j].addr == a ensures Part(h', ws[j].percent) <= claims {
      PartMono(h, h', ws[j].percent);
    }
  }

  lemma ClaimIsPart(s: Shares, w: Withdrawal)
    requires Sound(s) && w.percent <= 100
    ensures Claim(s, w) == Part(Held(s, w.addr), w.percent)
  {
    HeldBound(s, w.addr);
    MulDivExact(Held(s, w.addr), w.percent, 100);
  }

  lemma ShareIsExact(total: nat, n: nat, claims: nat)
    requires 0 < claims && n <= claims && total <= MAX
    ensures MulDiv(total, n, claims) == ShareOf(total, n, claims)
  {
    MulDivExact(total, n, claims);
  }

  lemma PayOneTally(p: Payouts, w: Withdrawal, totalX: nat, totalY: nat, claims: nat, a: Address)
    requires w.percent <= 100 && Sound(p.shares) && claims > 0 && totalX <= MAX && totalY <= MAX
    requires PayOne(p, w, totalX, totalY, claims).Ok? && (w.addr == a ==> Part(Held(p.shares, a), w.percent) <= claims)
    ensures var p', n := PayOne(p, w, totalX, totalY, claims).value, Part(Held(p.shares, a), w.percent);
            && Sound(p'.shares)
            && if a == w.addr then Drew(p, p', a, n, ShareOf(totalX, n, claims), ShareOf(totalY, n, claims))
               else Drew(p, p', a, 0, 0, 0)
  {
    PayOneDraws(p, w, totalX, totalY, claims, a);
    if w.addr == a {
      ClaimIsPart(p.shares, w);
      ShareIsExact(totalX, Claim(p.shares, w), claims);
      ShareIsExact(totalY, Claim(p.shares, w), claims);
    }
  }

  /** One address over the requests from k on: what it is left with and is paid depends on its own points and its own
      requests, whoever else asks. */
  lemma {:induction false} PayFromTally(p: Payouts, ws: seq<Withdrawal>, k: nat, totalX: nat, totalY: nat, claims: nat, a: Address)
    requires k <= |ws| && Percents(ws) && Sound(p.shares) && claims > 0 && totalX <= MAX && totalY <= MAX
    requires PayFrom(p, ws, k, totalX, totalY, claims).Ok? && Within(Held(p.shares, a), ws, k, a, claims)
    ensures var p', h := PayFrom(p, ws, k, totalX, totalY, claims).value, Held(p.shares, a);
            && Held(p'.shares, a) == Left(h, ws, k, a)
            && SharesX(p'.payments, a) == SharesX(p.payments, a) + Gain(h, ws, k, a, totalX, claims)
            && SharesY(p'.payments, a) == SharesY(p.payments, a) + Gain(h, ws, k, a, totalY, claims)
    decreases |ws| - k
  {
    if k < |ws| {
      var h, p' := Held(p.shares, a), PayOne(p, ws[k], totalX, totalY, claims).value;
      PayOneTally(p, ws[k], totalX, totalY, claims, a);
      WithinStays(h, Held(p'.shares, a), ws, k, a, claims);
      PayFromTally(p', ws, k + 1, totalX, totalY, claims, a);
    }
  }

  /** The whole batch, for any list of requests. */
  lemma {:induction false} WithdrawTally(r: Reserves, s: Shares, ws: seq<Withdrawal>, a: Address)
    requires Sound(s) && Percents(ws) && r.x <= MAX && r.y <= MAX
    requires Claims(s, ws) > 0 && Withdraw(r, s, ws).Ok?
    ensures s.total > 0
    ensures var w, h, claims := Withdraw(r, s, ws).value, Held(s, a), Claims(s, ws);
            && Held(w.shares, a) == Left(h, ws, 0, a)
            && SharesX(w.payments, a) == Gain(h, ws, 0, a, MulDiv(r.x, claims, s.total), claims)
            && SharesY(w.payments, a) == Gain(h, ws, 0, a, MulDiv(r.y, claims, s.total), claims)
  {
    TotalPositive(s, ws);
    var claims := Claims(s, ws);
    MulDivBound(r.x, claims, s.total);
    MulDivBound(r.y, claims, s.total);
    forall j | 0 <= j < |ws| && ws[j].addr == a ensures Part(Held(s, a), ws[j].percent) <= claims {
      ClaimIsPart(s, ws[j]);
      ClaimWithin(s, ws, j);
    }
    PayFromTally(Payouts(s, []), ws, 0, MulDiv(r.x, claims, s.total), MulDiv(r.y, claims, s.total), claims, a);
  }

  // ---- The accounts: withdrawals -----------------------------------------

  /** The shares of one address on the side that pays here. */
  function SharesFor(ps: seq<Payment>, local: bool, a: Address): nat { if local then SharesX(ps, a) else SharesY(ps, a) }

  lemma DrawOneCredits(l: Ledger, p: Payouts, w: Withdrawal, totalX: nat, totalY: nat, claims: nat, local: bool, a: Address)
    requires DrawOne(l, p, w, totalX, totalY, claims, local).Ok?
    ensures var (l', p') := DrawOne(l, p, w, totalX, totalY, claims, local).value;
            && PayOne(p, w, totalX, totalY, claims) == Ok(p')
            && Balance(l', a) + SharesFor(p.payments, local, a) == Balance(l, a) + SharesFor(p'.payments, local, a)
  {
    if PointsFor(p.shares, w.addr).Some? {
      var n := Claim(p.shares, w);
      PaymentCredits(p.payments, Payment(w.addr, n, MulDiv(totalX, n, claims), MulDiv(totalY, n, claims)), a);
    }
  }

  lemma {:induction false} DrawFromCredits(l: Ledger, p: Payouts, ws: seq<Withdrawal>, k: nat, totalX: nat, totalY: nat, claims: nat,
                                           local: bool, a: Address)
    requires k <= |ws| && DrawFrom(l, p, ws, k, totalX, totalY, claims, local).Ok?
    ensures var (l', p') := DrawFrom(l, p, ws, k, totalX, totalY, claims, local).value;
            && PayFrom(p, ws, k, totalX, totalY, claims) == Ok(p')
            && Balance(l', a) + SharesFor(p.payments, local, a) == Balance(l, a) + SharesFor(p'.payments, local, a)
    decreases |ws| - k
  {
    if k < |ws| {
      DrawOneCredits(l, p, ws[k], totalX, totalY, claims, local, a);
      var (l', p') := DrawOne(l, p, ws[k], totalX, totalY, claims, local).value;
      DrawFromCredits(l', p', ws, k + 1, totalX, totalY, claims, local, a);
    }
  }

  /** What a batch of withdrawals brings an address on the side whose reserve this is. */
  function Redeems(reserve: nat, s: Shares, ws: seq<Withdrawal>, a: Address): nat
    requires Percents(ws)
  {
    var claims := Claims(s, ws);
    if claims == 0 then 0 else Gain(Held(s, a), ws, 0, a, MulDiv(reserve, claims, s.total), claims)
  }

  /** And the points it leaves it. */
  function Keeps(s: Shares, ws: seq<Withdrawal>, a: Address): nat
    requires Percents(ws)
  {
    if Claims(s, ws) == 0 then Held(s, a) else Left(Held(s, a), ws, 0, a)
  }

  /** A batch of withdrawals credits every account with what its own requests bring it on this chain's side, and nothing
      else, and leaves every holder what its own requests leave it. */
  lemma WithdrawPaysEach(b: Book, id: ChainId, ws: seq<Withdrawal>, local: bool, a: Address)
    requires Sound(b.shares) && Percents(ws) && b.r.x <= MAX && b.r.y <= MAX && HandleWithdraw(b, id, ws, local).Ok?
    ensures Withdraw(b.r, b.shares, ws).Ok?
    ensures var b' := HandleWithdraw(b, id, ws, local).value;
            && Balance(b'.ledger, a) == Balance(b.ledger, a) + Redeems(if local then b.r.x else b.r.y, b.shares, ws, a)
            && Held(b'.shares, a) == Keeps(b.shares, ws, a)
  {
    var claims := Claims(b.shares, ws);
    if ws != [] && claims > 0 {
      TotalPositive(b.shares, ws);
      var totalX, totalY := MulDiv(b.r.x, claims, b.shares.total), MulDiv(b.r.y, claims, b.shares.total);
      DrawFromCredits(b.ledger, Payouts(b.shares, []), ws, 0, totalX, totalY, claims, local, a);
      WithdrawTally(b.r, b.shares, ws, a);
    }
  }

  /** Whoever does not ask keeps its points and is paid nothing. */
  lemma {:induction false} NoRequest(h: nat, ws: seq<Withdrawal>, k: nat, a: Address, total: nat, claims: nat)
    requires k <= |ws| && Percents(ws) && claims > 0
    requires forall j | k <= j < |ws| :: ws[j].addr != a
    ensures Left(h, ws, k, a) == h && Gain(h, ws, k, a, total, claims) == 0
    decreases |ws| - k
  {
    if k < |ws| { NoRequest(h, ws, k + 1, a, total, claims); }
  }

  lemma {:induction false} OneRequest(h: nat, ws: seq<Withdrawal>, k: nat, j: nat, total: nat, claims: nat)
    requires k <= j < |ws| && Percents(ws) && DistinctHolders(ws) && claims > 0
    ensures var n := Part(h, ws[j].percent);
            Left(h, ws, k, ws[j].addr) == h - n && Gain(h, ws, k, ws[j].addr, total, claims) == ShareOf(total, n, claims)
    decreases j - k
  {
    if k == j {
      NoRequest(h - Part(h, ws[j].percent), ws, k + 1, ws[j].addr, total, claims);
    } else {
      OneRequest(h, ws, k + 1, j, total, claims);
    }
  }

  /** A holder that has `held` points asks for a percentage of them: n points are burned, the floor of that percentage;
      of the reserve the batch draws `total`, the floor of its claims' part, and the holder is paid the floor of its
      own part of that. */
  predicate Redeemed(held: nat, percent: nat, reserve: nat, claims: nat, points: nat, n: nat, total: nat, paid: nat) {
    FloorOf(n, held, percent, 100) && FloorOf(total, reserve, claims, points) && FloorOf(paid, total, n, claims)
  }

  lemma OneRedeemed(held: nat, percent: nat, reserve: nat, claims: nat, points: nat) returns (n: nat, total: nat, paid: nat)
    requires percent <= 100 && 0 < claims <= points && reserve <= MAX
    ensures n == Part(held, percent) && total == MulDiv(reserve, claims, points) && paid == ShareOf(total, n, claims)
    ensures Redeemed(held, percent, reserve, claims, points, n, total, paid)
  {
    n, total := Part(held, percent), MulDiv(reserve, claims, points);
    paid := ShareOf(total, n, claims);
    MulDivIsFloor(reserve, claims, points);
    ShareIsFloor(total, n, claims);
  }

  /** In a batch in which nobody asks twice each holder that asks is redeemed, in points and on its account; whoever
      does not ask has the points and the account it had. */
  lemma HoldersRedeemed(b: Book, id: ChainId, ws: seq<Withdrawal>, local: bool, j: nat) returns (n: nat, total: nat, paid: nat)
    requires Sound(b.shares) && Percents(ws) && DistinctHolders(ws) && b.r.x <= MAX && b.r.y <= MAX && j < |ws|
    requires HandleWithdraw(b, id, ws, local).Ok? && Claims(b.shares, ws) > 0
    ensures var b', a, held := HandleWithdraw(b, id, ws, local).value, ws[j].addr, Held(b.shares, ws[j].addr);
            && Redeemed(held, ws[j].percent, if local then b.r.x else b.r.y, Claims(b.shares, ws), b.shares.total, n, total, paid)
            && Held(b'.shares, a) + n == held && Balance(b'.ledger, a) == Balance(b.ledger, a) + paid
            && forall c | (forall i | 0 <= i < |ws| :: ws[i].addr != c) ::
                 Held(b'.shares, c) == Held(b.shares, c) && Balance(b'.ledger, c) == Balance(b.ledger, c)
  {
    TotalPositive(b.shares, ws);
    var claims, reserve := Claims(b.shares, ws), if local then b.r.x else b.r.y;
    WithdrawPaysEach(b, id, ws, local, ws[j].addr);
    var _, _ := WithdrawPays(b.r, b.shares, ws);
    n, total, paid := OneRedeemed(Held(b.shares, ws[j].addr), ws[j].percent, reserve, claims, b.shares.total);
    OneRequest(Held(b.shares, ws[j].addr), ws, 0, j, total, claims);
    forall c | (forall i | 0 <= i < |ws| :: ws[i].addr != c)
      ensures var b' := HandleWithdraw(b, id, ws, local).value;
              Held(b'.shares, c) == Held(b.shares, c) && Balance(b'.ledger, c) == Balance(b.ledger, c)
    {
      WithdrawPaysEach(b, id, ws, local, c);
      NoRequest(Held(b.shares, c), ws, 0, c, total, claims);
    }
  }

  // ---- The accounts: receipts, orders, deposits --------------------------

  /** What an address gets back for its orders without a receipt. */
  function Refunds(orders: seq<Order>, receipts: seq<nat>, k: nat, a: Address): nat
    requires |orders| == |receipts| && k <= |orders|
    decreases |orders| - k
  {
    if k == |orders| then 0 else
      (if orders[k].addr == a && receipts[k] == 0 then orders[k].amount else 0) + Refunds(orders, receipts, k + 1, a)
  }

  /** What an address is paid for its orders. */
  function Proceeds(orders: seq<Order>, receipts: seq<nat>, k: nat, a: Address): nat
    requires |orders| == |receipts| && k <= |orders|
    decreases |orders| - k
  {
    if k == |orders| then 0 else
      (if orders[k].addr == a then receipts[k] else 0) + Proceeds(orders, receipts, k + 1, a)
  }

  lemma {:induction false} ReceiptsRefund(b: Book, id: ChainId, orders: seq<Order>, receipts: seq<nat>, k: nat, a: Address)
    requires |orders| == |receipts| && k <= |orders| && ReceiptsFrom(b, id, orders, receipts, k).Ok?
    ensures var b' := ReceiptsFrom(b, id, orders, receipts, k).value;
            && Balance(b'.ledger, a) == Balance(b.ledger, a) + Refunds(orders, receipts, k, a)
            && ApplyFrom(b.r, orders, receipts, k) == Ok(b'.r) && b'.shares == b.shares
    decreases |orders| - k
  {
    if k < |orders| {
      ReceiptsRefund(ReceiptOne(b, id, orders[k], receipts[k]).value, id, orders, receipts, k + 1, a);
    }
  }

  lemma {:induction false} OrdersPay(l: Ledger, id: ChainId, orders: seq<Order>, receipts: seq<nat>, k: nat, a: Address)
    requires |orders| == |receipts| && k <= |orders| && PayOrdersFrom(l, id, orders, receipts, k).Ok?
    ensures Balance(PayOrdersFrom(l, id, orders, receipts, k).value, a) == Balance(l, a) + Proceeds(orders, receipts, k, a)
    decreases |orders| - k
  {
    if k < |orders| {
      OrdersPay(PayOrder(l, id, orders[k], receipts[k]).value, id, orders, receipts, k + 1, a);
    }
  }

  lemma {:induction false} DepositFromSpares(m: Minted, id: ChainId, ds: seq<Deposit>, k: nat, totalDL: nat, totalDeposit: nat, local: bool)
    requires k <= |ds| && DepositFrom(m, id, ds, k, totalDL, totalDeposit, local).Ok?
    ensures DepositFrom(m, id, ds, k, totalDL, totalDeposit, local).value.ledger.accounts == m.ledger.accounts
    decreases |ds| - k
  {
    if k < |ds| {
      DepositFromSpares(DepositOne(m, id, ds[k], totalDL, totalDeposit, local).value, id, ds, k + 1, totalDL, totalDeposit, local);
    }
  }

  lemma DepositSpares(b: Book, id: ChainId, ds: seq<Deposit>, local: bool)
    requires HandleDeposit(b, id, ds, local).Ok?
    ensures HandleDeposit(b, id, ds, local).value.ledger.accounts == b.ledger.accounts
  {
    if TotalDeposit(ds) <= MAX && !NoDeposit(b.r, ds) {
      var (seeded, totalDL) := Plan(b.r, b.shares, TotalDeposit(ds)).value;
      var start := Minted(b.ledger, PoolBalance(b.ledger, LiquidityPool(id)), Deposited(b.r.x, seeded, 0));
      DepositFromSpares(start, id, ds, 0, totalDL, TotalDeposit(ds), local);
    }
  }

  // ---- Deposits: the points ----------------------------------------------

  /** The points an address is given for its deposits from k on, when dL of them are shared out over all. */
  function MintedFor(ds: seq<Deposit>, k: nat, a: Address, dL: nat): nat
    requires k <= |ds| && TotalDeposit(ds) > 0
    decreases |ds| - k
  {
    if k == |ds| then 0 else
      (if ds[k].addr == a then ShareOf(dL, ds[k].amount, TotalDeposit(ds)) else 0) + MintedFor(ds, k + 1, a, dL)
  }

  /** All the points so given. */
  function MintedAll(ds: seq<Deposit>, k: nat, dL: nat): nat
    requires k <= |ds| && TotalDeposit(ds) > 0
    decreases |ds| - k
  {
    if k == |ds| then 0 else ShareOf(dL, ds[k].amount, TotalDeposit(ds)) + MintedAll(ds, k + 1, dL)
  }

  lemma {:induction false} MintFromTally(d: Deposited, ds: seq<Deposit>, k: nat, dL: nat, a: Address)
    requires k <= |ds| && TotalDeposit(ds) > 0 && dL <= MAX && Sound(d.shares)
    requires MintFrom(d, ds, k, dL, TotalDeposit(ds)).Ok?
    ensures var d' := MintFrom(d, ds, k, dL, TotalDeposit(ds)).value;
            && Sound(d'.shares)
            && Held(d'.shares, a) == Held(d.shares, a) + MintedFor(ds, k, a, dL)
            && d'.distributed == d.distributed + MintedAll(ds, k, dL)
    decreases |ds| - k
  {
    if k < |ds| {
      DepositWithinTotal(ds, k);
      ShareIsExact(dL, ds[k].amount, TotalDeposit(ds));
      AddKeepsSound(d.shares, ds[k].addr, ShareOf(dL, ds[k].amount, TotalDeposit(ds)));
      MintFromTally(MintOne(d, ds[k], dL, TotalDeposit(ds)).value, ds, k + 1, dL, a);
    }
  }

  lemma {:induction false} MintedBound(ds: seq<Deposit>, k: nat, dL: nat)
    requires k <= |ds| && TotalDeposit(ds) > 0
    ensures MintedAll(ds, k, dL) * TotalDeposit(ds) <= dL * TotalDeposit(ds[k..])
    decreases |ds| - k
  {
    var D := TotalDeposit(ds);
    if k < |ds| {
      assert ds[k..][1..] == ds[k + 1..];
      MintedBound(ds, k + 1, dL);
      ShareIsFloor(dL, ds[k].amount, D);
      BoundsAdd(ShareOf(dL, ds[k].amount, D), MintedAll(ds, k + 1, dL), dL, ds[k].amount, TotalDeposit(ds[k + 1..]), D);
    }
  }

  lemma BoundsAdd(q: nat, q': nat, total: nat, n: nat, n': nat, whole: nat)
    requires q * whole <= total * n && q' * whole <= total * n'
    ensures (q + q') * whole <= total * (n + n')
  {
    assert (q + q') * whole == q * whole + q' * whole;
    assert total * (n + n') == total * n + total * n';
  }

  lemma {:induction false} MintedWithin(ds: seq<Deposit>, dL: nat)
    requires TotalDeposit(ds) > 0
    ensures MintedAll(ds, 0, dL) <= dL
  {
    assert ds[0..] == ds;
    MintedBound(ds, 0, dL);
    Cancel(MintedAll(ds, 0, dL), dL, TotalDeposit(ds));
  }

  lemma {:induction false} DistributeTally(r: Reserves, s: Shares, ds: seq<Deposit>, dL: nat, a: Address)
    requires Sound(s) && TotalDeposit(ds) > 0 && dL <= MAX && Amm.Distribute(r, s, ds, dL).Ok?
    ensures MintedAll(ds, 0, dL) <= dL
    ensures Held(Amm.Distribute(r, s, ds, dL).value.1, a)
            == Held(s, a) + MintedFor(ds, 0, a, dL) + if a == DEAD then dL - MintedAll(ds, 0, dL) else 0
  {
    var d := MintFrom(Deposited(r.x, s, 0), ds, 0, dL, TotalDeposit(ds)).value;
    MintFromTally(Deposited(r.x, s, 0), ds, 0, dL, a);
    MintedWithin(ds, dL);
    SinkDust(d.shares, dL, d.distributed, a);
  }

  lemma SinkDust(s: Shares, dL: nat, distributed: nat, a: Address)
    requires Sound(s) && distributed <= dL <= MAX && Added(s, DEAD, WrapSub(dL, distributed)).Ok?
    ensures Held(Added(s, DEAD, WrapSub(dL, distributed)).value, a) == Held(s, a) + if a == DEAD then dL - distributed else 0
  {
    WrapSubExact(dL, distributed);
    AddKeepsSound(s, DEAD, dL - distributed);
  }

  /** The points every address has after a batch of deposits that takes effect: each depositor gains the floor of its part
      of the new points, deposit by deposit, nobody else gains any, and what the floors leave over goes to the dead
      address, which also has the points of a first liquidity. */
  lemma {:induction false} DepositCreditsEach(r: Reserves, s: Shares, ds: seq<Deposit>, a: Address)
    requires Sound(s) && DepositAll(r, s, ds).Ok? && !NoDeposit(r, ds)
    ensures var s', dL := DepositAll(r, s, ds).value.1, Growth(r, s, TotalDeposit(ds));
            && MintedAll(ds, 0, dL) <= dL
            && Held(s', a) == Held(s, a) + MintedFor(ds, 0, a, dL)
                              + if a == DEAD then Liquidity(r, s) - s.total + dL - MintedAll(ds, 0, dL) else 0
  {
    if s.total == 0 { AddKeepsSound(s, DEAD, SqrtProduct(r.x, r.y)); }
    GrowthFair(r, s, TotalDeposit(ds));
    DistributeTally(r, Seeded(r, s).value, ds, Growth(r, s, TotalDeposit(ds)), a);
  }

  /** The new points are the floor of the points times the growth of the geometric mean of the reserves, unless that
      floor does not fit 64 bits. */
  lemma GrowthExact(r: Reserves, s: Shares, D: nat)
    requires SqrtProduct(r.x, r.y) > 0
    requires SqrtProduct(r.x + D, r.y) >= SqrtProduct(r.x, r.y)
    requires Liquidity(r, s) * (SqrtProduct(r.x + D, r.y) - SqrtProduct(r.x, r.y)) < U64 * SqrtProduct(r.x, r.y)
    ensures FloorOf(Growth(r, s, D), Liquidity(r, s), SqrtProduct(r.x + D, r.y) - SqrtProduct(r.x, r.y), SqrtProduct(r.x, r.y))
  {
    FitsIsFloor(Liquidity(r, s), SqrtProduct(r.x + D, r.y) - SqrtProduct(r.x, r.y), SqrtProduct(r.x, r.y));
  }

  lemma FitsIsFloor(a: nat, b: nat, c: nat)
    requires 0 < c && a * b < U64 * c
    ensures FloorOf(MulDiv(a, b, c), a, b, c)
  {
    MulNonNeg(a, b);
    QuotientLess(a * b, c, U64);
    QuotientTimes(a * b, c);
    var q := a * b / c;
    assert MulDiv(a, b, c) == q;
    assert (q + 1) * c == q * c + c;
  }

  // ---- When a batch goes through ------------------------------------------

  /** Somebody has points left after the requests from k on. */
  ghost predicate SomebodyLeft(s: Shares, ws: seq<Withdrawal>, k: nat)
    requires k <= |ws| && Percents(ws)
  {
    exists a :: Left(Held(s, a), ws, k, a) > 0
  }

  /** The withdrawals claim nothing, or claim what fits 64 bits and leave somebody a point. */
  ghost predicate WithdrawsThrough(s: Shares, ws: seq<Withdrawal>)
    requires Percents(ws)
  {
    Claims(s, ws) == 0 || (Claims(s, ws) <= MAX && SomebodyLeft(s, ws, 0))
  }

  lemma {:induction false} SomeEntry(h: seq<LP>) returns (i: nat)
    requires SumPoints(h) > 0
    ensures i < |h| && h[i].points > 0
  {
    if h[0].points > 0 {
      i := 0;
    } else {
      var j := SomeEntry(h[1..]);
      i := j + 1;
    }
  }

  lemma SomebodyHolds(s: Shares) returns (a: Address)
    requires Sound(s) && s.total > 0
    ensures Held(s, a) > 0
  {
    var i := SomeEntry(s.holders);
    a := s.holders[i].addr;
    IndexOfFirst(s.holders, i);
  }

  /** Whoever holds every point is the only holder of any. */
  lemma OnlyHolder(s: Shares, a: Address, b: Address)
    requires Sound(s) && a != b && Held(s, a) == s.total
    ensures Held(s, b) == 0
  {
    HeldBound(s, b);
    var i := IndexOf(s.holders, a);
    if i < |s.holders| {
      ReducedSound(s, i, s.holders[i].points);
      HeldBound(Shares(Reduced(s.holders, i, 0), 0), b);
    }
  }

  lemma {:induction false} NothingLeft(ws: seq<Withdrawal>, k: nat, a: Address)
    requires k <= |ws| && Percents(ws)
    ensures Left(0, ws, k, a) == 0
    decreases |ws| - k
  {
    if k < |ws| { NothingLeft(ws, k + 1, a); }
  }

  /** A request fails exactly when it takes the last points of the pool, and then nobody has any. */
  lemma {:induction false} PayOneFails(p: Payouts, ws: seq<Withdrawal>, k: nat, totalX: nat, totalY: nat, claims: nat)
    requires k < |ws| && Percents(ws) && Sound(p.shares) && p.shares.total > 0
    ensures PayOne(p, ws[k], totalX, totalY, claims).Err? ==> !SomebodyLeft(p.shares, ws, k)
    ensures PayOne(p, ws[k], totalX, totalY, claims).Ok? ==>
              var p' := PayOne(p, ws[k], totalX, totalY, claims).value;
              && Sound(p'.shares) && p'.shares.total > 0
              && forall a :: Left(Held(p.shares, a), ws, k, a) == Left(Held(p'.shares, a), ws, k + 1, a)
  {
    var w := ws[k];
    ClaimIsPart(p.shares, w);
    if PointsFor(p.shares, w.addr).Some? {
      RemoveKeepsSound(p.shares, w.addr, Claim(p.shares, w));
      HeldBound(p.shares, w.addr);
      if PayOne(p, w, totalX, totalY, claims).Err? {
        forall a ensures Left(Held(p.shares, a), ws, k, a) == 0 {
          NothingLeft(ws, k + 1, a);
          if a != w.addr { OnlyHolder(p.shares, w.addr, a); }
        }
      }
    }
  }

  lemma {:induction false} PayFromSucceeds(p: Payouts, ws: seq<Withdrawal>, k: nat, totalX: nat, totalY: nat, claims: nat)
    requires k <= |ws| && Percents(ws) && Sound(p.shares) && p.shares.total > 0
    ensures PayFrom(p, ws, k, totalX, totalY, claims).Ok? <==> SomebodyLeft(p.shares, ws, k)
    decreases |ws| - k
  {
    if k == |ws| {
      var a := SomebodyHolds(p.shares);
      assert Left(Held(p.shares, a), ws, k, a) > 0;
    } else {
      PayOneFails(p, ws, k, totalX, totalY, claims);
      if PayOne(p, ws[k], totalX, totalY, claims).Ok? {
        PayFromSucceeds(PayOne(p, ws[k], totalX, totalY, claims).value, ws, k + 1, totalX, totalY, claims);
      }
    }
  }

  /** Any list of withdrawals goes through exactly when it claims nothing, or claims what fits 64 bits and leaves somebody
      a point. */
  lemma {:induction false} WithdrawSucceedsExactly(r: Reserves, s: Shares, ws: seq<Withdrawal>)
    requires Sound(s) && Percents(ws)
    ensures Withdraw(r, s, ws).Ok? <==> WithdrawsThrough(s, ws)
  {
    var claims := Claims(s, ws);
    if claims > 0 {
      TotalPositive(s, ws);
      PayFromSucceeds(Payouts(s, []), ws, 0, MulDiv(r.x, claims, s.total), MulDiv(r.y, claims, s.total), claims);
    }
  }

  predicate IsHolder(s: Shares, a: Address) { PointsFor(s, a).Some? }

  /** Newcomers find seats among n holders. */
  predicate Seated(n: nat, newcomers: set<Address>) { newcomers == {} || n + |newcomers| <= MAX_LIQUIDITY_PROVIDERS }

  lemma SeatedTogether(n: nat, a: set<Address>, b: set<Address>)
    requires a !! b
    ensures Seated(n, a + b) <==> Seated(n, a) && Seated(n + |a|, b)
  {
    if a == {} { assert a + b == b; }
    if b == {} { assert a + b == a; }
  }

  lemma SeatedInTurn(n: nat, a: set<Address>, b: set<Address>)
    ensures Seated(n, a + b) <==> Seated(n, a) && Seated(n + |a|, b - a)
    ensures a + b == b + a && a + {} == a
  {
    SeatedTogether(n, a, b - a);
    assert a + b == a + (b - a);
  }

  function Newcomer(s: Shares, a: Address, n: nat): set<Address> { if n > 0 && !IsHolder(s, a) then {a} else {} }

  /** The list has grown by exactly these holders. */
  ghost predicate Joined(s: Shares, s': Shares, newcomers: set<Address>) {
    && |s'.holders| == |s.holders| + |newcomers|
    && forall b :: IsHolder(s', b) <==> IsHolder(s, b) || b in newcomers
  }

  lemma HolderHasEntry(s: Shares, a: Address)
    ensures IsHolder(s, a) <==> exists i :: 0 <= i < |s.holders| && s.holders[i].addr == a
  {
    if IsHolder(s, a) { assert s.holders[IndexOf(s.holders, a)].addr == a; }
  }

  lemma AddSeats(s: Shares, a: Address, n: nat)
    requires Sound(s) && s.total + n <= MAX
    ensures Added(s, a, n).Ok? <==> Seated(|s.holders|, Newcomer(s, a, n))
    ensures Added(s, a, n).Ok? ==> Joined(s, Added(s, a, n).value, Newcomer(s, a, n))
  {
    AddSucceedsExactly(s, a, n);
    if Added(s, a, n).Ok? && n > 0 {
      var s' := Added(s, a, n).value;
      forall b ensures IsHolder(s', b) <==> IsHolder(s, b) || b in Newcomer(s, a, n) {
        HolderHasEntry(s, a);
        HolderHasEntry(s, b);
        HolderHasEntry(s', b);
        if IsHolder(s, b) { assert s'.holders[IndexOf(s.holders, b)].addr == b; }
        if b == a && !IsHolder(s, a) { assert s'.holders[|s.holders|].addr == a; }
      }
    }
  }

  /** The depositors from k on that are given points and hold none yet. */
  function Depositors(s: Shares, ds: seq<Deposit>, k: nat, dL: nat): set<Address>
    requires TotalDeposit(ds) > 0
  {
    set j | k <= j < |ds| && ShareOf(dL, ds[j].amount, TotalDeposit(ds)) > 0 && !IsHolder(s, ds[j].addr) :: ds[j].addr
  }

  /** Who becomes a holder: those depositors, and the dead address when it takes a first liquidity or what the floors leave. */
  function NewHolders(s: Shares, ds: seq<Deposit>, dL: nat): set<Address>
    requires TotalDeposit(ds) > 0
  {
    Depositors(s, ds, 0, dL) + Newcomer(s, DEAD, if s.total == 0 || MintedAll(ds, 0, dL) < dL then 1 else 0)
  }

  /** The deposits have no effect, or what they add to the reserve and to the points fits 64 bits and the new holders find
      seats. */
  predicate DepositsThrough(r: Reserves, s: Shares, ds: seq<Deposit>) {
    var dL := Growth(r, s, TotalDeposit(ds));
    && TotalDeposit(ds) <= MAX
    && (NoDeposit(r, ds) || (&& r.x + TotalDeposit(ds) <= MAX && Liquidity(r, s) + dL <= MAX
                             && Seated(|s.holders|, NewHolders(s, ds, dL))))
  }

  lemma {:induction false} DepositorsSplit(s: Shares, s': Shares, ds: seq<Deposit>, k: nat, dL: nat)
    requires k < |ds| && TotalDeposit(ds) > 0
    requires Joined(s, s', Newcomer(s, ds[k].addr, ShareOf(dL, ds[k].amount, TotalDeposit(ds))))
    ensures var newcomer := Newcomer(s, ds[k].addr, ShareOf(dL, ds[k].amount, TotalDeposit(ds)));
            newcomer !! Depositors(s', ds, k + 1, dL) && Depositors(s, ds, k, dL) == newcomer + Depositors(s', ds, k + 1, dL)
  {}

  lemma MintOneExactly(d: Deposited, deposit: Deposit, dL: nat, D: nat)
    requires Sound(d.shares) && D > 0 && dL <= MAX && deposit.amount <= D
    requires d.shares.total + ShareOf(dL, deposit.amount, D) <= MAX && d.x + deposit.amount <= MAX
    ensures var out, newcomer := MintOne(d, deposit, dL, D), Newcomer(d.shares, deposit.addr, ShareOf(dL, deposit.amount, D));
            && (out.Ok? <==> Seated(|d.shares.holders|, newcomer))
            && (out.Ok? ==>
                  && Sound(out.value.shares) && out.value.shares.total == d.shares.total + ShareOf(dL, deposit.amount, D)
                  && out.value.x == d.x + deposit.amount && Joined(d.shares, out.value.shares, newcomer)
                  && out.value.distributed == d.distributed + ShareOf(dL, deposit.amount, D))
  {
    ShareIsExact(dL, deposit.amount, D);
    AddSeats(d.shares, deposit.addr, ShareOf(dL, deposit.amount, D));
    if Added(d.shares, deposit.addr, ShareOf(dL, deposit.amount, D)).Ok? {
      AddKeepsSound(d.shares, deposit.addr, ShareOf(dL, deposit.amount, D));
    }
  }

  lemma {:induction false} MintFromExactly(d: Deposited, ds: seq<Deposit>, k: nat, dL: nat)
    requires k <= |ds| && TotalDeposit(ds) > 0 && dL <= MAX && Sound(d.shares)
    requires d.shares.total + MintedAll(ds, k, dL) <= MAX && d.x + TotalDeposit(ds[k..]) <= MAX
    ensures var out := MintFrom(d, ds, k, dL, TotalDeposit(ds));
            && (out.Ok? <==> Seated(|d.shares.holders|, Depositors(d.shares, ds, k, dL)))
            && (out.Ok? ==>
                  && Sound(out.value.shares) && out.value.shares.total == d.shares.total + MintedAll(ds, k, dL)
                  && Joined(d.shares, out.value.shares, Depositors(d.shares, ds, k, dL))
                  && out.value.distributed == d.distributed + MintedAll(ds, k, dL))
    decreases |ds| - k
  {
    if k < |ds| {
      var newcomer := Newcomer(d.shares, ds[k].addr, ShareOf(dL, ds[k].amount, TotalDeposit(ds)));
      assert ds[k..][1..] == ds[k + 1..];
      DepositWithinTotal(ds, k);
      MintOneExactly(d, ds[k], dL, TotalDeposit(ds));
      if MintOne(d, ds[k], dL, TotalDeposit(ds)).Ok? {
        var d' := MintOne(d, ds[k], dL, TotalDeposit(ds)).value;
        MintFromExactly(d', ds, k + 1, dL);
        DepositorsSplit(d.shares, d'.shares, ds, k, dL);
        SeatedTogether(|d.shares.holders|, newcomer, Depositors(d'.shares, ds, k + 1, dL));
      } else {
        assert newcomer <= Depositors(d.shares, ds, k, dL);
        assert Depositors(d.shares, ds, k, dL) == newcomer + (Depositors(d.shares, ds, k, dL) - newcomer);
        SeatedTogether(|d.shares.holders|, newcomer, Depositors(d.shares, ds, k, dL) - newcomer);
      }
    }
  }

  /** What the floors leave needs a seat for the dead address, unless that has one by then. */
  lemma DustSeats(s: Shares, s': Shares, joined: set<Address>, dL: nat, distributed: nat)
    requires Sound(s') && Joined(s, s', joined) && distributed <= dL <= MAX && s'.total + (dL - distributed) <= MAX
    ensures Added(s', DEAD, WrapSub(dL, distributed)).Ok?
            <==> Seated(|s'.holders|, Newcomer(s, DEAD, dL - distributed) - joined)
  {
    WrapSubExact(dL, distributed);
    AddSeats(s', DEAD, dL - distributed);
    assert Newcomer(s', DEAD, dL - distributed) == Newcomer(s, DEAD, dL - distributed) - joined;
  }

  lemma {:induction false} DistributeExactly(r: Reserves, s: Shares, ds: seq<Deposit>, dL: nat)
    requires Sound(s) && TotalDeposit(ds) > 0 && s.total + dL <= MAX && r.x + TotalDeposit(ds) <= MAX
    ensures MintedAll(ds, 0, dL) <= dL
    ensures Amm.Distribute(r, s, ds, dL).Ok?
            <==> Seated(|s.holders|, Depositors(s, ds, 0, dL) + Newcomer(s, DEAD, dL - MintedAll(ds, 0, dL)))
  {
    assert ds[0..] == ds;
    MintedWithin(ds, dL);
    var start, first := Deposited(r.x, s, 0), Depositors(s, ds, 0, dL);
    var late := Newcomer(s, DEAD, dL - MintedAll(ds, 0, dL));
    MintFromExactly(start, ds, 0, dL);
    SeatedInTurn(|s.holders|, first, late);
    var out := MintFrom(start, ds, 0, dL, TotalDeposit(ds));
    if out.Ok? { DustSeats(s, out.value.shares, first, dL, out.value.distributed); }
  }

  /** A batch of deposits goes through exactly when it has no effect, or the reserve paid into and the points, with what is
      added to them, fit 64 bits and the list has room for those who become holders. */
  lemma {:induction false} DepositSucceedsExactly(r: Reserves, s: Shares, ds: seq<Deposit>)
    requires Sound(s) && r.x <= MAX
    ensures DepositAll(r, s, ds).Ok? <==> DepositsThrough(r, s, ds)
  {
    var D := TotalDeposit(ds);
    if DepositAll(r, s, ds).Ok? {
      DepositFair(r, s, ds);
    }
    if D <= MAX && !NoDeposit(r, ds) && r.x + D <= MAX && Liquidity(r, s) + Growth(r, s, D) <= MAX {
      RootPositive(r.x, r.y);
      if s.total == 0 { SeedExactly(r, s, ds, Growth(r, s, D)); } else { DistributeExactly(r, s, ds, Growth(r, s, D)); }
    }
  }

  lemma {:induction false} AfterSeed(s: Shares, seeded: Shares, seed: set<Address>, ds: seq<Deposit>, dL: nat)
    requires TotalDeposit(ds) > 0 && Joined(s, seeded, seed)
    ensures Depositors(seeded, ds, 0, dL) == Depositors(s, ds, 0, dL) - seed
  {}

  /** A first liquidity takes the dead address's seat before the depositors'. */
  lemma {:induction false} SeedExactly(r: Reserves, s: Shares, ds: seq<Deposit>, dL: nat)
    requires Sound(s) && s.total == 0 && TotalDeposit(ds) > 0 && SqrtProduct(r.x, r.y) > 0 && r.x + TotalDeposit(ds) <= MAX
    requires SqrtProduct(r.x, r.y) + dL <= MAX
    ensures Seeded(r, s).Ok? && Amm.Distribute(r, Seeded(r, s).value, ds, dL).Ok? <==> Seated(|s.holders|, NewHolders(s, ds, dL))
  {
    var seed, others := Newcomer(s, DEAD, SqrtProduct(r.x, r.y)), Depositors(s, ds, 0, dL);
    AddSeats(s, DEAD, SqrtProduct(r.x, r.y));
    SeatedInTurn(|s.holders|, seed, others);
    if Seeded(r, s).Ok? {
      AddKeepsSound(s, DEAD, SqrtProduct(r.x, r.y));
      DistributeExactly(r, Seeded(r, s).value, ds, dL);
      AfterSeed(s, Seeded(r, s).value, seed, ds, dL);
      SeatedInTurn(|s.holders|, others - seed, {});
      assert IsHolder(Seeded(r, s).value, DEAD);
    }
  }

  lemma RootPositive(x: nat, y: nat)
    requires x > 0 && y > 0
    ensures SqrtProduct(x, y) > 0
  {
    MulMono(1, x, y);
  }

  lemma {:induction false} SettlesExactly(r: Reserves, s: Shares, b: Batch)
    requires r.x <= MAX && r.y <= MAX && Sound(s) && Percents(b.withdrawals)
    ensures var w := Withdraw(r, s, b.withdrawals);
            && (w.Ok? <==> WithdrawsThrough(s, b.withdrawals))
            && (Settle(r, s, b).Ok? <==> w.Ok? && DepositsThrough(w.value.r, w.value.shares, b.deposits))
  {
    WithdrawSucceedsExactly(r, s, b.withdrawals);
    if Withdraw(r, s, b.withdrawals).Ok? {
      WithdrawSolvent(r, s, b.withdrawals);
      var w := Withdraw(r, s, b.withdrawals).value;
      DepositSucceedsExactly(w.r, w.shares, b.deposits);
    }
  }

  /** Neither reserve is empty, the receipts leave the reserve that is paid into within 64 bits, and then the withdrawals
      and after them the deposits go through. */
  ghost predicate BatchThrough(r: Reserves, s: Shares, b: Batch, perm: seq<nat>, receipts: seq<nat>)
    requires IsPermutation(perm, |b.orders|) && |receipts| == |b.orders| && Percents(b.withdrawals)
  {
    var r1 := ReachedBy(r, b.orders, perm, receipts, |b.orders|);
    var w := Withdraw(r1, s, b.withdrawals);
    && r.x > 0 && r.y > 0 && r1.x <= MAX
    && WithdrawsThrough(s, b.withdrawals)
    && (w.Ok? ==> DepositsThrough(w.value.r, w.value.shares, b.deposits))
  }

  /** When the counter chain's batch can be executed, of its fair receipts. */
  lemma {:induction false} ExecutesExactly(r: Reserves, s: Shares, b: Batch, perm: seq<nat>, receipts: seq<nat>)
    requires AllFair(r, b.orders, perm, receipts) && r.x <= MAX && r.y <= MAX && Sound(s) && Percents(b.withdrawals)
    ensures Execute(r, s, b, perm).Ok? <==> BatchThrough(r, s, b, perm, receipts)
  {
    ExecSucceedsExactly(r, b.orders, perm, receipts);
    if Exec(r, b.orders, perm).Ok? {
      var out := Exec(r, b.orders, perm).value;
      ReceiptsAreFair(r, b.orders, perm);
      ReachedStays(r, b.orders, perm, receipts, out.receipts, |b.orders|);
      ExecSound(r, b.orders, perm);
      SettlesExactly(out.r, s, b);
    }
  }

  // ---- The accounts: a trigger -------------------------------------------

  /** Settling our own batch pays each address back its orders without a receipt, and what its own withdrawals bring it
      of the reserves as the receipts leave them; nobody else gains and nobody loses. */
  lemma {:induction false} OwnPaysEach(s: Store, id: ChainId, remote: Batch, a: Address)
    requires !Waiting(View(s, id), remote) && s.locked.Some? && HandleOwn(s, id, remote).Ok?
    requires Sound(s.shares) && Percents(s.locked.value.withdrawals)
    requires PoolBalance(s.ledger, LiquidityPool(id)) <= MAX && remote.poolSize <= MAX
    ensures var s', own := HandleOwn(s, id, remote).value.0, s.locked.value;
            var r := ApplyReceipts(Reserves(PoolBalance(s.ledger, LiquidityPool(id)), remote.poolSize), own.orders, remote.receipts);
            && r.Ok?
            && Balance(s'.ledger, a) == Balance(s.ledger, a) + Refunds(own.orders, remote.receipts, 0, a)
                                        + Redeems(r.value.x, s.shares, own.withdrawals, a)
  {
    var own := s.locked.value;
    var b := Book(s.ledger, Reserves(PoolBalance(s.ledger, LiquidityPool(id)), remote.poolSize), s.shares);
    ReceiptsRefund(b, id, own.orders, remote.receipts, 0, a);
    var b1 := ReceiptsFrom(b, id, own.orders, remote.receipts, 0).value;
    ApplyWithin(b.r, own.orders, remote.receipts, 0);
    WithdrawPaysEach(b1, id, own.withdrawals, true, a);
    DepositSpares(HandleWithdraw(b1, id, own.withdrawals, true).value, id, own.deposits, true);
  }

  lemma {:induction false} ApplyWithin(r: Reserves, orders: seq<Order>, receipts: seq<nat>, k: nat)
    requires |orders| == |receipts| && k <= |orders| && ApplyFrom(r, orders, receipts, k).Ok? && r.x <= MAX && r.y <= MAX
    ensures ApplyFrom(r, orders, receipts, k).value.x <= MAX && ApplyFrom(r, orders, receipts, k).value.y <= MAX
    decreases |orders| - k
  {
    if k < |orders| {
      if receipts[k] == 0 {
        ApplyWithin(r, orders, receipts, k + 1);
      } else {
        ApplyWithin(Reserves((r.x + orders[k].amount) % U64, r.y - receipts[k]), orders, receipts, k + 1);
      }
    }
  }

  /** Executing the counter chain's batch pays each address the receipts of its orders, which are the batch's fair ones,
      and what its withdrawals bring it of this chain's reserve as the orders leave it. */
  lemma {:induction false} TheirsPayEach(s: Store, id: ChainId, remote: Batch, shadow: nat, perm: seq<nat>, a: Address)
    requires IsPermutation(perm, |remote.orders|) && HandleTheirs(s, id, remote, shadow, perm).Ok?
    requires Sound(s.shares) && Percents(remote.withdrawals) && shadow <= MAX && PoolBalance(s.ledger, LiquidityPool(id)) <= MAX
    ensures var (s', receipts) := HandleTheirs(s, id, remote, shadow, perm).value;
            var r := Reserves(shadow, PoolBalance(s.ledger, LiquidityPool(id)));
            && AllFair(r, remote.orders, perm, receipts) && |receipts| == |remote.orders|
            && var reached := ReachedBy(r, remote.orders, perm, receipts, |remote.orders|);
               Balance(s'.ledger, a) == Balance(s.ledger, a) + Proceeds(remote.orders, receipts, 0, a)
                                        + Redeems(reached.y, s.shares, remote.withdrawals, a)
  {
    var r := Reserves(shadow, PoolBalance(s.ledger, LiquidityPool(id)));
    var (b1, receipts) := HandleOrders(Book(s.ledger, r, s.shares), id, remote.orders, perm).value;
    ExecShape(r, remote.orders, perm);
    ReceiptsAreFair(r, remote.orders, perm);
    ExecSound(r, remote.orders, perm);
    OrdersPay(s.ledger, id, remote.orders, receipts, 0, a);
    WithdrawPaysEach(b1, id, remote.withdrawals, false, a);
    DepositSpares(HandleWithdraw(b1, id, remote.withdrawals, false).value, id, remote.deposits, false);
  }

  // ---- The accounts: the liveness refund and the users --------------------

  function OrderedBy(orders: seq<Order>, k: nat, a: Address): nat
    requires k <= |orders|
    decreases |orders| - k
  {
    if k == |orders| then 0 else (if orders[k].addr == a then orders[k].amount else 0) + OrderedBy(orders, k + 1, a)
  }

  function DepositedBy(ds: seq<Deposit>, k: nat, a: Address): nat
    requires k <= |ds|
    decreases |ds| - k
  {
    if k == |ds| then 0 else (if ds[k].addr == a then ds[k].amount else 0) + DepositedBy(ds, k + 1, a)
  }

  lemma {:induction false} OrdersRefunded(l: Ledger, id: ChainId, orders: seq<Order>, k: nat, a: Address)
    requires k <= |orders| && RefundOrders(l, id, orders, k).Ok?
    ensures Balance(RefundOrders(l, id, orders, k).value, a) == Balance(l, a) + OrderedBy(orders, k, a)
    decreases |orders| - k
  {
    if k < |orders| {
      OrdersRefunded(RefundOne(l, id, orders[k].addr, orders[k].amount).value, id, orders, k + 1, a);
    }
  }

  lemma {:induction false} DepositsRefunded(l: Ledger, id: ChainId, ds: seq<Deposit>, k: nat, a: Address)
    requires k <= |ds| && RefundDeposits(l, id, ds, k).Ok?
    ensures Balance(RefundDeposits(l, id, ds, k).value, a) == Balance(l, a) + DepositedBy(ds, k, a)
    decreases |ds| - k
  {
    if k < |ds| {
      DepositsRefunded(RefundOne(l, id, ds[k].addr, ds[k].amount).value, id, ds, k + 1, a);
    }
  }

  /** The liveness refund gives each address what it had put into the locked batch, drops that batch, keeps the next one
      and takes over the points it is given. */
  lemma {:induction false} FallbackRefunds(s: Store, id: ChainId, points: Shares, a: Address)
    requires Fallback(s, id, points).Ok?
    ensures var s', own := Fallback(s, id, points).value, Stored(s.locked, 0);
            && Balance(s'.ledger, a) == Balance(s.ledger, a) + OrderedBy(own.orders, 0, a) + DepositedBy(own.deposits, 0, a)
            && s'.locked.None? && s'.next == s.next && s'.height == s.height && s'.shares == points
  {
    var own := Stored(s.locked, 0);
    OrdersRefunded(s.ledger, id, own.orders, 0, a);
    DepositsRefunded(RefundOrders(s.ledger, id, own.orders, 0).value, id, own.deposits, 0, a);
  }

  /** What lets an operation into the next batch: liquidity, room in its list, and for a deposit room among the holders, for
      a withdrawal points. */
  predicate Admits(s: Store, id: ChainId, op: Op) {
    var pool := PoolBalance(s.ledger, LiquidityPool(id));
    var b := Stored(s.next, pool);
    match op
    case Sell(_) => b.poolSize > 0 && |b.orders| < MAX_ORDERS
    case Provide(_) => pool > 0 && |s.shares.holders| < MAX_LIQUIDITY_PROVIDERS && |b.deposits| < MAX_DEPOSITS
    case Redeem(w) => b.poolSize > 0 && |b.withdrawals| < MAX_WITHDRAWALS && exists lp :: lp in s.shares.holders && lp.addr == w.addr
  }

  /** A user's operation goes through exactly when it is not for this very chain, is admitted and can be paid out of
      what the user may spend. It then costs the user what it sells or provides, and nobody else anything; that amount
      joins the holding pool; and the operation goes to the end of its list in the next batch. */
  lemma SubmitCharges(s: Store, id: ChainId, own: ChainId, op: Op, vesting: nat, a: Address)
    ensures var out, n := SubmitOp(s, id, own, op, vesting), Escrowed(op);
            && (out.Ok? <==> own != id && Admits(s, id, op) && (n == 0 || vesting + n <= Balance(s.ledger, User(op))))
            && (out.Ok? ==>
                  var s', b, b' := out.value, Stored(s.next, PoolBalance(s.ledger, LiquidityPool(id))), Stored(out.value.next, 0);
                  && Balance(s.ledger, a) == Balance(s'.ledger, a) + (if a == User(op) then n else 0)
                  && (n > 0 ==> PoolBalance(s'.ledger, HoldingPool(id)) == (PoolBalance(s.ledger, HoldingPool(id)) + n) % U64)
                  && s'.locked == s.locked && s'.shares == s.shares
                  && b'.orders == b.orders + (if op.Sell? then [op.order] else [])
                  && b'.deposits == b.deposits + (if op.Provide? then [op.deposit] else [])
                  && b'.withdrawals == b.withdrawals + (if op.Redeem? then [op.withdrawal] else []))
  {
    if op.Redeem? && IndexOf(s.shares.holders, op.withdrawal.addr) < |s.shares.holders| {
      assert s.shares.holders[IndexOf(s.shares.holders, op.withdrawal.addr)] in s.shares.holders;
    }
  }
}
