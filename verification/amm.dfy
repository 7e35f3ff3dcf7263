/** The reserve arithmetic of fsm/dex.go: x is the reserve being paid into, y the one paid out of. */
module Amm {
  import opened Lib
  import opened Points

  datatype Order = Order(amount: nat, requested: nat, addr: Address)
  datatype Withdrawal = Withdrawal(percent: nat, addr: Address)
  datatype Deposit = Deposit(amount: nat, addr: Address)

  // ---- Integer square root -----------------------------------------------

  function Isqrt(n: nat): (r: nat)
    ensures r * r <= n < (r + 1) * (r + 1)
  {
    if n == 0 then 0 else
      var r := Isqrt(n - 1);
      if (r + 1) * (r + 1) <= n then r + 1 else r
  }

  /** lib.SqrtProductUint64: for 64-bit arguments the root fits 64 bits. */
  function SqrtProduct(x: nat, y: nat): nat { MulNonNeg(x, y); Isqrt(x * y) }

  lemma SquareMono(a: nat, b: nat)
    requires a <= b
    ensures a * a <= b * b
  {
    MulMono(a, b, a);
    MulMono(a, b, b);
  }

  lemma SqrtMono(x: nat, x': nat, y: nat)
    requires x <= x'
    ensures SqrtProduct(x, y) <= SqrtProduct(x', y)
  {
    MulMono(x, x', y);
    var r, r' := SqrtProduct(x, y), SqrtProduct(x', y);
    if r' < r {
      SquareMono(r' + 1, r);
      assert false;
    }
  }

  // ---- Orders ------------------------------------------------------------

  /** SafeComputeDY: the constant-product output with the 1% fee. */
  function ComputeDY(x: nat, y: nat, dX: nat): nat
    requires x > 0
  {
    MulNonNeg(dX * 990, y);
    (dX * 990 * y) / (x * 1000 + dX * 990)
  }

  /** The output is less than the reserve (so it fits 64 bits) and the product does not fall. */
  lemma SwapKeepsProduct(x: nat, y: nat, dX: nat)
    requires x > 0 && y > 0
    ensures ComputeDY(x, y, dX) < y
    ensures x * y <= (x + dX) * (y - ComputeDY(x, y, dX))
  {
    var dY := ComputeDY(x, y, dX);
    var n, d := dX * 990 * y, x * 1000 + dX * 990;
    MulNonNeg(dX * 990, y);
    QuotientTimes(n, d);
    MulMono(1, x, y);
    FeeExact(x, y, dX);
    QuotientLess(n, d, y);
    MulMono(dY, y, dX);
    ProductGrows(x, y, dX, dY);
  }

  lemma FeeExact(x: nat, y: nat, dX: nat)
    ensures y * (x * 1000 + dX * 990) == dX * 990 * y + 1000 * (x * y)
  {}

  lemma ProductGrows(x: nat, y: nat, dX: nat, dY: nat)
    requires dY * (x * 1000 + dX * 990) <= dX * 990 * y && dY * dX <= y * dX
    ensures x * y <= (x + dX) * (y - dY)
  {
    assert dY * (x * 1000 + dX * 990) == 1000 * (dY * x) + 990 * (dY * dX);
    assert dX * 990 * y == 990 * (y * dX);
    assert (x + dX) * (y - dY) - x * y == y * dX - dY * x - dY * dX;
  }

  /** The whole output of paying dX into x, for a fee of 1%: the floor of 990 dX y / (1000 x + 990 dX). */
  predicate SwapOutput(x: nat, y: nat, dX: nat, d: nat) {
    d * (1000 * x + 990 * dX) <= 990 * dX * y < (d + 1) * (1000 * x + 990 * dX)
  }

  lemma SwapExact(x: nat, y: nat, dX: nat)
    requires x > 0
    ensures SwapOutput(x, y, dX, ComputeDY(x, y, dX))
  {
    MulNonNeg(dX * 990, y);
    var n, d := dX * 990 * y, x * 1000 + dX * 990;
    QuotientTimes(n, d);
    var dY := ComputeDY(x, y, dX);
    assert dX * 990 == 990 * dX && x * 1000 == 1000 * x;
    assert (dY + 1) * d == dY * d + d;
  }

  lemma SwapUnique(x: nat, y: nat, dX: nat, d: nat, e: nat)
    requires SwapOutput(x, y, dX, d) && SwapOutput(x, y, dX, e)
    ensures d == e
  {
    var q := 1000 * x + 990 * dX;
    if d < e {
      MulMono(d + 1, e, q);
    } else if e < d {
      MulMono(e + 1, d, q);
    }
  }

  datatype Reserves = Reserves(x: nat, y: nat)

  datatype Executed = Executed(r: Reserves, receipts: seq<nat>)

  predicate IsPermutation(perm: seq<nat>, n: nat) {
    && |perm| == n
    && (forall k | 0 <= k < n :: perm[k] < n)
    && (forall j, k | 0 <= j < k < n :: perm[j] != perm[k])
  }

  /** The output an order gets: nothing when it is below what it asked for. */
  function Output(r: Reserves, o: Order): nat
    requires r.x > 0
  {
    var dY := ComputeDY(r.x, r.y, o.amount);
    if dY < o.requested then 0 else dY
  }

  /** Orders k.. of the shuffled list, the receipts of the earlier ones already recorded. */
  function ExecFrom(e: Executed, orders: seq<Order>, perm: seq<nat>, k: nat): Result<Executed>
    requires IsPermutation(perm, |orders|) && k <= |orders| && |e.receipts| == |orders|
    requires e.r.x > 0 && e.r.y > 0
    decreases |orders| - k
  {
    if k == |orders| then Ok(e) else
      var o := orders[perm[k]];
      var dY := Output(e.r, o);
      SwapKeepsProduct(e.r.x, e.r.y, o.amount);
      if dY == 0 then ExecFrom(e.(receipts := e.receipts[perm[k] := 0]), orders, perm, k + 1)
      else if e.r.x + o.amount > MAX then Err(InvalidLiquidityPool)
      else ExecFrom(Executed(Reserves(e.r.x + o.amount, e.r.y - dY), e.receipts[perm[k] := dY]), orders, perm, k + 1)
  }

  /** HandleDexBatchOrders: the shuffled execution of a batch, receipts in the order of the batch. */
  function Exec(r: Reserves, orders: seq<Order>, perm: seq<nat>): Result<Executed>
    requires IsPermutation(perm, |orders|)
  {
    if r.x == 0 || r.y == 0 then Err(InvalidLiquidityPool)
    else ExecFrom(Executed(r, seq(|orders|, i => 0)), orders, perm, 0)
  }

  /** What the successful orders pay in, and what all orders are paid. */
  function PaidIn(orders: seq<Order>, receipts: seq<nat>): nat
    requires |orders| == |receipts|
  {
    if orders == [] then 0 else (if receipts[0] != 0 then orders[0].amount else 0) + PaidIn(orders[1..], receipts[1..])
  }

  function PaidOut(receipts: seq<nat>): nat {
    if receipts == [] then 0 else receipts[0] + PaidOut(receipts[1..])
  }

  lemma {:induction false} RecordReceipt(orders: seq<Order>, receipts: seq<nat>, i: nat, v: nat)
    requires |orders| == |receipts| && i < |orders| && receipts[i] == 0
    ensures PaidOut(receipts[i := v]) == PaidOut(receipts) + v
    ensures PaidIn(orders, receipts[i := v]) == PaidIn(orders, receipts) + if v != 0 then orders[i].amount else 0
  {
    if i == 0 {
      assert receipts[i := v][1..] == receipts[1..];
    } else {
      RecordReceipt(orders[1..], receipts[1..], i - 1, v);
      assert receipts[i := v][1..] == receipts[1..][i - 1 := v];
    }
  }

  /** Each non-zero receipt is at least what its order requested. */
  predicate Honoured(orders: seq<Order>, receipts: seq<nat>) {
    |orders| == |receipts| && forall i | 0 <= i < |orders| :: receipts[i] != 0 ==> receipts[i] >= orders[i].requested
  }

  /** The reserves have moved by exactly the recorded receipts, and their product has not fallen. */
  ghost predicate Accounted(r: Reserves, e: Executed, orders: seq<Order>) {
    && Honoured(orders, e.receipts)
    && e.r.x == r.x + PaidIn(orders, e.receipts)
    && e.r.y + PaidOut(e.receipts) == r.y
    && e.r.x > 0 && e.r.y > 0
    && r.x * r.y <= e.r.x * e.r.y
  }

  lemma {:induction false} ExecFromAccounted(r: Reserves, e: Executed, orders: seq<Order>, perm: seq<nat>, k: nat)
    requires IsPermutation(perm, |orders|) && k <= |orders| && |e.receipts| == |orders|
    requires Accounted(r, e, orders) && e.r.x <= MAX
    requires forall j | k <= j < |orders| :: e.receipts[perm[j]] == 0
    requires ExecFrom(e, orders, perm, k).Ok?
    ensures var out := ExecFrom(e, orders, perm, k).value;
            Accounted(r, out, orders) && |out.receipts| == |orders| && out.r.x <= MAX
    decreases |orders| - k
  {
    if k < |orders| {
      var i := perm[k];
      var dY := Output(e.r, orders[i]);
      SwapKeepsProduct(e.r.x, e.r.y, orders[i].amount);
      RecordReceipt(orders, e.receipts, i, dY);
      var e' := if dY == 0 then e.(receipts := e.receipts[i := 0])
                else Executed(Reserves(e.r.x + orders[i].amount, e.r.y - dY), e.receipts[i := dY]);
      assert forall j | k + 1 <= j < |orders| :: perm[j] != i;
      ExecFromAccounted(r, e', orders, perm, k + 1);
    }
  }

  lemma {:induction false} NoReceipts(orders: seq<Order>, receipts: seq<nat>)
    requires |orders| == |receipts| && forall i | 0 <= i < |receipts| :: receipts[i] == 0
    ensures PaidIn(orders, receipts) == 0 && PaidOut(receipts) == 0
  {
    if orders != [] { NoReceipts(orders[1..], receipts[1..]); }
  }

  /** Batch orders, for every permutation: the product never falls over the batch, the paying reserve
      stays positive, no non-zero receipt is below its request, and the reserves move by exactly the
      receipts and the sales they stand for. */
  lemma ExecSound(r: Reserves, orders: seq<Order>, perm: seq<nat>)
    requires IsPermutation(perm, |orders|) && r.x <= MAX
    requires Exec(r, orders, perm).Ok?
    ensures var out := Exec(r, orders, perm).value;
            Accounted(r, out, orders) && |out.receipts| == |orders| && out.r.x <= MAX
  {
    var none := seq(|orders|, i => 0);
    NoReceipts(orders, none);
    ExecFromAccounted(r, Executed(r, none), orders, perm, 0);
  }

  // ---- What each order gets ----------------------------------------------

  /** The reserves when the k-th order of the shuffled list is reached, told from the receipts alone. */
  function ReachedBy(r: Reserves, orders: seq<Order>, perm: seq<nat>, receipts: seq<nat>, k: nat): Reserves
    requires IsPermutation(perm, |orders|) && |receipts| == |orders| && k <= |orders|
  {
    if k == 0 then r else
      var before, i := ReachedBy(r, orders, perm, receipts, k - 1), perm[k - 1];
      if receipts[i] == 0 then before
      else Reserves(before.x + orders[i].amount, if receipts[i] <= before.y then before.y - receipts[i] else 0)
  }

  /** A receipt is the whole output at these reserves, or 0 when that is less than the order asked for. */
  ghost predicate Fair(r: Reserves, o: Order, receipt: nat) {
    exists d: nat :: SwapOutput(r.x, r.y, o.amount, d) && receipt == if d >= o.requested then d else 0
  }

  /** The k-th order of the shuffled list gets a fair receipt. */
  ghost predicate FairAt(r: Reserves, orders: seq<Order>, perm: seq<nat>, receipts: seq<nat>, k: nat)
    requires IsPermutation(perm, |orders|) && |receipts| == |orders| && k < |orders|
  {
    Fair(ReachedBy(r, orders, perm, receipts, k), orders[perm[k]], receipts[perm[k]])
  }

  ghost predicate AllFair(r: Reserves, orders: seq<Order>, perm: seq<nat>, receipts: seq<nat>) {
    && IsPermutation(perm, |orders|) && |receipts| == |orders|
    && forall k | 0 <= k < |orders| :: FairAt(r, orders, perm, receipts, k)
  }

  lemma {:induction false} ReachedStays(r: Reserves, orders: seq<Order>, perm: seq<nat>, a: seq<nat>, b: seq<nat>, k: nat)
    requires IsPermutation(perm, |orders|) && |a| == |b| == |orders| && k <= |orders|
    requires forall j | 0 <= j < k :: a[perm[j]] == b[perm[j]]
    ensures ReachedBy(r, orders, perm, a, k) == ReachedBy(r, orders, perm, b, k)
  {
    if k > 0 { ReachedStays(r, orders, perm, a, b, k - 1); }
  }

  lemma OutputIsFair(r: Reserves, o: Order)
    requires r.x > 0
    ensures Fair(r, o, Output(r, o))
  {
    SwapExact(r.x, r.y, o.amount);
  }

  lemma FairIsUnique(r: Reserves, o: Order, a: nat, b: nat)
    requires Fair(r, o, a) && Fair(r, o, b)
    ensures a == b
  {
    var d: nat :| SwapOutput(r.x, r.y, o.amount, d) && a == if d >= o.requested then d else 0;
    var e: nat :| SwapOutput(r.x, r.y, o.amount, e) && b == if e >= o.requested then e else 0;
    SwapUnique(r.x, r.y, o.amount, d, e);
  }

  lemma {:induction false} ReachedGrows(r: Reserves, orders: seq<Order>, perm: seq<nat>, receipts: seq<nat>, k: nat, n: nat)
    requires IsPermutation(perm, |orders|) && |receipts| == |orders| && k <= n <= |orders|
    ensures ReachedBy(r, orders, perm, receipts, k).x <= ReachedBy(r, orders, perm, receipts, n).x
  {
    if k < n { ReachedGrows(r, orders, perm, receipts, k, n - 1); }
  }

  /** The state after one more order. */
  function ExecOne(e: Executed, orders: seq<Order>, i: nat, receipt: nat): Executed
    requires i < |orders| && |e.receipts| == |orders|
  {
    Executed(if receipt == 0 then e.r
             else Reserves(e.r.x + orders[i].amount, if receipt <= e.r.y then e.r.y - receipt else 0), e.receipts[i := receipt])
  }

  /** One more order: its receipt is the fair one, and it goes through while the reserve paid into fits 64 bits. */
  lemma {:induction false} ExecStep(e: Executed, orders: seq<Order>, perm: seq<nat>, k: nat, fair: nat)
    requires IsPermutation(perm, |orders|) && k < |orders| && |e.receipts| == |orders| && 0 < e.r.x <= MAX && e.r.y > 0
    requires Fair(e.r, orders[perm[k]], fair)
    ensures var e' := ExecOne(e, orders, perm[k], fair);
            && e'.r.x > 0 && e'.r.y > 0
            && ExecFrom(e, orders, perm, k) == if e'.r.x <= MAX then ExecFrom(e', orders, perm, k + 1) else Err(InvalidLiquidityPool)
  {
    SwapKeepsProduct(e.r.x, e.r.y, orders[perm[k]].amount);
    OutputIsFair(e.r, orders[perm[k]]);
    FairIsUnique(e.r, orders[perm[k]], fair, Output(e.r, orders[perm[k]]));
  }

  lemma {:induction false} ExecFromFair(r: Reserves, e: Executed, orders: seq<Order>, perm: seq<nat>, k: nat)
    requires IsPermutation(perm, |orders|) && k <= |orders| && |e.receipts| == |orders| && e.r.x > 0 && e.r.y > 0
    requires e.r == ReachedBy(r, orders, perm, e.receipts, k)
    requires forall j | 0 <= j < k :: FairAt(r, orders, perm, e.receipts, j)
    requires ExecFrom(e, orders, perm, k).Ok?
    ensures var out := ExecFrom(e, orders, perm, k).value;
            AllFair(r, orders, perm, out.receipts) && out.r == ReachedBy(r, orders, perm, out.receipts, |orders|)
    decreases |orders| - k
  {
    if k < |orders| {
      var i, dY := perm[k], Output(e.r, orders[perm[k]]);
      SwapKeepsProduct(e.r.x, e.r.y, orders[i].amount);
      OutputIsFair(e.r, orders[i]);
      var e' := ExecOne(e, orders, i, dY);
      forall j | 0 <= j <= k
        ensures ReachedBy(r, orders, perm, e'.receipts, j) == ReachedBy(r, orders, perm, e.receipts, j)
      {
        ReachedStays(r, orders, perm, e.receipts, e'.receipts, j);
      }
      forall j | 0 <= j < k ensures FairAt(r, orders, perm, e'.receipts, j) {
        assert FairAt(r, orders, perm, e.receipts, j);
      }
      ExecFromFair(r, e', orders, perm, k + 1);
    }
  }

  /** Every receipt of a batch is the whole output at the reserves when its order is reached, in the shuffled sequence,
      or 0 when that is less than the order asked for; and the reserves end where the receipts take them. */
  lemma {:induction false} ReceiptsAreFair(r: Reserves, orders: seq<Order>, perm: seq<nat>)
    requires IsPermutation(perm, |orders|) && Exec(r, orders, perm).Ok?
    ensures var out := Exec(r, orders, perm).value;
            AllFair(r, orders, perm, out.receipts) && out.r == ReachedBy(r, orders, perm, out.receipts, |orders|)
  {
    ExecFromFair(r, Executed(r, seq(|orders|, i => 0)), orders, perm, 0);
  }

  lemma {:induction false} ExecFromSucceeds(r: Reserves, e: Executed, orders: seq<Order>, perm: seq<nat>, k: nat, receipts: seq<nat>)
    requires AllFair(r, orders, perm, receipts) && k <= |orders| && |e.receipts| == |orders|
    requires e.r == ReachedBy(r, orders, perm, receipts, k) && 0 < e.r.x <= MAX && e.r.y > 0
    requires forall j | 0 <= j < k :: e.receipts[perm[j]] == receipts[perm[j]]
    ensures var out := ExecFrom(e, orders, perm, k);
            && (out.Ok? <==> ReachedBy(r, orders, perm, receipts, |orders|).x <= MAX)
            && (out.Ok? ==> |out.value.receipts| == |orders|
                            && forall j | 0 <= j < |orders| :: out.value.receipts[perm[j]] == receipts[perm[j]])
    decreases |orders| - k
  {
    if k < |orders| {
      var i := perm[k];
      assert FairAt(r, orders, perm, receipts, k);
      ExecStep(e, orders, perm, k, receipts[i]);
      var e' := ExecOne(e, orders, i, receipts[i]);
      assert e'.r == ReachedBy(r, orders, perm, receipts, k + 1);
      ReachedGrows(r, orders, perm, receipts, k + 1, |orders|);
      if e'.r.x <= MAX {
        assert e'.receipts[i] == receipts[i] && forall j | 0 <= j < k :: perm[j] != i;
        ExecFromSucceeds(r, e', orders, perm, k + 1, receipts);
      }
    }
  }

  /** And there is only one such list of receipts: a batch succeeds exactly when neither reserve is empty and the
      reserve paid into, as those receipts leave it, fits 64 bits. */
  lemma {:induction false} ExecSucceedsExactly(r: Reserves, orders: seq<Order>, perm: seq<nat>, receipts: seq<nat>)
    requires AllFair(r, orders, perm, receipts) && r.x <= MAX
    ensures var out := Exec(r, orders, perm);
            && (out.Ok? <==> r.x > 0 && r.y > 0 && ReachedBy(r, orders, perm, receipts, |orders|).x <= MAX)
            && (out.Ok? ==> |out.value.receipts| == |orders|
                            && forall j | 0 <= j < |orders| :: out.value.receipts[perm[j]] == receipts[perm[j]])
  {
    if r.x > 0 && r.y > 0 {
      ExecFromSucceeds(r, Executed(r, seq(|orders|, i => 0)), orders, perm, 0, receipts);
    }
  }

  // ---- Receipts ----------------------------------------------------------

  /** The ledger part of HandleOrderReceipts from order k on. The sum into x is unguarded. */
  function ApplyFrom(r: Reserves, orders: seq<Order>, receipts: seq<nat>, k: nat): Result<Reserves>
    requires |orders| == |receipts| && k <= |orders|
    decreases |orders| - k
  {
    if k == |orders| then Ok(r)
    else if receipts[k] == 0 then ApplyFrom(r, orders, receipts, k + 1)
    else if r.y <= receipts[k] then Err(RemotePoolSizeDebit)
    else ApplyFrom(Reserves((r.x + orders[k].amount) % U64, r.y - receipts[k]), orders, receipts, k + 1)
  }

  function ApplyReceipts(r: Reserves, orders: seq<Order>, receipts: seq<nat>): Result<Reserves>
    requires |orders| == |receipts|
  {
    ApplyFrom(r, orders, receipts, 0)
  }

  lemma {:induction false} ApplyFromMoves(r: Reserves, orders: seq<Order>, receipts: seq<nat>, k: nat)
    requires |orders| == |receipts| && k <= |orders|
    requires r.x + PaidIn(orders[k..], receipts[k..]) <= MAX
    requires PaidOut(receipts[k..]) < r.y
    ensures ApplyFrom(r, orders, receipts, k)
            == Ok(Reserves(r.x + PaidIn(orders[k..], receipts[k..]), r.y - PaidOut(receipts[k..])))
    decreases |orders| - k
  {
    if k < |orders| {
      assert orders[k..][1..] == orders[k + 1..] && receipts[k..][1..] == receipts[k + 1..];
      if receipts[k] == 0 {
        ApplyFromMoves(r, orders, receipts, k + 1);
      } else {
        assert (r.x + orders[k].amount) % U64 == r.x + orders[k].amount;
        ApplyFromMoves(Reserves(r.x + orders[k].amount, r.y - receipts[k]), orders, receipts, k + 1);
      }
    }
  }

  /** The owner's replay of the receipts ends in the reserves the executing chain ended in, although it
      goes through the orders in another sequence; in particular it never meets a debit it cannot make. */
  lemma ReceiptsMirrorExecution(r: Reserves, orders: seq<Order>, perm: seq<nat>)
    requires IsPermutation(perm, |orders|) && r.x <= MAX
    requires Exec(r, orders, perm).Ok?
    ensures var out := Exec(r, orders, perm).value;
            |out.receipts| == |orders| && ApplyReceipts(r, orders, out.receipts) == Ok(out.r)
  {
    ExecSound(r, orders, perm);
    var out := Exec(r, orders, perm).value;
    assert orders[0..] == orders && out.receipts[0..] == out.receipts;
    ApplyFromMoves(r, orders, out.receipts, 0);
  }

  // ---- Withdrawals -------------------------------------------------------

  datatype Payment = Payment(addr: Address, points: nat, xShare: nat, yShare: nat)

  datatype Withdrawn = Withdrawn(r: Reserves, shares: Shares, payments: seq<Payment>)

  /** What one request asks to burn of the points held when it is looked at. */
  function Claim(s: Shares, w: Withdrawal): nat { MulDiv(Held(s, w.addr), w.percent, 100) }

  /** The first pass: every claim against the points as they are before the batch. */
  function Claims(s: Shares, ws: seq<Withdrawal>): nat {
    if ws == [] then 0 else Claim(s, ws[0]) + Claims(s, ws[1..])
  }

  datatype Payouts = Payouts(shares: Shares, payments: seq<Payment>)

  /** Pay and burn one request, against the points left by earlier ones; strangers are skipped. */
  function PayOne(p: Payouts, w: Withdrawal, totalX: nat, totalY: nat, claims: nat): Result<Payouts> {
    if PointsFor(p.shares, w.addr).None? then Ok(p) else
      var points := Claim(p.shares, w);
      match Removed(p.shares, w.addr, points)
      case Err(e) => Err(e)
      case Ok(left) =>
        var payment := Payment(w.addr, points, MulDiv(totalX, points, claims), MulDiv(totalY, points, claims));
        Ok(Payouts(left, p.payments + [payment]))
  }

  /** The second pass from request k on. */
  function PayFrom(p: Payouts, ws: seq<Withdrawal>, k: nat, totalX: nat, totalY: nat, claims: nat): Result<Payouts>
    requires k <= |ws|
    decreases |ws| - k
  {
    if k == |ws| then Ok(p) else
      match PayOne(p, ws[k], totalX, totalY, claims)
      case Err(e) => Err(e)
      case Ok(p') => PayFrom(p', ws, k + 1, totalX, totalY, claims)
  }

  function SumX(ps: seq<Payment>): nat { if ps == [] then 0 else SumX(ps[..|ps| - 1]) + ps[|ps| - 1].xShare }

  function SumY(ps: seq<Payment>): nat { if ps == [] then 0 else SumY(ps[..|ps| - 1]) + ps[|ps| - 1].yShare }

  function Burned(ps: seq<Payment>): nat { if ps == [] then 0 else Burned(ps[..|ps| - 1]) + ps[|ps| - 1].points }

  /** The ledger part of HandleBatchWithdraw. The final debits are unguarded subtractions. */
  function Withdraw(r: Reserves, s: Shares, ws: seq<Withdrawal>): Result<Withdrawn> {
    var claims := Claims(s, ws);
    if ws == [] then Ok(Withdrawn(r, s, []))
    else if claims > MAX then Err(InvalidLiquidityPool)
    else if claims == 0 || s.total == 0 then Ok(Withdrawn(r, s, []))
    else
      match PayFrom(Payouts(s, []), ws, 0, MulDiv(r.x, claims, s.total), MulDiv(r.y, claims, s.total), claims)
      case Err(e) => Err(e)
      case Ok(p) => Ok(Withdrawn(Reserves(WrapSub(r.x, SumX(p.payments)), WrapSub(r.y, SumY(p.payments))), p.shares, p.payments))
  }

  predicate Percents(ws: seq<Withdrawal>) { forall k | 0 <= k < |ws| :: ws[k].percent <= 100 }

  /** Midway through the second pass: what was paid is at most the burned points' part of the totals. */
  ghost predicate Paying(s: Shares, p: Payouts, totalX: nat, totalY: nat, claims: nat) {
    && Sound(p.shares)
    && p.shares.total + Burned(p.payments) == s.total
    && p.shares.total > 0
    && SumX(p.payments) * claims <= totalX * Burned(p.payments)
    && SumY(p.payments) * claims <= totalY * Burned(p.payments)
  }

  lemma PaidShare(sum: nat, total: nat, burned: nat, points: nat, claims: nat)
    requires sum * claims <= total * burned
    ensures (sum + MulDiv(total, points, claims)) * claims <= total * (burned + points)
  {
    MulDivBound(total, points, claims);
    assert (sum + MulDiv(total, points, claims)) * claims == sum * claims + MulDiv(total, points, claims) * claims;
    assert total * (burned + points) == total * burned + total * points;
  }

  lemma PayOnePays(s: Shares, p: Payouts, w: Withdrawal, totalX: nat, totalY: nat, claims: nat)
    requires w.percent <= 100
    requires Paying(s, p, totalX, totalY, claims)
    requires PayOne(p, w, totalX, totalY, claims).Ok?
    ensures Paying(s, PayOne(p, w, totalX, totalY, claims).value, totalX, totalY, claims)
  {
    if PointsFor(p.shares, w.addr).Some? {
      var points := Claim(p.shares, w);
      MulDivShare(Held(p.shares, w.addr), w.percent, 100);
      RemoveKeepsSound(p.shares, w.addr, points);
      var p' := PayOne(p, w, totalX, totalY, claims).value;
      assert p'.payments[..|p'.payments| - 1] == p.payments;
      PaidShare(SumX(p.payments), totalX, Burned(p.payments), points, claims);
      PaidShare(SumY(p.payments), totalY, Burned(p.payments), points, claims);
    }
  }

  lemma {:induction false} PayFromPays(s: Shares, p: Payouts, ws: seq<Withdrawal>, k: nat, totalX: nat, totalY: nat, claims: nat)
    requires k <= |ws| && Percents(ws)
    requires Paying(s, p, totalX, totalY, claims)
    requires PayFrom(p, ws, k, totalX, totalY, claims).Ok?
    ensures Paying(s, PayFrom(p, ws, k, totalX, totalY, claims).value, totalX, totalY, claims)
    decreases |ws| - k
  {
    if k < |ws| {
      PayOnePays(s, p, ws[k], totalX, totalY, claims);
      PayFromPays(s, PayOne(p, ws[k], totalX, totalY, claims).value, ws, k + 1, totalX, totalY, claims);
    }
  }

  lemma WithinReserve(y: nat, points: nat, burned: nat, paid: nat)
    requires burned < points && paid * points <= y * burned
    ensures paid <= y && (y > 0 ==> paid < y)
  {
    if y == 0 {
      Cancel(paid, 0, points);
    } else {
      MulMono(1, y, points - burned);
      assert y * points - y * burned == y * (points - burned);
      if y <= paid {
        MulMono(y, paid, points);
        assert false;
      }
    }
  }

  lemma ComposeRoundings(y: nat, total: nat, claims: nat, points: nat, burned: nat, paid: nat)
    requires claims > 0
    requires total * points <= y * claims && paid * claims <= total * burned
    ensures paid * points <= y * burned
  {
    calc {
      paid * points * claims;
    == { Reorder(paid, points, claims); }
      paid * claims * points;
    <= { MulMono(paid * claims, total * burned, points); }
      total * burned * points;
    == { Reorder(total, burned, points); }
      total * points * burned;
    <= { MulMono(total * points, y * claims, burned); }
      y * claims * burned;
    == { Reorder(y, claims, burned); }
      y * burned * claims;
    }
    Cancel(paid * points, y * burned, claims);
  }

  lemma Reorder(a: nat, b: nat, c: nat)
    ensures a * b * c == a * c * b
  {}

  /** From the bounds of the two roundings: the payments of one side stay within its reserve. */
  lemma PaymentsWithinReserve(y: nat, total: nat, claims: nat, points: nat, burned: nat, paid: nat)
    requires claims > 0 && burned < points
    requires total * points <= y * claims && paid * claims <= total * burned
    ensures paid * points <= y * burned
    ensures paid <= y && (y > 0 ==> paid < y)
    ensures (y - paid) * points >= y * (points - burned)
  {
    ComposeRoundings(y, total, claims, points, burned, paid);
    WithinReserve(y, points, burned, paid);
    assert (y - paid) * points == y * points - paid * points;
    assert y * (points - burned) == y * points - y * burned;
  }

  /** Withdrawal solvency, for any list of requests, also several by one holder whose claims together
      exceed the whole pool: the debits cannot underflow, both reserves stay positive, points remain, and
      the reserve behind each remaining point has not fallen on either side. */
  lemma WithdrawSolvent(r: Reserves, s: Shares, ws: seq<Withdrawal>)
    requires Sound(s) && Percents(ws) && r.x <= MAX && r.y <= MAX
    requires Withdraw(r, s, ws).Ok?
    ensures var w := Withdraw(r, s, ws).value;
            && Sound(w.shares)
            && w.shares.total + Burned(w.payments) == s.total
            && (s.total > 0 ==> w.shares.total > 0)
            && w.r.x + SumX(w.payments) == r.x && w.r.y + SumY(w.payments) == r.y
            && (r.x > 0 ==> w.r.x > 0) && (r.y > 0 ==> w.r.y > 0)
            && w.r.x * s.total >= r.x * w.shares.total
            && w.r.y * s.total >= r.y * w.shares.total
  {
    var claims := Claims(s, ws);
    if ws != [] && claims > 0 && s.total > 0 {
      var totalX, totalY := MulDiv(r.x, claims, s.total), MulDiv(r.y, claims, s.total);
      PayFromPays(s, Payouts(s, []), ws, 0, totalX, totalY, claims);
      var p := PayFrom(Payouts(s, []), ws, 0, totalX, totalY, claims).value;
      SideSolvent(r.x, s.total, claims, Burned(p.payments), SumX(p.payments));
      SideSolvent(r.y, s.total, claims, Burned(p.payments), SumY(p.payments));
    }
  }

  /** One side of the batch: the debit is exact and leaves at least the remaining points' part. */
  lemma SideSolvent(y: nat, points: nat, claims: nat, burned: nat, paid: nat)
    requires claims > 0 && burned < points && y <= MAX
    requires paid * claims <= MulDiv(y, claims, points) * burned
    ensures WrapSub(y, paid) + paid == y
    ensures y > 0 ==> WrapSub(y, paid) > 0
    ensures WrapSub(y, paid) * points >= y * (points - burned)
  {
    MulDivBound(y, claims, points);
    PaymentsWithinReserve(y, MulDiv(y, claims, points), claims, points, burned, paid);
    WrapSubExact(y, paid);
  }

  // ---- Deposits ----------------------------------------------------------

  /** The owner-less address that takes the first points and all rounding dust: "dead" ten times. */
  const DEAD: Address := 0xdead_dead_dead_dead_dead_dead_dead_dead_dead_dead

  datatype Deposited = Deposited(x: nat, shares: Shares, distributed: nat)

  function TotalDeposit(ds: seq<Deposit>): nat {
    if ds == [] then 0 else ds[0].amount + TotalDeposit(ds[1..])
  }

  /** One depositor's pro-rata points; a newcomer beyond the holder cap fails the batch. */
  function MintOne(d: Deposited, deposit: Deposit, totalDL: nat, totalDeposit: nat): Result<Deposited> {
    var share := MulDiv(totalDL, deposit.amount, totalDeposit);
    if share > 0 && PointsFor(d.shares, deposit.addr).None? && |d.shares.holders| >= MAX_LIQUIDITY_PROVIDERS then
      Err(InvalidLiquidityPool)
    else
      match Added(d.shares, deposit.addr, share)
      case Err(e) => Err(e)
      case Ok(s) =>
        if d.x + deposit.amount > MAX then Err(InvalidLiquidityPool)
        else Ok(Deposited(d.x + deposit.amount, s, d.distributed + share))
  }

  function MintFrom(d: Deposited, ds: seq<Deposit>, k: nat, totalDL: nat, totalDeposit: nat): Result<Deposited>
    requires k <= |ds|
    decreases |ds| - k
  {
    if k == |ds| then Ok(d) else
      match MintOne(d, ds[k], totalDL, totalDeposit)
      case Err(e) => Err(e)
      case Ok(d') => MintFrom(d', ds, k + 1, totalDL, totalDeposit)
  }

  /** The points of a pool before the deposit, the first liquidity being credited to the dead address. */
  function Seeded(r: Reserves, s: Shares): Result<Shares> {
    if s.total == 0 then Added(s, DEAD, SqrtProduct(r.x, r.y)) else Ok(s)
  }

  function Liquidity(r: Reserves, s: Shares): nat {
    if s.total == 0 then SqrtProduct(r.x, r.y) else s.total
  }

  /** What one big deposit of the total would be given. */
  function Growth(r: Reserves, s: Shares, totalDeposit: nat): nat {
    SqrtMono(r.x, r.x + totalDeposit, r.y);
    MulDiv(Liquidity(r, s), SqrtProduct(r.x + totalDeposit, r.y) - SqrtProduct(r.x, r.y), SqrtProduct(r.x, r.y))
  }

  /** The seeded points and how many to add, before anything is distributed. */
  function Plan(r: Reserves, s: Shares, totalDeposit: nat): Result<(Shares, nat)> {
    match Seeded(r, s)
    case Err(e) => Err(e)
    case Ok(seeded) =>
      if SqrtProduct(r.x, r.y) == 0 || r.x + totalDeposit > MAX then Err(InvalidLiquidityPool)
      else Ok((seeded, Growth(r, s, totalDeposit)))
  }

  predicate NoDeposit(r: Reserves, ds: seq<Deposit>) {
    ds == [] || TotalDeposit(ds) == 0 || r.x == 0 || r.y == 0
  }

  /** The ledger part of HandleBatchDeposit: the reserve paid into, and the points. */
  function DepositAll(r: Reserves, s: Shares, ds: seq<Deposit>): Result<(Reserves, Shares)> {
    var totalDeposit := TotalDeposit(ds);
    if totalDeposit > MAX then Err(InvalidLiquidityPool)
    else if NoDeposit(r, ds) then Ok((r, s))
    else
      match Plan(r, s, totalDeposit)
      case Err(e) => Err(e)
      case Ok((seeded, totalDL)) => Distribute(r, seeded, ds, totalDL)
  }

  /** Hand out the new points pro rata and sink the dust. */
  function Distribute(r: Reserves, s: Shares, ds: seq<Deposit>, totalDL: nat): Result<(Reserves, Shares)> {
    match MintFrom(Deposited(r.x, s, 0), ds, 0, totalDL, TotalDeposit(ds))
    case Err(e) => Err(e)
    case Ok(d) =>
      match Added(d.shares, DEAD, WrapSub(totalDL, d.distributed))
      case Err(e) => Err(e)
      case Ok(s') => Ok((r.(x := d.x), s'))
  }

  /** Midway through the distribution: nobody has been given more than the deposited part of the total. */
  ghost predicate Minting(r: Reserves, liquidity: nat, d: Deposited, totalDL: nat, totalDeposit: nat) {
    && Sound(d.shares)
    && d.x >= r.x
    && d.shares.total == liquidity + d.distributed
    && d.distributed * totalDeposit <= totalDL * (d.x - r.x)
  }

  lemma MintOneMints(r: Reserves, liquidity: nat, d: Deposited, deposit: Deposit, totalDL: nat, totalDeposit: nat)
    requires Minting(r, liquidity, d, totalDL, totalDeposit)
    requires MintOne(d, deposit, totalDL, totalDeposit).Ok?
    ensures var out := MintOne(d, deposit, totalDL, totalDeposit).value;
            Minting(r, liquidity, out, totalDL, totalDeposit) && out.x == d.x + deposit.amount
  {
    AddKeepsSound(d.shares, deposit.addr, MulDiv(totalDL, deposit.amount, totalDeposit));
    PaidShare(d.distributed, totalDL, d.x - r.x, deposit.amount, totalDeposit);
    assert d.x - r.x + deposit.amount == d.x + deposit.amount - r.x;
  }

  lemma {:induction false} MintFromMints(r: Reserves, liquidity: nat, d: Deposited, ds: seq<Deposit>, k: nat,
                                         totalDL: nat, totalDeposit: nat)
    requires k <= |ds| && Minting(r, liquidity, d, totalDL, totalDeposit)
    requires MintFrom(d, ds, k, totalDL, totalDeposit).Ok?
    ensures var out := MintFrom(d, ds, k, totalDL, totalDeposit).value;
            Minting(r, liquidity, out, totalDL, totalDeposit) && out.x == d.x + TotalDeposit(ds[k..])
    decreases |ds| - k
  {
    if k < |ds| {
      MintOneMints(r, liquidity, d, ds[k], totalDL, totalDeposit);
      assert ds[k..][1..] == ds[k + 1..];
      MintFromMints(r, liquidity, MintOne(d, ds[k], totalDL, totalDeposit).value, ds, k + 1, totalDL, totalDeposit);
    }
  }

  /** Deposit minting: holders stay distinct and their points sum to the total, the dust never goes
      negative, the reserve grows by exactly the deposits, and the points grow no faster than the
      geometric mean of the reserves: (L + dL) * isqrt(x*y) <= L * isqrt((x + D) * y). */
  lemma {:induction false} DepositFair(r: Reserves, s: Shares, ds: seq<Deposit>)
    requires Sound(s) && DepositAll(r, s, ds).Ok?
    ensures var (r', s') := DepositAll(r, s, ds).value;
            && Sound(s')
            && r'.y == r.y
            && (NoDeposit(r, ds) ==> r' == r && s' == s)
            && (!NoDeposit(r, ds) ==>
                  && r'.x == r.x + TotalDeposit(ds) <= MAX
                  && s'.total == Liquidity(r, s) + Growth(r, s, TotalDeposit(ds))
                  && s'.total * SqrtProduct(r.x, r.y) <= Liquidity(r, s) * SqrtProduct(r'.x, r.y))
  {
    if !NoDeposit(r, ds) {
      var D := TotalDeposit(ds);
      if s.total == 0 { AddKeepsSound(s, DEAD, SqrtProduct(r.x, r.y)); }
      GrowthFair(r, s, D);
      DistributeMints(r, Seeded(r, s).value, ds, Growth(r, s, D));
    }
  }

  lemma {:induction false} DistributeMints(r: Reserves, s: Shares, ds: seq<Deposit>, totalDL: nat)
    requires Sound(s) && TotalDeposit(ds) > 0 && totalDL <= MAX && Distribute(r, s, ds, totalDL).Ok?
    ensures var (r', s') := Distribute(r, s, ds, totalDL).value;
            Sound(s') && s'.total == s.total + totalDL && r' == r.(x := r.x + TotalDeposit(ds))
  {
    var D := TotalDeposit(ds);
    var start := Deposited(r.x, s, 0);
    var d := MintFrom(start, ds, 0, totalDL, D).value;
    assert ds[0..] == ds;
    MintFromMints(r, s.total, start, ds, 0, totalDL, D);
    assert d.x - r.x == D;
    Cancel(d.distributed, totalDL, D);
    WrapSubExact(totalDL, d.distributed);
    AddKeepsSound(d.shares, DEAD, totalDL - d.distributed);
  }

  lemma GrowthFair(r: Reserves, s: Shares, D: nat)
    ensures Growth(r, s, D) < U64
    ensures (Liquidity(r, s) + Growth(r, s, D)) * SqrtProduct(r.x, r.y) <= Liquidity(r, s) * SqrtProduct(r.x + D, r.y)
  {
    SqrtMono(r.x, r.x + D, r.y);
    GrowthBound(Liquidity(r, s), SqrtProduct(r.x, r.y), SqrtProduct(r.x + D, r.y));
  }

  lemma GrowthBound(L: nat, oldK: nat, newK: nat)
    requires oldK <= newK
    ensures MulDiv(L, newK - oldK, oldK) < U64
    ensures (L + MulDiv(L, newK - oldK, oldK)) * oldK <= L * newK
  {
    MulDivBound(L, newK - oldK, oldK);
    assert L * (newK - oldK) == L * newK - L * oldK;
  }

  // ---- Rounding never costs more than a unit apiece ----------------------

  lemma FloorBelow(a: nat, b: nat, c: nat)
    requires 0 < c && b <= c && a <= MAX
    ensures (MulDiv(a, b, c) + 1) * c >= a * b
  {
    MulDivExact(a, b, c);
    QuotientTimes(a * b, c);
    assert (a * b / c + 1) * c == a * b / c * c + c;
  }

  /** One more floored share keeps the running lower bound. */
  lemma LowerBoundAdds(sum: nat, count: nat, total: nat, part: nat, n: nat, whole: nat)
    requires 0 < whole && n <= whole && total <= MAX
    requires (sum + count) * whole >= total * part
    ensures (sum + MulDiv(total, n, whole) + count + 1) * whole >= total * (part + n)
  {
    FloorBelow(total, n, whole);
    assert (sum + MulDiv(total, n, whole) + count + 1) * whole == (sum + count) * whole + (MulDiv(total, n, whole) + 1) * whole;
    assert total * (part + n) == total * part + total * n;
  }

  lemma {:induction false} DepositWithinTotal(ds: seq<Deposit>, k: nat)
    requires k < |ds|
    ensures ds[k].amount <= TotalDeposit(ds)
  {
    if k > 0 { DepositWithinTotal(ds[1..], k - 1); }
  }

  lemma {:induction false} MintFromDust(x0: nat, d: Deposited, ds: seq<Deposit>, k: nat, totalDL: nat)
    requires k <= |ds| && TotalDeposit(ds) > 0 && totalDL <= MAX && x0 <= d.x
    requires (d.distributed + k) * TotalDeposit(ds) >= totalDL * (d.x - x0)
    requires MintFrom(d, ds, k, totalDL, TotalDeposit(ds)).Ok?
    ensures var out := MintFrom(d, ds, k, totalDL, TotalDeposit(ds)).value;
            out.x >= x0 && (out.distributed + |ds|) * TotalDeposit(ds) >= totalDL * (out.x - x0)
            && out.x == d.x + TotalDeposit(ds[k..])
    decreases |ds| - k
  {
    if k < |ds| {
      DepositWithinTotal(ds, k);
      LowerBoundAdds(d.distributed, k, totalDL, d.x - x0, ds[k].amount, TotalDeposit(ds));
      var d' := MintOne(d, ds[k], totalDL, TotalDeposit(ds)).value;
      assert d'.x - x0 == d.x - x0 + ds[k].amount;
      assert ds[k..][1..] == ds[k + 1..];
      MintFromDust(x0, d', ds, k + 1, totalDL);
    }
  }

  /** The dust sunk into the dead address is at most one point per deposit. */
  lemma {:induction false} DepositDust(r: Reserves, s: Shares, ds: seq<Deposit>, totalDL: nat)
    requires TotalDeposit(ds) > 0 && totalDL <= MAX
    requires MintFrom(Deposited(r.x, s, 0), ds, 0, totalDL, TotalDeposit(ds)).Ok?
    ensures totalDL <= MintFrom(Deposited(r.x, s, 0), ds, 0, totalDL, TotalDeposit(ds)).value.distributed + |ds|
  {
    var D := TotalDeposit(ds);
    assert ds[0..] == ds;
    MulNonNeg(totalDL, 0);
    MintFromDust(r.x, Deposited(r.x, s, 0), ds, 0, totalDL);
    var out := MintFrom(Deposited(r.x, s, 0), ds, 0, totalDL, D).value;
    assert out.x - r.x == D;
    Cancel(totalDL, out.distributed + |ds|, D);
  }

  predicate DistinctHolders(ws: seq<Withdrawal>) {
    forall i, j | 0 <= i < j < |ws| :: ws[i].addr != ws[j].addr
  }

  /** Midway through a list of distinct holders: what is still to be paid has not changed. */
  ghost predicate Pending(s: Shares, p: Payouts, ws: seq<Withdrawal>, k: nat, claims: nat)
    requires k <= |ws|
  {
    && Burned(p.payments) + Claims(s, ws[k..]) == claims
    && (forall j | k <= j < |ws| :: Held(p.shares, ws[j].addr) == Held(s, ws[j].addr))
  }

  /** And each payment so far was short of its exact share by at most one. */
  predicate Generous(paid: nat, count: nat, total: nat, burned: nat, claims: nat) {
    (paid + count) * claims >= total * burned
  }

  lemma GenerousAdds(paid: nat, count: nat, total: nat, burned: nat, claims: nat, points: nat, paid': nat)
    requires claims > 0 && total <= MAX && points <= claims && paid' == paid + MulDiv(total, points, claims)
    requires Generous(paid, count, total, burned, claims)
    ensures Generous(paid', count + 1, total, burned + points, claims)
  {
    LowerBoundAdds(paid, count, total, burned, points, claims);
  }

  lemma {:induction false} PaymentAdds(ps: seq<Payment>, payment: Payment)
    ensures SumX(ps + [payment]) == SumX(ps) + payment.xShare
    ensures SumY(ps + [payment]) == SumY(ps) + payment.yShare
    ensures Burned(ps + [payment]) == Burned(ps) + payment.points
  {
    assert (ps + [payment])[..|ps|] == ps;
  }

  /** Paying one request burns its claim and leaves every other holder's points alone. */
  lemma PayOneBurns(p: Payouts, w: Withdrawal, totalX: nat, totalY: nat, claims: nat)
    requires w.percent <= 100 && Sound(p.shares) && PayOne(p, w, totalX, totalY, claims).Ok?
    ensures Burned(PayOne(p, w, totalX, totalY, claims).value.payments) == Burned(p.payments) + Claim(p.shares, w)
  {
    if PointsFor(p.shares, w.addr).None? {
      assert MulDiv(0, w.percent, 100) == 0;
    } else {
      PaymentAdds(p.payments, Payment(w.addr, Claim(p.shares, w), MulDiv(totalX, Claim(p.shares, w), claims),
                                      MulDiv(totalY, Claim(p.shares, w), claims)));
    }
  }

  lemma PayOneSpares(p: Payouts, w: Withdrawal, totalX: nat, totalY: nat, claims: nat, b: Address)
    requires w.percent <= 100 && Sound(p.shares) && PayOne(p, w, totalX, totalY, claims).Ok? && b != w.addr
    ensures Held(PayOne(p, w, totalX, totalY, claims).value.shares, b) == Held(p.shares, b)
  {
    if PointsFor(p.shares, w.addr).Some? {
      MulDivShare(Held(p.shares, w.addr), w.percent, 100);
      RemoveKeepsSound(p.shares, w.addr, Claim(p.shares, w));
    }
  }

  lemma PayOnePending(s: Shares, p: Payouts, ws: seq<Withdrawal>, k: nat, totalX: nat, totalY: nat, claims: nat)
    requires k < |ws| && Percents(ws) && DistinctHolders(ws)
    requires Sound(p.shares) && Pending(s, p, ws, k, claims)
    requires PayOne(p, ws[k], totalX, totalY, claims).Ok?
    ensures Pending(s, PayOne(p, ws[k], totalX, totalY, claims).value, ws, k + 1, claims)
    ensures Claim(p.shares, ws[k]) <= claims
  {
    assert ws[k..][0] == ws[k] && ws[k..][1..] == ws[k + 1..];
    PayOneBurns(p, ws[k], totalX, totalY, claims);
    forall j | k + 1 <= j < |ws| ensures Held(PayOne(p, ws[k], totalX, totalY, claims).value.shares, ws[j].addr) == Held(s, ws[j].addr) {
      PayOneSpares(p, ws[k], totalX, totalY, claims, ws[j].addr);
    }
  }

  /** Both sides of a list of payments. */
  ghost predicate BothGenerous(ps: seq<Payment>, totalX: nat, totalY: nat, claims: nat) {
    && Generous(SumX(ps), |ps|, totalX, Burned(ps), claims)
    && Generous(SumY(ps), |ps|, totalY, Burned(ps), claims)
  }

  lemma PaymentGenerous(ps: seq<Payment>, payment: Payment, totalX: nat, totalY: nat, claims: nat)
    requires claims > 0 && totalX <= MAX && totalY <= MAX && payment.points <= claims
    requires payment.xShare == MulDiv(totalX, payment.points, claims) && payment.yShare == MulDiv(totalY, payment.points, claims)
    requires BothGenerous(ps, totalX, totalY, claims)
    ensures BothGenerous(ps + [payment], totalX, totalY, claims)
  {
    PaymentAdds(ps, payment);
    GenerousAdds(SumX(ps), |ps|, totalX, Burned(ps), claims, payment.points, SumX(ps + [payment]));
    GenerousAdds(SumY(ps), |ps|, totalY, Burned(ps), claims, payment.points, SumY(ps + [payment]));
  }

  lemma PayOneGenerous(p: Payouts, w: Withdrawal, totalX: nat, totalY: nat, claims: nat)
    requires claims > 0 && totalX <= MAX && totalY <= MAX && Claim(p.shares, w) <= claims
    requires BothGenerous(p.payments, totalX, totalY, claims) && PayOne(p, w, totalX, totalY, claims).Ok?
    ensures BothGenerous(PayOne(p, w, totalX, totalY, claims).value.payments, totalX, totalY, claims)
  {
    if PointsFor(p.shares, w.addr).Some? {
      var points := Claim(p.shares, w);
      var payment := Payment(w.addr, points, MulDiv(totalX, points, claims), MulDiv(totalY, points, claims));
      PaymentGenerous(p.payments, payment, totalX, totalY, claims);
    }
  }

  lemma {:induction false} PayFromGenerous(s: Shares, p: Payouts, ws: seq<Withdrawal>, k: nat, totalX: nat, totalY: nat, claims: nat)
    requires k <= |ws| && Percents(ws) && DistinctHolders(ws) && claims > 0 && totalX <= MAX && totalY <= MAX
    requires Paying(s, p, totalX, totalY, claims) && Pending(s, p, ws, k, claims)
    requires BothGenerous(p.payments, totalX, totalY, claims)
    requires PayFrom(p, ws, k, totalX, totalY, claims).Ok?
    ensures var out := PayFrom(p, ws, k, totalX, totalY, claims).value;
            Burned(out.payments) == claims && BothGenerous(out.payments, totalX, totalY, claims)
    decreases |ws| - k
  {
    if k < |ws| {
      PayOnePending(s, p, ws, k, totalX, totalY, claims);
      PayOneGenerous(p, ws[k], totalX, totalY, claims);
      PayOnePays(s, p, ws[k], totalX, totalY, claims);
      PayFromGenerous(s, PayOne(p, ws[k], totalX, totalY, claims).value, ws, k + 1, totalX, totalY, claims);
    } else {
      assert ws[k..] == [];
    }
  }

  /** The partner of solvency: when no holder asks twice, exactly the claimed points are burned, and each side
      pays out its pro-rata part less at most one token per payment and one more. */
  lemma {:induction false} WithdrawGenerous(r: Reserves, s: Shares, ws: seq<Withdrawal>)
    requires Sound(s) && Percents(ws) && DistinctHolders(ws) && r.x <= MAX && r.y <= MAX
    requires ws != [] && Claims(s, ws) > 0 && s.total > 0 && Withdraw(r, s, ws).Ok?
    ensures var w := Withdraw(r, s, ws).value;
            && Burned(w.payments) == Claims(s, ws)
            && r.x * Claims(s, ws) <= (SumX(w.payments) + |w.payments| + 1) * s.total
            && r.y * Claims(s, ws) <= (SumY(w.payments) + |w.payments| + 1) * s.total
  {
    var claims := Claims(s, ws);
    var ps := Withdraw(r, s, ws).value.payments;
    var totalX, totalY := WithdrawPays(r, s, ws);
    ShareReached(r.x, totalX, claims, s.total, SumX(ps), |ps|);
    ShareReached(r.y, totalY, claims, s.total, SumY(ps), |ps|);
  }

  lemma WithdrawPays(r: Reserves, s: Shares, ws: seq<Withdrawal>) returns (totalX: nat, totalY: nat)
    requires Sound(s) && Percents(ws) && DistinctHolders(ws) && r.x <= MAX && r.y <= MAX
    requires ws != [] && Claims(s, ws) > 0 && s.total > 0 && Withdraw(r, s, ws).Ok?
    ensures totalX == MulDiv(r.x, Claims(s, ws), s.total) && totalY == MulDiv(r.y, Claims(s, ws), s.total)
    ensures var ps := Withdraw(r, s, ws).value.payments;
            Burned(ps) == Claims(s, ws) <= s.total && BothGenerous(ps, totalX, totalY, Claims(s, ws))
  {
    totalX, totalY := MulDiv(r.x, Claims(s, ws), s.total), MulDiv(r.y, Claims(s, ws), s.total);
    AllPaid(s, ws, totalX, totalY, Claims(s, ws));
  }

  lemma {:induction false} AllPaid(s: Shares, ws: seq<Withdrawal>, totalX: nat, totalY: nat, claims: nat)
    requires Sound(s) && Percents(ws) && DistinctHolders(ws) && s.total > 0 && 0 < claims == Claims(s, ws)
    requires totalX <= MAX && totalY <= MAX
    requires PayFrom(Payouts(s, []), ws, 0, totalX, totalY, claims).Ok?
    ensures var ps := PayFrom(Payouts(s, []), ws, 0, totalX, totalY, claims).value.payments;
            Burned(ps) == claims <= s.total && BothGenerous(ps, totalX, totalY, claims)
  {
    var start := Payouts(s, []);
    assert ws[0..] == ws;
    MulNonNeg(totalX, 0);
    MulNonNeg(totalY, 0);
    PayFromPays(s, start, ws, 0, totalX, totalY, claims);
    PayFromGenerous(s, start, ws, 0, totalX, totalY, claims);
  }

  lemma ShareReached(y: nat, total: nat, claims: nat, points: nat, paid: nat, count: nat)
    requires 0 < claims <= points && y <= MAX && total == MulDiv(y, claims, points)
    requires Generous(paid, count, total, claims, claims)
    ensures y * claims <= (paid + count + 1) * points
  {
    Cancel(total, paid + count, claims);
    FloorBelow(y, claims, points);
    MulMono(total + 1, paid + count + 1, points);
  }
}
