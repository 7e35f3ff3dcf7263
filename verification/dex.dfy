/** The handlers of fsm/dex.go over the ledger of one chain: what each batch step does to accounts, to the
    liquidity and holding pools, to the points and to the two reserves, errors included. */
module Dex {
  import opened Lib
  import opened Sums
  import opened Points
  import opened Amm
  import opened Pipeline
  import opened Ledgers

  /** What a handler works on: the ledger, the reserves x and y it is given, and the pool's points. */
  datatype Book = Book(ledger: Ledger, r: Reserves, shares: Shares)

  // ---- Orders ------------------------------------------------------------

  /** One order of our own batch against its receipt. */
  function ReceiptOne(b: Book, id: ChainId, o: Order, dY: nat): Result<Book> {
    match PoolSub(b.ledger, HoldingPool(id), o.amount)
    case Err(e) => Err(e)
    case Ok(l) =>
      if dY != 0 then
        if b.r.y <= dY then Err(RemotePoolSizeDebit)
        else Ok(b.(ledger := PoolAdd(l, LiquidityPool(id), o.amount), r := Reserves((b.r.x + o.amount) % U64, b.r.y - dY)))
      else
        match AccountAdd(l, o.addr, o.amount)
        case Err(e) => Err(e)
        case Ok(l') => Ok(b.(ledger := l'))
  }

  function ReceiptsFrom(b: Book, id: ChainId, orders: seq<Order>, receipts: seq<nat>, k: nat): Result<Book>
    requires |orders| == |receipts| && k <= |orders|
    decreases |orders| - k
  {
    if k == |orders| then Ok(b) else
      match ReceiptOne(b, id, orders[k], receipts[k])
      case Err(e) => Err(e)
      case Ok(b') => ReceiptsFrom(b', id, orders, receipts, k + 1)
  }

  /** Pay one receipt of the counter chain's batch out of the liquidity pool. */
  function PayOrder(l: Ledger, id: ChainId, o: Order, out: nat): Result<Ledger> {
    if out == 0 then Ok(l) else
      match PoolSub(l, LiquidityPool(id), out)
      case Err(e) => Err(e)
      case Ok(l') => AccountAdd(l', o.addr, out)
  }

  function PayOrdersFrom(l: Ledger, id: ChainId, orders: seq<Order>, receipts: seq<nat>, k: nat): Result<Ledger>
    requires |orders| == |receipts| && k <= |orders|
    decreases |orders| - k
  {
    if k == |orders| then Ok(l) else
      match PayOrder(l, id, orders[k], receipts[k])
      case Err(e) => Err(e)
      case Ok(l') => PayOrdersFrom(l', id, orders, receipts, k + 1)
  }

  function HandleOrders(b: Book, id: ChainId, orders: seq<Order>, perm: seq<nat>): Result<(Book, seq<nat>)>
    requires IsPermutation(perm, |orders|)
  {
    match Exec(b.r, orders, perm)
    case Err(e) => Err(e)
    case Ok(out) =>
      ExecShape(b.r, orders, perm);
      match PayOrdersFrom(b.ledger, id, orders, out.receipts, 0)
      case Err(e) => Err(e)
      case Ok(l) => Ok((b.(ledger := l, r := out.r), out.receipts))
  }

  lemma {:induction false} ExecFromShape(e: Executed, orders: seq<Order>, perm: seq<nat>, k: nat)
    requires IsPermutation(perm, |orders|) && k <= |orders| && |e.receipts| == |orders| && e.r.x > 0 && e.r.y > 0
    requires ExecFrom(e, orders, perm, k).Ok?
    ensures |ExecFrom(e, orders, perm, k).value.receipts| == |orders|
    decreases |orders| - k
  {
    if k < |orders| {
      var o := orders[perm[k]];
      var dY := Output(e.r, o);
      SwapKeepsProduct(e.r.x, e.r.y, o.amount);
      if dY == 0 {
        ExecFromShape(e.(receipts := e.receipts[perm[k] := 0]), orders, perm, k + 1);
      } else {
        ExecFromShape(Executed(Reserves(e.r.x + o.amount, e.r.y - dY), e.receipts[perm[k] := dY]), orders, perm, k + 1);
      }
    }
  }

  lemma ExecShape(r: Reserves, orders: seq<Order>, perm: seq<nat>)
    requires IsPermutation(perm, |orders|)
    ensures Exec(r, orders, perm).Ok? ==> |Exec(r, orders, perm).value.receipts| == |orders|
  {
    if Exec(r, orders, perm).Ok? {
      ExecFromShape(Executed(r, seq(|orders|, i => 0)), orders, perm, 0);
    }
  }

  // ---- Withdrawals -------------------------------------------------------

  /** The share a withdrawal is paid here: local batches are paid in x, remote ones in y. */
  function Payout(p: Payment, local: bool): nat { if local then p.xShare else p.yShare }

  function DrawOne(l: Ledger, p: Payouts, w: Withdrawal, totalX: nat, totalY: nat, claims: nat, local: bool)
    : Result<(Ledger, Payouts)>
  {
    match PayOne(p, w, totalX, totalY, claims)
    case Err(e) => Err(e)
    case Ok(p') =>
      if PointsFor(p.shares, w.addr).None? then Ok((l, p')) else
        match AccountAdd(l, w.addr, Payout(p'.payments[|p'.payments| - 1], local))
        case Err(e) => Err(e)
        case Ok(l') => Ok((l', p'))
  }

  function DrawFrom(l: Ledger, p: Payouts, ws: seq<Withdrawal>, k: nat, totalX: nat, totalY: nat, claims: nat, local: bool)
    : Result<(Ledger, Payouts)>
    requires k <= |ws|
    decreases |ws| - k
  {
    if k == |ws| then Ok((l, p)) else
      match DrawOne(l, p, ws[k], totalX, totalY, claims, local)
      case Err(e) => Err(e)
      case Ok((l', p')) => DrawFrom(l', p', ws, k + 1, totalX, totalY, claims, local)
  }

  function HandleWithdraw(b: Book, id: ChainId, ws: seq<Withdrawal>, local: bool): Result<Book> {
    var claims := Claims(b.shares, ws);
    if ws == [] then Ok(b)
    else if claims > MAX then Err(InvalidLiquidityPool)
    else if claims == 0 || b.shares.total == 0 then Ok(b)
    else
      var totalX, totalY := MulDiv(b.r.x, claims, b.shares.total), MulDiv(b.r.y, claims, b.shares.total);
      match DrawFrom(b.ledger, Payouts(b.shares, []), ws, 0, totalX, totalY, claims, local)
      case Err(e) => Err(e)
      case Ok((l, p)) =>
        var r := Reserves(WrapSub(b.r.x, SumX(p.payments)), WrapSub(b.r.y, SumY(p.payments)));
        Ok(Book(SetPool(l, LiquidityPool(id), if local then r.x else r.y), r, p.shares))
  }

  // ---- Deposits ----------------------------------------------------------

  /** `amount` is the liquidity pool's balance as the handler carries it until the pool is written back. */
  datatype Minted = Minted(ledger: Ledger, amount: nat, d: Deposited)

  /** One deposit. The reserve's own overflow test cannot fail here: its sum was tested beforehand. */
  function DepositOne(m: Minted, id: ChainId, deposit: Deposit, totalDL: nat, totalDeposit: nat, local: bool): Result<Minted> {
    match MintOne(m.d, deposit, totalDL, totalDeposit)
    case Err(e) => Err(e)
    case Ok(d) =>
      if !local then Ok(m.(d := d)) else
        match PoolSub(m.ledger, HoldingPool(id), deposit.amount)
        case Err(e) => Err(e)
        case Ok(l) =>
          if m.amount + deposit.amount > MAX then Err(InvalidLiquidityPool)
          else Ok(Minted(l, m.amount + deposit.amount, d))
  }

  function DepositFrom(m: Minted, id: ChainId, ds: seq<Deposit>, k: nat, totalDL: nat, totalDeposit: nat, local: bool)
    : Result<Minted>
    requires k <= |ds|
    decreases |ds| - k
  {
    if k == |ds| then Ok(m) else
      match DepositOne(m, id, ds[k], totalDL, totalDeposit, local)
      case Err(e) => Err(e)
      case Ok(m') => DepositFrom(m', id, ds, k + 1, totalDL, totalDeposit, local)
  }

  function HandleDeposit(b: Book, id: ChainId, ds: seq<Deposit>, local: bool): Result<Book> {
    var totalDeposit := TotalDeposit(ds);
    if totalDeposit > MAX then Err(InvalidLiquidityPool)
    else if NoDeposit(b.r, ds) then Ok(b)
    else
      match Plan(b.r, b.shares, totalDeposit)
      case Err(e) => Err(e)
      case Ok((seeded, totalDL)) => Distribute(b.(shares := seeded), id, ds, totalDL, local)
  }

  /** Hand out the new points, sink the dust and write the pool back. */
  function Distribute(b: Book, id: ChainId, ds: seq<Deposit>, totalDL: nat, local: bool): Result<Book> {
    var start := Minted(b.ledger, PoolBalance(b.ledger, LiquidityPool(id)), Deposited(b.r.x, b.shares, 0));
    match DepositFrom(start, id, ds, 0, totalDL, TotalDeposit(ds), local)
    case Err(e) => Err(e)
    case Ok(m) =>
      match Added(m.d.shares, DEAD, WrapSub(totalDL, m.d.distributed))
      case Err(e) => Err(e)
      case Ok(s) => Ok(Book(SetPool(m.ledger, LiquidityPool(id), m.amount), b.r.(x := m.d.x), s))
  }

  /** Withdrawals, then deposits; `local` says whose batch it is. */
  function HandleSettle(b: Book, id: ChainId, batch: Batch, local: bool): Result<Book> {
    match HandleWithdraw(b, id, batch.withdrawals, local)
    case Err(e) => Err(e)
    case Ok(b1) => HandleDeposit(b1, id, batch.deposits, local)
  }

  // ---- A trigger ---------------------------------------------------------

  /** What a chain stores for one counter chain, its two pools being entries of the ledger. */
  datatype Store = Store(ledger: Ledger, shares: Shares, locked: Option<Batch>, next: Option<Batch>, height: nat)

  /** The pipeline's view of that store. */
  function View(s: Store, id: ChainId): Chain {
    Chain(PoolBalance(s.ledger, LiquidityPool(id)), s.shares, s.locked, s.next, s.height)
  }

  function HandleOwn(s: Store, id: ChainId, remote: Batch): Result<(Store, nat)>
    requires !Waiting(View(s, id), remote)
  {
    if s.locked.None? then Ok((s, remote.poolSize)) else
      var own := s.locked.value;
      var b := Book(s.ledger, Reserves(PoolBalance(s.ledger, LiquidityPool(id)), remote.poolSize), s.shares);
      match ReceiptsFrom(b, id, own.orders, remote.receipts, 0)
      case Err(e) => Err(e)
      case Ok(b1) =>
        match HandleSettle(b1, id, own, true)
        case Err(e) => Err(e)
        case Ok(b2) => Ok((s.(ledger := b2.ledger, shares := b2.shares, locked := None), b2.r.y))
  }

  function HandleTheirs(s: Store, id: ChainId, remote: Batch, shadow: nat, perm: seq<nat>): Result<(Store, seq<nat>)>
    requires IsPermutation(perm, |remote.orders|)
  {
    var b := Book(s.ledger, Reserves(shadow, PoolBalance(s.ledger, LiquidityPool(id))), s.shares);
    match HandleOrders(b, id, remote.orders, perm)
    case Err(e) => Err(e)
    case Ok((b1, receipts)) =>
      match HandleSettle(b1, id, remote, false)
      case Err(e) => Err(e)
      case Ok(b2) => Ok((s.(ledger := b2.ledger, shares := b2.shares), receipts))
  }

  function RotateStore(s: Store, id: ChainId, hash: Hash, poolSize: nat, receipts: seq<nat>): Store {
    var c := Rotate(View(s, id), hash, poolSize, receipts);
    s.(locked := c.locked, next := c.next)
  }

  function HandleRemote(s: Store, id: ChainId, remote: Batch, perm: seq<nat>): Result<Store>
    requires IsPermutation(perm, |remote.orders|)
  {
    var pool := PoolBalance(s.ledger, LiquidityPool(id));
    if pool == 0 then Ok(s)
    else if IsEmpty(remote) then Ok(RotateStore(s, id, HashBatch(remote), pool, []))
    else if Waiting(View(s, id), remote) then Ok(s)
    else
      match HandleOwn(s, id, remote)
      case Err(e) => Err(e)
      case Ok((s1, shadow)) =>
        match HandleTheirs(s1, id, remote, shadow, perm)
        case Err(e) => Err(e)
        case Ok((s2, receipts)) =>
          Ok(RotateStore(s2, id, HashBatch(remote), PoolBalance(s1.ledger, LiquidityPool(id)), receipts))
  }

  /** HandleDexBatch's liquidity guard is the first test of HandleRemote; the fallback comes before it. */
  function RefundOne(l: Ledger, id: ChainId, a: Address, n: nat): Result<Ledger> {
    match PoolSub(l, HoldingPool(id), n)
    case Err(e) => Err(e)
    case Ok(l') => AccountAdd(l', a, n)
  }

  function RefundOrders(l: Ledger, id: ChainId, orders: seq<Order>, k: nat): Result<Ledger>
    requires k <= |orders|
    decreases |orders| - k
  {
    if k == |orders| then Ok(l) else
      match RefundOne(l, id, orders[k].addr, orders[k].amount)
      case Err(e) => Err(e)
      case Ok(l') => RefundOrders(l', id, orders, k + 1)
  }

  function RefundDeposits(l: Ledger, id: ChainId, ds: seq<Deposit>, k: nat): Result<Ledger>
    requires k <= |ds|
    decreases |ds| - k
  {
    if k == |ds| then Ok(l) else
      match RefundOne(l, id, ds[k].addr, ds[k].amount)
      case Err(e) => Err(e)
      case Ok(l') => RefundDeposits(l', id, ds, k + 1)
  }

  /** HandleLivenessFallback: refund our locked batch, drop it, and take over the root chain's points. */
  function Fallback(s: Store, id: ChainId, points: Shares): Result<Store> {
    var own := Stored(s.locked, 0);
    match RefundOrders(s.ledger, id, own.orders, 0)
    case Err(e) => Err(e)
    case Ok(l) =>
      match RefundDeposits(l, id, own.deposits, 0)
      case Err(e) => Err(e)
      case Ok(l') => Ok(s.(ledger := l', shares := points, locked := None))
  }

  // ---- Users and block ends ----------------------------------------------

  /** What an operation moves from the user into the holding pool. */
  function Escrowed(op: Op): nat {
    match op case Sell(o) => o.amount case Provide(d) => d.amount case Redeem(_) => 0
  }

  function User(op: Op): Address {
    match op case Sell(o) => o.addr case Provide(d) => d.addr case Redeem(w) => w.addr
  }

  /** The three DEX message handlers on the chain `own`. */
  function SubmitOp(s: Store, id: ChainId, own: ChainId, op: Op, vesting: nat): Result<Store> {
    if own == id then Err(InvalidLiquidityPool)
    else if Refusal(View(s, id), op).Some? then Err(Refusal(View(s, id), op).value)
    else
      var next := Submit(View(s, id), op).next;
      if op.Redeem? then Ok(s.(next := next)) else
        match AccountSub(s.ledger, User(op), Escrowed(op), vesting)
        case Err(e) => Err(e)
        case Ok(l) => Ok(s.(ledger := PoolAdd(l, HoldingPool(id), Escrowed(op)), next := next))
  }

  function EndOfBlock(s: Store, id: ChainId): Store {
    var c := EndBlock(View(s, id));
    s.(locked := c.locked, next := c.next, height := c.height)
  }
}
