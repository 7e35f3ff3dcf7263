/** The StateMachine object: the stored state that the handlers of the fsm package change in place. */
module Machine {
  import opened Lib
  import opened Sums
  import opened Points
  import opened Amm
  import opened Pipeline
  import opened Ledgers
  import opened Dex

  type OrderId = nat
  type OrderKey = (ChainId, OrderId)

  /** A sell order of a committee's book; it is locked once it has a buyer's receive address. */
  datatype SellOrder = SellOrder(amount: nat, requested: nat, seller: Address, receive: Address,
                                 buyerReceive: Option<Address>, buyerSend: Option<Address>, deadline: nat)

  class StateMachine {
    const chainId: ChainId
    var height: nat
    var ledger: Ledger
    var points: map<ChainId, Shares>
    var locked: map<ChainId, Batch>
    var next: map<ChainId, Batch>
    var orders: map<OrderKey, SellOrder>
    var committees: map<Address, seq<ChainId>>
    var slashTracker: map<(Address, ChainId), nat>

    constructor (chainId: ChainId, height: nat, ledger: Ledger)
      ensures this.chainId == chainId && this.height == height && this.ledger == ledger
      ensures points == map[] && locked == map[] && next == map[] && orders == map[]
      ensures committees == map[] && slashTracker == map[]
    {
      this.chainId, this.height, this.ledger := chainId, height, ledger;
      points, locked, next, orders := map[], map[], map[], map[];
      committees, slashTracker := map[], map[];
    }

    function PointsOf(id: ChainId): Shares
      reads this`points
    {
      if id in points then points[id] else Shares([], 0)
    }

    function LockedBatch(id: ChainId): Option<Batch>
      reads this`locked
    {
      if id in locked then Some(locked[id]) else None
    }

    function NextBatch(id: ChainId): Option<Batch>
      reads this`next
    {
      if id in next then Some(next[id]) else None
    }

    /** What is stored for one counter chain. */
    function StoreOf(id: ChainId): Store
      reads this
    {
      Store(ledger, PointsOf(id), LockedBatch(id), NextBatch(id), height)
    }

    /** GetDexBatch. */
    method GetDexBatch(id: ChainId, wantLocked: bool) returns (b: Batch)
      ensures b == Stored(if wantLocked then LockedBatch(id) else NextBatch(id), PoolBalance(ledger, LiquidityPool(id)))
    {
      b := Batch(NoHash, [], [], [], PoolBalance(ledger, LiquidityPool(id)), [], 0);
      if wantLocked {
        if id in locked { b := locked[id]; }
      } else if id in next {
        b := next[id];
      }
    }

    method AccountAdd(a: Address, n: nat) returns (r: Result<()>)
      modifies this`ledger
      ensures match Ledgers.AccountAdd(old(ledger), a, n)
              case Ok(l) => r == Ok(()) && ledger == l
              case Err(e) => r == Err(e) && ledger == old(ledger)
    {
      if n == 0 { return Ok(()); }
      var amount := Balance(ledger, a);
      if amount > MAX || n > MAX - amount { return Err(InvalidAmount); }
      ledger := SetAccount(ledger, a, amount + n);
      return Ok(());
    }

    method AccountSub(a: Address, n: nat, vesting: nat) returns (r: Result<()>)
      modifies this`ledger
      ensures match Ledgers.AccountSub(old(ledger), a, n, vesting)
              case Ok(l) => r == Ok(()) && ledger == l
              case Err(e) => r == Err(e) && ledger == old(ledger)
    {
      if n == 0 { return Ok(()); }
      var amount := Balance(ledger, a);
      var spendable := if vesting >= amount then 0 else amount - vesting;
      if spendable < n { return Err(InsufficientFunds); }
      ledger := SetAccount(ledger, a, amount - n);
      return Ok(());
    }

    method PoolAdd(id: PoolId, n: nat)
      modifies this`ledger
      ensures ledger == Ledgers.PoolAdd(old(ledger), id, n)
    {
      ledger := SetPool(ledger, id, (PoolBalance(ledger, id) + n) % U64);
    }

    method PoolSub(id: PoolId, n: nat) returns (r: Result<()>)
      modifies this`ledger
      ensures match Ledgers.PoolSub(old(ledger), id, n)
              case Ok(l) => r == Ok(()) && ledger == l
              case Err(e) => r == Err(e) && ledger == old(ledger)
    {
      if PoolBalance(ledger, id) < n { return Err(InsufficientFunds); }
      ledger := SetPool(ledger, id, PoolBalance(ledger, id) - n);
      return Ok(());
    }
  }
}
