/** Accounts, numbered pools, stakes and the supply record of fsm/account.go, and the pool ids of fsm/key.go. */
module Ledgers {
  import opened Lib
  import opened Sums
  import opened Points

  type PoolId = nat
  type ChainId = nat

  const MAX_CHAIN_ID: nat := 16383
  const HOLDING_POOL_ADDEND: nat := 16383
  const LIQUIDITY_POOL_ADDEND: nat := 32767
  const ESCROW_POOL_ADDEND: nat := 65535
  const DAO_POOL_ID: nat := 2 * 65535 + 1

  function HoldingPool(id: ChainId): PoolId { id + HOLDING_POOL_ADDEND }

  function LiquidityPool(id: ChainId): PoolId { id + LIQUIDITY_POOL_ADDEND }

  function EscrowPool(id: ChainId): PoolId { id + ESCROW_POOL_ADDEND }

  /** Balances of zero are not stored. `supply` is the Total of the separately kept supply record. */
  datatype Ledger = Ledger(accounts: map<Address, nat>, pools: map<PoolId, nat>, stakes: map<Address, nat>, supply: nat)

  function Balance(l: Ledger, a: Address): nat { Get(l.accounts, a) }

  function PoolBalance(l: Ledger, id: PoolId): nat { Get(l.pools, id) }

  /** All tokens there are: accounts, pools and validator stake. */
  ghost function Tokens(l: Ledger): nat { Sum(l.accounts) + Sum(l.pools) + Sum(l.stakes) }

  ghost predicate Conserved(l: Ledger) { Tokens(l) == l.supply <= MAX }

  function SetAccount(l: Ledger, a: Address, n: nat): Ledger { l.(accounts := Put(l.accounts, a, n)) }

  function SetPool(l: Ledger, id: PoolId, n: nat): Ledger { l.(pools := Put(l.pools, id, n)) }

  function AccountAdd(l: Ledger, a: Address, n: nat): Result<Ledger> {
    if n == 0 then Ok(l)
    else if Balance(l, a) + n > MAX then Err(InvalidAmount)
    else Ok(SetAccount(l, a, Balance(l, a) + n))
  }

  /** `vesting` is what the account's vesting schedule still locks at this height. */
  function AccountSub(l: Ledger, a: Address, n: nat, vesting: nat): Result<Ledger> {
    if n == 0 then Ok(l)
    else if Balance(l, a) < vesting + n then Err(InsufficientFunds)
    else Ok(SetAccount(l, a, Balance(l, a) - n))
  }

  /** Unguarded: the sum is taken modulo 2^64. */
  function PoolAdd(l: Ledger, id: PoolId, n: nat): Ledger {
    SetPool(l, id, (PoolBalance(l, id) + n) % U64)
  }

  function PoolSub(l: Ledger, id: PoolId, n: nat): Result<Ledger> {
    if PoolBalance(l, id) < n then Err(InsufficientFunds) else Ok(SetPool(l, id, PoolBalance(l, id) - n))
  }

  // ---- What each of them does to the whole -------------------------------

  lemma SetAccountTokens(l: Ledger, a: Address, n: nat)
    ensures Tokens(SetAccount(l, a, n)) == Tokens(l) - Balance(l, a) + n
    ensures Balance(l, a) <= Tokens(l)
    ensures Balance(SetAccount(l, a, n), a) == n
    ensures forall b | b != a :: Balance(SetAccount(l, a, n), b) == Balance(l, b)
  {
    SumPut(l.accounts, a, n);
  }

  lemma SetPoolTokens(l: Ledger, id: PoolId, n: nat)
    ensures Tokens(SetPool(l, id, n)) == Tokens(l) - PoolBalance(l, id) + n
    ensures PoolBalance(l, id) <= Tokens(l)
    ensures PoolBalance(SetPool(l, id, n), id) == n
    ensures forall j | j != id :: PoolBalance(SetPool(l, id, n), j) == PoolBalance(l, j)
  {
    SumPut(l.pools, id, n);
  }

  /** A credit either takes effect in full or fails; it cannot fail while all tokens fit 64 bits. */
  lemma AccountAddTokens(l: Ledger, a: Address, n: nat)
    ensures Tokens(l) + n <= MAX ==> AccountAdd(l, a, n).Ok?
    ensures AccountAdd(l, a, n).Ok? ==>
              var l' := AccountAdd(l, a, n).value;
              && Tokens(l') == Tokens(l) + n && Balance(l', a) == Balance(l, a) + n
              && l'.pools == l.pools && l'.stakes == l.stakes && l'.supply == l.supply
  {
    SetAccountTokens(l, a, Balance(l, a) + n);
  }

  lemma AccountSubTokens(l: Ledger, a: Address, n: nat, vesting: nat)
    requires AccountSub(l, a, n, vesting).Ok?
    ensures var l' := AccountSub(l, a, n, vesting).value;
            && Tokens(l') + n == Tokens(l) && n <= Tokens(l)
            && l'.pools == l.pools && l'.stakes == l.stakes && l'.supply == l.supply
  {
    if n != 0 { SetAccountTokens(l, a, Balance(l, a) - n); }
  }

  /** The unguarded credit is exact while all tokens fit 64 bits. */
  lemma PoolAddTokens(l: Ledger, id: PoolId, n: nat)
    requires PoolBalance(l, id) + n <= MAX || Tokens(l) + n <= MAX
    ensures var l' := PoolAdd(l, id, n);
            && Tokens(l') == Tokens(l) + n && PoolBalance(l', id) == PoolBalance(l, id) + n
            && (forall j | j != id :: PoolBalance(l', j) == PoolBalance(l, j))
            && l'.accounts == l.accounts && l'.stakes == l.stakes && l'.supply == l.supply
  {
    SetPoolTokens(l, id, PoolBalance(l, id) + n);
  }

  lemma PoolSubTokens(l: Ledger, id: PoolId, n: nat)
    requires PoolSub(l, id, n).Ok?
    ensures var l' := PoolSub(l, id, n).value;
            && Tokens(l') + n == Tokens(l) && n <= Tokens(l) && PoolBalance(l', id) == PoolBalance(l, id) - n
            && (forall j | j != id :: PoolBalance(l', j) == PoolBalance(l, j))
            && l'.accounts == l.accounts && l'.stakes == l.stakes && l'.supply == l.supply
  {
    SetPoolTokens(l, id, PoolBalance(l, id) - n);
  }

  /** The stake, holding and liquidity pools of ordinary chain ids never coincide, nor do the escrow pools. */
  lemma PoolIdsApart(j: ChainId, k: ChainId)
    requires 0 < j <= MAX_CHAIN_ID && 0 < k <= MAX_CHAIN_ID
    ensures j < HoldingPool(k) < LiquidityPool(j) < EscrowPool(k) < DAO_POOL_ID
  {}
}
