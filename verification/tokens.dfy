/** The token-moving handlers of fsm/message.go, fsm/account.go and fsm/validator.go over the ledger. */
module Transfers {
  import opened Lib
  import opened Sums
  import opened Points
  import opened Ledgers
  import opened Machine

  /** AddToTotalSupply: unguarded. */
  function AddToSupply(l: Ledger, n: nat): Ledger { l.(supply := (l.supply + n) % U64) }

  function SubFromSupply(l: Ledger, n: nat): Result<Ledger> {
    if l.supply < n then Err(InsufficientFunds) else Ok(l.(supply := l.supply - n))
  }

  function MintToPool(l: Ledger, id: PoolId, n: nat): Ledger { PoolAdd(AddToSupply(l, n), id, n) }

  function MintToAccount(l: Ledger, a: Address, n: nat): Result<Ledger> {
    if n == 0 then Ok(l) else AccountAdd(AddToSupply(l, n), a, n)
  }

  /** `accepted` is the verdict on the recipient's vesting schedule, checked before anything moves. */
  function Send(l: Ledger, from: Address, to: Address, n: nat, vesting: nat, accepted: bool): Result<Ledger> {
    if !accepted then Err(InvalidAmount) else
      match AccountSub(l, from, n, vesting)
      case Err(e) => Err(e)
      case Ok(l') => AccountAdd(l', to, n)
  }

  function Spendable(l: Ledger, a: Address, vesting: nat): nat {
    if vesting >= Balance(l, a) then 0 else Balance(l, a) - vesting
  }

  /** What a sender lacks, if it is the configured faucet. */
  function Missing(l: Ledger, a: Address, faucet: Option<Address>, required: nat, vesting: nat): nat {
    if faucet != Some(a) || Spendable(l, a, vesting) >= required then 0 else required - Spendable(l, a, vesting)
  }

  /** The faucet is topped up to what its transaction needs. */
  function TopUp(l: Ledger, a: Address, faucet: Option<Address>, required: nat, vesting: nat): Result<Ledger> {
    MintToAccount(l, a, Missing(l, a, faucet, required, vesting))
  }

  function DeductFee(l: Ledger, from: Address, fee: nat, chain: ChainId, vesting: nat): Result<Ledger> {
    match AccountSub(l, from, fee, vesting)
    case Err(e) => Err(e)
    case Ok(l') => Ok(PoolAdd(l', chain, fee))
  }

  function Subsidize(l: Ledger, from: Address, n: nat, chain: ChainId, vesting: nat, retired: bool): Result<Ledger> {
    if retired then Err(Refused) else DeductFee(l, from, n, chain, vesting)
  }

  function DaoTransfer(l: Ledger, to: Address, n: nat, mint: bool, approved: bool): Result<Ledger> {
    if !approved then Err(Refused) else
    var l1 := if mint then MintToPool(l, DAO_POOL_ID, n) else l;
    match PoolSub(l1, DAO_POOL_ID, n)
    case Err(e) => Err(e)
    case Ok(l2) => AccountAdd(l2, to, n)
  }

  function SetStake(l: Ledger, v: Address, n: nat): Ledger { l.(stakes := Put(l.stakes, v, n)) }

  function StakeOf(l: Ledger, v: Address): nat { Get(l.stakes, v) }

  /** A new validator with at least the minimum stake, paid for by the signer. */
  function Stake(l: Ledger, signer: Address, v: Address, n: nat, minimum: nat, vesting: nat, known: bool): Result<Ledger> {
    if known || n < minimum then Err(Refused) else
      match AccountSub(l, signer, n, vesting)
      case Err(e) => Err(e)
      case Ok(l') => Ok(SetStake(l', v, n))
  }

  /** UpdateValidatorStake: the sum is unguarded. */
  function AddStake(l: Ledger, v: Address, n: nat): Ledger { SetStake(l, v, (StakeOf(l, v) + n) % U64) }

  function Raise(stake: nat, amount: nat): nat { if amount > stake then amount - stake else 0 }

  /** An edit never lowers the stake: a smaller amount than is staked adds nothing. `allowed` says that the
      validator exists, is not unstaking, and may be edited by the signer. */
  function EditStake(l: Ledger, signer: Address, v: Address, amount: nat, vesting: nat, allowed: bool): Result<Ledger> {
    if !allowed then Err(Refused) else
      match AccountSub(l, signer, Raise(StakeOf(l, v), amount), vesting)
      case Err(e) => Err(e)
      case Ok(l') => Ok(AddStake(l', v, Raise(StakeOf(l, v), amount)))
  }

  /** The end of unstaking: the stake is paid to the output address and the validator deleted. */
  function FinishUnstaking(l: Ledger, v: Address, output: Address, known: bool): Result<Ledger> {
    if !known then Err(Refused) else
    match AccountAdd(l, output, StakeOf(l, v))
    case Err(e) => Err(e)
    case Ok(l') => Ok(SetStake(l', v, 0))
  }

  // ---- Conservation ------------------------------------------------------

  /** Same tokens, same supply record, and no pool touched but those named. */
  ghost predicate Moved(l: Ledger, l': Ledger, touched: set<PoolId>) {
    && Tokens(l') == Tokens(l) && l'.supply == l.supply
    && OnlyPools(l, l', touched)
  }

  predicate OnlyPools(l: Ledger, l': Ledger, touched: set<PoolId>) {
    forall id | id in l.pools.Keys + l'.pools.Keys && id !in touched :: PoolBalance(l', id) == PoolBalance(l, id)
  }

  /** n tokens created, in the ledger and in the record. */
  ghost predicate Minted(l: Ledger, l': Ledger, n: nat, touched: set<PoolId>) {
    && Tokens(l') == Tokens(l) + n && l'.supply == l.supply + n
    && OnlyPools(l, l', touched)
  }

  lemma SetStakeTokens(l: Ledger, v: Address, n: nat)
    ensures Tokens(SetStake(l, v, n)) == Tokens(l) - StakeOf(l, v) + n
    ensures StakeOf(l, v) <= Tokens(l)
  {
    SumPut(l.stakes, v, n);
  }

  lemma AddStakeTokens(l: Ledger, v: Address, n: nat)
    requires StakeOf(l, v) + n <= MAX || Tokens(l) + n <= MAX
    ensures var l' := AddStake(l, v, n);
            && Tokens(l') == Tokens(l) + n && StakeOf(l', v) == StakeOf(l, v) + n
            && l'.accounts == l.accounts && l'.pools == l.pools && l'.supply == l.supply
  {
    SumPut(l.stakes, v, StakeOf(l, v) + n);
    assert (StakeOf(l, v) + n) % U64 == StakeOf(l, v) + n;
  }

  /** A mint is exact and keeps the record right if and only if the total stays within 64 bits: nothing in
      the code guards it. */
  lemma MintExact(l: Ledger, id: PoolId, n: nat)
    requires Conserved(l)
    ensures var l' := MintToPool(l, id, n);
            (Conserved(l') && Minted(l, l', n, {id})) <==> l.supply + n <= MAX
  {
    if l.supply + n <= MAX {
      PoolAddTokens(AddToSupply(l, n), id, n);
    }
  }

  lemma MintToAccountExact(l: Ledger, a: Address, n: nat)
    requires Conserved(l) && l.supply + n <= MAX
    ensures var l' := MintToAccount(l, a, n);
            l'.Ok? && Conserved(l'.value) && Minted(l, l'.value, n, {})
  {
    AccountAddTokens(AddToSupply(l, n), a, n);
  }

  /** The accounts after n was taken from one and m given to another. */
  ghost predicate Shifted(l: Ledger, l': Ledger, from: Address, n: nat, to: Address, m: nat) {
    forall b :: Balance(l', b) == Balance(l, b) - (if b == from then n else 0) + (if b == to then m else 0)
  }

  lemma SubShifts(l: Ledger, a: Address, n: nat, vesting: nat)
    requires AccountSub(l, a, n, vesting).Ok?
    ensures Shifted(l, AccountSub(l, a, n, vesting).value, a, n, a, 0)
    ensures n <= Balance(l, a)
  {}

  lemma AddShifts(l: Ledger, a: Address, n: nat)
    requires AccountAdd(l, a, n).Ok?
    ensures Shifted(l, AccountAdd(l, a, n).value, a, 0, a, n)
  {}

  /** The account can spend n beyond what is vesting. */
  predicate CanPay(l: Ledger, a: Address, n: nat, vesting: nat) { n == 0 || vesting + n <= Balance(l, a) }

  /** A send succeeds exactly when it is accepted and the sender can spend it, and moves exactly that. */
  lemma SendMoves(l: Ledger, from: Address, to: Address, n: nat, vesting: nat, accepted: bool)
    requires Conserved(l)
    ensures var out := Send(l, from, to, n, vesting, accepted);
            && (out.Ok? <==> accepted && n <= (if n == 0 then 0 else Spendable(l, from, vesting)))
            && (out.Ok? ==> Moved(l, out.value, {}) && out.value.stakes == l.stakes && Shifted(l, out.value, from, n, to, n))
  {
    if AccountSub(l, from, n, vesting).Ok? {
      AccountSubTokens(l, from, n, vesting);
      SubShifts(l, from, n, vesting);
      var l1 := AccountSub(l, from, n, vesting).value;
      AccountAddTokens(l1, to, n);
      AddShifts(l1, to, n);
    }
  }

  /** A fee or subsidy that can be paid leaves one account for one pool; a subsidy goes to a committee that is not retired. */
  lemma FeeMoves(l: Ledger, from: Address, fee: nat, chain: ChainId, vesting: nat)
    requires Conserved(l)
    ensures var out := DeductFee(l, from, fee, chain, vesting);
            && (out.Ok? <==> CanPay(l, from, fee, vesting))
            && (out.Ok? ==>
                  && Moved(l, out.value, {chain}) && out.value.stakes == l.stakes
                  && Shifted(l, out.value, from, fee, from, 0) && PoolBalance(out.value, chain) == PoolBalance(l, chain) + fee)
    ensures forall retired :: Subsidize(l, from, fee, chain, vesting, retired).Ok? <==> !retired && CanPay(l, from, fee, vesting)
  {
    if CanPay(l, from, fee, vesting) {
      AccountSubTokens(l, from, fee, vesting);
      SubShifts(l, from, fee, vesting);
      PoolAddTokens(AccountSub(l, from, fee, vesting).value, chain, fee);
    }
  }

  /** A transfer moves the DAO's tokens to one account; a minting one creates exactly what it hands out. */
  lemma DaoMoves(l: Ledger, to: Address, n: nat, mint: bool, approved: bool)
    requires Conserved(l) && (mint ==> l.supply + n <= MAX)
    ensures var out := DaoTransfer(l, to, n, mint, approved);
            && (out.Ok? <==> approved && (mint || PoolBalance(l, DAO_POOL_ID) >= n))
            && (out.Ok? ==>
                  && (if mint then Minted(l, out.value, n, {DAO_POOL_ID}) else Moved(l, out.value, {DAO_POOL_ID}))
                  && out.value.stakes == l.stakes && Shifted(l, out.value, to, 0, to, n))
  {
    var l1 := if mint then MintToPool(l, DAO_POOL_ID, n) else l;
    if mint { PoolAddTokens(AddToSupply(l, n), DAO_POOL_ID, n); }
    if PoolBalance(l1, DAO_POOL_ID) >= n {
      PoolSubTokens(l1, DAO_POOL_ID, n);
      var l2 := PoolSub(l1, DAO_POOL_ID, n).value;
      AccountAddTokens(l2, to, n);
      AddShifts(l2, to, n);
    }
  }

  /** One validator's stake has become n, the others' are as they were. */
  ghost predicate Restaked(l: Ledger, l': Ledger, v: Address, n: nat) {
    forall b :: StakeOf(l', b) == if b == v then n else StakeOf(l, b)
  }

  /** Only validators have stake. */
  ghost predicate OnlyValidatorsStake(l: Ledger, committees: map<Address, seq<ChainId>>) {
    forall v | v !in committees :: StakeOf(l, v) == 0
  }

  /** A new validator's stake, of at least the minimum, leaves the signer's account. */
  lemma StakeMoves(l: Ledger, signer: Address, v: Address, n: nat, minimum: nat, vesting: nat, known: bool)
    requires Conserved(l) && StakeOf(l, v) == 0
    ensures var out := Stake(l, signer, v, n, minimum, vesting, known);
            && (out.Ok? <==> !known && n >= minimum && CanPay(l, signer, n, vesting))
            && (out.Ok? ==> Moved(l, out.value, {}) && Shifted(l, out.value, signer, n, signer, 0) && Restaked(l, out.value, v, n))
  {
    if CanPay(l, signer, n, vesting) {
      AccountSubTokens(l, signer, n, vesting);
      SubShifts(l, signer, n, vesting);
      SetStakeTokens(AccountSub(l, signer, n, vesting).value, v, n);
    }
  }

  /** The stake becomes the larger of what it was and what is asked for, at the signer's expense. */
  lemma EditStakeMoves(l: Ledger, signer: Address, v: Address, amount: nat, vesting: nat, allowed: bool)
    requires Conserved(l)
    ensures var out, added := EditStake(l, signer, v, amount, vesting, allowed), Max(StakeOf(l, v), amount) - StakeOf(l, v);
            && (out.Ok? <==> allowed && CanPay(l, signer, added, vesting))
            && (out.Ok? ==>
                  && Moved(l, out.value, {}) && Restaked(l, out.value, v, Max(StakeOf(l, v), amount))
                  && Shifted(l, out.value, signer, added, signer, 0))
  {
    var added := Raise(StakeOf(l, v), amount);
    if CanPay(l, signer, added, vesting) {
      AccountSubTokens(l, signer, added, vesting);
      SubShifts(l, signer, added, vesting);
      AddStakeTokens(AccountSub(l, signer, added, vesting).value, v, added);
    }
  }

  /** The whole stake goes to the output address, and this cannot fail for a validator that exists. */
  lemma UnstakeMoves(l: Ledger, v: Address, output: Address, known: bool)
    requires Conserved(l)
    ensures var out := FinishUnstaking(l, v, output, known);
            && (out.Ok? <==> known)
            && (out.Ok? ==>
                  Moved(l, out.value, {}) && Restaked(l, out.value, v, 0) && Shifted(l, out.value, output, 0, output, StakeOf(l, v)))
  {
    SumPut(l.stakes, v, 0);
    SumPut(l.accounts, output, 0);
    AccountAddTokens(l, output, StakeOf(l, v));
    AddShifts(l, output, StakeOf(l, v));
    SetStakeTokens(AccountAdd(l, output, StakeOf(l, v)).value, v, 0);
  }

  // ---- The handlers ------------------------------------------------------

  method HandleMessageSend(s: StateMachine, from: Address, to: Address, n: nat, vesting: nat, accepted: bool) returns (r: Result<()>)
    modifies s`ledger
    ensures match Send(old(s.ledger), from, to, n, vesting, accepted)
            case Ok(l) => r == Ok(()) && s.ledger == l
            case Err(e) => r == Err(e)
  {
    if !accepted { return Err(InvalidAmount); }
    r := s.AccountSub(from, n, vesting);
    if r.Ok? { r := s.AccountAdd(to, n); }
  }

  method AccountDeductFees(s: StateMachine, from: Address, fee: nat, vesting: nat) returns (r: Result<()>)
    modifies s`ledger
    ensures match DeductFee(old(s.ledger), from, fee, s.chainId, vesting)
            case Ok(l) => r == Ok(()) && s.ledger == l
            case Err(e) => r == Err(e)
  {
    r := s.AccountSub(from, fee, vesting);
    if r.Ok? { s.PoolAdd(s.chainId, fee); }
  }

  method HandleMessageSubsidy(s: StateMachine, from: Address, n: nat, chain: ChainId, vesting: nat, retired: bool) returns (r: Result<()>)
    modifies s`ledger
    ensures match Subsidize(old(s.ledger), from, n, chain, vesting, retired)
            case Ok(l) => r == Ok(()) && s.ledger == l
            case Err(e) => r == Err(e)
  {
    if retired { return Err(Refused); }
    r := s.AccountSub(from, n, vesting);
    if r.Ok? { s.PoolAdd(chain, n); }
  }

  method MintTokensToPool(s: StateMachine, id: PoolId, n: nat)
    modifies s`ledger
    ensures s.ledger == MintToPool(old(s.ledger), id, n)
  {
    s.ledger := s.ledger.(supply := (s.ledger.supply + n) % U64);
    s.PoolAdd(id, n);
  }

  method HandleMessageDAOTransfer(s: StateMachine, to: Address, n: nat, mint: bool, approved: bool) returns (r: Result<()>)
    modifies s`ledger
    ensures match DaoTransfer(old(s.ledger), to, n, mint, approved)
            case Ok(l) => r == Ok(()) && s.ledger == l
            case Err(e) => r == Err(e)
  {
    if !approved { return Err(Refused); }
    if mint { MintTokensToPool(s, DAO_POOL_ID, n); }
    r := s.PoolSub(DAO_POOL_ID, n);
    if r.Ok? { r := s.AccountAdd(to, n); }
  }

  /** Only the configured faucet is topped up, by just what its spendable balance lacks of what the transaction requires; and
      then it can pay that exactly when its balance covered what is vesting. */
  lemma FaucetExact(l: Ledger, a: Address, faucet: Option<Address>, required: nat, vesting: nat, b: Address)
    requires TopUp(l, a, faucet, required, vesting).Ok?
    ensures var l' := TopUp(l, a, faucet, required, vesting).value;
            && l'.pools == l.pools && l'.stakes == l.stakes
            && (a != b || faucet != Some(a) ==> Balance(l', b) == Balance(l, b))
            && (faucet != Some(a) ==> l' == l)
            && (faucet == Some(a) ==>
                  && Spendable(l, a, vesting) + (Balance(l', a) - Balance(l, a)) == Max(Spendable(l, a, vesting), required)
                  && (AccountSub(l', a, required, vesting).Ok? <==> required == 0 || vesting <= Balance(l, a)))
  {}

  method FaucetTopUp(s: StateMachine, a: Address, faucet: Option<Address>, required: nat, vesting: nat) returns (r: Result<()>)
    modifies s`ledger
    ensures match TopUp(old(s.ledger), a, faucet, required, vesting)
            case Ok(l) => r == Ok(()) && s.ledger == l
            case Err(e) => r == Err(e)
  {
    if faucet.None? || a != faucet.value { return Ok(()); }
    var balance := Spendable(s.ledger, a, vesting);
    if balance >= required { return Ok(()); }
    s.ledger := AddToSupply(s.ledger, required - balance);
    r := s.AccountAdd(a, required - balance);
  }

  method HandleMessageStake(s: StateMachine, signer: Address, v: Address, n: nat, minimum: nat, ids: seq<ChainId>, vesting: nat)
    returns (r: Result<()>)
    modifies s`ledger, s`committees
    ensures match Stake(old(s.ledger), signer, v, n, minimum, vesting, v in old(s.committees))
            case Ok(l) => r == Ok(()) && s.ledger == l && s.committees == old(s.committees)[v := ids]
            case Err(e) => r == Err(e)
  {
    if v in s.committees { return Err(Refused); }
    if n < minimum { return Err(Refused); }
    r := s.AccountSub(signer, n, vesting);
    if r.Ok? {
      s.ledger := SetStake(s.ledger, v, n);
      s.committees := s.committees[v := ids];
    }
  }

  /** `authorised`: the validator is not unstaking, and the signer may make this edit. */
  method HandleMessageEditStake(s: StateMachine, signer: Address, v: Address, amount: nat, ids: seq<ChainId>, vesting: nat,
                                authorised: bool)
    returns (r: Result<()>)
    modifies s`ledger, s`committees
    ensures match EditStake(old(s.ledger), signer, v, amount, vesting, v in old(s.committees) && authorised)
            case Ok(l) => r == Ok(()) && s.ledger == l && s.committees == old(s.committees)[v := ids]
            case Err(e) => r == Err(e)
  {
    if v !in s.committees || !authorised { return Err(Refused); }
    var added := 0;
    if amount > StakeOf(s.ledger, v) { added := amount - StakeOf(s.ledger, v); }
    r := s.AccountSub(signer, added, vesting);
    if r.Ok? {
      s.ledger := AddStake(s.ledger, v, added);
      s.committees := s.committees[v := ids];
    }
  }

  /** One entry of the loop of DeleteFinishedUnstaking. */
  method DeleteFinishedUnstaking(s: StateMachine, v: Address, output: Address) returns (r: Result<()>)
    modifies s`ledger, s`committees
    ensures match FinishUnstaking(old(s.ledger), v, output, v in old(s.committees))
            case Ok(l) => r == Ok(()) && s.ledger == l && s.committees == old(s.committees) - {v}
            case Err(e) => r == Err(e)
  {
    if v !in s.committees { return Err(Refused); }
    r := s.AccountAdd(output, StakeOf(s.ledger, v));
    if r.Ok? {
      s.ledger := SetStake(s.ledger, v, 0);
      s.committees := s.committees - {v};
    }
  }
}
