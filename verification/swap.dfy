/** The sell-order book: the order handlers of fsm/message.go and the committee's lock, reset and close
    instructions of fsm/swap.go, over the ledger's escrow pools. */
module Swaps {
  import opened Lib
  import opened Sums
  import opened Points
  import opened Ledgers
  import opened Machine

  datatype Market = Market(ledger: Ledger, orders: map<OrderKey, SellOrder>)

  datatype Lock = Lock(id: OrderId, buyerReceive: Option<Address>, buyerSend: Option<Address>, deadline: nat)

  /** What a create or edit message asks for. */
  datatype Terms = Terms(amount: nat, requested: nat, receive: Address)

  function CreateOrder(m: Market, k: OrderKey, seller: Address, t: Terms, minimum: nat, vesting: nat): Result<Market> {
    if t.amount < minimum then Err(MinimumOrderSize) else
      match AccountSub(m.ledger, seller, t.amount, vesting)
      case Err(e) => Err(e)
      case Ok(l) =>
        var o := SellOrder(t.amount, t.requested, seller, t.receive, None, None, 0);
        Ok(Market(PoolAdd(l, EscrowPool(k.0), t.amount), m.orders[k := o]))
  }

  /** The seller tops the escrow up, or is given back the difference. */
  function Reprice(l: Ledger, c: ChainId, o: SellOrder, amount: nat, vesting: nat): Result<Ledger> {
    if amount > o.amount then
      match AccountSub(l, o.seller, amount - o.amount, vesting)
      case Err(e) => Err(e)
      case Ok(l') => Ok(PoolAdd(l', EscrowPool(c), amount - o.amount))
    else if amount < o.amount then
      match PoolSub(l, EscrowPool(c), o.amount - amount)
      case Err(e) => Err(e)
      case Ok(l') => AccountAdd(l', o.seller, o.amount - amount)
    else Ok(l)
  }

  function EditOrder(m: Market, k: OrderKey, t: Terms, minimum: nat, vesting: nat): Result<Market> {
    if k !in m.orders then Err(OrderNotFound)
    else if m.orders[k].buyerReceive.Some? then Err(OrderLocked)
    else if t.amount < minimum then Err(MinimumOrderSize)
    else
      match Reprice(m.ledger, k.0, m.orders[k], t.amount, vesting)
      case Err(e) => Err(e)
      case Ok(l) => Ok(Market(l, m.orders[k := SellOrder(t.amount, t.requested, m.orders[k].seller, t.receive, None, None, 0)]))
  }

  function DeleteOrder(m: Market, k: OrderKey): Result<Market> {
    if k !in m.orders then Err(OrderNotFound)
    else if m.orders[k].buyerReceive.Some? then Err(OrderLocked)
    else
      match PoolSub(m.ledger, EscrowPool(k.0), m.orders[k].amount)
      case Err(e) => Err(e)
      case Ok(l) =>
        match AccountAdd(l, m.orders[k].seller, m.orders[k].amount)
        case Err(e) => Err(e)
        case Ok(l') => Ok(Market(l', m.orders - {k}))
  }

  // ---- Committee instructions: errors are logged and swallowed, nothing is rolled back -----------------

  function LockOrder(m: Market, c: ChainId, lock: Option<Lock>): Market {
    if lock.None? then m else
      var k := (c, lock.value.id);
      if k !in m.orders || m.orders[k].buyerReceive.Some? then m
      else m.(orders := m.orders[k := m.orders[k].(buyerReceive := lock.value.buyerReceive,
                                                    buyerSend := lock.value.buyerSend, deadline := lock.value.deadline)])
  }

  function ResetOrder(m: Market, k: OrderKey): Market {
    if k !in m.orders then m
    else m.(orders := m.orders[k := m.orders[k].(buyerReceive := None, buyerSend := None, deadline := 0)])
  }

  /** The two preflight tests of CloseOrder. */
  predicate CanClose(m: Market, k: OrderKey) {
    && k in m.orders && m.orders[k].buyerReceive.Some?
    && Balance(m.ledger, m.orders[k].buyerReceive.value) + m.orders[k].amount <= MAX
    && PoolBalance(m.ledger, EscrowPool(k.0)) >= m.orders[k].amount
  }

  /** The state CloseOrder leaves, also when its second leg fails after the first took effect. */
  function CloseOrder(m: Market, k: OrderKey): (Market, Option<Error>) {
    if k !in m.orders then (m, Some(OrderNotFound))
    else if m.orders[k].buyerReceive.None? then (m, Some(InvalidLockOrder))
    else
      var o := m.orders[k];
      var buyer := o.buyerReceive.value;
      if Balance(m.ledger, buyer) + o.amount > MAX then (m, Some(InvalidAmount))
      else if PoolBalance(m.ledger, EscrowPool(k.0)) < o.amount then (m, Some(InsufficientFunds))
      else
        match PoolSub(m.ledger, EscrowPool(k.0), o.amount)
        case Err(e) => (m, Some(e))
        case Ok(l) =>
          match AccountAdd(l, buyer, o.amount)
          case Err(e) => (m.(ledger := l), Some(e))
          case Ok(l') => (Market(l', m.orders - {k}), None)
  }

  function LocksFrom(m: Market, c: ChainId, locks: seq<Option<Lock>>, i: nat): Market
    requires i <= |locks|
    decreases |locks| - i
  {
    if i == |locks| then m else LocksFrom(LockOrder(m, c, locks[i]), c, locks, i + 1)
  }

  /** A reset is skipped when the same instruction set also closes the order. */
  function ResetsFrom(m: Market, c: ChainId, resets: seq<OrderId>, closes: seq<OrderId>, i: nat): Market
    requires i <= |resets|
    decreases |resets| - i
  {
    if i == |resets| then m
    else ResetsFrom(if resets[i] in closes then m else ResetOrder(m, (c, resets[i])), c, resets, closes, i + 1)
  }

  function ClosesFrom(m: Market, c: ChainId, closes: seq<OrderId>, i: nat): Market
    requires i <= |closes|
    decreases |closes| - i
  {
    if i == |closes| then m else ClosesFrom(CloseOrder(m, (c, closes[i])).0, c, closes, i + 1)
  }

  datatype Instructions = Instructions(locks: seq<Option<Lock>>, resets: seq<OrderId>, closes: seq<OrderId>)

  function CommitteeSwaps(m: Market, c: ChainId, ins: Instructions): Market {
    ClosesFrom(ResetsFrom(LocksFrom(m, c, ins.locks, 0), c, ins.resets, ins.closes, 0), c, ins.closes, 0)
  }

  // ---- The handlers ------------------------------------------------------

  function MarketOf(s: StateMachine): Market
    reads s`ledger, s`orders
  {
    Market(s.ledger, s.orders)
  }

  method HandleMessageCreateOrder(s: StateMachine, k: OrderKey, seller: Address, t: Terms, minimum: nat, vesting: nat)
    returns (r: Result<()>)
    modifies s`ledger, s`orders
    ensures match CreateOrder(old(MarketOf(s)), k, seller, t, minimum, vesting)
            case Ok(m) => r == Ok(()) && MarketOf(s) == m
            case Err(e) => r == Err(e)
  {
    if t.amount < minimum { return Err(MinimumOrderSize); }
    r := s.AccountSub(seller, t.amount, vesting);
    if r.Err? { return; }
    s.PoolAdd(EscrowPool(k.0), t.amount);
    s.orders := s.orders[k := SellOrder(t.amount, t.requested, seller, t.receive, None, None, 0)];
  }

  method HandleMessageEditOrder(s: StateMachine, k: OrderKey, t: Terms, minimum: nat, vesting: nat) returns (r: Result<()>)
    modifies s`ledger, s`orders
    ensures match EditOrder(old(MarketOf(s)), k, t, minimum, vesting)
            case Ok(m) => r == Ok(()) && MarketOf(s) == m
            case Err(e) => r == Err(e)
  {
    if k !in s.orders { return Err(OrderNotFound); }
    var o := s.orders[k];
    if o.buyerReceive.Some? { return Err(OrderLocked); }
    if t.amount < minimum { return Err(MinimumOrderSize); }
    r := Ok(());
    if t.amount > o.amount {
      var difference := t.amount - o.amount;
      r := s.AccountSub(o.seller, difference, vesting);
      if r.Err? { return; }
      s.PoolAdd(EscrowPool(k.0), difference);
    } else if t.amount < o.amount {
      var difference := o.amount - t.amount;
      r := s.PoolSub(EscrowPool(k.0), difference);
      if r.Err? { return; }
      r := s.AccountAdd(o.seller, difference);
      if r.Err? { return; }
    }
    s.orders := s.orders[k := SellOrder(t.amount, t.requested, o.seller, t.receive, None, None, 0)];
  }

  method HandleMessageDeleteOrder(s: StateMachine, k: OrderKey) returns (r: Result<()>)
    modifies s`ledger, s`orders
    ensures match DeleteOrder(old(MarketOf(s)), k)
            case Ok(m) => r == Ok(()) && MarketOf(s) == m
            case Err(e) => r == Err(e)
  {
    if k !in s.orders { return Err(OrderNotFound); }
    var o := s.orders[k];
    if o.buyerReceive.Some? { return Err(OrderLocked); }
    r := s.PoolSub(EscrowPool(k.0), o.amount);
    if r.Err? { return; }
    r := s.AccountAdd(o.seller, o.amount);
    if r.Err? { return; }
    s.orders := s.orders - {k};
  }

  method LockSellOrder(s: StateMachine, c: ChainId, lock: Lock) returns (r: Result<()>)
    modifies s`orders
    ensures MarketOf(s) == LockOrder(old(MarketOf(s)), c, Some(lock))
    ensures r.Err? ==> s.orders == old(s.orders)
  {
    var k := (c, lock.id);
    if k !in s.orders { return Err(OrderNotFound); }
    var o := s.orders[k];
    if o.buyerReceive.Some? { return Err(OrderLocked); }
    s.orders := s.orders[k := o.(buyerReceive := lock.buyerReceive, buyerSend := lock.buyerSend, deadline := lock.deadline)];
    return Ok(());
  }

  method ResetSellOrder(s: StateMachine, k: OrderKey) returns (r: Result<()>)
    modifies s`orders
    ensures MarketOf(s) == ResetOrder(old(MarketOf(s)), k)
    ensures r.Err? ==> s.orders == old(s.orders)
  {
    if k !in s.orders { return Err(OrderNotFound); }
    s.orders := s.orders[k := s.orders[k].(buyerReceive := None, buyerSend := None, deadline := 0)];
    return Ok(());
  }

  method CloseSellOrder(s: StateMachine, k: OrderKey) returns (r: Result<()>)
    modifies s`ledger, s`orders
    ensures var (m, error) := CloseOrder(old(MarketOf(s)), k);
            MarketOf(s) == m && r == if error.Some? then Err(error.value) else Ok(())
  {
    if k !in s.orders { return Err(OrderNotFound); }
    var o := s.orders[k];
    if o.buyerReceive.None? { return Err(InvalidLockOrder); }
    var buyer := o.buyerReceive.value;
    if Balance(s.ledger, buyer) + o.amount > MAX { return Err(InvalidAmount); }
    if PoolBalance(s.ledger, EscrowPool(k.0)) < o.amount { return Err(InsufficientFunds); }
    r := s.PoolSub(EscrowPool(k.0), o.amount);
    if r.Err? { return; }
    r := s.AccountAdd(buyer, o.amount);
    if r.Err? { return; }
    s.orders := s.orders - {k};
  }

  method HandleCommitteeSwaps(s: StateMachine, c: ChainId, ins: Instructions)
    modifies s`ledger, s`orders
    ensures MarketOf(s) == CommitteeSwaps(old(MarketOf(s)), c, ins)
  {
    for i := 0 to |ins.locks|
      invariant LocksFrom(old(MarketOf(s)), c, ins.locks, 0) == LocksFrom(MarketOf(s), c, ins.locks, i)
    {
      if ins.locks[i].Some? {
        var _ := LockSellOrder(s, c, ins.locks[i].value);
      }
    }
    ghost var locked := MarketOf(s);
    for i := 0 to |ins.resets|
      invariant ResetsFrom(locked, c, ins.resets, ins.closes, 0) == ResetsFrom(MarketOf(s), c, ins.resets, ins.closes, i)
    {
      if ins.resets[i] !in ins.closes {
        var _ := ResetSellOrder(s, (c, ins.resets[i]));
      }
    }
    ghost var reset := MarketOf(s);
    for i := 0 to |ins.closes|
      invariant ClosesFrom(reset, c, ins.closes, 0) == ClosesFrom(MarketOf(s), c, ins.closes, i)
    {
      var _ := CloseSellOrder(s, (c, ins.closes[i]));
    }
  }

  // ---- Escrow ------------------------------------------------------------

  /** The amounts for sale in one committee's book, open and locked orders alike. */
  ghost function Amounts(orders: map<OrderKey, SellOrder>, c: ChainId): map<OrderKey, nat> {
    map k | k in orders && k.0 == c :: orders[k].amount
  }

  ghost function ForSale(orders: map<OrderKey, SellOrder>, c: ChainId): nat { Sum(Amounts(orders, c)) }

  /** Every committee's escrow pool equals what its orders have for sale, and all tokens fit 64 bits. */
  ghost predicate Backed(m: Market) {
    && Tokens(m.ledger) <= MAX
    && forall c: nat | c <= MAX_CHAIN_ID :: PoolBalance(m.ledger, EscrowPool(c)) == ForSale(m.orders, c)
  }

  /** Nothing but accounts and this committee's escrow pool has changed. */
  ghost predicate OnlyEscrow(l: Ledger, l': Ledger, c: ChainId) {
    && Tokens(l') == Tokens(l) && l'.stakes == l.stakes && l'.supply == l.supply
    && forall j | j != EscrowPool(c) :: PoolBalance(l', j) == PoolBalance(l, j)
  }

  function AmountAt(orders: map<OrderKey, SellOrder>, k: OrderKey): nat { if k in orders then orders[k].amount else 0 }

  lemma ForSalePut(orders: map<OrderKey, SellOrder>, k: OrderKey, o: SellOrder)
    ensures ForSale(orders[k := o], k.0) == ForSale(orders, k.0) - AmountAt(orders, k) + o.amount
    ensures forall c | c != k.0 :: ForSale(orders[k := o], c) == ForSale(orders, c)
  {
    assert Amounts(orders[k := o], k.0) == Amounts(orders, k.0)[k := o.amount];
    SumSet(Amounts(orders, k.0), k, o.amount);
    forall c | c != k.0 ensures ForSale(orders[k := o], c) == ForSale(orders, c) {
      assert Amounts(orders[k := o], c) == Amounts(orders, c);
    }
  }

  lemma ForSaleDrop(orders: map<OrderKey, SellOrder>, k: OrderKey)
    requires k in orders
    ensures ForSale(orders - {k}, k.0) == ForSale(orders, k.0) - orders[k].amount
    ensures orders[k].amount <= ForSale(orders, k.0)
    ensures forall c | c != k.0 :: ForSale(orders - {k}, c) == ForSale(orders, c)
  {
    assert Amounts(orders - {k}, k.0) == Amounts(orders, k.0) - {k};
    SumRemove(Amounts(orders, k.0), k);
    forall c | c != k.0 ensures ForSale(orders - {k}, c) == ForSale(orders, c) {
      assert Amounts(orders - {k}, c) == Amounts(orders, c);
    }
  }

  /** A new order keeps every escrow exact if and only if its id was free or belonged to an order with
      nothing for sale: an order that is overwritten leaves its tokens behind. */
  lemma CreateBacked(m: Market, k: OrderKey, seller: Address, t: Terms, minimum: nat, vesting: nat)
    requires Backed(m) && k.0 <= MAX_CHAIN_ID && CreateOrder(m, k, seller, t, minimum, vesting).Ok?
    ensures var m' := CreateOrder(m, k, seller, t, minimum, vesting).value;
            && OnlyEscrow(m.ledger, m'.ledger, k.0)
            && (Backed(m') <==> k !in m.orders || m.orders[k].amount == 0)
  {
    var m' := CreateOrder(m, k, seller, t, minimum, vesting).value;
    AccountSubTokens(m.ledger, seller, t.amount, vesting);
    PoolAddTokens(AccountSub(m.ledger, seller, t.amount, vesting).value, EscrowPool(k.0), t.amount);
    ForSalePut(m.orders, k, m'.orders[k]);
    if k in m.orders { ForSaleDrop(m.orders, k); }
    assert PoolBalance(m'.ledger, EscrowPool(k.0)) == ForSale(m'.orders, k.0) <==> AmountAt(m.orders, k) == 0;
  }

  lemma EditBacked(m: Market, k: OrderKey, t: Terms, minimum: nat, vesting: nat)
    requires Backed(m) && k.0 <= MAX_CHAIN_ID && EditOrder(m, k, t, minimum, vesting).Ok?
    ensures var m' := EditOrder(m, k, t, minimum, vesting).value;
            Backed(m') && OnlyEscrow(m.ledger, m'.ledger, k.0)
  {
    var m' := EditOrder(m, k, t, minimum, vesting).value;
    ForSalePut(m.orders, k, m'.orders[k]);
    ForSaleDrop(m.orders, k);
    RepriceExact(m.ledger, k.0, m.orders[k], t.amount, vesting);
  }

  lemma RepriceExact(l: Ledger, c: ChainId, o: SellOrder, amount: nat, vesting: nat)
    requires Tokens(l) <= MAX && Reprice(l, c, o, amount, vesting).Ok?
    ensures var l' := Reprice(l, c, o, amount, vesting).value;
            && OnlyEscrow(l, l', c)
            && PoolBalance(l', EscrowPool(c)) == PoolBalance(l, EscrowPool(c)) - o.amount + amount
  {
    if amount > o.amount {
      AccountSubTokens(l, o.seller, amount - o.amount, vesting);
      PoolAddTokens(AccountSub(l, o.seller, amount - o.amount, vesting).value, EscrowPool(c), amount - o.amount);
    } else if amount < o.amount {
      PoolSubTokens(l, EscrowPool(c), o.amount - amount);
      AccountAddTokens(PoolSub(l, EscrowPool(c), o.amount - amount).value, o.seller, o.amount - amount);
    }
  }

  /** Paying out an order and dropping it; the payment cannot fail while the books are exact. */
  lemma PayoutBacked(m: Market, k: OrderKey, payee: Address)
    requires Backed(m) && k in m.orders && k.0 <= MAX_CHAIN_ID
    ensures var l := PoolSub(m.ledger, EscrowPool(k.0), m.orders[k].amount);
            && l.Ok?
            && var l' := AccountAdd(l.value, payee, m.orders[k].amount);
               && l'.Ok? && Backed(Market(l'.value, m.orders - {k})) && OnlyEscrow(m.ledger, l'.value, k.0)
  {
    var o := m.orders[k];
    ForSaleDrop(m.orders, k);
    PoolSubTokens(m.ledger, EscrowPool(k.0), o.amount);
    AccountAddTokens(PoolSub(m.ledger, EscrowPool(k.0), o.amount).value, payee, o.amount);
  }

  /** Closing is atomic: either the buyer is paid and the order is gone, or nothing changed at all, although
      its caller swallows the error without a rollback. This needs no invariant. */
  lemma CloseIsAtomic(m: Market, k: OrderKey)
    ensures var (m', error) := CloseOrder(m, k);
            && (error.Some? ==> m' == m)
            && (error.None? <==> CanClose(m, k))
            && (error.None? ==>
                  && m'.orders == m.orders - {k}
                  && (forall a :: Balance(m'.ledger, a) == Balance(m.ledger, a)
                                  + if a == m.orders[k].buyerReceive.value then m.orders[k].amount else 0))
  {
    if CanClose(m, k) {
      PoolSubTokens(m.ledger, EscrowPool(k.0), m.orders[k].amount);
    }
  }

  /** When the order messages go through: a new order has the minimum size and can be paid; an order that is edited is open,
      keeps the minimum size, and any rise can be paid; one that is deleted is open. Nothing else stands in the way while the
      books are exact. */
  lemma MessagesSucceedExactly(m: Market, k: OrderKey, seller: Address, t: Terms, minimum: nat, vesting: nat)
    requires Backed(m) && k.0 <= MAX_CHAIN_ID
    ensures CreateOrder(m, k, seller, t, minimum, vesting).Ok? <==>
              t.amount >= minimum && (t.amount == 0 || vesting + t.amount <= Balance(m.ledger, seller))
    ensures EditOrder(m, k, t, minimum, vesting).Ok? <==>
              && k in m.orders && m.orders[k].buyerReceive.None? && t.amount >= minimum
              && (t.amount <= m.orders[k].amount || vesting + (t.amount - m.orders[k].amount) <= Balance(m.ledger, m.orders[k].seller))
    ensures DeleteOrder(m, k).Ok? <==> k in m.orders && m.orders[k].buyerReceive.None?
  {
    if k in m.orders {
      var o := m.orders[k];
      PayoutBacked(m, k, o.seller);
      ForSaleDrop(m.orders, k);
      PoolAndAccountFit(m.ledger, EscrowPool(k.0), o.seller);
    }
  }

  lemma CloseBacked(m: Market, k: OrderKey)
    requires Backed(m) && k.0 <= MAX_CHAIN_ID
    ensures Backed(CloseOrder(m, k).0) && OnlyEscrow(m.ledger, CloseOrder(m, k).0.ledger, k.0)
    ensures k in m.orders && m.orders[k].buyerReceive.Some? ==> k !in CloseOrder(m, k).0.orders
  {
    if k in m.orders && m.orders[k].buyerReceive.Some? {
      var buyer := m.orders[k].buyerReceive.value;
      PayoutBacked(m, k, buyer);
      SetAccountTokens(m.ledger, buyer, 0);
      ForSaleDrop(m.orders, k);
      PoolAndAccountFit(m.ledger, EscrowPool(k.0), buyer);
    }
  }

  lemma PoolAndAccountFit(l: Ledger, id: PoolId, a: Address)
    ensures PoolBalance(l, id) + Balance(l, a) <= Tokens(l)
  {
    SumPut(l.pools, id, 0);
    SumPut(l.accounts, a, 0);
  }

  lemma LockBacked(m: Market, c: ChainId, lock: Option<Lock>)
    requires Backed(m)
    ensures Backed(LockOrder(m, c, lock)) && LockOrder(m, c, lock).ledger == m.ledger
  {
    if lock.Some? && (c, lock.value.id) in m.orders {
      var m' := LockOrder(m, c, lock);
      ForSalePut(m.orders, (c, lock.value.id), m'.orders[(c, lock.value.id)]);
      if m' != m { assert m'.orders == m.orders[(c, lock.value.id) := m'.orders[(c, lock.value.id)]]; }
    }
  }

  lemma ResetBacked(m: Market, k: OrderKey)
    requires Backed(m)
    ensures Backed(ResetOrder(m, k)) && ResetOrder(m, k).ledger == m.ledger
  {
    if k in m.orders {
      ForSalePut(m.orders, k, ResetOrder(m, k).orders[k]);
    }
  }

  lemma {:induction false} LocksBacked(m: Market, c: ChainId, locks: seq<Option<Lock>>, i: nat)
    requires Backed(m) && i <= |locks|
    ensures Backed(LocksFrom(m, c, locks, i)) && LocksFrom(m, c, locks, i).ledger == m.ledger
    decreases |locks| - i
  {
    if i < |locks| {
      LockBacked(m, c, locks[i]);
      LocksBacked(LockOrder(m, c, locks[i]), c, locks, i + 1);
    }
  }

  lemma {:induction false} ResetsBacked(m: Market, c: ChainId, resets: seq<OrderId>, closes: seq<OrderId>, i: nat)
    requires Backed(m) && i <= |resets|
    ensures Backed(ResetsFrom(m, c, resets, closes, i)) && ResetsFrom(m, c, resets, closes, i).ledger == m.ledger
    decreases |resets| - i
  {
    if i < |resets| {
      ResetBacked(m, (c, resets[i]));
      ResetsBacked(if resets[i] in closes then m else ResetOrder(m, (c, resets[i])), c, resets, closes, i + 1);
    }
  }

  lemma {:induction false} ClosesBacked(m: Market, c: ChainId, closes: seq<OrderId>, i: nat)
    requires Backed(m) && i <= |closes| && c <= MAX_CHAIN_ID
    ensures Backed(ClosesFrom(m, c, closes, i)) && OnlyEscrow(m.ledger, ClosesFrom(m, c, closes, i).ledger, c)
    decreases |closes| - i
  {
    if i < |closes| {
      CloseBacked(m, (c, closes[i]));
      ClosesBacked(CloseOrder(m, (c, closes[i])).0, c, closes, i + 1);
    }
  }

  // ---- Runs --------------------------------------------------------------

  datatype Event =
    | Create(k: OrderKey, seller: Address, terms: Terms, minimum: nat, vesting: nat)
    | Edit(k: OrderKey, terms: Terms, minimum: nat, vesting: nat)
    | Delete(k: OrderKey)
    | Committee(c: ChainId, ins: Instructions)

  function OrElse(r: Result<Market>, m: Market): Market { match r case Ok(m') => m' case Err(_) => m }

  function Step(m: Market, e: Event): Market {
    match e
    case Create(k, seller, t, minimum, vesting) => OrElse(CreateOrder(m, k, seller, t, minimum, vesting), m)
    case Edit(k, t, minimum, vesting) => OrElse(EditOrder(m, k, t, minimum, vesting), m)
    case Delete(k) => OrElse(DeleteOrder(m, k), m)
    case Committee(c, ins) => CommitteeSwaps(m, c, ins)
  }

  function ChainOf(e: Event): ChainId { match e case Committee(c, _) => c case _ => e.k.0 }

  /** Chain ids within range, and order ids never used twice. */
  predicate Fresh(m: Market, e: Event) { ChainOf(e) <= MAX_CHAIN_ID && (e.Create? ==> e.k !in m.orders) }

  function After(m: Market, run: seq<Event>): Market {
    if run == [] then m else Step(After(m, run[..|run| - 1]), run[|run| - 1])
  }

  predicate FreshIds(m: Market, run: seq<Event>) {
    forall i | 0 <= i < |run| :: Fresh(After(m, run[..i]), run[i])
  }

  lemma StepBacked(m: Market, e: Event)
    requires Backed(m) && Fresh(m, e)
    ensures Backed(Step(m, e)) && OnlyEscrow(m.ledger, Step(m, e).ledger, ChainOf(e))
  {
    match e
    case Create(k, seller, t, minimum, vesting) =>
      if CreateOrder(m, k, seller, t, minimum, vesting).Ok? { CreateBacked(m, k, seller, t, minimum, vesting); }
    case Edit(k, t, minimum, vesting) =>
      if EditOrder(m, k, t, minimum, vesting).Ok? { EditBacked(m, k, t, minimum, vesting); }
    case Delete(k) =>
      if DeleteOrder(m, k).Ok? { PayoutBacked(m, k, m.orders[k].seller); }
    case Committee(c, ins) =>
      LocksBacked(m, c, ins.locks, 0);
      var m1 := LocksFrom(m, c, ins.locks, 0);
      ResetsBacked(m1, c, ins.resets, ins.closes, 0);
      ClosesBacked(ResetsFrom(m1, c, ins.resets, ins.closes, 0), c, ins.closes, 0);
  }

  /** Order-book escrow: after any run of order messages and committee instructions with fresh order ids,
      each committee's escrow pool is exactly what its orders have for sale, and no token was lost. */
  lemma {:induction false} EscrowOverRuns(m: Market, run: seq<Event>)
    requires Backed(m) && FreshIds(m, run)
    ensures Backed(After(m, run)) && Tokens(After(m, run).ledger) == Tokens(m.ledger)
  {
    if run != [] {
      var before := run[..|run| - 1];
      assert forall i | 0 <= i < |before| :: before[..i] == run[..i];
      EscrowOverRuns(m, before);
      StepBacked(After(m, before), run[|run| - 1]);
    }
  }

  /** What a buyer who locked an order relies on. */
  predicate SameOffer(a: SellOrder, b: SellOrder) {
    a.amount == b.amount && a.requested == b.requested && a.seller == b.seller && a.receive == b.receive
  }

  lemma {:induction false} LocksKeep(m: Market, c: ChainId, locks: seq<Option<Lock>>, i: nat, k: OrderKey)
    requires i <= |locks| && k in m.orders && m.orders[k].buyerReceive.Some?
    ensures k in LocksFrom(m, c, locks, i).orders && LocksFrom(m, c, locks, i).orders[k] == m.orders[k]
    decreases |locks| - i
  {
    if i < |locks| { LocksKeep(LockOrder(m, c, locks[i]), c, locks, i + 1, k); }
  }

  lemma {:induction false} ResetsKeep(m: Market, c: ChainId, resets: seq<OrderId>, closes: seq<OrderId>, i: nat, k: OrderKey)
    requires i <= |resets| && k in m.orders
    ensures var m' := ResetsFrom(m, c, resets, closes, i);
            && k in m'.orders && SameOffer(m'.orders[k], m.orders[k])
            && (k.0 != c || k.1 !in resets[i..] || k.1 in closes ==> m'.orders[k] == m.orders[k])
    decreases |resets| - i
  {
    if i < |resets| {
      ResetsKeep(if resets[i] in closes then m else ResetOrder(m, (c, resets[i])), c, resets, closes, i + 1, k);
    }
  }

  lemma {:induction false} ClosesKeep(m: Market, c: ChainId, closes: seq<OrderId>, i: nat, k: OrderKey)
    requires i <= |closes| && k in m.orders
    ensures var m' := ClosesFrom(m, c, closes, i);
            && (k in m'.orders ==> m'.orders[k] == m.orders[k])
            && (k.0 != c || k.1 !in closes[i..] ==> k in m'.orders)
    decreases |closes| - i
  {
    if i < |closes| {
      CloseIsAtomic(m, (c, closes[i]));
      if k in CloseOrder(m, (c, closes[i])).0.orders { ClosesKeep(CloseOrder(m, (c, closes[i])).0, c, closes, i + 1, k); }
      else { ClosesDropped(CloseOrder(m, (c, closes[i])).0, c, closes, i + 1, k); }
    }
  }

  lemma {:induction false} ClosesDropped(m: Market, c: ChainId, closes: seq<OrderId>, i: nat, k: OrderKey)
    requires i <= |closes| && k !in m.orders
    ensures k !in ClosesFrom(m, c, closes, i).orders
    decreases |closes| - i
  {
    if i < |closes| {
      CloseIsAtomic(m, (c, closes[i]));
      ClosesDropped(CloseOrder(m, (c, closes[i])).0, c, closes, i + 1, k);
    }
  }

  /** A locked order stays exactly as it is through every message (with fresh ids) and every instruction
      set that does not name it; a reset frees it on the same terms, and only a close removes it. */
  lemma LockedOrderIsFixed(m: Market, e: Event, k: OrderKey)
    requires k in m.orders && m.orders[k].buyerReceive.Some? && Fresh(m, e)
    ensures var m' := Step(m, e);
            var reset := e.Committee? && k.0 == e.c && k.1 in e.ins.resets;
            var closed := e.Committee? && k.0 == e.c && k.1 in e.ins.closes;
            && (!reset && !closed ==> k in m'.orders && m'.orders[k] == m.orders[k])
            && (!closed ==> k in m'.orders && SameOffer(m'.orders[k], m.orders[k]))
            && (k in m'.orders && closed ==> m'.orders[k] == m.orders[k])
  {
    if e.Committee? {
      LocksKeep(m, e.c, e.ins.locks, 0, k);
      var m1 := LocksFrom(m, e.c, e.ins.locks, 0);
      assert e.ins.resets[0..] == e.ins.resets && e.ins.closes[0..] == e.ins.closes;
      ResetsKeep(m1, e.c, e.ins.resets, e.ins.closes, 0, k);
      ClosesKeep(ResetsFrom(m1, e.c, e.ins.resets, e.ins.closes, 0), e.c, e.ins.closes, 0, k);
    }
  }

  // ---- Who locks, who sells, who is paid -----------------------------------

  /** An instruction that locks this order for a buyer. */
  predicate Names(lock: Option<Lock>, id: OrderId) { lock.Some? && lock.value.id == id && lock.value.buyerReceive.Some? }

  /** The first lock for an open order, with its three fields. */
  predicate LockedBy(o: SellOrder, id: OrderId, locks: seq<Option<Lock>>, i: nat, j: nat) {
    && i <= j < |locks| && Names(locks[j], id)
    && (forall h | i <= h < j :: !Names(locks[h], id))
    && o.buyerReceive == locks[j].value.buyerReceive && o.buyerSend == locks[j].value.buyerSend
    && o.deadline == locks[j].value.deadline
  }

  /** An open order that the instructions lock is locked by the first of them that names it, on the same offer; one that
      none of them names stays open. */
  lemma {:induction false} LocksLock(m: Market, c: ChainId, locks: seq<Option<Lock>>, i: nat, k: OrderKey)
    requires i <= |locks| && k.0 == c && k in m.orders && m.orders[k].buyerReceive.None?
    ensures var m' := LocksFrom(m, c, locks, i);
            && k in m'.orders && SameOffer(m'.orders[k], m.orders[k])
            && (m'.orders[k].buyerReceive.None? <==> forall j | i <= j < |locks| :: !Names(locks[j], k.1))
            && (m'.orders[k].buyerReceive.Some? ==> exists j :: LockedBy(m'.orders[k], k.1, locks, i, j))
    decreases |locks| - i
  {
    if i < |locks| {
      var m1 := LockOrder(m, c, locks[i]);
      if Names(locks[i], k.1) {
        LocksKeep(m1, c, locks, i + 1, k);
        assert LockedBy(m1.orders[k], k.1, locks, i, i);
      } else {
        LocksLock(m1, c, locks, i + 1, k);
        var o' := LocksFrom(m1, c, locks, i + 1).orders[k];
        if o'.buyerReceive.Some? {
          var j :| LockedBy(o', k.1, locks, i + 1, j);
          assert LockedBy(o', k.1, locks, i, j);
        }
      }
    }
  }

  /** An order that is reset, and not also closed, is open afterwards, even if the same instructions locked it. */
  lemma {:induction false} ResetsFree(m: Market, c: ChainId, resets: seq<OrderId>, closes: seq<OrderId>, i: nat, k: OrderKey)
    requires i <= |resets| && k.0 == c && k in m.orders && k.1 !in closes
    requires k.1 in resets[i..] || m.orders[k].buyerReceive.None?
    ensures var m' := ResetsFrom(m, c, resets, closes, i);
            k in m'.orders && SameOffer(m'.orders[k], m.orders[k]) && m'.orders[k].buyerReceive.None?
    decreases |resets| - i
  {
    if i < |resets| {
      assert resets[i..] == [resets[i]] + resets[i + 1..];
      ResetsFree(if resets[i] in closes then m else ResetOrder(m, (c, resets[i])), c, resets, closes, i + 1, k);
    }
  }

  lemma ResetOpens(m: Market, c: ChainId, ins: Instructions, k: OrderKey)
    requires k.0 == c && k in m.orders && k.1 in ins.resets && k.1 !in ins.closes
    ensures var m' := CommitteeSwaps(m, c, ins);
            k in m'.orders && SameOffer(m'.orders[k], m.orders[k]) && m'.orders[k].buyerReceive.None?
  {
    if m.orders[k].buyerReceive.Some? { LocksKeep(m, c, ins.locks, 0, k); } else { LocksLock(m, c, ins.locks, 0, k); }
    var m1 := LocksFrom(m, c, ins.locks, 0);
    assert ins.resets[0..] == ins.resets && ins.closes[0..] == ins.closes;
    ResetsFree(m1, c, ins.resets, ins.closes, 0, k);
    ClosesKeep(ResetsFrom(m1, c, ins.resets, ins.closes, 0), c, ins.closes, 0, k);
  }

  /** A created or edited order stands open on the terms asked for, and no other order is touched. */
  lemma MessagesOffer(m: Market, k: OrderKey, seller: Address, t: Terms, minimum: nat, vesting: nat)
    ensures var out := CreateOrder(m, k, seller, t, minimum, vesting);
            out.Ok? ==> Offered(m, out.value, k, seller, t)
    ensures var out := EditOrder(m, k, t, minimum, vesting);
            out.Ok? ==> k in m.orders && Offered(m, out.value, k, m.orders[k].seller, t)
    ensures var out := DeleteOrder(m, k);
            out.Ok? ==> k !in out.value.orders && OthersStay(m, out.value, k)
  {}

  ghost predicate OthersStay(m: Market, m': Market, k: OrderKey) {
    forall j | j != k :: (j in m'.orders <==> j in m.orders) && (j in m.orders ==> m'.orders[j] == m.orders[j])
  }

  ghost predicate Offered(m: Market, m': Market, k: OrderKey, seller: Address, t: Terms) {
    && k in m'.orders && m'.orders[k].seller == seller && m'.orders[k].buyerReceive.None? && m'.orders[k].buyerSend.None?
    && m'.orders[k].amount == t.amount && m'.orders[k].requested == t.requested && m'.orders[k].receive == t.receive
    && OthersStay(m, m', k)
  }

  /** What a seller has for sale, on every chain. */
  ghost function Offers(orders: map<OrderKey, SellOrder>, a: Address): map<OrderKey, nat> {
    map k | k in orders && orders[k].seller == a :: orders[k].amount
  }

  /** What an address has, on its account and for sale. */
  ghost function Wealth(m: Market, a: Address): nat { Balance(m.ledger, a) + Sum(Offers(m.orders, a)) }

  function OfferedAt(orders: map<OrderKey, SellOrder>, k: OrderKey, a: Address): nat {
    if k in orders && orders[k].seller == a then orders[k].amount else 0
  }

  lemma OffersPut(orders: map<OrderKey, SellOrder>, k: OrderKey, o: SellOrder, a: Address)
    requires k in orders ==> orders[k].seller == o.seller
    ensures Sum(Offers(orders[k := o], a)) == Sum(Offers(orders, a)) - OfferedAt(orders, k, a) + if o.seller == a then o.amount else 0
  {
    if o.seller == a {
      assert Offers(orders[k := o], a) == Offers(orders, a)[k := o.amount];
      SumSet(Offers(orders, a), k, o.amount);
    } else {
      assert Offers(orders[k := o], a) == Offers(orders, a);
    }
  }

  lemma OffersDrop(orders: map<OrderKey, SellOrder>, k: OrderKey, a: Address)
    requires k in orders
    ensures Sum(Offers(orders - {k}, a)) == Sum(Offers(orders, a)) - OfferedAt(orders, k, a)
    ensures OfferedAt(orders, k, a) <= Sum(Offers(orders, a))
  {
    if orders[k].seller == a {
      assert Offers(orders - {k}, a) == Offers(orders, a) - {k};
      SumRemove(Offers(orders, a), k);
    } else {
      assert Offers(orders - {k}, a) == Offers(orders, a);
    }
  }

  lemma CreateKeepsWealth(m: Market, k: OrderKey, seller: Address, t: Terms, minimum: nat, vesting: nat, a: Address)
    requires k !in m.orders && CreateOrder(m, k, seller, t, minimum, vesting).Ok?
    ensures Wealth(CreateOrder(m, k, seller, t, minimum, vesting).value, a) == Wealth(m, a)
  {
    OffersPut(m.orders, k, CreateOrder(m, k, seller, t, minimum, vesting).value.orders[k], a);
  }

  lemma RepriceCharges(l: Ledger, c: ChainId, o: SellOrder, amount: nat, vesting: nat, a: Address)
    requires Reprice(l, c, o, amount, vesting).Ok?
    ensures var l' := Reprice(l, c, o, amount, vesting).value;
            Balance(l', a) + (if a == o.seller then amount else 0) == Balance(l, a) + (if a == o.seller then o.amount else 0)
  {}

  lemma EditKeepsWealth(m: Market, k: OrderKey, t: Terms, minimum: nat, vesting: nat, a: Address)
    requires EditOrder(m, k, t, minimum, vesting).Ok?
    ensures Wealth(EditOrder(m, k, t, minimum, vesting).value, a) == Wealth(m, a)
  {
    OffersPut(m.orders, k, EditOrder(m, k, t, minimum, vesting).value.orders[k], a);
    OffersDrop(m.orders, k, a);
    RepriceCharges(m.ledger, k.0, m.orders[k], t.amount, vesting, a);
  }

  lemma DeleteKeepsWealth(m: Market, k: OrderKey, a: Address)
    requires DeleteOrder(m, k).Ok?
    ensures Wealth(DeleteOrder(m, k).value, a) == Wealth(m, a)
  {
    OffersDrop(m.orders, k, a);
  }

  /** Creating, editing and deleting an order moves a seller's tokens between its account and its offers, and nobody's
      else. */
  lemma MessagesKeepWealth(m: Market, e: Event, a: Address)
    requires Fresh(m, e) && !e.Committee?
    ensures Wealth(Step(m, e), a) == Wealth(m, a)
  {
    match e
    case Create(k, seller, t, minimum, vesting) =>
      if CreateOrder(m, k, seller, t, minimum, vesting).Ok? { CreateKeepsWealth(m, k, seller, t, minimum, vesting, a); }
    case Edit(k, t, minimum, vesting) =>
      if EditOrder(m, k, t, minimum, vesting).Ok? { EditKeepsWealth(m, k, t, minimum, vesting, a); }
    case Delete(k) =>
      if DeleteOrder(m, k).Ok? { DeleteKeepsWealth(m, k, a); }
  }

  lemma LockKeepsWealth(m: Market, c: ChainId, lock: Option<Lock>, a: Address)
    ensures Wealth(LockOrder(m, c, lock), a) == Wealth(m, a)
  {
    var m' := LockOrder(m, c, lock);
    assert Offers(m'.orders, a) == Offers(m.orders, a);
  }

  lemma ResetKeepsWealth(m: Market, k: OrderKey, a: Address)
    ensures Wealth(ResetOrder(m, k), a) == Wealth(m, a)
  {
    assert Offers(ResetOrder(m, k).orders, a) == Offers(m.orders, a);
  }

  lemma {:induction false} LocksKeepWealth(m: Market, c: ChainId, locks: seq<Option<Lock>>, i: nat, a: Address)
    requires i <= |locks|
    ensures Wealth(LocksFrom(m, c, locks, i), a) == Wealth(m, a)
    decreases |locks| - i
  {
    if i < |locks| {
      LockKeepsWealth(m, c, locks[i], a);
      LocksKeepWealth(LockOrder(m, c, locks[i]), c, locks, i + 1, a);
    }
  }

  lemma {:induction false} ResetsKeepWealth(m: Market, c: ChainId, resets: seq<OrderId>, closes: seq<OrderId>, i: nat, a: Address)
    requires i <= |resets|
    ensures Wealth(ResetsFrom(m, c, resets, closes, i), a) == Wealth(m, a)
    decreases |resets| - i
  {
    if i < |resets| {
      ResetKeepsWealth(m, (c, resets[i]), a);
      ResetsKeepWealth(if resets[i] in closes then m else ResetOrder(m, (c, resets[i])), c, resets, closes, i + 1, a);
    }
  }

  /** The orders that closes pay out, as they are when they are closed. */
  function Trades(m: Market, c: ChainId, closes: seq<OrderId>, i: nat): seq<SellOrder>
    requires i <= |closes|
    decreases |closes| - i
  {
    if i == |closes| then [] else
      var k := (c, closes[i]);
      (if CanClose(m, k) then [m.orders[k]] else []) + Trades(CloseOrder(m, k).0, c, closes, i + 1)
  }

  function Sold(log: seq<SellOrder>, a: Address): nat {
    if log == [] then 0 else (if log[0].seller == a then log[0].amount else 0) + Sold(log[1..], a)
  }

  function Bought(log: seq<SellOrder>, a: Address): nat {
    if log == [] then 0 else (if log[0].buyerReceive == Some(a) then log[0].amount else 0) + Bought(log[1..], a)
  }

  /** Apart from the trades nobody is richer or poorer; a trade takes the order's amount from its seller and gives it to the
      buyer the order was locked for. */
  ghost predicate Settled(m: Market, m': Market, log: seq<SellOrder>, a: Address) {
    Wealth(m', a) + Sold(log, a) == Wealth(m, a) + Bought(log, a)
  }

  lemma {:induction false} LogsConcat(x: seq<SellOrder>, y: seq<SellOrder>, a: Address)
    ensures Sold(x + y, a) == Sold(x, a) + Sold(y, a) && Bought(x + y, a) == Bought(x, a) + Bought(y, a)
  {
    if x == [] { assert x + y == y; } else {
      LogsConcat(x[1..], y, a);
      assert (x + y)[1..] == x[1..] + y;
    }
  }

  lemma CloseSettles(m: Market, k: OrderKey, a: Address)
    ensures Settled(m, CloseOrder(m, k).0, if CanClose(m, k) then [m.orders[k]] else [], a)
  {
    CloseIsAtomic(m, k);
    if CanClose(m, k) { OffersDrop(m.orders, k, a); }
  }

  lemma {:induction false} ClosesSettle(m: Market, c: ChainId, closes: seq<OrderId>, i: nat, a: Address)
    requires i <= |closes|
    ensures Settled(m, ClosesFrom(m, c, closes, i), Trades(m, c, closes, i), a)
    decreases |closes| - i
  {
    if i < |closes| {
      var k := (c, closes[i]);
      CloseSettles(m, k, a);
      ClosesSettle(CloseOrder(m, k).0, c, closes, i + 1, a);
      LogsConcat(if CanClose(m, k) then [m.orders[k]] else [], Trades(CloseOrder(m, k).0, c, closes, i + 1), a);
    }
  }

  function TradesOf(m: Market, e: Event): seq<SellOrder> {
    match e
    case Committee(c, ins) => Trades(ResetsFrom(LocksFrom(m, c, ins.locks, 0), c, ins.resets, ins.closes, 0), c, ins.closes, 0)
    case _ => []
  }

  function AllTrades(m: Market, run: seq<Event>): seq<SellOrder> {
    if run == [] then [] else AllTrades(m, run[..|run| - 1]) + TradesOf(After(m, run[..|run| - 1]), run[|run| - 1])
  }

  lemma StepSettles(m: Market, e: Event, a: Address)
    requires Fresh(m, e)
    ensures Settled(m, Step(m, e), TradesOf(m, e), a)
  {
    if e.Committee? {
      var m1 := LocksFrom(m, e.c, e.ins.locks, 0);
      LocksKeepWealth(m, e.c, e.ins.locks, 0, a);
      ResetsKeepWealth(m1, e.c, e.ins.resets, e.ins.closes, 0, a);
      ClosesSettle(ResetsFrom(m1, e.c, e.ins.resets, e.ins.closes, 0), e.c, e.ins.closes, 0, a);
    } else {
      MessagesKeepWealth(m, e, a);
    }
  }

  /** Over any run with fresh ids, for every address: what it has on its account and for sale is what it had, less what its
      orders sold for, plus what was paid to it as the buyer an order was locked for. */
  lemma {:induction false} WealthOverRuns(m: Market, run: seq<Event>, a: Address)
    requires FreshIds(m, run)
    ensures Settled(m, After(m, run), AllTrades(m, run), a)
  {
    if run != [] {
      var before := run[..|run| - 1];
      assert forall i | 0 <= i < |before| :: before[..i] == run[..i];
      WealthOverRuns(m, before, a);
      StepSettles(After(m, before), run[|run| - 1], a);
      LogsConcat(AllTrades(m, before), TradesOf(After(m, before), run[|run| - 1]), a);
    }
  }
}
