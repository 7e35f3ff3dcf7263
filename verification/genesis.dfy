/** NewStateFromGenesis (fsm/genesis.go): loading accounts, pools, validators and orders from a file, and which
    files give a state whose books are right. */
module Genesis {
  import opened Lib
  import opened Sums
  import opened Points
  import opened Ledgers
  import opened Machine
  import opened Transfers
  import S = Swaps

  /** A line of the file, in file order. */
  datatype Line =
    | AccountLine(a: Address, n: nat)
    | PoolLine(id: PoolId, n: nat, shares: Shares)
    | ValidatorLine(v: Address, n: nat, ids: seq<ChainId>)
    | OrderLine(k: OrderKey, order: SellOrder)

  function Amount(line: Line): nat { match line case OrderLine(_, o) => o.amount case _ => line.n }

  /** `points` are those of the liquidity pools, by their chain. */
  datatype State = State(ledger: Ledger, points: map<ChainId, Shares>, orders: map<OrderKey, SellOrder>,
                         committees: map<Address, seq<ChainId>>)

  const EMPTY: State := State(Ledger(map[], map[], map[], 0), map[], map[], map[])

  /** A pool is stored with its points, and not at all when it is empty. */
  function SetPoints(points: map<ChainId, Shares>, id: PoolId, n: nat, shares: Shares): map<ChainId, Shares> {
    if id < LIQUIDITY_POOL_ADDEND || id > LiquidityPool(MAX_CHAIN_ID) then points
    else if n == 0 then points - {id - LIQUIDITY_POOL_ADDEND}
    else points[id - LIQUIDITY_POOL_ADDEND := shares]
  }

  /** Each line adds to the supply; an order adds to its escrow pool, every other line overwrites its key. */
  function Load(s: State, line: Line): Result<State> {
    if s.ledger.supply + Amount(line) > MAX then Err(InvalidAmount) else
      var l := s.ledger.(supply := s.ledger.supply + Amount(line));
      match line
      case AccountLine(a, n) => Ok(s.(ledger := SetAccount(l, a, n)))
      case PoolLine(id, n, shares) => Ok(s.(ledger := SetPool(l, id, n), points := SetPoints(s.points, id, n, shares)))
      case ValidatorLine(v, n, ids) => Ok(s.(ledger := SetStake(l, v, n), committees := s.committees[v := ids]))
      case OrderLine(k, o) => Ok(s.(ledger := PoolAdd(l, EscrowPool(k.0), o.amount), orders := s.orders[k := o]))
  }

  function LoadFrom(s: State, lines: seq<Line>, k: nat): Result<State>
    requires k <= |lines|
    decreases |lines| - k
  {
    if k == |lines| then Ok(s) else
      match Load(s, lines[k])
      case Err(e) => Err(e)
      case Ok(s') => LoadFrom(s', lines, k + 1)
  }

  method NewStateFromGenesis(s: StateMachine, lines: seq<Line>) returns (r: Result<()>)
    modifies s`ledger, s`points, s`orders, s`committees
    ensures match LoadFrom(EMPTY, lines, 0)
            case Ok(t) => r == Ok(()) && State(s.ledger, s.points, s.orders, s.committees) == t
            case Err(e) => r == Err(e)
  {
    s.ledger, s.points, s.orders, s.committees := EMPTY.ledger, map[], map[], map[];
    for k := 0 to |lines|
      invariant LoadFrom(EMPTY, lines, 0) == LoadFrom(State(s.ledger, s.points, s.orders, s.committees), lines, k)
    {
      var n := Amount(lines[k]);
      if s.ledger.supply > MAX || n > MAX - s.ledger.supply { return Err(InvalidAmount); }
      s.ledger := s.ledger.(supply := s.ledger.supply + n);
      match lines[k] {
        case AccountLine(a, _) => s.ledger := SetAccount(s.ledger, a, n);
        case PoolLine(id, _, shares) =>
          s.ledger := SetPool(s.ledger, id, n);
          s.points := SetPoints(s.points, id, n, shares);
        case ValidatorLine(v, _, ids) =>
          s.ledger := SetStake(s.ledger, v, n);
          s.committees := s.committees[v := ids];
        case OrderLine(id, o) =>
          s.orders := s.orders[id := o];
          s.PoolAdd(EscrowPool(id.0), n);
      }
    }
    return Ok(());
  }

  // ---- Whose points -------------------------------------------------------

  predicate IsFor(line: Line, c: ChainId) { line.PoolLine? && line.id == LiquidityPool(c) }

  /** Line i is the last one for this chain's liquidity pool. */
  predicate LastFor(lines: seq<Line>, i: nat, c: ChainId)
    requires i < |lines|
  {
    IsFor(lines[i], c) && forall j | i < j < |lines| :: !IsFor(lines[j], c)
  }

  lemma {:induction false} PointsLoaded(s: State, lines: seq<Line>, k: nat, c: ChainId)
    requires k <= |lines| && c <= MAX_CHAIN_ID && LoadFrom(s, lines, k).Ok?
    ensures var points := LoadFrom(s, lines, k).value.points;
            && (forall i | k <= i < |lines| && LastFor(lines, i, c) ::
                  (c in points <==> lines[i].n > 0) && (c in points ==> points[c] == lines[i].shares))
            && ((forall i | k <= i < |lines| :: !LastFor(lines, i, c)) ==>
                  (c in points <==> c in s.points) && (c in points ==> points[c] == s.points[c]))
    decreases |lines| - k
  {
    if k < |lines| {
      var s' := Load(s, lines[k]).value;
      PointsLoaded(s', lines, k + 1, c);
      if IsFor(lines[k], c) && forall j | k < j < |lines| :: !LastFor(lines, j, c) {
        NoLater(lines, k + 1, c);
        assert LastFor(lines, k, c);
      }
    }
  }

  /** If no line is the last for a pool, none is for it at all. */
  lemma {:induction false} NoLater(lines: seq<Line>, k: nat, c: ChainId)
    requires k <= |lines| && forall j | k <= j < |lines| :: !LastFor(lines, j, c)
    ensures forall j | k <= j < |lines| :: !IsFor(lines[j], c)
    decreases |lines| - k
  {
    if k < |lines| {
      NoLater(lines, k + 1, c);
      assert !LastFor(lines, k, c);
    }
  }

  /** A chain's liquidity points are those of the last line for its pool, and there are none without such a line or when that
      line leaves the pool empty. */
  lemma {:induction false} GenesisPoints(lines: seq<Line>, c: ChainId)
    requires c <= MAX_CHAIN_ID && LoadFrom(EMPTY, lines, 0).Ok?
    ensures var points := LoadFrom(EMPTY, lines, 0).value.points;
            && (c in points <==> exists i :: 0 <= i < |lines| && LastFor(lines, i, c) && lines[i].n > 0)
            && (forall i | 0 <= i < |lines| && LastFor(lines, i, c) && c in points :: points[c] == lines[i].shares)
  {
    PointsLoaded(EMPTY, lines, 0, c);
  }

  // ---- Every line is loaded -----------------------------------------------

  /** What a line puts into the state. */
  predicate Present(s: State, line: Line) {
    match line
    case AccountLine(a, n) => Balance(s.ledger, a) == n
    case PoolLine(id, n, _) => PoolBalance(s.ledger, id) == n
    case ValidatorLine(v, n, ids) => StakeOf(s.ledger, v) == n && v in s.committees && s.committees[v] == ids
    case OrderLine(k, o) => k in s.orders && s.orders[k] == o
  }

  /** A later line that writes to the same place; an order writes to its escrow pool, too. */
  predicate Overwrites(later: Line, line: Line) {
    match line
    case AccountLine(a, _) => later.AccountLine? && later.a == a
    case PoolLine(id, _, _) => (later.PoolLine? && later.id == id) || (later.OrderLine? && EscrowPool(later.k.0) == id)
    case ValidatorLine(v, _, _) => later.ValidatorLine? && later.v == v
    case OrderLine(k, _) => later.OrderLine? && later.k == k
  }

  lemma {:induction false} LineStays(s: State, lines: seq<Line>, k: nat, line: Line)
    requires k <= |lines| && LoadFrom(s, lines, k).Ok? && Present(s, line)
    requires forall j | k <= j < |lines| :: !Overwrites(lines[j], line)
    ensures Present(LoadFrom(s, lines, k).value, line)
    decreases |lines| - k
  {
    if k < |lines| { LineStays(Load(s, lines[k]).value, lines, k + 1, line); }
  }

  lemma {:induction false} LineLoaded(s: State, lines: seq<Line>, k: nat, i: nat)
    requires k <= i < |lines| && LoadFrom(s, lines, k).Ok?
    requires forall j | i < j < |lines| :: !Overwrites(lines[j], lines[i])
    ensures Present(LoadFrom(s, lines, k).value, lines[i])
    decreases i - k
  {
    var s' := Load(s, lines[k]).value;
    if k == i {
      LineStays(s', lines, i + 1, lines[i]);
    } else {
      LineLoaded(s', lines, k + 1, i);
    }
  }

  /** Every line that no later one overwrites is in the state: balances, pools, stakes with their committees, and orders. */
  lemma {:induction false} LinesLoaded(lines: seq<Line>, i: nat)
    requires i < |lines| && LoadFrom(EMPTY, lines, 0).Ok?
    requires forall j | i < j < |lines| :: !Overwrites(lines[j], lines[i])
    ensures Present(LoadFrom(EMPTY, lines, 0).value, lines[i])
  {
    LineLoaded(EMPTY, lines, 0, i);
  }

  // ---- Which files conserve ----------------------------------------------

  /** What a line writes to; an order writes to its escrow pool. */
  datatype Key = AccountKey(a: Address) | PoolKey(id: PoolId) | StakeKey(v: Address)

  function KeyOf(line: Line): Key {
    match line
    case AccountLine(a, _) => AccountKey(a)
    case PoolLine(id, _, _) => PoolKey(id)
    case ValidatorLine(v, _, _) => StakeKey(v)
    case OrderLine(k, _) => PoolKey(EscrowPool(k.0))
  }

  function ValueAt(l: Ledger, key: Key): nat {
    match key
    case AccountKey(a) => Balance(l, a)
    case PoolKey(id) => PoolBalance(l, id)
    case StakeKey(v) => StakeOf(l, v)
  }

  /** Line j overwrites the key that an earlier line i has put a positive amount under. */
  predicate Clash(lines: seq<Line>, i: nat, j: nat)
    requires i < |lines| && j < |lines|
  {
    i < j && KeyOf(lines[i]) == KeyOf(lines[j]) && Amount(lines[i]) > 0 && !lines[j].OrderLine?
  }

  predicate ClashFree(lines: seq<Line>, k: nat) {
    forall i, j | 0 <= i < |lines| && k <= j < |lines| :: !Clash(lines, i, j)
  }

  /** The record and the tokens after n was put under a key, `lost` of what it held being overwritten. */
  ghost predicate Takes(l: Ledger, l': Ledger, key: Key, n: nat, lost: nat) {
    && l'.supply == l.supply + n
    && Tokens(l') == Tokens(l) + n - lost && lost <= Tokens(l)
    && ValueAt(l', key) == n + ValueAt(l, key) - lost
    && forall other | other != key :: ValueAt(l', other) == ValueAt(l, other)
  }

  lemma AccountTakes(l: Ledger, a: Address, n: nat)
    ensures Takes(l, SetAccount(l.(supply := l.supply + n), a, n), AccountKey(a), n, Balance(l, a))
  {
    SetAccountTokens(l.(supply := l.supply + n), a, n);
  }

  lemma PoolTakes(l: Ledger, id: PoolId, n: nat)
    ensures Takes(l, SetPool(l.(supply := l.supply + n), id, n), PoolKey(id), n, PoolBalance(l, id))
  {
    SetPoolTokens(l.(supply := l.supply + n), id, n);
  }

  lemma StakeTakes(l: Ledger, v: Address, n: nat)
    ensures Takes(l, SetStake(l.(supply := l.supply + n), v, n), StakeKey(v), n, StakeOf(l, v))
  {
    SetStakeTokens(l.(supply := l.supply + n), v, n);
  }

  lemma OrderTakes(l: Ledger, id: PoolId, n: nat)
    requires Tokens(l) + n <= MAX
    ensures Takes(l, PoolAdd(l.(supply := l.supply + n), id, n), PoolKey(id), n, 0)
  {
    PoolAddTokens(l.(supply := l.supply + n), id, n);
  }

  function Lost(l: Ledger, line: Line): nat { if line.OrderLine? then 0 else ValueAt(l, KeyOf(line)) }

  /** What a line overwrites is lost; every other key is left alone. */
  lemma LoadTokens(s: State, line: Line)
    requires Tokens(s.ledger) <= s.ledger.supply && Load(s, line).Ok?
    ensures var l' := Load(s, line).value.ledger;
            l'.supply <= MAX && Takes(s.ledger, l', KeyOf(line), Amount(line), Lost(s.ledger, line))
  {
    var l, l' := s.ledger, Load(s, line).value.ledger;
    var l1 := l.(supply := l.supply + Amount(line));
    if line.AccountLine? {
      assert l' == SetAccount(l1, line.a, line.n);
      AccountTakes(l, line.a, line.n);
    } else if line.PoolLine? {
      assert l' == SetPool(l1, line.id, line.n);
      PoolTakes(l, line.id, line.n);
    } else if line.ValidatorLine? {
      assert l' == SetStake(l1, line.v, line.n);
      StakeTakes(l, line.v, line.n);
    } else {
      assert l' == PoolAdd(l1, EscrowPool(line.k.0), line.order.amount);
      OrderTakes(l, EscrowPool(line.k.0), line.order.amount);
    }
  }

  /** One of the first k lines has put a positive amount under the key. */
  predicate PutBefore(lines: seq<Line>, k: nat, key: Key)
    requires k <= |lines|
  {
    exists i | 0 <= i < k :: KeyOf(lines[i]) == key && Amount(lines[i]) > 0
  }

  /** A key holds something exactly when one of the lines so far put something there. */
  ghost predicate Tracks(l: Ledger, lines: seq<Line>, k: nat)
    requires k <= |lines|
  {
    forall key :: ValueAt(l, key) > 0 <==> PutBefore(lines, k, key)
  }

  /** Line k overwrites nothing that holds a positive amount. */
  predicate Clean(lines: seq<Line>, k: nat)
    requires k < |lines|
  {
    lines[k].OrderLine? || !PutBefore(lines, k, KeyOf(lines[k]))
  }

  lemma CleanIsClashFree(lines: seq<Line>, k: nat)
    requires k < |lines|
    ensures ClashFree(lines, k) <==> Clean(lines, k) && ClashFree(lines, k + 1)
  {
    if !Clean(lines, k) {
      var i :| 0 <= i < k && KeyOf(lines[i]) == KeyOf(lines[k]) && Amount(lines[i]) > 0;
      assert Clash(lines, i, k);
    } else if ClashFree(lines, k + 1) {
      forall i, j | 0 <= i < |lines| && k <= j < |lines| ensures !Clash(lines, i, j) {
        if j == k && Clash(lines, i, k) { assert PutBefore(lines, k, KeyOf(lines[k])); }
      }
    }
  }

  lemma TracksNext(s: State, lines: seq<Line>, k: nat)
    requires k < |lines| && Tracks(s.ledger, lines, k) && Clean(lines, k)
    requires Tokens(s.ledger) <= s.ledger.supply && Load(s, lines[k]).Ok?
    ensures Tracks(Load(s, lines[k]).value.ledger, lines, k + 1)
  {
    LoadTokens(s, lines[k]);
    var l' := Load(s, lines[k]).value.ledger;
    forall key ensures ValueAt(l', key) > 0 <==> PutBefore(lines, k + 1, key) {
      assert PutBefore(lines, k + 1, key) <==> PutBefore(lines, k, key) || (KeyOf(lines[k]) == key && Amount(lines[k]) > 0);
      assert ValueAt(s.ledger, key) > 0 <==> PutBefore(lines, k, key);
    }
  }

  /** The supply record only ever gets ahead of the tokens. */
  lemma {:induction false} GapGrows(s: State, lines: seq<Line>, k: nat)
    requires k <= |lines| && Tokens(s.ledger) <= s.ledger.supply <= MAX && LoadFrom(s, lines, k).Ok?
    ensures var l, l' := s.ledger, LoadFrom(s, lines, k).value.ledger;
            l'.supply <= MAX && l'.supply - Tokens(l') >= l.supply - Tokens(l)
    decreases |lines| - k
  {
    if k < |lines| {
      LoadTokens(s, lines[k]);
      GapGrows(Load(s, lines[k]).value, lines, k + 1);
    }
  }

  lemma {:induction false} ConservedFrom(s: State, lines: seq<Line>, k: nat)
    requires k <= |lines| && Tokens(s.ledger) == s.ledger.supply <= MAX && LoadFrom(s, lines, k).Ok?
    requires Tracks(s.ledger, lines, k)
    ensures Conserved(LoadFrom(s, lines, k).value.ledger) <==> ClashFree(lines, k)
    decreases |lines| - k
  {
    if k < |lines| {
      var s' := Load(s, lines[k]).value;
      LoadTokens(s, lines[k]);
      CleanIsClashFree(lines, k);
      if Clean(lines, k) {
        TracksNext(s, lines, k);
        ConservedFrom(s', lines, k + 1);
      } else {
        GapGrows(s', lines, k + 1);
      }
    }
  }

  /** A genesis state is conserved if and only if no account, pool or validator line comes after a line that put
      a positive amount under the same key, an order counting for its escrow pool. The loader accepts such a
      file: it does not look for duplicates. */
  lemma {:induction false} GenesisConserved(lines: seq<Line>)
    requires LoadFrom(EMPTY, lines, 0).Ok?
    ensures Conserved(LoadFrom(EMPTY, lines, 0).value.ledger) <==> ClashFree(lines, 0)
  {
    ConservedFrom(EMPTY, lines, 0);
  }

  predicate DistinctKeys(lines: seq<Line>) {
    forall i, j | 0 <= i < j < |lines| :: KeyOf(lines[i]) == KeyOf(lines[j]) ==> lines[j].OrderLine?
  }

  lemma {:induction false} DistinctKeysConserve(lines: seq<Line>)
    requires LoadFrom(EMPTY, lines, 0).Ok? && DistinctKeys(lines)
    ensures Conserved(LoadFrom(EMPTY, lines, 0).value.ledger)
  {
    GenesisConserved(lines);
  }

  lemma EmptyHasNothing()
    ensures Tokens(EMPTY.ledger) == 0 && EMPTY.ledger.supply == 0
  {}

  /** An account listed twice: the supply counts both lines, the tokens one. */
  lemma {:induction false} LoadedTwice(s: State, line: Line)
    requires Tokens(s.ledger) <= s.ledger.supply && s.ledger.supply + 2 * Amount(line) <= MAX && line.AccountLine?
    ensures var out := LoadFrom(s, [line, line], 0);
            && out.Ok? && out.value.ledger.supply == s.ledger.supply + 2 * Amount(line)
            && Tokens(out.value.ledger) == Tokens(s.ledger) + Amount(line) - ValueAt(s.ledger, KeyOf(line))
  {
    LoadTokens(s, line);
    var s1 := Load(s, line).value;
    LoadTokens(s1, line);
    var s2 := Load(s1, line).value;
    assert LoadFrom(s2, [line, line], 2) == Ok(s2) && LoadFrom(s1, [line, line], 1) == Ok(s2);
  }

  /** So a file that lists an account twice is loaded, and its state is not conserved. */
  lemma DuplicateAccountLoses()
    ensures var out := LoadFrom(EMPTY, [AccountLine(7, 1), AccountLine(7, 1)], 0);
            && out.Ok? && out.value.ledger.supply == 2 && Tokens(out.value.ledger) == 1 && !Conserved(out.value.ledger)
  {
    EmptyHasNothing();
    LoadedTwice(EMPTY, AccountLine(7, 1));
  }

  // ---- Which files are solvent -------------------------------------------

  /** The file leaves the holding and escrow pools of ordinary chains to the orders, all of which are for
      ordinary chains, and lists no order twice (which ValidateGenesisState checks). */
  predicate EscrowsLeftToOrders(lines: seq<Line>) {
    && (forall i | 0 <= i < |lines| && lines[i].PoolLine? && lines[i].n > 0 ::
          forall c: nat | c <= MAX_CHAIN_ID :: lines[i].id != EscrowPool(c) && (c > 0 ==> lines[i].id != HoldingPool(c)))
    && (forall i | 0 <= i < |lines| && lines[i].OrderLine? :: lines[i].k.0 <= MAX_CHAIN_ID)
    && (forall i, j | 0 <= i < j < |lines| && lines[i].OrderLine? && lines[j].OrderLine? :: lines[i].k != lines[j].k)
  }

  /** Every pool's points belong to distinct holders and sum to its total, which nothing checks. */
  ghost predicate PointsAddUp(lines: seq<Line>) {
    forall i | 0 <= i < |lines| && lines[i].PoolLine? :: Sound(lines[i].shares)
  }

  /** Escrow pools match the orders loaded so far, holding pools are empty, every stake has its validator, and
      points add up. */
  ghost predicate Sane(s: State) {
    && S.Backed(S.Market(s.ledger, s.orders))
    && (forall c | 0 < c <= MAX_CHAIN_ID :: PoolBalance(s.ledger, HoldingPool(c)) == 0)
    && OnlyValidatorsStake(s.ledger, s.committees)
    && (forall c | c in s.points :: Sound(s.points[c]))
  }

  /** The orders stored are those of the lines so far. */
  ghost predicate Listed(s: State, lines: seq<Line>, k: nat)
    requires k <= |lines|
  {
    forall id | id in s.orders :: exists i | 0 <= i < k :: lines[i].OrderLine? && lines[i].k == id
  }

  /** What a line leaves alone, of pools and of stakes. */
  lemma OtherKeysKept(s: State, line: Line, id: PoolId, v: Address)
    requires Tokens(s.ledger) <= s.ledger.supply && Load(s, line).Ok?
    ensures KeyOf(line) != PoolKey(id) ==> PoolBalance(Load(s, line).value.ledger, id) == PoolBalance(s.ledger, id)
    ensures KeyOf(line) != StakeKey(v) ==> StakeOf(Load(s, line).value.ledger, v) == StakeOf(s.ledger, v)
  {
    LoadTokens(s, line);
    var l' := Load(s, line).value.ledger;
    assert ValueAt(l', PoolKey(id)) == PoolBalance(l', id) && ValueAt(l', StakeKey(v)) == StakeOf(l', v);
    assert ValueAt(s.ledger, PoolKey(id)) == PoolBalance(s.ledger, id) && ValueAt(s.ledger, StakeKey(v)) == StakeOf(s.ledger, v);
  }

  lemma OrderSane(s: State, line: Line)
    requires line.OrderLine? && line.k.0 <= MAX_CHAIN_ID && line.k !in s.orders
    requires Sane(s) && Tokens(s.ledger) <= s.ledger.supply && Load(s, line).Ok?
    ensures Sane(Load(s, line).value)
  {
    var l' := Load(s, line).value.ledger;
    LoadTokens(s, line);
    S.ForSalePut(s.orders, line.k, line.order);
    forall id, v { OtherKeysKept(s, line, id, v); }
    assert ValueAt(l', KeyOf(line)) == PoolBalance(l', EscrowPool(line.k.0));
  }

  lemma PoolSane(s: State, line: Line)
    requires line.PoolLine? && Sound(line.shares) && PoolBalance(s.ledger, line.id) == 0
    requires line.n > 0 ==> forall c: nat | c <= MAX_CHAIN_ID :: line.id != EscrowPool(c) && (c > 0 ==> line.id != HoldingPool(c))
    requires Sane(s) && Tokens(s.ledger) <= s.ledger.supply && Load(s, line).Ok?
    ensures Sane(Load(s, line).value)
  {
    LoadTokens(s, line);
    forall id, v { OtherKeysKept(s, line, id, v); }
  }

  lemma LoadSane(s: State, lines: seq<Line>, k: nat)
    requires k < |lines| && Sane(s) && Tokens(s.ledger) <= s.ledger.supply && Load(s, lines[k]).Ok?
    requires EscrowsLeftToOrders(lines) && PointsAddUp(lines)
    requires if lines[k].OrderLine? then lines[k].k !in s.orders else ValueAt(s.ledger, KeyOf(lines[k])) == 0
    ensures Sane(Load(s, lines[k]).value)
  {
    if lines[k].OrderLine? {
      OrderSane(s, lines[k]);
    } else if lines[k].PoolLine? {
      PoolSane(s, lines[k]);
    } else {
      LoadTokens(s, lines[k]);
      forall id, v { OtherKeysKept(s, lines[k], id, v); }
    }
  }

  lemma {:induction false} SaneFrom(s: State, lines: seq<Line>, k: nat)
    requires k <= |lines| && Sane(s) && Tokens(s.ledger) == s.ledger.supply <= MAX && LoadFrom(s, lines, k).Ok?
    requires Tracks(s.ledger, lines, k) && ClashFree(lines, k) && EscrowsLeftToOrders(lines) && PointsAddUp(lines) && Listed(s, lines, k)
    ensures Sane(LoadFrom(s, lines, k).value)
    decreases |lines| - k
  {
    if k < |lines| {
      CleanIsClashFree(lines, k);
      LoadTokens(s, lines[k]);
      TracksNext(s, lines, k);
      LoadSane(s, lines, k);
      SaneFrom(Load(s, lines[k]).value, lines, k + 1);
    }
  }

  lemma SaneEmpty()
    ensures Sane(EMPTY)
  {
    forall c ensures S.ForSale(EMPTY.orders, c) == 0 {
      assert S.Amounts(EMPTY.orders, c) == map[];
    }
  }

  /** Such a file, without clashes, loads into a state whose books are right, whose order books are backed, whose
      holding pools are empty, and in which every stake belongs to a validator. */
  lemma {:induction false} GenesisSane(lines: seq<Line>)
    requires LoadFrom(EMPTY, lines, 0).Ok? && ClashFree(lines, 0) && EscrowsLeftToOrders(lines) && PointsAddUp(lines)
    ensures var s := LoadFrom(EMPTY, lines, 0).value;
            Conserved(s.ledger) && Sane(s)
  {
    GenesisConserved(lines);
    SaneEmpty();
    SaneFrom(EMPTY, lines, 0);
  }
}
