/** The pipeline theorems carried down to two chains with real ledgers: users may lack funds, every batch step
    moves tokens between accounts and pools, and still each run is a run of the two-chain pipeline. */
module TwoLedgers {
  import opened Lib
  import opened Points
  import opened Amm
  import opened Pipeline
  import opened Ledgers
  import opened Dex
  import opened Escrow
  import P = TwoChain

  /** One chain: its id, the counter chain's id, what it stores, and the same history the pipeline keeps. */
  datatype Node = Node(own: ChainId, counter: ChainId, store: Store, shown: set<Batch>,
                       executed: seq<Batch>, settled: seq<Batch>, admitted: seq<Op>)

  datatype Action = Submitted(op: Op, vesting: nat) | Closed | Delivered(remote: Batch, perm: seq<nat>)

  datatype Net = Net(a: Node, b: Node)

  datatype Event = AtA(act: Action) | AtB(act: Action)

  /** The pipeline's view of a chain. */
  function Abs(n: Node): P.Side {
    P.Side(View(n.store, n.counter), n.shown, n.executed, n.settled, n.admitted)
  }

  function AbsNet(w: Net): P.World { P.World(Abs(w.a), Abs(w.b)) }

  predicate Possible(counter: Node, e: Action) {
    match e
    case Submitted(op, _) => WellFormed(op)
    case Closed => true
    case Delivered(remote, perm) => IsPermutation(perm, |remote.orders|) && remote in counter.shown
  }

  /** One action through the handlers; one that fails changes nothing. */
  function Perform(n: Node, e: Action): Node
    requires e.Delivered? ==> IsPermutation(e.perm, |e.remote.orders|)
  {
    match e
    case Submitted(op, vesting) =>
      (match SubmitOp(n.store, n.counter, n.own, op, vesting)
       case Ok(s) => n.(store := s, admitted := n.admitted + [op])
       case Err(_) => n)
    case Closed =>
      var s := EndOfBlock(n.store, n.counter);
      n.(store := s, shown := n.shown + {Shown(View(s, n.counter))})
    case Delivered(remote, perm) =>
      (match HandleRemote(n.store, n.counter, remote, perm)
       case Err(_) => n
       case Ok(s) =>
         if !Processes(View(n.store, n.counter), remote, perm) then n.(store := s)
         else n.(store := s, executed := n.executed + [remote],
                 settled := if n.store.locked.Some? then n.settled + [n.store.locked.value] else n.settled))
  }

  predicate EventPossible(w: Net, e: Event) {
    match e case AtA(x) => Possible(w.b, x) case AtB(x) => Possible(w.a, x)
  }

  function Step(w: Net, e: Event): Net
    requires EventPossible(w, e)
  {
    match e case AtA(x) => w.(a := Perform(w.a, x)) case AtB(x) => w.(b := Perform(w.b, x))
  }

  predicate Legal(w: Net, run: seq<Event>)
    decreases |run|
  {
    run == [] || (EventPossible(w, run[0]) && Legal(Step(w, run[0]), run[1..]))
  }

  function After(w: Net, run: seq<Event>): Net
    requires Legal(w, run)
    decreases |run|
  {
    if run == [] then w else After(Step(w, run[0]), run[1..])
  }

  // ---- Each chain stays sound --------------------------------------------

  predicate Decent(b: Batch) { Percents(b.withdrawals) && b.poolSize <= MAX }

  /** The ledger is safe, and whatever the chain has locked or shown would pass the basic check. */
  ghost predicate Healthy(n: Node) {
    && Safe(n.store, n.counter)
    && (n.store.locked.Some? ==> Decent(n.store.locked.value))
    && (forall b | b in n.shown :: Decent(b))
  }

  lemma AdvanceFits(c: Chain, remote: Batch)
    requires c.pool <= MAX && remote.poolSize <= MAX && !Waiting(c, remote) && Advance(c, remote).Ok?
    ensures Advance(c, remote).value.0.pool <= MAX
  {
    if c.locked.Some? {
      var own, r := c.locked.value, Reserves(c.pool, remote.poolSize);
      ApplyKeepsPositive(r, own.orders, remote.receipts, 0);
      ReservesFit(ApplyReceipts(r, own.orders, remote.receipts).value, c.shares, own);
    }
  }

  /** What a trigger locks carries a 64-bit reserve. */
  lemma LockedPoolFits(c: Chain, remote: Batch, perm: seq<nat>)
    requires IsPermutation(perm, |remote.orders|) && c.pool <= MAX && remote.poolSize <= MAX
    requires c.locked.Some? ==> c.locked.value.poolSize <= MAX
    requires Trigger(c, remote, perm).Ok?
    ensures var l := Trigger(c, remote, perm).value.locked; l.Some? ==> l.value.poolSize <= MAX
  {
    if c.pool != 0 && !IsEmpty(remote) && !Waiting(c, remote) {
      AdvanceFits(c, remote);
    }
  }

  lemma DeliveryHealthy(n: Node, remote: Batch, perm: seq<nat>)
    requires Healthy(n) && Decent(remote) && IsPermutation(perm, |remote.orders|)
    ensures Healthy(Perform(n, Delivered(remote, perm)))
    ensures Abs(Perform(n, Delivered(remote, perm))) == P.OnTrigger(Abs(n), remote, perm)
    ensures Kept(n.store.ledger, Perform(n, Delivered(remote, perm)).store.ledger, n.counter)
  {
    TriggerRefines(n.store, n.counter, remote, perm);
    if HandleRemote(n.store, n.counter, remote, perm).Ok? {
      PoolWithinTokens(n.store.ledger, LiquidityPool(n.counter));
      LockedPoolFits(View(n.store, n.counter), remote, perm);
      var s := HandleRemote(n.store, n.counter, remote, perm).value;
      assert s.locked == View(s, n.counter).locked;
    }
  }

  lemma ClosingHealthy(n: Node)
    requires Healthy(n)
    ensures Healthy(Perform(n, Closed))
    ensures Abs(Perform(n, Closed)) == P.Act(Abs(n), P.BlockEnd)
    ensures Perform(n, Closed).store.ledger == n.store.ledger
  {
    var c := View(n.store, n.counter);
    IncludeOwes(c);
    IncludeKeepsPercents(c);
    PoolWithinTokens(n.store.ledger, LiquidityPool(n.counter));
    var s := EndOfBlock(n.store, n.counter);
    assert View(s, n.counter) == EndBlock(c);
    assert Decent(Shown(View(s, n.counter)));
  }

  lemma SubmissionHealthy(n: Node, op: Op, vesting: nat)
    requires Healthy(n) && WellFormed(op)
    ensures var n' := Perform(n, Submitted(op, vesting));
            && Healthy(n') && Kept(n.store.ledger, n'.store.ledger, n.counter)
            && (n' == n || Abs(n') == P.Act(Abs(n), P.UserOp(op)))
  {
    if SubmitOp(n.store, n.counter, n.own, op, vesting).Ok? {
      SubmitSafe(n.store, n.counter, n.own, op, vesting);
      var s := SubmitOp(n.store, n.counter, n.own, op, vesting).value;
      assert View(s, n.counter) == Submit(View(n.store, n.counter), op);
    }
  }

  // ---- Refinement --------------------------------------------------------

  /** One action is one pipeline event of that side, or a refused submission that changes nothing. */
  lemma ActionRefines(w: Net, e: Event) returns (step: seq<P.Event>)
    requires Healthy(w.a) && Healthy(w.b) && EventPossible(w, e)
    ensures Healthy(Step(w, e).a) && Healthy(Step(w, e).b)
    ensures step == [] || |step| == 1
    ensures step == [] ==> AbsNet(Step(w, e)) == AbsNet(w)
    ensures |step| == 1 ==> P.EventEnabled(AbsNet(w), step[0]) && AbsNet(Step(w, e)) == P.Step(AbsNet(w), step[0])
  {
    var n := if e.AtA? then w.a else w.b;
    match e.act
    case Submitted(op, vesting) =>
      SubmissionHealthy(n, op, vesting);
      if Perform(n, e.act) == n {
        step := [];
      } else {
        step := [if e.AtA? then P.OnA(P.UserOp(op)) else P.OnB(P.UserOp(op))];
      }
    case Closed =>
      ClosingHealthy(n);
      step := [if e.AtA? then P.OnA(P.BlockEnd) else P.OnB(P.BlockEnd)];
    case Delivered(remote, perm) =>
      DeliveryHealthy(n, remote, perm);
      step := [if e.AtA? then P.OnA(P.Triggered(remote, perm)) else P.OnB(P.Triggered(remote, perm))];
  }

  /** Every run of two ledgers is, seen through the view, a run of the pipeline. */
  lemma {:induction false} RunRefines(w: Net, run: seq<Event>) returns (abs: seq<P.Event>)
    requires Healthy(w.a) && Healthy(w.b) && Legal(w, run)
    ensures Healthy(After(w, run).a) && Healthy(After(w, run).b)
    ensures P.Legal(AbsNet(w), abs) && P.After(AbsNet(w), abs) == AbsNet(After(w, run))
    decreases |run|
  {
    if run == [] {
      abs := [];
    } else {
      var step := ActionRefines(w, run[0]);
      var rest := RunRefines(Step(w, run[0]), run[1..]);
      abs := step + rest;
      if step != [] {
        assert abs[0] == step[0] && abs[1..] == rest;
      } else {
        assert abs == rest;
      }
    }
  }

  /** Two chains that have just been given their liquidity and equal points. */
  ghost predicate Start(w: Net) { Healthy(w.a) && Healthy(w.b) && P.Start(AbsNet(w)) }

  /** Mirroring on the ledgers. In every run, when a chain acts on a batch it is delivered, that batch is what
      the counter chain has locked now; settling its own batch succeeds on the ledger; and then its shadow is
      the balance of the counter chain's liquidity pool, its points are the counter chain's points, and its
      holding pool owes just the next batch. */
  lemma {:induction false} LedgersMirror(w: Net, run: seq<Event>, e: Event)
    requires Start(w) && Legal(w, run) && EventPossible(After(w, run), e) && e.act.Delivered?
    requires var n := if e.AtA? then After(w, run).a else After(w, run).b;
             && Liq(n.store.ledger, n.counter) > 0 && !IsEmpty(e.act.remote) && !Waiting(View(n.store, n.counter), e.act.remote)
    ensures var n := if e.AtA? then After(w, run).a else After(w, run).b;
            var m := if e.AtA? then After(w, run).b else After(w, run).a;
            var own := HandleOwn(n.store, n.counter, e.act.remote);
            && m.store.locked == Some(e.act.remote)
            && own.Ok?
            && own.value.1 == Liq(m.store.ledger, m.counter)
            && own.value.0.shares == m.store.shares
            && (e.act.remote.poolSize > 0 ==> Hold(own.value.0.ledger, n.counter) == OwedFor(n.store.next))
  {
    var abs := RunRefines(w, run);
    var v := After(w, run);
    var n, m := if e.AtA? then v.a else v.b, if e.AtA? then v.b else v.a;
    var event := if e.AtA? then P.OnA(P.Triggered(e.act.remote, e.act.perm)) else P.OnB(P.Triggered(e.act.remote, e.act.perm));
    P.Mirroring(AbsNet(w), abs, event);
    OwnLedger(n.store, n.counter, e.act.remote);
  }

  /** And on the ledgers too nothing is executed twice, settled twice, lost or reordered. */
  lemma {:induction false} LedgersDeliverOnce(w: Net, run: seq<Event>)
    requires Start(w) && Legal(w, run)
    ensures var v := AbsNet(After(w, run));
            && P.NoRepeats(v.a.executed) && P.NoRepeats(v.b.executed)
            && P.Alternates(v.a, v.b) && P.Alternates(v.b, v.a)
            && P.Complete(v.a) && P.Complete(v.b)
    ensures EscrowHolds(After(w, run).a.store, After(w, run).a.counter)
    ensures EscrowHolds(After(w, run).b.store, After(w, run).b.counter)
  {
    var abs := RunRefines(w, run);
    P.ExactlyOnce(AbsNet(w), abs);
    P.NothingLost(AbsNet(w), abs);
  }
}
