/** Runs of two chains that exchange locked batches, each reading any batch the other ever showed. */
module TwoChain {
  import opened Lib
  import opened Points
  import opened Amm
  import opened Pipeline
  import Payees

  /** A chain, every batch it has shown at a block end, the history of what it executed and settled, and the
      operations its users got admitted. */
  datatype Side = Side(chain: Chain, shown: set<Batch>, executed: seq<Batch>, settled: seq<Batch>, admitted: seq<Op>)

  datatype LocalEvent = UserOp(op: Op) | BlockEnd | Triggered(remote: Batch, perm: seq<nat>)

  datatype World = World(a: Side, b: Side)

  datatype Event = OnA(e: LocalEvent) | OnB(e: LocalEvent)

  predicate Fits(e: LocalEvent) { e.Triggered? ==> IsPermutation(e.perm, |e.remote.orders|) }

  /** Old batches may be delivered again at any time. */
  predicate Enabled(counter: Side, e: LocalEvent) {
    Fits(e) && (e.Triggered? ==> e.remote in counter.shown)
  }

  function OnTrigger(s: Side, remote: Batch, perm: seq<nat>): Side
    requires IsPermutation(perm, |remote.orders|)
  {
    match Trigger(s.chain, remote, perm)
    case Err(_) => s
    case Ok(c) =>
      if !Processes(s.chain, remote, perm) then s.(chain := c)
      else s.(chain := c, executed := s.executed + [remote],
              settled := if s.chain.locked.Some? then s.settled + [s.chain.locked.value] else s.settled)
  }

  function Act(s: Side, e: LocalEvent): Side
    requires Fits(e)
  {
    match e
    case UserOp(op) =>
      s.(chain := Submit(s.chain, op), admitted := if Refusal(s.chain, op).None? then s.admitted + [op] else s.admitted)
    case BlockEnd =>
      var c := EndBlock(s.chain);
      s.(chain := c, shown := s.shown + {Shown(c)})
    case Triggered(remote, perm) => OnTrigger(s, remote, perm)
  }

  predicate EventEnabled(w: World, e: Event) {
    match e case OnA(l) => Enabled(w.b, l) case OnB(l) => Enabled(w.a, l)
  }

  function Step(w: World, e: Event): World
    requires EventEnabled(w, e)
  {
    match e case OnA(l) => w.(a := Act(w.a, l)) case OnB(l) => w.(b := Act(w.b, l))
  }

  /** Before the pipeline starts: nothing locked or collected, and the two point lists agree. */
  predicate Start(w: World) {
    Idle(w.a) && Idle(w.b) && w.a.chain.shares == w.b.chain.shares
  }

  predicate Idle(s: Side) {
    && s.chain.pool <= MAX && s.chain.locked.None? && s.chain.next.None?
    && s.shown == {Shown(s.chain)} && s.executed == [] && s.settled == [] && s.admitted == []
  }

  predicate Legal(w: World, run: seq<Event>)
    decreases |run|
  {
    run == [] || (EventEnabled(w, run[0]) && Legal(Step(w, run[0]), run[1..]))
  }

  function After(w: World, run: seq<Event>): World
    requires Legal(w, run)
    decreases |run|
  {
    if run == [] then w else After(Step(w, run[0]), run[1..])
  }

  // ---- The invariant -----------------------------------------------------

  predicate Collecting(s: Side) {
    && s.chain.pool <= MAX
    && (s.chain.next.Some? ==> s.chain.next.value.receiptHash == NoHash && s.chain.next.value.receipts == [])
  }

  /** The locked batch has been shown, so it can no longer change. */
  predicate Frozen(c: Chain) { c.locked.Some? && c.locked.value.lockedHeight < c.height }

  predicate OnlyEmptyShown(s: Side) { forall r | r in s.shown :: IsEmpty(r) }

  predicate NoHistory(s: Side) { s.executed == [] && s.settled == [] }

  /** Locked against an empty counter batch, before any exchange. */
  predicate FirstLock(s: Side) {
    && s.chain.locked.Some? && s.chain.locked.value.lockedHeight <= s.chain.height
    && Depth(s.chain.locked.value.receiptHash) == 1
    && s.chain.locked.value.poolSize == s.chain.pool
    && forall r | r in s.shown :: IsEmpty(r) || (r == s.chain.locked.value && Frozen(s.chain))
  }

  /** Nobody has locked yet. */
  predicate BothOpen(p: Side, q: Side) {
    && Collecting(p) && Collecting(q) && NoHistory(p) && NoHistory(q)
    && p.chain.shares == q.chain.shares
    && p.chain.locked.None? && q.chain.locked.None? && OnlyEmptyShown(p) && OnlyEmptyShown(q)
  }

  /** p has locked first; q has seen nothing of it yet. */
  predicate FirstSent(p: Side, q: Side) {
    && Collecting(p) && Collecting(q) && NoHistory(p) && NoHistory(q)
    && p.chain.shares == q.chain.shares
    && FirstLock(p) && q.chain.locked.None? && OnlyEmptyShown(q)
  }

  /** Both locked against an empty batch of the other: neither will ever be answered. */
  predicate Stuck(p: Side, q: Side) {
    && Collecting(p) && Collecting(q) && NoHistory(p) && NoHistory(q)
    && FirstLock(p) && FirstLock(q)
  }

  ghost predicate ExecutedBy(p: Chain, q: Chain, perm: seq<nat>)
    requires p.locked.Some? && q.locked.Some?
  {
    && IsPermutation(perm, |q.locked.value.orders|)
    && var out := Execute(Reserves(q.pool, p.locked.value.poolSize), q.shares, q.locked.value, perm);
       out.Ok? && out.value.0.r.y == p.pool && out.value.0.shares == p.shares && out.value.1 == p.locked.value.receipts
  }

  predicate ShownBelow(s: Side, d: nat) { forall r | r in s.shown :: Depth(r.receiptHash) <= d }

  /** Batches in strictly increasing depth, all below d: none occurs twice. */
  predicate Ascending(log: seq<Batch>, d: nat) {
    && (forall j, k | 0 <= j < k < |log| :: Depth(log[j].receiptHash) < Depth(log[k].receiptHash))
    && (forall k | 0 <= k < |log| :: Depth(log[k].receiptHash) < d)
  }

  /** p has executed q's locked batch and waits in turn; q has not yet seen the receipts. What p's pool and
      points are now is what executing q's batch from q's present pool and points gives. */
  ghost predicate InTurn(p: Side, q: Side) {
    && Collecting(p) && Collecting(q)
    && p.chain.locked.Some? && p.chain.locked.value.lockedHeight <= p.chain.height && Frozen(q.chain)
    && q.chain.locked.value.receiptHash.HashOf?
    && p.chain.locked.value.receiptHash == HashOf(q.chain.locked.value)
    && p.chain.locked.value.poolSize <= MAX
    && (exists perm :: ExecutedBy(p.chain, q.chain, perm))
    && (forall r | r in p.shown :: (r == p.chain.locked.value && Frozen(p.chain))
                                   || Depth(r.receiptHash) < Depth(p.chain.locked.value.receiptHash))
    && ShownBelow(q, Depth(q.chain.locked.value.receiptHash))
    && p.settled == q.executed
    && p.executed == q.settled + [q.chain.locked.value]
    && Ascending(p.executed, Depth(q.chain.locked.value.receiptHash) + 1)
    && Ascending(q.executed, Depth(p.chain.locked.value.receiptHash))
  }

  ghost predicate Linked(p: Side, q: Side) {
    BothOpen(p, q) || FirstSent(p, q) || Stuck(p, q) || InTurn(p, q)
  }

  ghost predicate Inv(w: World) { Linked(w.a, w.b) || Linked(w.b, w.a) }

  // ---- Preservation ------------------------------------------------------

  /** Block ends and user operations touch neither pool nor points, and a shown batch not at all. */
  lemma QuietSteps(c: Chain, op: Op)
    ensures var c' := Submit(c, op);
            c'.pool == c.pool && c'.shares == c.shares && c'.locked == c.locked && c'.height == c.height
    ensures var c' := EndBlock(c);
            && c'.pool == c.pool && c'.shares == c.shares && c'.height == c.height + 1
            && (c.locked.None? <==> c'.locked.None?)
            && (c.locked.Some? ==>
                  && c'.locked.value.receiptHash == c.locked.value.receiptHash
                  && c'.locked.value.poolSize == c.locked.value.poolSize
                  && c'.locked.value.receipts == c.locked.value.receipts
                  && c'.locked.value.lockedHeight == c.locked.value.lockedHeight
                  && (Frozen(c) ==> c'.locked == c.locked))
  {}

  lemma QuietKeepsCollecting(s: Side, e: LocalEvent)
    requires Collecting(s) && Fits(e) && !e.Triggered?
    ensures Collecting(Act(s, e))
  {}

  lemma QuietOpen(p: Side, q: Side, e: LocalEvent)
    requires BothOpen(p, q) && Fits(e) && !e.Triggered?
    ensures BothOpen(Act(p, e), q) && BothOpen(p, Act(q, e))
  {
    QuietKeepsCollecting(p, e);
    QuietKeepsCollecting(q, e);
  }

  lemma QuietLock(s: Side, e: LocalEvent)
    requires FirstLock(s) && Fits(e) && !e.Triggered?
    ensures FirstLock(Act(s, e)) && Act(s, e).chain.shares == s.chain.shares
  {
    QuietSteps(s.chain, if e.UserOp? then e.op else Redeem(Withdrawal(0, 0)));
  }

  lemma QuietFirst(p: Side, q: Side, e: LocalEvent)
    requires FirstSent(p, q) && Fits(e) && !e.Triggered?
    ensures FirstSent(Act(p, e), q) && FirstSent(p, Act(q, e))
  {
    QuietKeepsCollecting(p, e);
    QuietKeepsCollecting(q, e);
    QuietLock(p, e);
  }

  lemma QuietStuck(p: Side, q: Side, e: LocalEvent)
    requires Stuck(p, q) && Fits(e) && !e.Triggered?
    ensures Stuck(Act(p, e), q) && Stuck(p, Act(q, e))
  {
    QuietKeepsCollecting(p, e);
    QuietKeepsCollecting(q, e);
    QuietLock(p, e);
    QuietLock(q, e);
  }

  lemma QuietKeepsLinked(p: Side, q: Side, e: LocalEvent)
    requires Linked(p, q) && Fits(e) && !e.Triggered?
    ensures Linked(Act(p, e), q)
    ensures Linked(p, Act(q, e))
  {
    if BothOpen(p, q) {
      QuietOpen(p, q, e);
    } else if FirstSent(p, q) {
      QuietFirst(p, q, e);
    } else if Stuck(p, q) {
      QuietStuck(p, q, e);
    } else {
      QuietAhead(p, q, e);
      QuietBehind(p, q, e);
    }
  }

  lemma QuietAhead(p: Side, q: Side, e: LocalEvent)
    requires InTurn(p, q) && Fits(e) && !e.Triggered?
    ensures InTurn(Act(p, e), q)
  {
    QuietKeepsCollecting(p, e);
    QuietSteps(p.chain, if e.UserOp? then e.op else Redeem(Withdrawal(0, 0)));
    var perm :| ExecutedBy(p.chain, q.chain, perm);
    assert ExecutedBy(Act(p, e).chain, q.chain, perm);
  }

  lemma QuietBehind(p: Side, q: Side, e: LocalEvent)
    requires InTurn(p, q) && Fits(e) && !e.Triggered?
    ensures InTurn(p, Act(q, e))
  {
    QuietKeepsCollecting(q, e);
    QuietSteps(q.chain, if e.UserOp? then e.op else Redeem(Withdrawal(0, 0)));
    var perm :| ExecutedBy(p.chain, q.chain, perm);
    assert ExecutedBy(p.chain, Act(q, e).chain, perm);
  }

  /** In the opening states a trigger only locks, waits, or executes the other side's first batch. */
  lemma OpeningTrigger(p: Side, q: Side, remote: Batch, perm: seq<nat>)
    requires BothOpen(p, q) || FirstSent(p, q) || FirstSent(q, p) || Stuck(p, q)
    requires IsPermutation(perm, |remote.orders|) && remote in q.shown
    ensures var p' := OnTrigger(p, remote, perm);
            BothOpen(p', q) || FirstSent(p', q) || FirstSent(q, p') || Stuck(p', q) || InTurn(p', q)
  {
    var p' := OnTrigger(p, remote, perm);
    if IsEmpty(remote) {
      assert Depth(remote.(receiptHash := EmptyReceipts).receiptHash) == 0;
      assert Depth(HashBatch(remote)) == 1;
    } else if p.chain.locked.Some? {
      assert Waiting(p.chain, remote);
    } else if Processes(p.chain, remote, perm) {
      assert FirstSent(q, p) && remote == q.chain.locked.value;
      FirstExecution(p, q, perm);
    }
  }

  /** p, which has nothing locked and has shown nothing deeper than a first lock, executes q's first batch. */
  lemma FirstExecution(p: Side, q: Side, perm: seq<nat>)
    requires Collecting(p) && Collecting(q) && NoHistory(p) && NoHistory(q)
    requires p.chain.locked.None? && ShownBelow(p, 1) && p.chain.shares == q.chain.shares
    requires FirstLock(q) && Frozen(q.chain)
    requires var remote := q.chain.locked.value;
             IsPermutation(perm, |remote.orders|) && Processes(p.chain, remote, perm)
    ensures InTurn(OnTrigger(p, q.chain.locked.value, perm), q)
  {
    var remote := q.chain.locked.value;
    var p' := OnTrigger(p, remote, perm);
    ExecutionFits(Reserves(remote.poolSize, p.chain.pool), p.chain.shares, remote, perm);
    assert ExecutedBy(p'.chain, q.chain, perm);
  }

  /** Once exchanging, the side that waits is never moved by anything it can be shown. */
  lemma AheadWaits(p: Side, q: Side, remote: Batch, perm: seq<nat>)
    requires InTurn(p, q)
    requires IsPermutation(perm, |remote.orders|) && remote in q.shown
    ensures OnTrigger(p, remote, perm) == p
  {
    if !IsEmpty(remote) {
      assert Waiting(p.chain, remote);
    }
  }

  /** And the other side only acts on the batch that answers its own. */
  lemma BehindIgnoresOld(p: Side, q: Side, remote: Batch, perm: seq<nat>)
    requires InTurn(p, q)
    requires IsPermutation(perm, |remote.orders|) && remote in p.shown
    requires !(remote == p.chain.locked.value && Frozen(p.chain))
    ensures OnTrigger(q, remote, perm) == q
  {
    if !IsEmpty(remote) {
      assert Waiting(q.chain, remote);
    }
  }

  /** Acting on it, a side first catches up: its pool, points and shadow become what the other side has. */
  lemma CatchesUp(p: Side, q: Side)
    requires InTurn(p, q)
    requires q.chain.pool <= MAX
    ensures !Waiting(q.chain, p.chain.locked.value)
    ensures var r := Advance(q.chain, p.chain.locked.value);
            && r.Ok?
            && r.value.0.shares == p.chain.shares
            && r.value.1 == p.chain.pool
            && r.value.0.pool <= MAX
            && r.value.0 == q.chain.(pool := r.value.0.pool, shares := p.chain.shares, locked := None)
  {
    var perm :| ExecutedBy(p.chain, q.chain, perm);
    var remote, own := p.chain.locked.value, q.chain.locked.value;
    var r := Reserves(q.chain.pool, remote.poolSize);
    ReplayMirrorsExecution(r, q.chain.shares, own, perm);
    ExecutionFits(r, q.chain.shares, own, perm);
  }

  /** The chain that acting on the answer leaves: caught up, then moved on by executing it. */
  lemma TurnResult(p: Side, q: Side, perm: seq<nat>)
    requires InTurn(p, q)
    requires var remote := p.chain.locked.value;
             IsPermutation(perm, |remote.orders|) && Processes(q.chain, remote, perm)
    ensures var remote := p.chain.locked.value;
            var mid := Advance(q.chain, remote);
            && mid.Ok?
            && var out := Execute(Reserves(p.chain.pool, mid.value.0.pool), p.chain.shares, remote, perm);
               && out.Ok?
               && var c := Trigger(q.chain, remote, perm).value;
                  && c.pool == out.value.0.r.y && c.shares == out.value.0.shares
                  && c.height == q.chain.height && c.next.None? && c.locked.Some?
                  && c.locked.value.receiptHash == HashOf(remote)
                  && c.locked.value.poolSize == mid.value.0.pool
                  && c.locked.value.receipts == out.value.1
                  && c.locked.value.lockedHeight == q.chain.height
                  && c.pool <= MAX && mid.value.0.pool <= MAX
  {
    CatchesUp(p, q);
    var c1 := Advance(q.chain, p.chain.locked.value).value.0;
    ExecutionFits(Reserves(p.chain.pool, c1.pool), p.chain.shares, p.chain.locked.value, perm);
  }

  lemma TurnPasses(p: Side, q: Side, perm: seq<nat>)
    requires InTurn(p, q) && Frozen(p.chain)
    requires var remote := p.chain.locked.value;
             IsPermutation(perm, |remote.orders|) && Processes(q.chain, remote, perm)
    ensures InTurn(OnTrigger(q, p.chain.locked.value, perm), p)
  {
    var remote := p.chain.locked.value;
    var q' := OnTrigger(q, remote, perm);
    TurnResult(p, q, perm);
    assert q' == Side(Trigger(q.chain, remote, perm).value, q.shown, q.executed + [remote],
                      q.settled + [q.chain.locked.value], q.admitted);
    assert ExecutedBy(q'.chain, p.chain, perm);
    TurnHistory(p, q, q');
  }

  lemma TurnHistory(p: Side, q: Side, q': Side)
    requires InTurn(p, q)
    requires q'.shown == q.shown && q'.chain.locked.Some?
    requires q'.chain.locked.value.receiptHash == HashOf(p.chain.locked.value)
    requires q'.executed == q.executed + [p.chain.locked.value]
    requires q'.settled == q.settled + [q.chain.locked.value]
    ensures var d := Depth(q'.chain.locked.value.receiptHash);
            && d == 2 + Depth(q.chain.locked.value.receiptHash)
            && d == 1 + Depth(p.chain.locked.value.receiptHash)
            && (forall r | r in q'.shown :: Depth(r.receiptHash) < d)
            && Ascending(q'.executed, Depth(p.chain.locked.value.receiptHash) + 1)
            && Ascending(p.executed, d)
    ensures ShownBelow(p, Depth(p.chain.locked.value.receiptHash))
    ensures q'.settled == p.executed && q'.executed == p.settled + [p.chain.locked.value]
  {}

  lemma TriggerKeepsLinked(p: Side, q: Side, remote: Batch, perm: seq<nat>)
    requires Linked(p, q) || Linked(q, p)
    requires IsPermutation(perm, |remote.orders|) && remote in q.shown
    ensures var p' := OnTrigger(p, remote, perm); Linked(p', q) || Linked(q, p')
  {
    if InTurn(p, q) {
      AheadWaits(p, q, remote, perm);
    } else if InTurn(q, p) {
      if !(remote == q.chain.locked.value && Frozen(q.chain)) {
        BehindIgnoresOld(q, p, remote, perm);
      } else if Processes(p.chain, remote, perm) {
        TurnPasses(q, p, perm);
      } else {
        CatchesUp(q, p);
        assert OnTrigger(p, remote, perm) == p;
      }
    } else {
      OpeningTrigger(p, q, remote, perm);
    }
  }

  lemma StepKeepsInv(w: World, e: Event)
    requires Inv(w) && EventEnabled(w, e)
    ensures Inv(Step(w, e))
  {
    var local := e.e;
    if local.Triggered? {
      if e.OnA? {
        TriggerKeepsLinked(w.a, w.b, local.remote, local.perm);
      } else {
        TriggerKeepsLinked(w.b, w.a, local.remote, local.perm);
      }
    } else if Linked(w.a, w.b) {
      QuietKeepsLinked(w.a, w.b, local);
    } else {
      QuietKeepsLinked(w.b, w.a, local);
    }
  }

  lemma {:induction false} RunKeepsInv(w: World, run: seq<Event>)
    requires Inv(w) && Legal(w, run)
    ensures Inv(After(w, run))
    decreases |run|
  {
    if run != [] {
      StepKeepsInv(w, run[0]);
      RunKeepsInv(Step(w, run[0]), run[1..]);
    }
  }

  lemma StartInv(w: World)
    requires Start(w)
    ensures Inv(w) && NestedFirst(w)
  {
    assert BothOpen(w.a, w.b);
  }

  // ---- What every run keeps ----------------------------------------------

  function Acting(w: World, e: Event): Side { if e.OnA? then w.a else w.b }

  function Counter(w: World, e: Event): Side { if e.OnA? then w.b else w.a }

  /** Mirroring. Whenever a chain does not wait on a batch it is shown, that batch is the one its counter
      chain has locked; settling its own batch cannot fail (so the debit error is never returned); and
      before it executes, its shadow is the counter chain's real pool and both have the same holders,
      points and total. */
  lemma {:induction false} Mirroring(w: World, run: seq<Event>, e: Event)
    requires Start(w) && Legal(w, run)
    requires EventEnabled(After(w, run), e) && e.e.Triggered?
    requires !IsEmpty(e.e.remote) && !Waiting(Acting(After(w, run), e).chain, e.e.remote)
    ensures var p, q := Acting(After(w, run), e).chain, Counter(After(w, run), e).chain;
            var settled := Advance(p, e.e.remote);
            && q.locked == Some(e.e.remote)
            && settled.Ok?
            && settled.value.1 == q.pool
            && settled.value.0.shares == q.shares
  {
    StartInv(w);
    RunKeepsInv(w, run);
    var s, t := Acting(After(w, run), e), Counter(After(w, run), e);
    if InTurn(s, t) {
      AheadNeverProceeds(s, t, e.e.remote);
      assert false;
    } else if InTurn(t, s) {
      if !(e.e.remote == t.chain.locked.value && Frozen(t.chain)) {
        OldNeverAnswers(t, s, e.e.remote);
        assert false;
      }
      CatchesUp(t, s);
    }
  }

  /** And so a chain that acts on a batch goes through with it exactly when that batch can be executed from the counter
      chain's real pool, its own pool as settled, and the points they share. */
  lemma {:induction false} ActsExactly(w: World, run: seq<Event>, e: Event, settled: Chain, receipts: seq<nat>)
    requires Start(w) && Legal(w, run)
    requires EventEnabled(After(w, run), e) && e.e.Triggered?
    requires !IsEmpty(e.e.remote) && !Waiting(Acting(After(w, run), e).chain, e.e.remote) && Percents(e.e.remote.withdrawals)
    requires Acting(After(w, run), e).chain.pool != 0
    requires var p, q := Acting(After(w, run), e).chain, Counter(After(w, run), e).chain;
             && Advance(p, e.e.remote) == Ok((settled, q.pool))
             && Sound(q.shares) && q.pool <= MAX && settled.pool <= MAX
             && AllFair(Reserves(q.pool, settled.pool), e.e.remote.orders, e.e.perm, receipts)
    ensures var p, q := Acting(After(w, run), e).chain, Counter(After(w, run), e).chain;
            Trigger(p, e.e.remote, e.e.perm).Ok?
            <==> Payees.BatchThrough(Reserves(q.pool, settled.pool), q.shares, e.e.remote, e.e.perm, receipts)
  {
    Mirroring(w, run, e);
    var q := Counter(After(w, run), e).chain;
    Payees.ExecutesExactly(Reserves(q.pool, settled.pool), q.shares, e.e.remote, e.e.perm, receipts);
  }

  lemma AheadNeverProceeds(p: Side, q: Side, remote: Batch)
    requires InTurn(p, q) && remote in q.shown
    ensures Waiting(p.chain, remote)
  {
    assert Depth(remote.receiptHash) < Depth(HashBatch(p.chain.locked.value));
  }

  lemma OldNeverAnswers(p: Side, q: Side, remote: Batch)
    requires InTurn(p, q) && remote in p.shown && !(remote == p.chain.locked.value && Frozen(p.chain))
    ensures Waiting(q.chain, remote)
  {
    assert Depth(remote.receiptHash) < Depth(HashBatch(q.chain.locked.value));
  }

  predicate NoRepeats(log: seq<Batch>) { forall j, k | 0 <= j < k < |log| :: log[j] != log[k] }

  /** q's batches: settled in the order in which p executed them, p at most one ahead. */
  predicate Alternates(p: Side, q: Side) {
    p.executed == q.settled || (q.chain.locked.Some? && p.executed == q.settled + [q.chain.locked.value])
  }

  /** Exactly once. No chain executes a batch twice or settles one twice, each settles its batches in the
      order the other executed them, and at most one batch in all is executed but not yet settled. */
  lemma {:induction false} ExactlyOnce(w: World, run: seq<Event>)
    requires Start(w) && Legal(w, run)
    ensures var v := After(w, run);
            && NoRepeats(v.a.executed) && NoRepeats(v.a.settled)
            && NoRepeats(v.b.executed) && NoRepeats(v.b.settled)
            && Alternates(v.a, v.b) && Alternates(v.b, v.a)
            && (v.a.executed == v.b.settled || v.b.executed == v.a.settled)
  {
    StartInv(w);
    RunKeepsInv(w, run);
    var v := After(w, run);
    if InTurn(v.a, v.b) {
      AscendingDistinct(v.a, v.b);
    } else if InTurn(v.b, v.a) {
      AscendingDistinct(v.b, v.a);
    }
  }

  lemma AscendingDistinct(p: Side, q: Side)
    requires InTurn(p, q)
    ensures NoRepeats(p.executed) && NoRepeats(p.settled) && NoRepeats(q.executed) && NoRepeats(q.settled)
  {
    assert forall k | 0 <= k < |q.settled| :: p.executed[k] == q.settled[k];
  }

  /** Re-delivering a batch that was already executed changes nothing. */
  lemma {:induction false} RedeliveryIsHarmless(w: World, run: seq<Event>, e: Event)
    requires Start(w) && Legal(w, run) && EventEnabled(After(w, run), e) && e.e.Triggered?
    requires e.e.remote in Acting(After(w, run), e).executed
    ensures Step(After(w, run), e) == After(w, run)
  {
    StartInv(w);
    RunKeepsInv(w, run);
    var s, t := Acting(After(w, run), e), Counter(After(w, run), e);
    if InTurn(s, t) {
      AheadWaits(s, t, e.e.remote, e.e.perm);
    } else {
      BehindIgnoresOld(t, s, e.e.remote, e.e.perm);
    }
  }

  // ---- Nothing is lost ---------------------------------------------------

  /** Operations by kind, each in order. */
  datatype Ops = Ops(orders: seq<Order>, deposits: seq<Deposit>, withdrawals: seq<Withdrawal>)

  function Join(a: Ops, b: Ops): Ops {
    Ops(a.orders + b.orders, a.deposits + b.deposits, a.withdrawals + b.withdrawals)
  }

  function Single(op: Op): Ops {
    match op
    case Sell(o) => Ops([o], [], [])
    case Provide(d) => Ops([], [d], [])
    case Redeem(w) => Ops([], [], [w])
  }

  function OpsOf(b: Option<Batch>): Ops {
    match b case Some(x) => Ops(x.orders, x.deposits, x.withdrawals) case None => Ops([], [], [])
  }

  function OpsIn(log: seq<Batch>): Ops {
    if log == [] then Ops([], [], []) else Join(OpsIn(log[..|log| - 1]), OpsOf(Some(log[|log| - 1])))
  }

  function OpsFrom(ops: seq<Op>): Ops {
    if ops == [] then Ops([], [], []) else Join(OpsFrom(ops[..|ops| - 1]), Single(ops[|ops| - 1]))
  }

  /** What was admitted is what was settled, then what is locked, then what is being collected. */
  predicate Complete(s: Side) {
    OpsFrom(s.admitted) == Join(OpsIn(s.settled), Join(OpsOf(s.chain.locked), OpsOf(s.chain.next)))
  }

  lemma JoinAssociates(a: Ops, b: Ops, c: Ops)
    ensures Join(Join(a, b), c) == Join(a, Join(b, c))
  {}

  lemma IncludeKeepsOrder(c: Chain)
    ensures var c' := IncludeSameBlock(c);
            Join(OpsOf(c'.locked), OpsOf(c'.next)) == Join(OpsOf(c.locked), OpsOf(c.next))
  {}

  lemma SubmitAppends(c: Chain, op: Op)
    requires Refusal(c, op).None?
    ensures OpsOf(Submit(c, op).next) == Join(OpsOf(c.next), Single(op)) && Submit(c, op).locked == c.locked
  {}

  lemma ActKeepsComplete(s: Side, e: LocalEvent)
    requires Complete(s) && Fits(e)
    ensures Complete(Act(s, e))
  {
    var settled, locked, next := OpsIn(s.settled), OpsOf(s.chain.locked), OpsOf(s.chain.next);
    match e
    case UserOp(op) =>
      if Refusal(s.chain, op).None? {
        SubmitAppends(s.chain, op);
        assert (s.admitted + [op])[..|s.admitted|] == s.admitted;
        JoinAssociates(settled, Join(locked, next), Single(op));
        JoinAssociates(locked, next, Single(op));
      }
    case BlockEnd =>
      IncludeKeepsOrder(s.chain);
    case Triggered(remote, perm) =>
      TriggerKeepsComplete(s, remote, perm);
  }

  lemma RotateMoves(c: Chain, hash: Hash, poolSize: nat, receipts: seq<nat>)
    requires c.locked.None?
    ensures var c' := Rotate(c, hash, poolSize, receipts); OpsOf(c'.locked) == OpsOf(c.next) && c'.next.None?
  {}

  /** A trigger leaves both batches alone, or makes the next batch the locked one; the latter happens to a
      chain that had something locked only when that was settled. */
  lemma TriggerMoves(c: Chain, remote: Batch, perm: seq<nat>)
    requires IsPermutation(perm, |remote.orders|) && Trigger(c, remote, perm).Ok?
    ensures var c' := Trigger(c, remote, perm).value;
            if c.locked.Some? && !Processes(c, remote, perm) then c'.locked == c.locked && c'.next == c.next
            else (OpsOf(c'.locked) == OpsOf(c.next) && c'.next.None?) || (c.locked.None? && c' == c)
  {
    if c.pool != 0 {
      if IsEmpty(remote) {
        if c.locked.None? { RotateMoves(c, HashBatch(remote), c.pool, []); }
      } else if !Waiting(c, remote) {
        var (c1, shadow) := Advance(c, remote).value;
        var (m, receipts) := Execute(Reserves(shadow, c1.pool), c1.shares, remote, perm).value;
        RotateMoves(c1.(pool := m.r.y, shares := m.shares), HashBatch(remote), c1.pool, receipts);
      }
    }
  }

  lemma {:induction false} SettledAppends(log: seq<Batch>, b: Batch)
    ensures OpsIn(log + [b]) == Join(OpsIn(log), OpsOf(Some(b)))
  {
    assert (log + [b])[..|log|] == log;
  }

  lemma NothingJoins(a: Ops)
    ensures Join(a, OpsOf(None)) == a
  {}

  lemma TriggerKeepsComplete(s: Side, remote: Batch, perm: seq<nat>)
    requires Complete(s) && IsPermutation(perm, |remote.orders|)
    ensures Complete(OnTrigger(s, remote, perm))
  {
    if Trigger(s.chain, remote, perm).Ok? {
      TriggerMoves(s.chain, remote, perm);
      NothingJoins(OpsOf(s.chain.next));
      if s.chain.locked.Some? {
        SettledAppends(s.settled, s.chain.locked.value);
        JoinAssociates(OpsIn(s.settled), OpsOf(s.chain.locked), OpsOf(s.chain.next));
      } else {
        NothingJoins(OpsIn(s.settled));
        JoinAssociates(OpsIn(s.settled), OpsOf(None), OpsOf(s.chain.next));
      }
    }
  }

  lemma {:induction false} RunKeepsComplete(w: World, run: seq<Event>)
    requires Complete(w.a) && Complete(w.b) && Legal(w, run)
    ensures Complete(After(w, run).a) && Complete(After(w, run).b)
    decreases |run|
  {
    if run != [] {
      ActKeepsComplete(Acting(w, run[0]), run[0].e);
      RunKeepsComplete(Step(w, run[0]), run[1..]);
    }
  }

  /** End to end: at every moment of every run the operations a chain's users got admitted are, kind by kind
      and in order, those the counter chain executed (all settled but at most the last batch), then those
      still locked, then those being collected: none is lost, duplicated or reordered. */
  lemma {:induction false} NothingLost(w: World, run: seq<Event>)
    requires Start(w) && Legal(w, run)
    ensures var v := After(w, run);
            && Complete(v.a) && Complete(v.b)
            && (v.b.executed == v.a.settled ==>
                  OpsFrom(v.a.admitted) == Join(OpsIn(v.b.executed), Join(OpsOf(v.a.chain.locked), OpsOf(v.a.chain.next))))
            && (v.b.executed != v.a.settled ==>
                  OpsFrom(v.a.admitted) == Join(OpsIn(v.b.executed), OpsOf(v.a.chain.next)))
  {
    RunKeepsComplete(w, run);
    ExactlyOnce(w, run);
    var v := After(w, run);
    if v.b.executed != v.a.settled {
      var own := v.a.chain.locked.value;
      assert (v.a.settled + [own])[..|v.a.settled|] == v.a.settled;
      JoinAssociates(OpsIn(v.a.settled), OpsOf(Some(own)), OpsOf(v.a.chain.next));
    }
  }

  // ---- No batch is ever longer than it may be ------------------------------

  predicate SideWithinCaps(s: Side) {
    WithinCaps(s.chain.locked) && WithinCaps(s.chain.next) && forall r | r in s.shown :: WithinCaps(Some(r))
  }

  lemma TriggerKeepsCaps(c: Chain, remote: Batch, perm: seq<nat>)
    requires IsPermutation(perm, |remote.orders|) && Trigger(c, remote, perm).Ok? && WithinCaps(c.locked) && WithinCaps(c.next)
    ensures WithinCaps(Trigger(c, remote, perm).value.locked) && WithinCaps(Trigger(c, remote, perm).value.next)
  {}

  lemma ActKeepsCaps(s: Side, e: LocalEvent)
    requires Fits(e) && SideWithinCaps(s)
    ensures SideWithinCaps(Act(s, e))
  {
    match e
    case UserOp(op) => CapsKept(s.chain, op);
    case BlockEnd => IncludeFills(s.chain);
    case Triggered(remote, perm) => if Trigger(s.chain, remote, perm).Ok? { TriggerKeepsCaps(s.chain, remote, perm); }
  }

  /** Over every run no batch that is collected, locked or shown exceeds its caps. */
  lemma {:induction false} CapsOverRuns(w: World, run: seq<Event>)
    requires SideWithinCaps(w.a) && SideWithinCaps(w.b) && Legal(w, run)
    ensures SideWithinCaps(After(w, run).a) && SideWithinCaps(After(w, run).b)
    decreases |run|
  {
    if run != [] {
      match run[0]
      case OnA(l) => ActKeepsCaps(w.a, l); CapsOverRuns(Step(w, run[0]), run[1..]);
      case OnB(l) => ActKeepsCaps(w.b, l); CapsOverRuns(Step(w, run[0]), run[1..]);
    }
  }

  // ---- The opening -------------------------------------------------------

  /** The reason why the root chain is handed no empty batch: once both chains have locked against an empty
      batch of the other, triggers, users and block ends alone never execute anything again; it takes the
      liveness refund to go on. */
  lemma {:induction false} StuckUntilRefund(w: World, run: seq<Event>)
    requires Stuck(w.a, w.b) && Legal(w, run)
    ensures Stuck(After(w, run).a, After(w, run).b)
    decreases |run|
  {
    if run != [] {
      var e := run[0];
      if e.e.Triggered? {
        StuckWaits(Acting(w, e), Counter(w, e), e.e.remote, e.e.perm);
      } else {
        QuietStuck(w.a, w.b, e.e);
      }
      StuckUntilRefund(Step(w, e), run[1..]);
    }
  }

  lemma StuckWaits(p: Side, q: Side, remote: Batch, perm: seq<nat>)
    requires Stuck(p, q) && IsPermutation(perm, |remote.orders|) && remote in q.shown
    ensures OnTrigger(p, remote, perm) == p
  {
    if !IsEmpty(remote) {
      assert Waiting(p.chain, remote);
    }
  }

  /** What the liveness refund does to a side: its lock is dropped and the counter chain's points taken over. */
  function Refunded(s: Side, counter: Side): Side {
    s.(chain := s.chain.(locked := None, shares := counter.chain.shares))
  }

  /** The refund leaves the dead end: the refunded chain no longer waits on the other's first batch, and
      executing it puts the two chains in turn, from where every run goes on as usual. */
  lemma RefundUnsticks(p: Side, q: Side, perm: seq<nat>)
    requires Stuck(p, q) && Frozen(p.chain)
    requires IsPermutation(perm, |p.chain.locked.value.orders|)
    ensures var remote, q' := p.chain.locked.value, Refunded(q, p);
            && !Waiting(q'.chain, remote)
            && (Processes(q'.chain, remote, perm) ==> InTurn(OnTrigger(q', remote, perm), p))
  {
    var remote, q' := p.chain.locked.value, Refunded(q, p);
    if Processes(q'.chain, remote, perm) {
      FirstExecution(q', p, perm);
    }
  }

  /** A run of two triggers reaches that state from every start with liquidity. */
  lemma {:induction false} StuckReachable(w: World)
    requires Start(w) && w.a.chain.pool > 0 && w.b.chain.pool > 0
    ensures var run := [OnA(Triggered(Shown(w.b.chain), [])), OnB(Triggered(Shown(w.a.chain), []))];
            Legal(w, run) && Stuck(After(w, run).a, After(w, run).b)
  {
    var e, f := OnA(Triggered(Shown(w.b.chain), [])), OnB(Triggered(Shown(w.a.chain), []));
    var w1 := Step(w, e);
    assert [e, f][1..] == [f] && [f][1..] == [];
    assert EventEnabled(w1, f);
    var w2 := Step(w1, f);
    assert After(w, [e, f]) == w2 by { assert After(w1, [f]) == After(w2, []); }
    assert Depth(Shown(w.a.chain).(receiptHash := EmptyReceipts).receiptHash) == 0;
    assert Depth(Shown(w.b.chain).(receiptHash := EmptyReceipts).receiptHash) == 0;
  }

  /** The controller hands the root chain (here a) no empty batch of a nested chain. */
  predicate RootPolicy(run: seq<Event>) {
    forall k | 0 <= k < |run| :: run[k].OnA? && run[k].e.Triggered? ==> !IsEmpty(run[k].e.remote)
  }

  ghost predicate NestedFirst(w: World) {
    BothOpen(w.a, w.b) || FirstSent(w.b, w.a) || InTurn(w.a, w.b) || InTurn(w.b, w.a)
  }

  /** Before the first batch is executed. */
  lemma PolicyOpening(w: World, e: Event)
    requires BothOpen(w.a, w.b) || FirstSent(w.b, w.a)
    requires EventEnabled(w, e) && e.e.Triggered? && (e.OnA? ==> !IsEmpty(e.e.remote))
    ensures NestedFirst(Step(w, e))
  {
    TriggerKeepsLinked(Acting(w, e), Counter(w, e), e.e.remote, e.e.perm);
    if FirstSent(w.b, w.a) && e.OnA? && Processes(w.a.chain, e.e.remote, e.e.perm) {
      FirstExecution(w.a, w.b, e.e.perm);
    }
  }

  lemma PolicyTriggered(w: World, e: Event)
    requires NestedFirst(w) && EventEnabled(w, e) && e.e.Triggered?
    requires e.OnA? ==> !IsEmpty(e.e.remote)
    ensures NestedFirst(Step(w, e))
  {
    var s, t := Acting(w, e), Counter(w, e);
    if InTurn(s, t) {
      AheadWaits(s, t, e.e.remote, e.e.perm);
    } else if InTurn(t, s) {
      PolicyTurn(t, s, e.e.remote, e.e.perm);
    } else {
      PolicyOpening(w, e);
    }
  }

  lemma PolicyQuiet(w: World, e: Event)
    requires NestedFirst(w) && EventEnabled(w, e) && !e.e.Triggered?
    ensures NestedFirst(Step(w, e))
  {
    var local := e.e;
    if InTurn(w.a, w.b) {
      QuietAhead(w.a, w.b, local);
      QuietBehind(w.a, w.b, local);
    } else if InTurn(w.b, w.a) {
      QuietAhead(w.b, w.a, local);
      QuietBehind(w.b, w.a, local);
    } else if BothOpen(w.a, w.b) {
      QuietOpen(w.a, w.b, local);
    } else {
      QuietFirst(w.b, w.a, local);
    }
  }

  lemma PolicyStep(w: World, e: Event)
    requires NestedFirst(w) && EventEnabled(w, e)
    requires e.OnA? && e.e.Triggered? ==> !IsEmpty(e.e.remote)
    ensures NestedFirst(Step(w, e))
  {
    if e.e.Triggered? {
      PolicyTriggered(w, e);
    } else {
      PolicyQuiet(w, e);
    }
  }

  lemma PolicyTurn(p: Side, q: Side, remote: Batch, perm: seq<nat>)
    requires InTurn(p, q) && IsPermutation(perm, |remote.orders|) && remote in p.shown
    ensures InTurn(OnTrigger(q, remote, perm), p) || OnTrigger(q, remote, perm) == q
  {
    if !(remote == p.chain.locked.value && Frozen(p.chain)) {
      BehindIgnoresOld(p, q, remote, perm);
    } else if Processes(q.chain, remote, perm) {
      TurnPasses(p, q, perm);
    } else {
      CatchesUp(p, q);
    }
  }

  /** Under that policy the dead end above is never reached. */
  lemma {:induction false} PolicyNeverStuck(w: World, run: seq<Event>)
    requires NestedFirst(w) && Legal(w, run) && RootPolicy(run)
    ensures NestedFirst(After(w, run)) && !Stuck(After(w, run).a, After(w, run).b)
    decreases |run|
  {
    if run != [] {
      PolicyStep(w, run[0]);
      PolicyNeverStuck(Step(w, run[0]), run[1..]);
    }
  }

  /** A run under the policy, or under none, that ends in the dead end. */
  ghost predicate LeadsToStuck(w: World, run: seq<Event>, policy: bool) {
    Legal(w, run) && (policy ==> RootPolicy(run)) && Stuck(After(w, run).a, After(w, run).b)
  }

  /** Among runs without a refund, from a start with liquidity, the dead end is reached by some run if and only
      if the root chain may be handed an empty batch: the controller's policy is exactly what is needed. */
  lemma PolicyExactly(w: World, policy: bool)
    requires Start(w) && w.a.chain.pool > 0 && w.b.chain.pool > 0
    ensures (exists run :: LeadsToStuck(w, run, policy)) <==> !policy
  {
    if policy {
      forall run: seq<Event> ensures !LeadsToStuck(w, run, policy) {
        if Legal(w, run) && RootPolicy(run) {
          StartInv(w);
          PolicyNeverStuck(w, run);
        }
      }
    } else {
      var run := [OnA(Triggered(Shown(w.b.chain), [])), OnB(Triggered(Shown(w.a.chain), []))];
      StuckReachable(w);
      assert LeadsToStuck(w, run, policy);
    }
  }
}
