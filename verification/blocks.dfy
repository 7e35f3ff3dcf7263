/** ApplyTransactions of fsm/state.go over any deterministic transaction step. */
module Blocks {
  import opened Lib

  /** What applying transactions depends on. Transactions are identified with their hashes; a step returns
      the new store, the new slash tracker and the result, or fails. */
  datatype Env<!S, !K, !T, R> = Env(check: (S, T) -> bool, step: (S, K, nat, T) -> Option<(S, K, R)>, size: T -> nat, max: nat)

  /** ApplyBlockResults. */
  datatype Results<T, R> = Results(txs: seq<T>, results: seq<R>, count: nat, blockSize: nat, oversized: seq<R>, failed: seq<T>)

  datatype Abort = DuplicateTx | MaxBlockSize

  datatype Outcome<T> = Done(state: T) | Aborted(why: Abort)

  /** Between two transactions: the original store, the discarded wrapper that oversize transactions write to,
      the slash tracker, the results so far, whether the block is over size, and the hashes seen. */
  datatype State<S, K, T, R> = State(base: S, wrapper: S, tracker: K, r: Results<T, R>, oversize: bool, seen: set<T>)

  function Add<T, R>(r: Results<T, R>, tx: T, size: nat, result: R, oversize: bool): Results<T, R> {
    if oversize then r.(oversized := r.oversized + [result])
    else r.(txs := r.txs + [tx], results := r.results + [result], count := r.count + 1, blockSize := r.blockSize + size)
  }

  /** One transaction; `start` is the store against which all signatures and basic checks were made. */
  function One<S, K, T, R>(env: Env<S, K, T, R>, start: S, st: State<S, K, T, R>, tx: T, allowOversize: bool)
    : Outcome<State<S, K, T, R>>
  {
    if !env.check(start, tx) then Done(st.(r := st.r.(failed := st.r.failed + [tx])))
    else if tx in st.seen then Aborted(DuplicateTx)
    else
      var entering := env.size(tx) + st.r.blockSize > env.max && !st.oversize;
      if entering && !allowOversize then Aborted(MaxBlockSize)
      else
        var st := if entering then st.(oversize := true, wrapper := st.base) else st;
        Done(Execute(env, st.(seen := st.seen + {tx}), tx))
  }

  function Execute<S, K, T, R>(env: Env<S, K, T, R>, st: State<S, K, T, R>, tx: T): State<S, K, T, R> {
    match env.step(if st.oversize then st.wrapper else st.base, st.tracker, st.r.count, tx)
    case None => st.(r := st.r.(failed := st.r.failed + [tx]))
    case Some((store, tracker, result)) =>
      var st := if st.oversize then st.(wrapper := store) else st.(base := store);
      st.(tracker := tracker, r := Add(st.r, tx, env.size(tx), result, st.oversize))
  }

  function From<S, K, T, R>(env: Env<S, K, T, R>, start: S, st: State<S, K, T, R>, txs: seq<T>, k: nat, allowOversize: bool)
    : Outcome<State<S, K, T, R>>
    requires k <= |txs|
    decreases |txs| - k
  {
    if k == |txs| then Done(st) else
      match One(env, start, st, txs[k], allowOversize)
      case Aborted(why) => Aborted(why)
      case Done(st') => From(env, start, st', txs, k + 1, allowOversize)
  }

  function Initial<S, K, T, R>(store: S, tracker: K, r: Results<T, R>): State<S, K, T, R> {
    State(store, store, tracker, r, false, {})
  }

  /** Applying a list of transactions one after the other, none of them failing. */
  function Fold<S, K, T, R>(env: Env<S, K, T, R>, store: S, tracker: K, index: nat, txs: seq<T>): Option<(S, K, seq<R>)>
    decreases |txs|
  {
    if txs == [] then Some((store, tracker, [])) else
      match env.step(store, tracker, index, txs[0])
      case None => None
      case Some((store', tracker', result)) =>
        match Fold(env, store', tracker', index + 1, txs[1..])
        case None => None
        case Some((s, t, results)) => Some((s, t, [result] + results))
  }

  /** The state machine whose store and slash tracker the transactions change. */
  class StateMachine<S(==), K, T(==), R> {
    var store: S
    var slashTracker: K

    constructor (store: S, tracker: K)
      ensures this.store == store && slashTracker == tracker
    {
      this.store, slashTracker := store, tracker;
    }

    method ApplyTransactions(env: Env<S, K, T, R>, txs: seq<T>, r: Results<T, R>, allowOversize: bool)
      returns (out: Outcome<Results<T, R>>)
      modifies this
      ensures match From(env, old(store), Initial(old(store), old(slashTracker), r), txs, 0, allowOversize)
              case Done(st) => out == Done(st.r) && store == st.base && slashTracker == st.tracker
              case Aborted(why) => out == Aborted(why)
    {
      var failedChecks: set<nat> := {};
      for i := 0 to |txs|
        invariant forall j :: j in failedChecks <==> 0 <= j < i && !env.check(store, txs[j])
        invariant store == old(store) && slashTracker == old(slashTracker)
      {
        if !env.check(store, txs[i]) {
          failedChecks := failedChecks + {i};
        }
      }
      var original, oversize, seen, r := store, false, {}, r;
      ghost var start := Initial(old(store), old(slashTracker), r);
      for i := 0 to |txs|
        invariant !oversize ==> store == original
        invariant exists w :: From(env, old(store), start, txs, 0, allowOversize)
                           == From(env, old(store), State(original, w, slashTracker, r, oversize, seen), txs, i, allowOversize)
                              && (oversize ==> w == store)
      {
        ghost var w :| From(env, old(store), start, txs, 0, allowOversize)
                       == From(env, old(store), State(original, w, slashTracker, r, oversize, seen), txs, i, allowOversize)
                       && (oversize ==> w == store);
        var tx := txs[i];
        if i in failedChecks {
          r := r.(failed := r.failed + [tx]);
          assert From(env, old(store), start, txs, 0, allowOversize)
              == From(env, old(store), State(original, w, slashTracker, r, oversize, seen), txs, i + 1, allowOversize);
        } else {
          if tx in seen { return Aborted(DuplicateTx); }
          seen := seen + {tx};
          if env.size(tx) + r.blockSize > env.max && !oversize {
            if !allowOversize { return Aborted(MaxBlockSize); }
            oversize := true;
            w := original;
          }
          var current := store;
          var result := env.step(store, slashTracker, r.count, tx);
          if result.None? {
            r := r.(failed := r.failed + [tx]);
            store := current;
          } else {
            store, slashTracker := result.value.0, result.value.1;
            if !oversize {
              original := store;
            } else {
              w := store;
            }
            r := Add(r, tx, env.size(tx), result.value.2, oversize);
          }
          assert From(env, old(store), start, txs, 0, allowOversize)
              == From(env, old(store), State(original, w, slashTracker, r, oversize, seen), txs, i + 1, allowOversize);
        }
      }
      store := original;
      return Done(r);
    }
  }

  // ---- Filtered replays --------------------------------------------------

  /** Two states that agree on everything a later transaction of the block can depend on. */
  predicate SameBlock<S(==), K(==), T(==), R(==)>(a: State<S, K, T, R>, b: State<S, K, T, R>) {
    && !a.oversize && !b.oversize
    && a.base == b.base && a.tracker == b.tracker
    && a.r.txs == b.r.txs && a.r.results == b.r.results && a.r.count == b.r.count && a.r.blockSize == b.r.blockSize
    && b.seen <= a.seen
  }

  /** Once over size, the block, its results and the original store no longer change. */
  lemma {:induction false} OversizeKeepsBlock<S, K, T, R>(env: Env<S, K, T, R>, start: S, st: State<S, K, T, R>, txs: seq<T>, k: nat)
    requires k <= |txs| && st.oversize && From(env, start, st, txs, k, true).Done?
    ensures var end := From(env, start, st, txs, k, true).state;
            && end.base == st.base && end.oversize
            && end.r.txs == st.r.txs && end.r.results == st.r.results
            && end.r.count == st.r.count && end.r.blockSize == st.r.blockSize
    decreases |txs| - k
  {
    if k < |txs| {
      OversizeKeepsBlock(env, start, One(env, start, st, txs[k], true).state, txs, k + 1);
    }
  }

  lemma {:induction false} BlockGrows<S, K, T, R>(env: Env<S, K, T, R>, start: S, st: State<S, K, T, R>, txs: seq<T>, k: nat)
    requires k <= |txs| && From(env, start, st, txs, k, true).Done?
    ensures st.r.txs <= From(env, start, st, txs, k, true).state.r.txs
    decreases |txs| - k
  {
    if k < |txs| {
      BlockGrows(env, start, One(env, start, st, txs[k], true).state, txs, k + 1);
    }
  }

  /** The replay of what the rest of the list contributes to the block follows the filtering run. */
  lemma {:induction false} ReplayFollows<S, K, T, R>(env: Env<S, K, T, R>, start: S, st: State<S, K, T, R>, txs: seq<T>, k: nat,
                                                     replay: State<S, K, T, R>, kept: seq<T>, j: nat)
    requires k <= |txs| && SameBlock(st, replay) && From(env, start, st, txs, k, true).Done?
    requires var end := From(env, start, st, txs, k, true).state;
             st.r.txs <= end.r.txs && j <= |kept| && kept[j..] == end.r.txs[|st.r.txs|..]
    ensures var end := From(env, start, st, txs, k, true).state;
            var again := From(env, start, replay, kept, j, false);
            && again.Done? && !again.state.oversize
            && again.state.base == end.base
            && again.state.r.txs == end.r.txs && again.state.r.results == end.r.results
            && again.state.r.count == end.r.count && again.state.r.blockSize == end.r.blockSize
            && again.state.r.failed == replay.r.failed && again.state.r.oversized == replay.r.oversized
            && (!end.oversize ==> again.state.tracker == end.tracker)
    decreases |txs| - k
  {
    if k == |txs| {
      assert kept[j..] == [];
    } else {
      var tx := txs[k];
      var st' := One(env, start, st, tx, true).state;
      if st'.oversize {
        OversizeKeepsBlock(env, start, st', txs, k + 1);
        assert kept[j..] == [];
      } else if st'.r.txs == st.r.txs {
        ReplayFollows(env, start, st', txs, k + 1, replay, kept, j);
      } else {
        ReplayTakes(env, start, st, txs, k, replay, kept, j);
        ReplayFollows(env, start, st', txs, k + 1, One(env, start, replay, tx, false).state, kept, j + 1);
      }
    }
  }

  lemma {:induction false} ReplayTakes<S, K, T, R>(env: Env<S, K, T, R>, start: S, st: State<S, K, T, R>, txs: seq<T>, k: nat,
                                replay: State<S, K, T, R>, kept: seq<T>, j: nat)
    requires k < |txs| && SameBlock(st, replay) && From(env, start, st, txs, k, true).Done?
    requires var st' := One(env, start, st, txs[k], true).state; !st'.oversize && st'.r.txs != st.r.txs
    requires var end := From(env, start, st, txs, k, true).state;
             st.r.txs <= end.r.txs && j <= |kept| && kept[j..] == end.r.txs[|st.r.txs|..]
    ensures var st', end := One(env, start, st, txs[k], true).state, From(env, start, st, txs, k, true).state;
            && j < |kept| && kept[j] == txs[k]
            && st'.r.txs <= end.r.txs && kept[j + 1..] == end.r.txs[|st'.r.txs|..]
            && var replayed := One(env, start, replay, txs[k], false);
               && replayed.Done? && SameBlock(st', replayed.state)
               && replayed.state.r.failed == replay.r.failed && replayed.state.r.oversized == replay.r.oversized
  {
    var st' := One(env, start, st, txs[k], true).state;
    var end := From(env, start, st, txs, k, true).state;
    BlockGrows(env, start, st', txs, k + 1);
    assert st'.r.txs == st.r.txs + [txs[k]];
    assert end.r.txs[|st.r.txs|] == txs[k];
    assert kept[j] == kept[j..][0];
    assert kept[j + 1..] == kept[j..][1..];
  }

  /** Filtered block replays. If a run that may go over size completes, then applying just the transactions
      it kept, from the same store and without allowing over size, completes too, fails none of them, and
      gives the same store, results, indexes and size; and the same slash tracker unless the first run went
      over size. */
  lemma {:induction false} KeptReplays<S, K, T, R>(env: Env<S, K, T, R>, store: S, tracker: K, r: Results<T, R>, txs: seq<T>)
    requires From(env, store, Initial(store, tracker, r), txs, 0, true).Done?
    requires r.txs == []
    ensures var end := From(env, store, Initial(store, tracker, r), txs, 0, true).state;
            var again := From(env, store, Initial(store, tracker, r), end.r.txs, 0, false);
            && again.Done?
            && again.state.base == end.base
            && again.state.r == end.r.(failed := r.failed, oversized := r.oversized)
            && (!end.oversize ==> again.state.tracker == end.tracker)
  {
    var st := Initial(store, tracker, r);
    var kept := From(env, store, st, txs, 0, true).state.r.txs;
    assert kept[0..] == kept && kept[|st.r.txs|..] == kept;
    ReplayFollows(env, store, st, txs, 0, st, kept, 0);
  }

  /** And what a completed strict run without failures computes is the plain fold of the step: failed and
      over-size transactions leave no trace in the store. */
  lemma {:induction false} StrictIsFold<S, K, T, R>(env: Env<S, K, T, R>, start: S, st: State<S, K, T, R>, txs: seq<T>, k: nat)
    requires k <= |txs| && !st.oversize && From(env, start, st, txs, k, false).Done?
    requires From(env, start, st, txs, k, false).state.r.failed == st.r.failed
    ensures var end := From(env, start, st, txs, k, false).state;
            var fold := Fold(env, st.base, st.tracker, st.r.count, txs[k..]);
            && fold.Some? && end.base == fold.value.0 && end.tracker == fold.value.1
            && end.r.results == st.r.results + fold.value.2
    decreases |txs| - k
  {
    if k < |txs| {
      var st' := One(env, start, st, txs[k], false).state;
      FailuresGrow(env, start, st', txs, k + 1);
      assert txs[k..][0] == txs[k] && txs[k..][1..] == txs[k + 1..];
      StrictIsFold(env, start, st', txs, k + 1);
    }
  }

  /** Conversely, transactions that pass their checks, fit, and can be applied one after the other are all kept. */
  lemma {:induction false} FoldIsKept<S, K, T, R>(env: Env<S, K, T, R>, start: S, st: State<S, K, T, R>, txs: seq<T>, k: nat)
    requires k <= |txs| && !st.oversize && From(env, start, st, txs, k, false).Done?
    requires forall j | k <= j < |txs| :: env.check(start, txs[j])
    requires Fold(env, st.base, st.tracker, st.r.count, txs[k..]).Some?
    ensures var end := From(env, start, st, txs, k, false).state;
            end.r.txs == st.r.txs + txs[k..] && end.r.failed == st.r.failed
    decreases |txs| - k
  {
    if k < |txs| {
      assert txs[k..][0] == txs[k] && txs[k..][1..] == txs[k + 1..];
      FoldIsKept(env, start, One(env, start, st, txs[k], false).state, txs, k + 1);
    }
  }

  lemma {:induction false} FailuresGrow<S, K, T, R>(env: Env<S, K, T, R>, start: S, st: State<S, K, T, R>, txs: seq<T>, k: nat)
    requires k <= |txs| && From(env, start, st, txs, k, false).Done?
    ensures |st.r.failed| <= |From(env, start, st, txs, k, false).state.r.failed|
    decreases |txs| - k
  {
    if k < |txs| {
      FailuresGrow(env, start, One(env, start, st, txs[k], false).state, txs, k + 1);
    }
  }

  lemma {:induction false} MempoolStoreIsFold<S, K, T, R>(env: Env<S, K, T, R>, store: S, tracker: K, r: Results<T, R>, txs: seq<T>)
    requires From(env, store, Initial(store, tracker, r), txs, 0, true).Done?
    requires r.txs == []
    ensures var end := From(env, store, Initial(store, tracker, r), txs, 0, true).state;
            var fold := Fold(env, store, tracker, r.count, end.r.txs);
            fold.Some? && end.base == fold.value.0 && end.r.results == r.results + fold.value.2
  {
    KeptReplays(env, store, tracker, r, txs);
    var kept := From(env, store, Initial(store, tracker, r), txs, 0, true).state.r.txs;
    assert kept[0..] == kept;
    StrictIsFold(env, store, Initial(store, tracker, r), kept, 0);
  }

  // ---- What does not fit --------------------------------------------------

  /** Transactions run one after the other on top of a store, those that fail their check or their step left out; they all
      have the index of the next transaction of the block. */
  function Beyond<S, K, T, R>(env: Env<S, K, T, R>, start: S, store: S, tracker: K, index: nat, txs: seq<T>, k: nat): seq<R>
    requires k <= |txs|
    decreases |txs| - k
  {
    if k == |txs| then []
    else if !env.check(start, txs[k]) then Beyond(env, start, store, tracker, index, txs, k + 1)
    else
      match env.step(store, tracker, index, txs[k])
      case None => Beyond(env, start, store, tracker, index, txs, k + 1)
      case Some((store', tracker', result)) => [result] + Beyond(env, start, store', tracker', index, txs, k + 1)
  }

  lemma {:induction false} OversizeRunsBeyond<S, K, T, R>(env: Env<S, K, T, R>, start: S, st: State<S, K, T, R>, txs: seq<T>, k: nat)
    requires k <= |txs| && st.oversize && From(env, start, st, txs, k, true).Done?
    ensures From(env, start, st, txs, k, true).state.r.oversized
            == st.r.oversized + Beyond(env, start, st.wrapper, st.tracker, st.r.count, txs, k)
    decreases |txs| - k
  {
    if k < |txs| {
      var st' := One(env, start, st, txs[k], true).state;
      OversizeRunsBeyond(env, start, st', txs, k + 1);
    }
  }

  ghost predicate RunsOnBlock<S, K, T, R>(env: Env<S, K, T, R>, start: S, before: seq<R>, end: State<S, K, T, R>, txs: seq<T>,
                                          m: nat, tracker: K) {
    m < |txs| && end.r.oversized == before + Beyond(env, start, end.base, tracker, end.r.count, txs, m)
  }

  /** What does not fit is run on top of the finished block, from the first transaction that does not fit onwards. */
  lemma {:induction false} OverflowRunsOnBlock<S, K, T, R>(env: Env<S, K, T, R>, start: S, st: State<S, K, T, R>, txs: seq<T>, k: nat)
    returns (m: nat, tracker: K)
    requires k <= |txs| && !st.oversize && From(env, start, st, txs, k, true).Done?
    requires From(env, start, st, txs, k, true).state.oversize
    ensures RunsOnBlock(env, start, st.r.oversized, From(env, start, st, txs, k, true).state, txs, m, tracker)
    decreases |txs| - k
  {
    var st' := One(env, start, st, txs[k], true).state;
    if st'.oversize {
      m, tracker := k, st.tracker;
      OversizeKeepsBlock(env, start, st', txs, k + 1);
      OversizeRunsBeyond(env, start, st', txs, k + 1);
    } else {
      m, tracker := OverflowRunsOnBlock(env, start, st', txs, k + 1);
    }
  }

  // ---- When the tracker agrees -------------------------------------------

  function CheckedSize<S, K, T, R>(env: Env<S, K, T, R>, start: S, txs: seq<T>, k: nat): nat
    requires k <= |txs|
    decreases |txs| - k
  {
    if k == |txs| then 0
    else (if env.check(start, txs[k]) then env.size(txs[k]) else 0) + CheckedSize(env, start, txs, k + 1)
  }

  /** Some transaction from the k-th on passes its check, and those that do are too many for the block. */
  predicate Over<S, K, T, R>(env: Env<S, K, T, R>, start: S, blockSize: nat, txs: seq<T>, k: nat)
    requires k <= |txs|
  {
    (exists j | k <= j < |txs| :: env.check(start, txs[j])) && blockSize + CheckedSize(env, start, txs, k) > env.max
  }

  predicate CheckedDistinct<S, K, T(==), R>(env: Env<S, K, T, R>, start: S, txs: seq<T>) {
    forall i, j | 0 <= i < j < |txs| :: env.check(start, txs[i]) && env.check(start, txs[j]) ==> txs[i] != txs[j]
  }

  /** Nothing that is still to come has been seen. */
  predicate Unseen<S, K, T(==), R>(env: Env<S, K, T, R>, start: S, seen: set<T>, txs: seq<T>, k: nat) {
    forall j | k <= j < |txs| :: env.check(start, txs[j]) ==> txs[j] !in seen
  }

  lemma {:induction false} Completes<S, K, T, R>(env: Env<S, K, T, R>, start: S, st: State<S, K, T, R>, txs: seq<T>, k: nat)
    requires k <= |txs| && CheckedDistinct(env, start, txs) && Unseen(env, start, st.seen, txs, k)
    ensures From(env, start, st, txs, k, true).Done?
    decreases |txs| - k
  {
    if k < |txs| {
      Completes(env, start, One(env, start, st, txs[k], true).state, txs, k + 1);
    }
  }

  /** And a completed run has met no checked transaction twice. */
  lemma {:induction false} DoneIsDistinct<S, K, T, R>(env: Env<S, K, T, R>, start: S, st: State<S, K, T, R>, txs: seq<T>, k: nat,
                                                      allowOversize: bool)
    requires k <= |txs| && From(env, start, st, txs, k, allowOversize).Done?
    ensures Unseen(env, start, st.seen, txs, k)
    ensures forall i, j | k <= i < j < |txs| :: env.check(start, txs[i]) && env.check(start, txs[j]) ==> txs[i] != txs[j]
    decreases |txs| - k
  {
    if k < |txs| {
      DoneIsDistinct(env, start, One(env, start, st, txs[k], allowOversize).state, txs, k + 1, allowOversize);
    }
  }

  /** A mempool run completes if and only if no transaction that passes its check is listed twice. */
  lemma {:induction false} CompletesExactly<S, K, T, R>(env: Env<S, K, T, R>, store: S, tracker: K, r: Results<T, R>, txs: seq<T>)
    ensures From(env, store, Initial(store, tracker, r), txs, 0, true).Done? <==> CheckedDistinct(env, store, txs)
  {
    if From(env, store, Initial(store, tracker, r), txs, 0, true).Done? {
      DoneIsDistinct(env, store, Initial(store, tracker, r), txs, 0, true);
    } else if CheckedDistinct(env, store, txs) {
      Completes(env, store, Initial(store, tracker, r), txs, 0);
    }
  }

  function Sizes<S, K, T, R>(env: Env<S, K, T, R>, txs: seq<T>): nat {
    if txs == [] then 0 else Sizes(env, txs[..|txs| - 1]) + env.size(txs[|txs| - 1])
  }

  /** From the k-th transaction on, none that passes its check exceeds the room left by those kept before it. */
  predicate Room<S, K, T(==), R>(env: Env<S, K, T, R>, start: S, base: nat, st: State<S, K, T, R>, txs: seq<T>, k: nat)
    requires k <= |txs|
    decreases |txs| - k
  {
    k == |txs| || (&& (env.check(start, txs[k]) ==> base + Sizes(env, st.r.txs) + env.size(txs[k]) <= env.max)
                   && match One(env, start, st, txs[k], true)
                      case Done(st') => Room(env, start, base, st', txs, k + 1)
                      case Aborted(_) => true)
  }

  lemma {:induction false} StrictFits<S, K, T, R>(env: Env<S, K, T, R>, start: S, base: nat, st: State<S, K, T, R>, txs: seq<T>, k: nat)
    requires k <= |txs| && !st.oversize && st.r.blockSize == base + Sizes(env, st.r.txs)
    requires From(env, start, st, txs, k, true).Done?
    ensures From(env, start, st, txs, k, false).Done? <==> Room(env, start, base, st, txs, k)
    decreases |txs| - k
  {
    if k < |txs| && One(env, start, st, txs[k], false).Done? {
      var st' := One(env, start, st, txs[k], true).state;
      assert One(env, start, st, txs[k], false) == One(env, start, st, txs[k], true);
      assert (st.r.txs + [txs[k]])[..|st.r.txs|] == st.r.txs;
      StrictFits(env, start, base, st', txs, k + 1);
    }
  }

  lemma {:induction false} StrictIsLenient<S, K, T, R>(env: Env<S, K, T, R>, start: S, st: State<S, K, T, R>, txs: seq<T>, k: nat)
    requires k <= |txs| && !st.oversize && From(env, start, st, txs, k, false).Done?
    ensures From(env, start, st, txs, k, true) == From(env, start, st, txs, k, false)
    decreases |txs| - k
  {
    if k < |txs| {
      StrictIsLenient(env, start, One(env, start, st, txs[k], false).state, txs, k + 1);
    }
  }

  /** A block is accepted if and only if no transaction that passes its check is listed twice, and none of them exceeds
      the room left by those kept before it. */
  lemma {:induction false} StrictCompletesExactly<S, K, T, R>(env: Env<S, K, T, R>, store: S, tracker: K, r: Results<T, R>, txs: seq<T>)
    requires r.txs == []
    ensures From(env, store, Initial(store, tracker, r), txs, 0, false).Done? <==>
            CheckedDistinct(env, store, txs) && Room(env, store, r.blockSize, Initial(store, tracker, r), txs, 0)
  {
    var st := Initial(store, tracker, r);
    CompletesExactly(env, store, tracker, r, txs);
    if From(env, store, st, txs, 0, false).Done? { StrictIsLenient(env, store, st, txs, 0); }
    if CheckedDistinct(env, store, txs) { StrictFits(env, store, r.blockSize, st, txs, 0); }
  }

  /** What has become of the transactions so far: the kept ones passed their check and are distinct, and fill the
      block; each transaction is kept, has failed, or was over size. */
  ghost predicate Disposed<S, K, T, R>(env: Env<S, K, T, R>, start: S, r: Results<T, R>, st: State<S, K, T, R>) {
    && (forall i, j | 0 <= i < j < |st.r.txs| :: st.r.txs[i] != st.r.txs[j])
    && (forall t | t in st.r.txs :: env.check(start, t) && t in st.seen)
    && st.r.blockSize == r.blockSize + Sizes(env, st.r.txs)
    && st.r.count == r.count + |st.r.txs| && |st.r.results| == |r.results| + |st.r.txs|
    && (st.r.txs != [] ==> st.r.blockSize <= env.max)
  }

  /** Keeping one more transaction, which was not seen before. */
  lemma OneKept<S, K, T, R>(env: Env<S, K, T, R>, start: S, r: Results<T, R>, st: State<S, K, T, R>, st': State<S, K, T, R>,
                              tx: T, result: R)
    requires Disposed(env, start, r, st) && env.check(start, tx) && tx !in st.seen && st.r.blockSize + env.size(tx) <= env.max
    requires st'.seen == st.seen + {tx} && st'.r == Add(st.r, tx, env.size(tx), result, false)
    ensures Disposed(env, start, r, st')
  {
    assert (st.r.txs + [tx])[..|st.r.txs|] == st.r.txs;
  }

  lemma OneDisposes<S, K, T, R>(env: Env<S, K, T, R>, start: S, r: Results<T, R>, st: State<S, K, T, R>, tx: T, allowOversize: bool)
    requires Disposed(env, start, r, st) && One(env, start, st, tx, allowOversize).Done?
    ensures var st' := One(env, start, st, tx, allowOversize).state;
            && Disposed(env, start, r, st')
            && Accounts(st, st', 1)
            && (!env.check(start, tx) ==> tx in st'.r.failed)
  {
    var st' := One(env, start, st, tx, allowOversize).state;
    if !env.check(start, tx) {
      assert st'.r.failed[|st.r.failed|] == tx;
    } else if st'.r.txs != st.r.txs {
      OneKept(env, start, r, st, st', tx, env.step(st.base, st.tracker, st.r.count, tx).value.2);
    }
  }

  /** n more transactions are accounted for; nothing is over size before the run is. */
  predicate Accounts<S, K, T(==), R(==)>(st: State<S, K, T, R>, st': State<S, K, T, R>, n: nat) {
    && |st'.r.txs| + |st'.r.failed| + |st'.r.oversized| == |st.r.txs| + |st.r.failed| + |st.r.oversized| + n
    && st.r.failed <= st'.r.failed
    && (!st'.oversize ==> !st.oversize && st'.r.oversized == st.r.oversized)
  }

  lemma {:induction false} RunDisposes<S, K, T, R>(env: Env<S, K, T, R>, start: S, r: Results<T, R>, st: State<S, K, T, R>,
                                                   txs: seq<T>, k: nat, allowOversize: bool)
    requires k <= |txs| && Disposed(env, start, r, st) && From(env, start, st, txs, k, allowOversize).Done?
    ensures var end := From(env, start, st, txs, k, allowOversize).state;
            && Disposed(env, start, r, end) && Accounts(st, end, |txs| - k)
            && (forall j | k <= j < |txs| && !env.check(start, txs[j]) :: txs[j] in end.r.failed)
    decreases |txs| - k
  {
    if k < |txs| {
      OneDisposes(env, start, r, st, txs[k], allowOversize);
      RunDisposes(env, start, r, One(env, start, st, txs[k], allowOversize).state, txs, k + 1, allowOversize);
    }
  }

  /** The block of a completed run, strict or not: no transaction twice, each passed its check, their sizes within the
      maximum; indexes and results one apiece; and what is not in the block has failed or was over size, the
      transactions that fail their check among them. */
  lemma {:induction false} BlockIsSound<S, K, T, R>(env: Env<S, K, T, R>, store: S, tracker: K, r: Results<T, R>, txs: seq<T>,
                                                    allowOversize: bool)
    requires r.txs == [] && From(env, store, Initial(store, tracker, r), txs, 0, allowOversize).Done?
    ensures var end := From(env, store, Initial(store, tracker, r), txs, 0, allowOversize).state;
            && Disposed(env, store, r, end)
            && |end.r.txs| + |end.r.failed| + |end.r.oversized| == |r.failed| + |r.oversized| + |txs|
            && (forall t | t in txs && !env.check(store, t) :: t in end.r.failed)
            && (!end.oversize ==> end.r.oversized == r.oversized)
  {
    RunDisposes(env, store, r, Initial(store, tracker, r), txs, 0, allowOversize);
  }

  lemma {:induction false} NeverOversize<S, K, T, R>(env: Env<S, K, T, R>, start: S, st: State<S, K, T, R>, txs: seq<T>, k: nat)
    requires k <= |txs| && !st.oversize && From(env, start, st, txs, k, true).Done?
    requires !Over(env, start, st.r.blockSize, txs, k)
    ensures !From(env, start, st, txs, k, true).state.oversize
    decreases |txs| - k
  {
    if k < |txs| {
      assert env.check(start, txs[k]) ==> env.size(txs[k]) + st.r.blockSize <= env.max;
      NeverOversize(env, start, One(env, start, st, txs[k], true).state, txs, k + 1);
    }
  }

  /** Transaction m is the first over-size one of a run whose steps all succeed. */
  predicate FirstOver<S, K, T, R>(env: Env<S, K, T, R>, start: S, blockSize: nat, txs: seq<T>, k: nat, m: nat)
    requires k <= m < |txs|
    decreases m - k
  {
    if k == m then env.check(start, txs[m]) && env.size(txs[m]) + blockSize > env.max
    else if !env.check(start, txs[k]) then FirstOver(env, start, blockSize, txs, k + 1, m)
    else env.size(txs[k]) + blockSize <= env.max && FirstOver(env, start, blockSize + env.size(txs[k]), txs, k + 1, m)
  }

  lemma {:induction false} NoneChecked<S, K, T, R>(env: Env<S, K, T, R>, start: S, txs: seq<T>, k: nat)
    requires k <= |txs| && forall j | k <= j < |txs| :: !env.check(start, txs[j])
    ensures CheckedSize(env, start, txs, k) == 0
    decreases |txs| - k
  {
    if k < |txs| { NoneChecked(env, start, txs, k + 1); }
  }

  lemma {:induction false} FindOver<S, K, T, R>(env: Env<S, K, T, R>, start: S, blockSize: nat, txs: seq<T>, k: nat) returns (m: nat)
    requires k <= |txs| && Over(env, start, blockSize, txs, k)
    ensures k <= m < |txs| && FirstOver(env, start, blockSize, txs, k, m)
    decreases |txs| - k
  {
    if !env.check(start, txs[k]) {
      m := FindOver(env, start, blockSize, txs, k + 1);
    } else if env.size(txs[k]) + blockSize > env.max {
      m := k;
    } else {
      if forall j | k + 1 <= j < |txs| :: !env.check(start, txs[j]) { NoneChecked(env, start, txs, k + 1); }
      m := FindOver(env, start, blockSize + env.size(txs[k]), txs, k + 1);
    }
  }

  function WithStep<S, K, T, R>(env: Env<S, K, T, R>, step: (S, K, nat, T) -> Option<(S, K, R)>): Env<S, K, T, R> {
    env.(step := step)
  }

  /** A step that always succeeds, and marks the tracker when it is given x. */
  function Marking<S, K, T(==), R>(env: Env<S, K, T, R>, x: T, mark: K, result: R): Env<S, K, T, R> {
    WithStep(env, (s, k, i, t) => Some((s, if t == x then mark else k, result)))
  }

  lemma {:induction false} MarkStays<S, K, T, R>(env: Env<S, K, T, R>, x: T, mark: K, result: R, start: S, st: State<S, K, T, R>,
                                                 txs: seq<T>, k: nat, allowOversize: bool)
    requires k <= |txs| && From(Marking(env, x, mark, result), start, st, txs, k, allowOversize).Done?
    requires x in txs[k..] ==> st.tracker == mark
    ensures From(Marking(env, x, mark, result), start, st, txs, k, allowOversize).state.tracker == st.tracker
    decreases |txs| - k
  {
    if k < |txs| {
      assert txs[k] in txs[k..] && forall t | t in txs[k + 1..] :: t in txs[k..];
      MarkStays(env, x, mark, result, start, One(Marking(env, x, mark, result), start, st, txs[k], allowOversize).state,
                txs, k + 1, allowOversize);
    }
  }

  /** The first over-size transaction marks the tracker and is not kept. */
  lemma {:induction false} OversizeMarks<S, K, T, R>(env: Env<S, K, T, R>, m: nat, mark: K, result: R, start: S,
                                                     st: State<S, K, T, R>, txs: seq<T>, k: nat)
    requires k <= m < |txs| && FirstOver(env, start, st.r.blockSize, txs, k, m) && CheckedDistinct(env, start, txs)
    requires From(Marking(env, txs[m], mark, result), start, st, txs, k, true).Done?
    requires !st.oversize && txs[m] !in st.r.txs
    ensures var end := From(Marking(env, txs[m], mark, result), start, st, txs, k, true).state;
            end.tracker == mark && txs[m] !in end.r.txs
    decreases m - k
  {
    var marking := Marking(env, txs[m], mark, result);
    var st' := One(marking, start, st, txs[k], true).state;
    if k == m {
      OversizeKeepsBlock(marking, start, st', txs, k + 1);
      MarkStays(env, txs[m], mark, result, start, st', txs, k + 1, true);
    } else {
      OversizeMarks(env, m, mark, result, start, st', txs, k + 1);
    }
  }

  /** The run that may go over size completes, and leaves the tracker its replay leaves. */
  predicate TrackerAgrees<S, K(==), T(==), R>(env: Env<S, K, T, R>, store: S, tracker: K, r: Results<T, R>, txs: seq<T>) {
    var out := From(env, store, Initial(store, tracker, r), txs, 0, true);
    && out.Done?
    && var again := From(env, store, Initial(store, tracker, r), out.state.r.txs, 0, false);
       again.Done? && again.state.tracker == out.state.tracker
  }

  ghost predicate AlwaysAgrees<S(!new), K(!new), T(!new), R(!new)>(env: Env<S, K, T, R>, store: S, r: Results<T, R>, txs: seq<T>) {
    forall step: (S, K, nat, T) -> Option<(S, K, R)>, tracker: K :: TrackerAgrees(WithStep(env, step), store, tracker, r, txs)
  }

  /** A list that fits never goes over size. */
  lemma FittingAgrees<S, K, T, R>(env: Env<S, K, T, R>, store: S, tracker: K, r: Results<T, R>, txs: seq<T>)
    requires r.txs == [] && CheckedDistinct(env, store, txs) && !Over(env, store, r.blockSize, txs, 0)
    ensures TrackerAgrees(env, store, tracker, r, txs)
  {
    var st := Initial(store, tracker, r);
    Completes(env, store, st, txs, 0);
    NeverOversize(env, store, st, txs, 0);
    KeptReplays(env, store, tracker, r, txs);
  }

  /** One that does not fit leaves a mark its replay does not leave. */
  lemma {:induction false} OverDisagrees<S, K, T, R>(env: Env<S, K, T, R>, store: S, r: Results<T, R>, txs: seq<T>, m: nat,
                                                     clear: K, mark: K, result: R)
    requires r.txs == [] && CheckedDistinct(env, store, txs) && clear != mark
    requires m < |txs| && FirstOver(env, store, r.blockSize, txs, 0, m)
    ensures !TrackerAgrees(Marking(env, txs[m], mark, result), store, clear, r, txs)
  {
    var marking, st := Marking(env, txs[m], mark, result), Initial(store, clear, r);
    assert CheckedDistinct(marking, store, txs);
    Completes(marking, store, st, txs, 0);
    OversizeMarks(env, m, mark, result, store, st, txs, 0);
    KeptReplays(marking, store, clear, r, txs);
    var kept := From(marking, store, st, txs, 0, true).state.r.txs;
    MarkStays(env, txs[m], mark, result, store, st, kept, 0, false);
  }

  lemma {:induction false} SizeUnderAnyStep<S, K, T, R>(env: Env<S, K, T, R>, step: (S, K, nat, T) -> Option<(S, K, R)>,
                                                        start: S, txs: seq<T>, k: nat)
    requires k <= |txs|
    ensures CheckedSize(WithStep(env, step), start, txs, k) == CheckedSize(env, start, txs, k)
    decreases |txs| - k
  {
    if k < |txs| { SizeUnderAnyStep(env, step, start, txs, k + 1); }
  }

  lemma FitsUnderAnyStep<S, K, T, R>(env: Env<S, K, T, R>, step: (S, K, nat, T) -> Option<(S, K, R)>,
                                     store: S, r: Results<T, R>, txs: seq<T>)
    requires CheckedDistinct(env, store, txs)
    ensures CheckedDistinct(WithStep(env, step), store, txs)
    ensures Over(WithStep(env, step), store, r.blockSize, txs, 0) <==> Over(env, store, r.blockSize, txs, 0)
  {
    SizeUnderAnyStep(env, step, store, txs, 0);
  }

  /** Exactly when a mempool run and the replay of what it kept agree on the slash tracker: for every step
      function and every tracker, if and only if the transactions that pass the check fit into the block. (A
      tracker has at least two values; a list with a repeated transaction is refused as a duplicate.) */
  lemma TrackerExact<S(!new), K(!new), T(!new), R(!new)>(env: Env<S, K, T, R>, store: S, r: Results<T, R>, txs: seq<T>,
                                                         clear: K, mark: K, result: R)
    requires r.txs == [] && CheckedDistinct(env, store, txs) && clear != mark
    ensures AlwaysAgrees(env, store, r, txs) <==> !Over(env, store, r.blockSize, txs, 0)
  {
    if Over(env, store, r.blockSize, txs, 0) {
      var m := FindOver(env, store, r.blockSize, txs, 0);
      OverDisagrees(env, store, r, txs, m, clear, mark, result);
      assert !TrackerAgrees(WithStep(env, Marking(env, txs[m], mark, result).step), store, clear, r, txs);
    } else {
      forall step: (S, K, nat, T) -> Option<(S, K, R)>, tracker: K
        ensures TrackerAgrees(WithStep(env, step), store, tracker, r, txs)
      {
        FitsUnderAnyStep(env, step, store, r, txs);
        FittingAgrees(WithStep(env, step), store, tracker, r, txs);
      }
    }
  }

  /** For instance: with two transactions of size 1, room for one, and a step that counts in the
      tracker, the over-size transaction stays counted although it left no trace in the store. */
  lemma OversizeLeaksIntoTracker()
    ensures var env: Env<nat, nat, nat, nat> := Env((s, t) => true, (s, k, i, t) => Some((s + 1, k + 1, i)), t => 1, 1);
            var end := From(env, 0, Initial(0, 0, Results([], [], 0, 0, [], [])), [7, 8], 0, true);
            && end.Done? && end.state.r.txs == [7] && end.state.base == 1
            && Fold(env, 0, 0, 0, [7]) == Some((1, 1, [0])) && end.state.tracker == 2
  {
    var env: Env<nat, nat, nat, nat> := Env((s, t) => true, (s, k, i, t) => Some((s + 1, k + 1, i)), t => 1, 1);
    var st := Initial<nat, nat, nat, nat>(0, 0, Results([], [], 0, 0, [], []));
    var st1 := One(env, 0, st, 7, true).state;
    assert st1 == State(1, 0, 1, Results([7], [0], 1, 1, [], []), false, {7});
    var st2 := One(env, 0, st1, 8, true).state;
    assert st2.tracker == 2 && st2.base == 1 && st2.r.txs == [7];
    assert From(env, 0, st2, [7, 8], 2, true) == Done(st2);
    assert From(env, 0, st1, [7, 8], 1, true) == Done(st2);
    assert Fold(env, 1, 1, 1, [7][1..]) == Some((1, 1, []));
    assert env.step(0, 0, 0, 7) == Some((1, 1, 0));
    assert [0] + [] == [0];
  }
}
