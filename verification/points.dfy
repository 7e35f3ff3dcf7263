/** Pool.AddPoints and Pool.RemovePoints (fsm/account.go): the liquidity points of a pool. */
module Points {
  import opened Lib

  type Address = nat

  const MAX_LIQUIDITY_PROVIDERS: nat := 50_000

  datatype LP = LP(addr: Address, points: nat)

  /** The holders in list order, and the total that is kept beside them by hand. */
  datatype Shares = Shares(holders: seq<LP>, total: nat)

  /** The position of the first entry of an address, or the length of the list. */
  function IndexOf(h: seq<LP>, a: Address): (r: nat)
    ensures r <= |h|
    ensures r < |h| ==> h[r].addr == a
    ensures forall j | 0 <= j < r :: h[j].addr != a
  {
    if h == [] then 0 else if h[0].addr == a then 0 else 1 + IndexOf(h[1..], a)
  }

  function PointsFor(s: Shares, a: Address): Option<nat> {
    var i := IndexOf(s.holders, a);
    if i < |s.holders| then Some(s.holders[i].points) else None
  }

  function Added(s: Shares, a: Address, n: nat): Result<Shares> {
    var i := IndexOf(s.holders, a);
    if n == 0 then Ok(s)
    else if s.total + n > MAX then Err(InvalidAmount)
    else if i < |s.holders| then
      if s.holders[i].points + n > MAX then Err(InvalidAmount)
      else Ok(Shares(s.holders[i := LP(a, s.holders[i].points + n)], s.total + n))
    else if |s.holders| >= MAX_LIQUIDITY_PROVIDERS then Err(InvalidLiquidityPool)
    else Ok(Shares(s.holders + [LP(a, n)], s.total + n))
  }

  /** What is left of the holder list with n points left to entry i. */
  function Reduced(h: seq<LP>, i: nat, n: nat): seq<LP>
    requires i < |h|
  {
    if n == 0 then h[..i] + h[i + 1..] else h[i := LP(h[i].addr, n)]
  }

  /** Both subtractions are unguarded and wrap. */
  function Removed(s: Shares, a: Address, n: nat): Result<Shares> {
    var i := IndexOf(s.holders, a);
    if i == |s.holders| then Err(PointHolderNotFound) else
      var total := WrapSub(s.total, n);
      var left := WrapSub(s.holders[i].points, n);
      var holders := Reduced(s.holders, i, left);
      if total == 0 then Err(ZeroLiquidityPool) else Ok(Shares(holders, total))
  }

  // ---- The points of all holders sum to the total ------------------------

  function SumPoints(h: seq<LP>): nat {
    if h == [] then 0 else h[0].points + SumPoints(h[1..])
  }

  ghost predicate Unique(h: seq<LP>) {
    forall i, j | 0 <= i < j < |h| :: h[i].addr != h[j].addr
  }

  ghost predicate Sound(s: Shares) {
    Unique(s.holders) && SumPoints(s.holders) == s.total < U64
  }

  lemma {:induction false} SumSplit(h: seq<LP>, i: nat)
    requires i < |h|
    ensures SumPoints(h) == SumPoints(h[..i]) + h[i].points + SumPoints(h[i + 1..])
  {
    if i > 0 {
      SumSplit(h[1..], i - 1);
      assert h[..i][1..] == h[1..][..i - 1];
      assert h[1..][i..] == h[i + 1..];
    }
  }

  lemma {:induction false} SumConcat(g: seq<LP>, h: seq<LP>)
    ensures SumPoints(g + h) == SumPoints(g) + SumPoints(h)
  {
    if g == [] {
      assert g + h == h;
    } else {
      SumConcat(g[1..], h);
      assert (g + h)[1..] == g[1..] + h;
    }
  }

  lemma {:induction false} IndexOfFirst(h: seq<LP>, i: nat)
    requires Unique(h) && i < |h|
    ensures IndexOf(h, h[i].addr) == i
  {}

  function Held(s: Shares, a: Address): nat {
    match PointsFor(s, a) case Some(n) => n case None => 0
  }

  /** No holder has more than the total. */
  lemma HeldBound(s: Shares, a: Address)
    requires Sound(s)
    ensures Held(s, a) <= s.total
  {
    var i := IndexOf(s.holders, a);
    if i < |s.holders| { SumSplit(s.holders, i); }
  }

  lemma ReplacedSum(h: seq<LP>, i: nat, lp: LP)
    requires i < |h|
    ensures SumPoints(h[i := lp]) == SumPoints(h) - h[i].points + lp.points
  {
    SumSplit(h, i);
    SumSplit(h[i := lp], i);
    assert h[i := lp][..i] == h[..i] && h[i := lp][i + 1..] == h[i + 1..];
  }

  lemma {:induction false} DroppedSum(h: seq<LP>, i: nat)
    requires i < |h|
    ensures SumPoints(h[..i] + h[i + 1..]) == SumPoints(h) - h[i].points
  {
    SumSplit(h, i);
    SumConcat(h[..i], h[i + 1..]);
  }

  /** Changing one entry leaves every other holder alone. */
  lemma HeldAfterReplace(s: Shares, s': Shares, i: nat, n: nat, b: Address)
    requires Unique(s.holders) && i < |s.holders|
    requires s'.holders == s.holders[i := LP(s.holders[i].addr, n)]
    ensures Held(s', b) == if b == s.holders[i].addr then n else Held(s, b)
  {
    var j := IndexOf(s.holders, b);
    if j < |s.holders| {
      IndexOfFirst(s.holders, i);
      assert s'.holders[j].addr == b && Unique(s'.holders);
      IndexOfFirst(s'.holders, j);
    } else {
      assert forall k | 0 <= k < |s.holders| :: s'.holders[k].addr == s.holders[k].addr;
    }
  }

  /** Dropping one entry leaves every other holder alone. */
  lemma HeldAfterDrop(s: Shares, s': Shares, i: nat, b: Address)
    requires Unique(s.holders) && i < |s.holders|
    requires s'.holders == s.holders[..i] + s.holders[i + 1..]
    ensures Held(s', b) == if b == s.holders[i].addr then 0 else Held(s, b)
  {
    var j := IndexOf(s.holders, b);
    if j < |s.holders| && j != i {
      var j' := if j < i then j else j - 1;
      assert s'.holders[j'] == s.holders[j];
      IndexOfFirst(s'.holders, j');
    } else {
      assert forall k | 0 <= k < |s'.holders| :: s'.holders[k].addr != b;
    }
  }

  lemma HeldAfterAppend(s: Shares, s': Shares, lp: LP, b: Address)
    requires Unique(s.holders) && IndexOf(s.holders, lp.addr) == |s.holders|
    requires s'.holders == s.holders + [lp]
    ensures Held(s', b) == if b == lp.addr then lp.points else Held(s, b)
  {
    var j := IndexOf(s.holders, b);
    assert Unique(s'.holders);
    if j < |s.holders| {
      assert s'.holders[j] == s.holders[j];
      IndexOfFirst(s'.holders, j);
    } else if b == lp.addr {
      assert s'.holders[|s.holders|] == lp;
      IndexOfFirst(s'.holders, |s.holders|);
    } else {
      assert forall k | 0 <= k < |s'.holders| :: s'.holders[k].addr != b;
    }
  }

  /** Adding points credits one holder and the total, and nobody else. */
  lemma AddKeepsSound(s: Shares, a: Address, n: nat)
    requires Sound(s) && Added(s, a, n).Ok?
    ensures var s' := Added(s, a, n).value;
            && Sound(s') && s'.total == s.total + n
            && forall b :: Held(s', b) == Held(s, b) + if b == a then n else 0
  {
    var i := IndexOf(s.holders, a);
    var s' := Added(s, a, n).value;
    if n != 0 {
      if i < |s.holders| {
        ReplacedSum(s.holders, i, LP(a, s.holders[i].points + n));
        forall b ensures Held(s', b) == Held(s, b) + if b == a then n else 0 {
          HeldAfterReplace(s, s', i, s.holders[i].points + n, b);
        }
      } else {
        SumConcat(s.holders, [LP(a, n)]);
        forall b ensures Held(s', b) == Held(s, b) + if b == a then n else 0 {
          HeldAfterAppend(s, s', LP(a, n), b);
        }
      }
    }
  }

  /** Adding fails exactly when the total would not fit 64 bits, or a newcomer finds the list full. */
  lemma AddSucceedsExactly(s: Shares, a: Address, n: nat)
    requires Sound(s)
    ensures Added(s, a, n).Ok? <==>
              n == 0 || (s.total + n <= MAX && (PointsFor(s, a).Some? || |s.holders| < MAX_LIQUIDITY_PROVIDERS))
  {
    HeldBound(s, a);
  }

  lemma ReducedSound(s: Shares, i: nat, n: nat)
    requires Sound(s) && i < |s.holders| && n <= s.holders[i].points
    ensures n <= s.total
    ensures var s' := Shares(Reduced(s.holders, i, s.holders[i].points - n), s.total - n);
            && Sound(s')
            && forall b :: Held(s', b) == if b == s.holders[i].addr then s.holders[i].points - n else Held(s, b)
  {
    var left := s.holders[i].points - n;
    SumSplit(s.holders, i);
    var s' := Shares(Reduced(s.holders, i, left), s.total - n);
    if left == 0 {
      DroppedSum(s.holders, i);
    } else {
      ReplacedSum(s.holders, i, LP(s.holders[i].addr, left));
    }
    forall b ensures Held(s', b) == if b == s.holders[i].addr then left else Held(s, b) {
      if left == 0 { HeldAfterDrop(s, s', i, b); } else { HeldAfterReplace(s, s', i, left, b); }
    }
  }

  /** Removing no more than a holder has cannot wrap, debits that holder and the total, and nobody else;
      it fails exactly when nothing would be left in the pool. */
  lemma RemoveKeepsSound(s: Shares, a: Address, n: nat)
    requires Sound(s) && PointsFor(s, a).Some? && n <= PointsFor(s, a).value
    ensures n <= s.total
    ensures Removed(s, a, n) == Err(ZeroLiquidityPool) <==> n == s.total
    ensures n < s.total ==> Removed(s, a, n).Ok?
    ensures n < s.total ==>
              var s' := Removed(s, a, n).value;
              && Sound(s') && s'.total == s.total - n
              && forall b :: Held(s', b) == Held(s, b) - if b == a then n else 0
  {
    HeldBound(s, a);
    var i := IndexOf(s.holders, a);
    ReducedSound(s, i, n);
    WrapSubExact(s.total, n);
    WrapSubExact(s.holders[i].points, n);
    assert n < s.total ==> Removed(s, a, n) == Ok(Shares(Reduced(s.holders, i, s.holders[i].points - n), s.total - n));
  }

  // ---- The pool object ---------------------------------------------------

  class Pool {
    var amount: nat
    var points: seq<LP>
    var totalPoolPoints: nat

    constructor (amount: nat, s: Shares)
      ensures this.amount == amount && State() == s
    {
      this.amount, points, totalPoolPoints := amount, s.holders, s.total;
    }

    function State(): Shares
      reads this
    {
      Shares(points, totalPoolPoints)
    }

    method GetPointsFor(a: Address) returns (r: Option<nat>)
      ensures r == PointsFor(State(), a)
    {
      for i := 0 to |points|
        invariant forall j | 0 <= j < i :: points[j].addr != a
      {
        if points[i].addr == a { return Some(points[i].points); }
      }
      return None;
    }

    method AddPoints(a: Address, n: nat) returns (r: Result<()>)
      modifies this`points, this`totalPoolPoints
      ensures var spec := Added(old(State()), a, n);
              match spec
              case Ok(s) => r == Ok(()) && State() == s
              case Err(e) => r == Err(e) && State() == old(State())
    {
      if n == 0 { return Ok(()); }
      for i := 0 to |points|
        invariant State() == old(State())
        invariant forall j | 0 <= j < i :: points[j].addr != a
      {
        if points[i].addr == a {
          assert IndexOf(points, a) == i;
          if totalPoolPoints > MAX - n { return Err(InvalidAmount); }
          if points[i].points > MAX - n { return Err(InvalidAmount); }
          totalPoolPoints := totalPoolPoints + n;
          points := points[i := LP(a, points[i].points + n)];
          return Ok(());
        }
      }
      if totalPoolPoints > MAX - n { return Err(InvalidAmount); }
      if |points| >= MAX_LIQUIDITY_PROVIDERS { return Err(InvalidLiquidityPool); }
      totalPoolPoints := totalPoolPoints + n;
      points := points + [LP(a, n)];
      return Ok(());
    }

    method RemovePoints(a: Address, n: nat) returns (r: Result<()>)
      modifies this`points, this`totalPoolPoints
      ensures var spec := Removed(old(State()), a, n);
              match spec
              case Ok(s) => r == Ok(()) && State() == s
              case Err(e) => r == Err(e)
    {
      for i := 0 to |points|
        invariant State() == old(State())
        invariant forall j | 0 <= j < i :: points[j].addr != a
      {
        if points[i].addr == a {
          assert IndexOf(points, a) == i;
          totalPoolPoints := WrapSub(totalPoolPoints, n);
          points := points[i := LP(a, WrapSub(points[i].points, n))];
          if points[i].points == 0 {
            points := points[..i] + points[i + 1..];
          }
          if totalPoolPoints == 0 { return Err(ZeroLiquidityPool); }
          return Ok(());
        }
      }
      return Err(PointHolderNotFound);
    }
  }
}
