/** Stock result types, the unsigned 64-bit bounds and the integer helpers of lib/util.go. */
module Lib {

  datatype Option<+T> = None | Some(value: T)

  /** The errors a handler may return; a handler that returns one leaves the state as it was. */
  datatype Error =
    | InsufficientFunds | InvalidAmount | InvalidLiquidityPool | ZeroLiquidityPool | PointHolderNotFound
    | RemotePoolSizeDebit | MaxDexBatchSize
    | OrderNotFound | OrderLocked | MinimumOrderSize | InvalidLockOrder | Refused

  datatype Result<+T> = Ok(value: T) | Err(error: Error)

  const U64: nat := 0x1_0000_0000_0000_0000
  const MAX: nat := U64 - 1

  function Min(a: nat, b: nat): nat { if a <= b then a else b }

  function Max(a: nat, b: nat): nat { if a <= b then b else a }

  /** Unsigned 64-bit subtraction as Go performs it when nothing guards it. */
  function WrapSub(a: nat, b: nat): nat { (a - b) % U64 }

  lemma WrapSubExact(a: nat, b: nat)
    requires b <= a < U64
    ensures WrapSub(a, b) == a - b
  {}

  /** lib.SafeMulDiv: a big-integer product and quotient, read back as its low 64 bits. */
  function MulDiv(a: nat, b: nat, c: nat): nat {
    if c == 0 then 0 else (a * b / c) % U64
  }

  /** Whatever wraps away, the rounded quotient never exceeds the exact one. */
  lemma MulDivBound(a: nat, b: nat, c: nat)
    ensures MulDiv(a, b, c) < U64
    ensures MulDiv(a, b, c) * c <= a * b
    ensures c != 0 ==> MulDiv(a, b, c) <= a * b / c
  {
    if c != 0 {
      var q := a * b / c;
      QuotientTimes(a * b, c);
      assert MulDiv(a, b, c) <= q;
      MulMono(MulDiv(a, b, c), q, c);
    }
  }

  /** A share of at most the whole is at most the amount shared out. */
  lemma MulDivShare(a: nat, b: nat, c: nat)
    requires b <= c
    ensures MulDiv(a, b, c) <= a
  {
    if c != 0 {
      MulDivBound(a, b, c);
      MulMono(b, c, a);
      Cancel(MulDiv(a, b, c), a, c);
    }
  }

  /** With the amount in range and a share of at most the whole, the result is the exact floor. */
  lemma MulDivExact(a: nat, b: nat, c: nat)
    requires 0 < c && b <= c && a < U64
    ensures MulDiv(a, b, c) == a * b / c
  {
    MulMono(b, c, a);
    QuotientTimes(a * b, c);
    Cancel(a * b / c, a, c);
  }

  lemma Cancel(a: nat, b: nat, c: nat)
    requires 0 < c && a * c <= b * c
    ensures a <= b
  {
    if b < a {
      MulMono(b + 1, a, c);
      assert false;
    }
  }

  function Quotient(n: nat, d: nat): nat
    requires d > 0
  {
    n / d
  }

  lemma QuotientTimes(n: nat, d: nat)
    requires d != 0
    ensures n / d * d <= n < n / d * d + d
  {
    assert n == n / d * d + n % d;
  }

  lemma MulMono(a: nat, b: nat, k: nat)
    requires a <= b
    ensures a * k <= b * k
    ensures k * a <= k * b
  {
    assert b * k - a * k == (b - a) * k;
    MulNonNeg(b - a, k);
  }

  lemma MulNonNeg(a: nat, b: nat)
    ensures a * b >= 0
  {}

  lemma QuotientLess(n: nat, d: nat, b: nat)
    requires 0 < d && n < b * d
    ensures n / d < b
  {
    QuotientTimes(n, d);
    if b <= n / d {
      MulMono(b, n / d, d);
      assert false;
    }
  }
}
