/** Spend arithmetic of the RLUSD funding tool: the slippage bound and the AMM quote. */
module RlusdQuote {
  import opened Common

  datatype QuoteError = NotPositive | BadSlippage | NoLiquidity | BadFee

  const MAX_SLIPPAGE_BPS: int := 5000

  /** `compute_send_max_drops` on a parsed integer. */
  function SendMaxDrops(drops: int, bps: int): Result<int, QuoteError> {
    if drops <= 0 then Err(NotPositive)
    else if bps < 0 || bps > MAX_SLIPPAGE_BPS then Err(BadSlippage)
    else Ok((drops * (10000 + bps) + 9999) / 10000)
  }

  /** SendMax is the least whole number of drops at or above quote * (1 + bps / 10000), and never
      below the quote. */
  lemma SendMaxIsLeast(drops: int, bps: int, n: int)
    requires SendMaxDrops(drops, bps).Ok?
    ensures n >= SendMaxDrops(drops, bps).value
            <==> n as real >= drops as real * (1.0 + bps as real / 10000.0)
    ensures SendMaxDrops(drops, bps).value >= drops
  {
    var exact := drops * (10000 + bps);
    assert exact == 10000 * drops + drops * bps;
    assert drops * bps >= 0;
    assert n >= (exact + 9999) / 10000 <==> 10000 * n >= exact;
    calc {
      10000.0 * (drops as real * (1.0 + bps as real / 10000.0));
      drops as real * (10000.0 + bps as real);
      (drops * (10000 + bps)) as real;
    }
  }

  function Ceiling(x: real): int {
    if x.Floor as real == x then x.Floor else x.Floor + 1
  }

  lemma CeilingIsLeast(x: real, n: int)
    ensures n as real >= x <==> n >= Ceiling(x)
  {
  }

  /** `_amm_source_amount_drops` in exact arithmetic: reserves and amount as decimals, the trading
      fee in units of 1/100000. */
  function AmmQuote(xrpReserve: real, rlusdReserve: real, amount: real, feeUnits: real): Result<int, QuoteError> {
    if xrpReserve <= 0.0 || rlusdReserve <= 0.0 || amount <= 0.0 || amount >= rlusdReserve
    then Err(NoLiquidity)
    else if feeUnits < 0.0 || feeUnits >= 100000.0 then Err(BadFee)
    else
      Ok(Ceiling(xrpReserve * amount / (rlusdReserve - amount) / KeptAfterFee(feeUnits)))
  }

  function KeptAfterFee(feeUnits: real): (g: real)
    requires 0.0 <= feeUnits < 100000.0
    ensures 0.0 < g <= 1.0
  {
    1.0 - feeUnits / 100000.0
  }

  /** What a constant-product pool pays out for the input `y` that is left after its fee. */
  function PoolOutput(xrpReserve: real, rlusdReserve: real, y: real): real
    requires xrpReserve > 0.0 && y >= 0.0
  {
    rlusdReserve * y / (xrpReserve + y)
  }

  lemma QuotientAtLeast(a: real, b: real, c: real)
    requires b > 0.0
    ensures a / b >= c <==> a >= c * b
  {
    assert a == (a / b) * b;
    if a / b >= c {
      ProductMonotone(a / b, c, b);
    } else {
      ProductStrict(c, a / b, b);
    }
  }

  lemma ProductMonotone(x: real, y: real, b: real)
    requires x >= y && b > 0.0
    ensures x * b >= y * b
  {
  }

  lemma ProductStrict(x: real, y: real, b: real)
    requires x > y && b > 0.0
    ensures x * b > y * b
  {
  }

  /** For a pool (X, R), output for input y after the fee reaches A exactly when y (R - A) >= A X. */
  lemma OutputReaches(x: real, r: real, a: real, y: real)
    requires x > 0.0 && y >= 0.0
    ensures PoolOutput(x, r, y) >= a <==> y * (r - a) >= x * a
  {
    QuotientAtLeast(r * y, x + y, a);
    assert a * (x + y) == x * a + a * y;
    assert y * (r - a) == r * y - a * y;
  }

  lemma InputReaches(n: real, g: real, d: real, m: real)
    requires d > 0.0 && g > 0.0
    ensures n >= m / d / g <==> n * g * d >= m
  {
    if n >= m / d / g {
      ProductMonotone(n, m / d / g, g);
      assert m / d / g * g == m / d;
      ProductMonotone(n * g, m / d, d);
      assert m / d * d == m;
    } else {
      ProductStrict(m / d / g, n, g);
      assert m / d / g * g == m / d;
      ProductStrict(m / d, n * g, d);
      assert m / d * d == m;
    }
  }

  lemma KeptIsNonNegative(n: int, g: real)
    requires n >= 0 && g > 0.0
    ensures n as real * g >= 0.0
  {
    ProductMonotone(n as real, 0.0, g);
  }

  /** The quote is tight: it is the least whole number of drops whose pool output after the fee is
      at least the amount, for all positive reserves, every amount below the RLUSD reserve and
      every fee below one. */
  lemma AmmQuoteIsTight(x: real, r: real, a: real, feeUnits: real, n: int)
    requires AmmQuote(x, r, a, feeUnits).Ok? && n >= 0
    ensures n as real * (1.0 - feeUnits / 100000.0) >= 0.0
    ensures PoolOutput(x, r, n as real * (1.0 - feeUnits / 100000.0)) >= a
            <==> n >= AmmQuote(x, r, a, feeUnits).value
  {
    var g := KeptAfterFee(feeUnits);
    KeptIsNonNegative(n, g);
    TightFor(x, r, a, g, n);
  }

  lemma TightFor(x: real, r: real, a: real, g: real, n: int)
    requires x > 0.0 && 0.0 < a < r && g > 0.0 && n >= 0 && n as real * g >= 0.0
    ensures PoolOutput(x, r, n as real * g) >= a <==> n >= Ceiling(x * a / (r - a) / g)
  {
    OutputReaches(x, r, a, n as real * g);
    InputReaches(n as real, g, r - a, x * a);
    CeilingIsLeast(x * a / (r - a) / g, n);
  }

  /** A slippage bound is given exactly for a positive quote and 0 to 5000 basis points. */
  lemma SendMaxGivenExactly(drops: int, bps: int)
    ensures SendMaxDrops(drops, bps).Ok? <==> drops >= 1 && 0 <= bps <= 5000
    ensures SendMaxDrops(drops, bps) == Err(NotPositive) <==> drops <= 0
  {
  }

  /** The pool pays out less than its reserve, whatever comes in. */
  lemma OutputBelowReserve(x: real, r: real, y: real)
    requires x > 0.0 && r > 0.0 && y >= 0.0
    ensures PoolOutput(x, r, y) < r
  {
    OutputReaches(x, r, r, y);
    assert y * (r - r) == 0.0;
    ProductStrict(r, 0.0, x);
    assert x * r == r * x;
  }

  /** Putting in `n` drops, of which the share `g` is left after the fee, takes `a` out. */
  predicate PaysOut(x: real, r: real, a: real, g: real, n: nat)
    requires x > 0.0
  {
    n as real * g >= 0.0 && PoolOutput(x, r, n as real * g) >= a
  }

  /** A quote is given exactly when the fee is a share below one and the pool can pay the amount out:
      for a positive amount from positive reserves, when some input makes it do so. */
  lemma QuoteGivenExactly(x: real, r: real, a: real, feeUnits: real)
    requires 0.0 <= feeUnits < 100000.0 && x > 0.0 && r > 0.0 && a > 0.0
    ensures AmmQuote(x, r, a, feeUnits).Ok?
            <==> exists n: nat :: PaysOut(x, r, a, KeptAfterFee(feeUnits), n)
  {
    if a < r {
      var q := AmmQuote(x, r, a, feeUnits).value;
      var n: nat := if q >= 0 then q else 0;
      AmmQuoteIsTight(x, r, a, feeUnits, n);
      assert PaysOut(x, r, a, KeptAfterFee(feeUnits), n);
    } else {
      forall n: nat ensures !PaysOut(x, r, a, KeptAfterFee(feeUnits), n) {
        KeptIsNonNegative(n, KeptAfterFee(feeUnits));
        OutputBelowReserve(x, r, n as real * KeptAfterFee(feeUnits));
      }
    }
  }

  /** Without liquidity or with an impossible fee there is none. */
  lemma NoQuoteExactly(x: real, r: real, a: real, feeUnits: real)
    ensures AmmQuote(x, r, a, feeUnits) == Err(NoLiquidity) <==> x <= 0.0 || r <= 0.0 || a <= 0.0 || a >= r
    ensures AmmQuote(x, r, a, feeUnits) == Err(BadFee)
            <==> x > 0.0 && 0.0 < a < r && (feeUnits < 0.0 || feeUnits >= 100000.0)
  {
  }
}
