/** Returns, fees, equity and drawdown of the backtesters, over exact reals. */
module Equity {
  import opened Text
  import opened Positions

  ghost predicate Positive(xs: seq<real>) {
    forall i | 0 <= i < |xs| :: xs[i] > 0.0
  }

  /** The product, named so that proofs can treat equal factors alike. */
  function Times(x: real, y: real): real {
    x * y
  }

  /** 1 + pnl of bar `i` (python/backtester/run.py); the first bar has no return and no trade. */
  function Growth(close: seq<real>, pos: seq<Position>, fee: real, i: nat): real
    requires i < |close| == |pos| && Positive(close)
  {
    if i == 0 then 1.0
    else
      var ret := close[i] / close[i - 1] - 1.0;
      var trade := if pos[i] != pos[i - 1] then 1.0 else 0.0;
      1.0 + (pos[i - 1] as real * ret - trade * fee)
  }

  /** cumprod(1 + pnl) after `n` bars. */
  function EquityAfter(close: seq<real>, pos: seq<Position>, fee: real, n: nat): real
    requires n <= |close| == |pos| && Positive(close)
  {
    if n == 0 then 1.0 else Times(EquityAfter(close, pos, fee, n - 1), Growth(close, pos, fee, n - 1))
  }

  /** Python's equity curve, one value a bar. */
  function Curve(close: seq<real>, pos: seq<Position>, fee: real): seq<real>
    requires |close| == |pos| && Positive(close)
  {
    seq(|close|, i requires 0 <= i < |close| => EquityAfter(close, pos, fee, i + 1))
  }

  /** 1 + pnl of Julia's k-th bar, whose series are diff-ed and so start at the second bar. */
  function JuliaGrowth(close: seq<real>, pos: seq<Position>, fee: real, k: nat): real
    requires 0 < k < |close| == |pos| && Positive(close)
  {
    var ret := (close[k] - close[k - 1]) / close[k - 1];
    var trade := if pos[k] >= pos[k - 1] then pos[k] - pos[k - 1] else pos[k - 1] - pos[k];
    1.0 + (pos[k - 1] as real * ret - trade as real * fee)
  }

  function JuliaEquity(close: seq<real>, pos: seq<Position>, fee: real, k: nat): real
    requires k < |close| == |pos| && Positive(close)
  {
    if k == 0 then 1.0 else Times(JuliaEquity(close, pos, fee, k - 1), JuliaGrowth(close, pos, fee, k))
  }

  function JuliaCurve(close: seq<real>, pos: seq<Position>, fee: real): seq<real>
    requires 0 < |close| == |pos| && Positive(close)
  {
    seq(|close| - 1, k requires 0 <= k < |close| - 1 => JuliaEquity(close, pos, fee, k + 1))
  }

  lemma {:induction false} GrowthsAgree(close: seq<real>, pos: seq<Position>, fee: real, k: nat)
    requires 0 < k < |close| == |pos| && Positive(close)
    ensures JuliaGrowth(close, pos, fee, k) == Growth(close, pos, fee, k)
  {
    var x, y := close[k], close[k - 1];
    var q := x / y;
    Quotient(x - y, y, q - 1.0);
  }

  lemma {:induction false} JuliaEquityIsPython(close: seq<real>, pos: seq<Position>, fee: real, k: nat)
    requires k < |close| == |pos| && Positive(close)
    ensures JuliaEquity(close, pos, fee, k) == EquityAfter(close, pos, fee, k + 1)
  {
    if k == 0 {
      assert EquityAfter(close, pos, fee, 0) == 1.0;
    } else {
      JuliaEquityIsPython(close, pos, fee, k - 1);
      GrowthsAgree(close, pos, fee, k);
    }
  }

  /** The same positions give Julia Python's curve without its leading 1. */
  lemma {:induction false} PythonCurveIsOneThenJulia(close: seq<real>, pos: seq<Position>, fee: real)
    requires 0 < |close| == |pos| && Positive(close)
    ensures Curve(close, pos, fee) == [1.0] + JuliaCurve(close, pos, fee)
  {
    forall k | 0 <= k < |close|
      ensures Curve(close, pos, fee)[k] == ([1.0] + JuliaCurve(close, pos, fee))[k]
    {
      JuliaEquityIsPython(close, pos, fee, k);
    }
  }

  // ----- Holding runs -----

  /** Bought at the close of bar `entry`, sold at the close of bar `exit`. */
  datatype Run = Run(entry: nat, exit: nat)

  /** The closed runs, oldest first, and the entry of the one still open. */
  datatype Runs = Runs(closed: seq<Run>, open: Option<nat>)

  function RunsStep(runs: Runs, before: Position, now: Position, i: nat): Runs {
    if before == 0 && now == 1 then runs.(open := Some(i))
    else if before == 1 && now == 0 && runs.open.Some? then Runs(runs.closed + [Run(runs.open.value, i)], None)
    else runs
  }

  function RunsAfter(pos: seq<Position>, n: nat): Runs
    requires n <= |pos|
  {
    if n <= 1 then Runs([], None) else RunsStep(RunsAfter(pos, n - 1), pos[n - 2], pos[n - 1], n - 1)
  }

  /** `r` is a maximal holding: flat just before it, held all through it, flat at its exit. */
  predicate MaximalRun(pos: seq<Position>, r: Run) {
    && 0 < r.entry < r.exit < |pos|
    && pos[r.entry - 1] == 0 && (forall i | r.entry <= i < r.exit :: pos[i] == 1) && pos[r.exit] == 0
  }

  /** The runs are exactly the maximal holdings of the first `n` bars, in order. */
  ghost predicate ListsHoldings(pos: seq<Position>, n: nat, runs: Runs)
    requires 0 < n <= |pos|
  {
    && ClosedRuns(pos, n, runs.closed)
    && OpenRun(pos, n, runs)
    && forall i | 0 <= i < n && pos[i] == 1 :: InSomeRun(runs, i)
  }

  ghost predicate ClosedRuns(pos: seq<Position>, n: nat, closed: seq<Run>) {
    && (forall k | 0 <= k < |closed| :: MaximalRun(pos, closed[k]) && closed[k].exit < n)
    && (forall k, m | 0 <= k < m < |closed| :: closed[k].exit < closed[m].entry)
  }

  ghost predicate OpenRun(pos: seq<Position>, n: nat, runs: Runs)
    requires 0 < n <= |pos|
  {
    && (runs.open.Some? <==> pos[n - 1] == 1)
    && (runs.open.Some? ==>
          var a := runs.open.value;
          && 0 < a < n && pos[a - 1] == 0 && (forall i | a <= i < n :: pos[i] == 1)
          && forall k | 0 <= k < |runs.closed| :: runs.closed[k].exit < a)
  }

  ghost predicate InSomeRun(runs: Runs, i: nat) {
    || (runs.open.Some? && runs.open.value <= i)
    || exists r :: r in runs.closed && r.entry <= i < r.exit
  }

  lemma {:induction false} CoverageStep(pos: seq<Position>, n: nat, runs: Runs, more: Runs, i: nat)
    requires 0 < n < |pos| && OpenRun(pos, n, runs) && more == RunsStep(runs, pos[n - 1], pos[n], n)
    requires i <= n && pos[i] == 1 && (i < n ==> InSomeRun(runs, i))
    ensures InSomeRun(more, i)
  {
    if i < n {
      if r :| r in runs.closed && r.entry <= i < r.exit {
        assert r in more.closed;
      } else if more.open.None? {
        assert Run(runs.open.value, n) in more.closed;
      }
    }
  }

  lemma {:induction false} ListsHoldingsStep(pos: seq<Position>, n: nat, n': nat, runs: Runs, more: Runs)
    requires 0 < n && n' == n + 1 <= |pos| && ListsHoldings(pos, n, runs)
    requires more == RunsStep(runs, pos[n - 1], pos[n], n)
    ensures ListsHoldings(pos, n', more)
  {
    forall i | 0 <= i < n' && pos[i] == 1
      ensures InSomeRun(more, i)
    {
      CoverageStep(pos, n, runs, more, i);
    }
  }

  lemma {:induction false} RunsListHoldings(pos: seq<Position>, n: nat)
    requires 0 < n <= |pos| && pos[0] == 0
    ensures ListsHoldings(pos, n, RunsAfter(pos, n))
  {
    if n > 1 {
      RunsListHoldings(pos, n - 1);
      ListsHoldingsStep(pos, n - 1, n, RunsAfter(pos, n - 1), RunsAfter(pos, n));
    }
  }

  // ----- Equity telescopes over the runs -----

  predicate InRange(r: Run, close: seq<real>) {
    0 < r.entry < r.exit < |close|
  }

  /** A closed run's factor: entry fee, the price ratio up to the bar before the exit, and the exit
      bar's return less its fee. */
  function RunFactor(close: seq<real>, fee: real, r: Run): real
    requires Positive(close) && InRange(r, close)
  {
    Times(Times(1.0 - fee, close[r.exit - 1] / close[r.entry]), close[r.exit] / close[r.exit - 1] - fee)
  }

  function ClosedProduct(close: seq<real>, fee: real, closed: seq<Run>): real
    requires Positive(close) && forall k | 0 <= k < |closed| :: InRange(closed[k], close)
  {
    if closed == [] then 1.0
    else
      assert InRange(closed[|closed| - 1], close);
      Times(ClosedProduct(close, fee, closed[..|closed| - 1]), RunFactor(close, fee, closed[|closed| - 1]))
  }

  /** The factor of a run entered at bar `a` and still open after bar `last`. */
  function OpenFactor(close: seq<real>, fee: real, open: Option<nat>, last: nat): real
    requires Positive(close) && last < |close| && (open.Some? ==> open.value <= last)
  {
    if open.None? then 1.0 else Times(1.0 - fee, close[last] / close[open.value])
  }

  lemma {:induction false} RatioOfSame(x: real)
    requires x != 0.0
    ensures x / x == 1.0
  {
  }

  lemma {:induction false} RatiosChain(x: real, y: real, z: real)
    requires y != 0.0 && z != 0.0
    ensures (y / z) * (x / y) == x / z
  {
    var p, q := y / z, x / y;
    assert p * z == y && q * y == x;
    assert (p * q) * z == q * (p * z);
    Quotient(x, z, p * q);
  }

  /** Equity after `n` bars, as the product over the runs. */
  function RunsEquity(close: seq<real>, fee: real, runs: Runs, last: nat): real
    requires Positive(close) && last < |close| && (forall k | 0 <= k < |runs.closed| :: InRange(runs.closed[k], close))
    requires runs.open.Some? ==> runs.open.value <= last
  {
    Times(ClosedProduct(close, fee, runs.closed), OpenFactor(close, fee, runs.open, last))
  }

  lemma {:induction false} GrowthAt(close: seq<real>, pos: seq<Position>, fee: real, i: nat)
    requires 0 < i < |close| == |pos| && Positive(close)
    ensures var ratio := close[i] / close[i - 1];
            Growth(close, pos, fee, i) == if pos[i - 1] == 0 then if pos[i] == 0 then 1.0 else 1.0 - fee
                                          else if pos[i] == 1 then ratio else ratio - fee
  {
  }

  /** The four ways a bar can go, on the open factor alone. */
  lemma {:induction false} OpenFactorStep(close: seq<real>, pos: seq<Position>, fee: real, i: nat, i0: nat,
                                          runs: Runs, more: Runs)
    requires 0 < i < |close| == |pos| && i0 == i - 1 && Positive(close)
    requires OpenRun(pos, i, runs) && more == RunsStep(runs, pos[i0], pos[i], i)
    ensures (runs.open.Some? ==> runs.open.value <= i0) && (more.open.Some? ==> more.open.value <= i)
    ensures var factor := Times(OpenFactor(close, fee, runs.open, i0), Growth(close, pos, fee, i));
            if more.closed == runs.closed then OpenFactor(close, fee, more.open, i) == factor
            else
              && more.open.None? && more.closed == runs.closed + [Run(runs.open.value, i)]
              && InRange(Run(runs.open.value, i), close)
              && RunFactor(close, fee, Run(runs.open.value, i)) == factor
  {
    GrowthAt(close, pos, fee, i);
    if pos[i0] == 0 {
      if pos[i] == 1 {
        RatioOfSame(close[i]);
      }
    } else {
      var a := runs.open.value;
      if pos[i] == 1 {
        RatiosChain(close[i], close[i0], close[a]);
      }
    }
  }

  /** One more bar multiplies the product over the runs by exactly that bar's growth. */
  lemma {:induction false} RunsEquityStep(close: seq<real>, pos: seq<Position>, fee: real, i: nat, i0: nat,
                                          runs: Runs, more: Runs, e: real)
    requires 0 < i < |close| == |pos| && i0 == i - 1 && Positive(close)
    requires OpenRun(pos, i, runs) && more == RunsStep(runs, pos[i0], pos[i], i)
    requires forall k | 0 <= k < |runs.closed| :: InRange(runs.closed[k], close)
    requires runs.open.Some? ==> runs.open.value <= i0
    requires e == RunsEquity(close, fee, runs, i0)
    ensures (forall k | 0 <= k < |more.closed| :: InRange(more.closed[k], close))
    ensures more.open.Some? ==> more.open.value <= i
    ensures RunsEquity(close, fee, more, i) == Times(e, Growth(close, pos, fee, i))
  {
    OpenFactorStep(close, pos, fee, i, i0, runs, more);
    if more.closed != runs.closed {
      ClosedOneMore(close, fee, runs.closed, Run(runs.open.value, i), more.closed);
    }
    Regroup(ClosedProduct(close, fee, runs.closed), OpenFactor(close, fee, runs.open, i0), Growth(close, pos, fee, i));
  }

  lemma {:induction false} ClosedOneMore(close: seq<real>, fee: real, closed: seq<Run>, r: Run, more: seq<Run>)
    requires Positive(close) && (forall k | 0 <= k < |closed| :: InRange(closed[k], close)) && InRange(r, close)
    requires more == closed + [r]
    ensures forall k | 0 <= k < |more| :: InRange(more[k], close)
    ensures ClosedProduct(close, fee, more) == Times(ClosedProduct(close, fee, closed), RunFactor(close, fee, r))
  {
    assert more[..|more| - 1] == closed && more[|more| - 1] == r;
  }

  lemma {:induction false} Regroup(a: real, b: real, c: real)
    ensures Times(a, Times(b, c)) == Times(Times(a, b), c)
  {
  }

  /** Equity after bar `last`, told by the bars and told by the runs. */
  ghost predicate Telescoped(close: seq<real>, pos: seq<Position>, fee: real, last: nat, n: nat, runs: Runs)
    requires n == last + 1 <= |close| == |pos| && Positive(close)
  {
    && (forall k | 0 <= k < |runs.closed| :: InRange(runs.closed[k], close))
    && (runs.open.Some? ==> runs.open.value <= last)
    && EquityAfter(close, pos, fee, n) == RunsEquity(close, fee, runs, last)
  }

  lemma {:induction false} TelescopedStep(close: seq<real>, pos: seq<Position>, fee: real, i0: nat, i: nat, n: nat,
                                          runs: Runs)
    requires i == i0 + 1 && n == i + 1 <= |close| == |pos| && Positive(close)
    requires runs == RunsAfter(pos, i) && Telescoped(close, pos, fee, i0, i, runs) && OpenRun(pos, i, runs)
    ensures Telescoped(close, pos, fee, i, n, RunsAfter(pos, n))
  {
    var e, more := RunsEquity(close, fee, runs, i0), RunsAfter(pos, n);
    assert more == RunsStep(runs, pos[i0], pos[i], i);
    RunsEquityStep(close, pos, fee, i, i0, runs, more, e);
    assert EquityAfter(close, pos, fee, i) == e;
    assert EquityAfter(close, pos, fee, n) == Times(EquityAfter(close, pos, fee, i), Growth(close, pos, fee, i));
  }

  lemma {:induction false} TelescopedAtFirst(close: seq<real>, pos: seq<Position>, fee: real)
    requires 0 < |close| == |pos| && Positive(close)
    ensures Telescoped(close, pos, fee, 0, 1, RunsAfter(pos, 1))
  {
    assert EquityAfter(close, pos, fee, 0) == 1.0 && Growth(close, pos, fee, 0) == 1.0;
    assert RunsAfter(pos, 1) == Runs([], None);
  }

  /** From a flat start, equity after any bar is the product over the holding runs, the last one left
      open when it is not sold yet. */
  lemma {:induction false} EquityTelescopes(close: seq<real>, pos: seq<Position>, fee: real, last: nat, n: nat)
    requires n == last + 1 <= |close| == |pos| && Positive(close) && pos[0] == 0
    ensures ListsHoldings(pos, n, RunsAfter(pos, n)) && Telescoped(close, pos, fee, last, n, RunsAfter(pos, n))
  {
    RunsListHoldings(pos, n);
    if last == 0 {
      TelescopedAtFirst(close, pos, fee);
    } else {
      EquityTelescopes(close, pos, fee, last - 1, last);
      TelescopedStep(close, pos, fee, last - 1, last, n, RunsAfter(pos, last));
    }
  }

  /** Product of exit over entry prices. */
  function PriceRatios(close: seq<real>, closed: seq<Run>): real
    requires Positive(close) && forall k | 0 <= k < |closed| :: InRange(closed[k], close)
  {
    if closed == [] then 1.0
    else
      assert InRange(closed[|closed| - 1], close);
      var r := closed[|closed| - 1];
      Times(PriceRatios(close, closed[..|closed| - 1]), close[r.exit] / close[r.entry])
  }

  /** At zero fee each closed run contributes just its exit price over its entry price. */
  lemma {:induction false} ZeroFeeIsPriceRatios(close: seq<real>, closed: seq<Run>)
    requires Positive(close) && forall k | 0 <= k < |closed| :: InRange(closed[k], close)
    ensures ClosedProduct(close, 0.0, closed) == PriceRatios(close, closed)
  {
    if closed != [] {
      ZeroFeeIsPriceRatios(close, closed[..|closed| - 1]);
      assert InRange(closed[|closed| - 1], close);
      var r := closed[|closed| - 1];
      RatiosChain(close[r.exit], close[r.exit - 1], close[r.entry]);
    }
  }

  /** What an open run adds at zero fee: the last price over its entry price. */
  function OpenRatio(close: seq<real>, open: Option<nat>, last: nat): real
    requires Positive(close) && last < |close| && (open.Some? ==> open.value <= last)
  {
    if open.None? then 1.0 else close[last] / close[open.value]
  }

  /** At zero fee equity after any bar is the product of exit over entry prices, times the last price over the
      entry price of a run still open. */
  lemma {:induction false} ZeroFeeEquity(close: seq<real>, pos: seq<Position>, last: nat, n: nat, runs: Runs)
    requires n == last + 1 <= |close| == |pos| && Positive(close) && pos[0] == 0 && runs == RunsAfter(pos, n)
    ensures forall k | 0 <= k < |runs.closed| :: InRange(runs.closed[k], close)
    ensures runs.open.Some? ==> runs.open.value <= last
    ensures EquityAfter(close, pos, 0.0, n) == Times(PriceRatios(close, runs.closed), OpenRatio(close, runs.open, last))
  {
    EquityTelescopes(close, pos, 0.0, last, n);
    ZeroFeeIsPriceRatios(close, runs.closed);
    assert OpenFactor(close, 0.0, runs.open, last) == OpenRatio(close, runs.open, last);
  }

  /** trade.sum(): position changes among the first `n` bars. */
  function Trades(pos: seq<Position>, n: nat): nat
    requires n <= |pos|
  {
    if n <= 1 then 0 else Trades(pos, n - 1) + if pos[n - 1] != pos[n - 2] then 1 else 0
  }

  /** Two trades for each closed run and one for an open one. */
  lemma {:induction false} TradesAreRunEnds(pos: seq<Position>, n: nat)
    requires 0 < n <= |pos| && pos[0] == 0
    ensures var runs := RunsAfter(pos, n);
            Trades(pos, n) == 2 * |runs.closed| + if runs.open.Some? then 1 else 0
  {
    if n > 1 {
      TradesAreRunEnds(pos, n - 1);
      RunsListHoldings(pos, n - 1);
    }
  }

  // ----- Drawdown -----

  function Max(x: real, y: real): real {
    if x < y then y else x
  }

  function Min(x: real, y: real): real {
    if y < x then y else x
  }

  /** cummax at bar `i`. */
  function Peak(xs: seq<real>, i: nat): real
    requires i < |xs|
  {
    if i == 0 then xs[0] else Max(Peak(xs, i - 1), xs[i])
  }

  function Fall(x: real, peak: real): real
    requires peak != 0.0
  {
    x / peak - 1.0
  }

  lemma {:induction false} PeakIsHighest(xs: seq<real>, i: nat)
    requires i < |xs|
    ensures forall s | 0 <= s <= i :: xs[s] <= Peak(xs, i)
    ensures exists s :: 0 <= s <= i && xs[s] == Peak(xs, i)
  {
    if i > 0 {
      PeakIsHighest(xs, i - 1);
      var s :| 0 <= s <= i - 1 && xs[s] == Peak(xs, i - 1);
      assert xs[s] == Peak(xs, i) || xs[i] == Peak(xs, i);
    } else {
      assert xs[0] == Peak(xs, i);
    }
  }

  lemma {:induction false} PeakPositive(xs: seq<real>, i: nat)
    requires i < |xs| && Positive(xs)
    ensures Peak(xs, i) > 0.0
  {
    PeakIsHighest(xs, i);
    assert xs[0] <= Peak(xs, i);
  }

  /** (equity / equity.cummax() - 1).min() over the first `n` bars. */
  function MaxDrawdown(xs: seq<real>, n: nat): real
    requires 0 < n <= |xs| && Positive(xs)
  {
    PeakPositive(xs, n - 1);
    var here := Fall(xs[n - 1], Peak(xs, n - 1));
    if n == 1 then here else Min(MaxDrawdown(xs, n - 1), here)
  }

  /** `d` is the worst fall from any bar to itself or a later one. */
  ghost predicate WorstFall(xs: seq<real>, n: nat, d: real)
    requires n <= |xs| && Positive(xs)
  {
    && (forall s, t | 0 <= s <= t < n :: d <= Fall(xs[t], xs[s]))
    && exists s, t :: 0 <= s <= t < n && d == Fall(xs[t], xs[s])
  }

  lemma {:induction false} LowerFromHigher(x: real, p: real, q: real)
    requires 0.0 < x && 0.0 < p <= q
    ensures Fall(x, q) <= Fall(x, p)
    ensures -1.0 < Fall(x, q)
    ensures x <= q ==> Fall(x, q) <= 0.0
  {
    var a, b := x / p, x / q;
    assert a * p == x && b * q == x;
    assert b > 0.0;
    assert (a - b) * p == b * (q - p);
    assert a >= b;
  }

  /** The last bar's fall from the peak is its worst fall from any bar. */
  lemma {:induction false} LastFallIsWorst(xs: seq<real>, last: nat, fall: real)
    requires last < |xs| && Positive(xs) && Peak(xs, last) > 0.0 && fall == Fall(xs[last], Peak(xs, last))
    ensures forall s | 0 <= s <= last :: fall <= Fall(xs[last], xs[s])
    ensures exists s :: 0 <= s <= last && fall == Fall(xs[last], xs[s])
    ensures -1.0 < fall <= 0.0
  {
    PeakIsHighest(xs, last);
    var p :| 0 <= p <= last && xs[p] == Peak(xs, last);
    LowerFromHigher(xs[last], xs[p], xs[p]);
    forall s | 0 <= s <= last
      ensures fall <= Fall(xs[last], xs[s])
    {
      LowerFromHigher(xs[last], xs[s], xs[p]);
    }
  }

  /** The minimum over the bars of the fall from the peak is the worst fall between any two. */
  lemma {:induction false} OnePassIsWorstFall(xs: seq<real>, n: nat)
    requires 0 < n <= |xs| && Positive(xs)
    ensures WorstFall(xs, n, MaxDrawdown(xs, n))
    ensures -1.0 < MaxDrawdown(xs, n) <= 0.0
  {
    var last := n - 1;
    PeakPositive(xs, last);
    var fall := Fall(xs[last], Peak(xs, last));
    LastFallIsWorst(xs, last, fall);
    if n > 1 {
      OnePassIsWorstFall(xs, last);
      WorstFallStep(xs, last, n, MaxDrawdown(xs, last), fall);
    }
  }

  lemma {:induction false} WorstFallStep(xs: seq<real>, last: nat, n: nat, d: real, fall: real)
    requires n == last + 1 <= |xs| && Positive(xs) && WorstFall(xs, last, d)
    requires forall s | 0 <= s <= last :: fall <= Fall(xs[last], xs[s])
    requires exists s :: 0 <= s <= last && fall == Fall(xs[last], xs[s])
    ensures WorstFall(xs, n, Min(d, fall))
  {
  }

  /** The one-pass value is the least equity[t] / equity[s] - 1 over all pairs of bars, and lies in (-1, 0]. */
  lemma {:induction false} DrawdownIsWorstFall(xs: seq<real>, n: nat, d: real)
    requires 0 < n <= |xs| && Positive(xs) && d == MaxDrawdown(xs, n)
    ensures forall s, t | 0 <= s <= t < n :: d <= xs[t] / xs[s] - 1.0
    ensures exists s, t :: 0 <= s <= t < n && d == xs[t] / xs[s] - 1.0
    ensures -1.0 < d <= 0.0
  {
    OnePassIsWorstFall(xs, n);
    var s, t :| 0 <= s <= t < n && d == Fall(xs[t], xs[s]);
    FallIs(xs[t], xs[s]);
    forall s, t | 0 <= s <= t < n
      ensures d <= xs[t] / xs[s] - 1.0
    {
      FallIs(xs[t], xs[s]);
    }
  }

  lemma {:induction false} FallIs(x: real, peak: real)
    requires peak != 0.0
    ensures Fall(x, peak) == x / peak - 1.0
  {
  }

  lemma {:induction false} WorseOnLonger(xs: seq<real>, x: real, ys: seq<real>, d: real, d': real)
    requires x > 0.0 && Positive(xs) && ys == [x] + xs && Positive(ys)
    requires WorstFall(xs, |xs|, d) && WorstFall(ys, |ys|, d')
    ensures d' <= d
  {
    var s, t :| 0 <= s <= t < |xs| && d == Fall(xs[t], xs[s]);
    assert d' <= Fall(ys[t + 1], ys[s + 1]);
  }

  /** The worst fall of a curve with a bar put before it is at least as bad. */
  lemma {:induction false} LeadingBarOnlyDeepens(xs: seq<real>, x: real, ys: seq<real>)
    requires xs != [] && x > 0.0 && Positive(xs) && ys == [x] + xs
    ensures Positive(ys) && MaxDrawdown(ys, |ys|) <= MaxDrawdown(xs, |xs|)
  {
    OnePassIsWorstFall(xs, |xs|);
    OnePassIsWorstFall(ys, |ys|);
    WorseOnLonger(xs, x, ys, MaxDrawdown(xs, |xs|), MaxDrawdown(ys, |ys|));
  }

  /** On the same positions Python's drawdown, whose curve starts at 1, is never above Julia's. */
  lemma {:induction false} PythonDrawdownBelowJulia(close: seq<real>, pos: seq<Position>, fee: real)
    requires 1 < |close| == |pos| && Positive(close) && Positive(Curve(close, pos, fee))
    ensures var julia := JuliaCurve(close, pos, fee);
            && Positive(julia)
            && MaxDrawdown(Curve(close, pos, fee), |close|) <= MaxDrawdown(julia, |close| - 1)
  {
    var julia, python := JuliaCurve(close, pos, fee), Curve(close, pos, fee);
    PythonCurveIsOneThenJulia(close, pos, fee);
    assert forall k | 0 <= k < |julia| :: julia[k] == python[k + 1];
    LeadingBarOnlyDeepens(julia, 1.0, python);
  }
}
