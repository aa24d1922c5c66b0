/** Position machines of the three backtesters: cross events in python/backtester/run.py, levels in
    julia/quant-tools/src/backtest.jl and r/quant_research/backtest.R. */
module Positions {
  import opened Text
  import opened Series

  /** 1 while holding, 0 while flat. */
  type Position = p: int | 0 <= p <= 1

  function Step(state: Position, buy: bool, sell: bool): Position {
    if state == 0 && buy then 1 else if state == 1 && sell then 0 else state
  }

  /** Python's state after the first `n` bars, driven by cross events. */
  function EventState(long: seq<bool>, short: seq<bool>, n: nat): Position
    requires n <= |long| == |short|
  {
    if n == 0 then 0 else Step(EventState(long, short, n - 1), long[n - 1], short[n - 1])
  }

  /** R's state after the first `n` bars, driven by which average is higher; missing ones hold. */
  function LevelState(f: seq<Option<Mean>>, s: seq<Option<Mean>>, n: nat): Position
    requires n <= |f| == |s|
  {
    if n == 0 then 0 else Step(LevelState(f, s, n - 1), Gt(f[n - 1], s[n - 1]), Gt(s[n - 1], f[n - 1]))
  }

  /** Julia's, which leaves the first bar flat unseen. */
  function JuliaState(f: seq<Option<Mean>>, s: seq<Option<Mean>>, n: nat): Position
    requires n <= |f| == |s|
  {
    if n <= 1 then 0 else Step(JuliaState(f, s, n - 1), Gt(f[n - 1], s[n - 1]), Gt(s[n - 1], f[n - 1]))
  }

  /** The loop of backtest(): positions bar by bar. */
  method EventPositions(long: seq<bool>, short: seq<bool>) returns (pos: seq<Position>)
    requires |long| == |short|
    ensures |pos| == |long| && forall i | 0 <= i < |pos| :: pos[i] == EventState(long, short, i + 1)
  {
    pos := [];
    var state: Position := 0;
    for i := 0 to |long|
      invariant |pos| == i && state == EventState(long, short, i)
      invariant forall k | 0 <= k < i :: pos[k] == EventState(long, short, k + 1)
    {
      if state == 0 && long[i] {
        state := 1;
      } else if state == 1 && short[i] {
        state := 0;
      }
      pos := pos + [state];
    }
  }

  /** The loop of strategy_sma(). */
  method LevelPositions(f: seq<Option<Mean>>, s: seq<Option<Mean>>) returns (signal: seq<Position>)
    requires |f| == |s|
    ensures |signal| == |f| && forall i | 0 <= i < |f| :: signal[i] == LevelState(f, s, i + 1)
  {
    signal := [];
    var state: Position := 0;
    for i := 0 to |f|
      invariant |signal| == i && state == LevelState(f, s, i)
      invariant forall k | 0 <= k < i :: signal[k] == LevelState(f, s, k + 1)
    {
      if f[i].Some? && s[i].Some? {
        if state == 0 && Gt(f[i], s[i]) {
          state := 1;
        } else if state == 1 && Gt(s[i], f[i]) {
          state := 0;
        }
      }
      signal := signal + [state];
    }
  }

  /** The loop of backtest_sma(): an error below `slow` bars, and bar 1 stays flat. */
  method JuliaPositions(f: seq<Option<Mean>>, s: seq<Option<Mean>>, slow: Window) returns (pos: Option<seq<Position>>)
    requires |f| == |s|
    ensures pos.None? <==> |f| < slow
    ensures pos.Some? ==> |pos.value| == |f| && forall i | 0 <= i < |f| :: pos.value[i] == JuliaState(f, s, i + 1)
  {
    if |f| < slow {
      return None;
    }
    var p: seq<Position> := [0];
    var state: Position := 0;
    for i := 1 to |f|
      invariant |p| == i && state == JuliaState(f, s, i)
      invariant forall k | 0 <= k < i :: p[k] == JuliaState(f, s, k + 1)
    {
      if state == 0 && f[i].Some? && Gt(f[i], s[i]) {
        state := 1;
      } else if state == 1 && Gt(s[i], f[i]) {
        state := 0;
      }
      p := p + [state];
    }
    pos := Some(p);
  }

  // ----- On moving averages of one close series -----

  function Smas(close: seq<real>, w: Window): seq<Option<Mean>> {
    seq(|close|, i requires 0 <= i < |close| => Sma(close, w, i))
  }

  function Longs(close: seq<real>, fast: Window, slow: Window): seq<bool> {
    seq(|close|, i requires 0 <= i < |close| => LongAt(close, fast, slow, i))
  }

  function Shorts(close: seq<real>, fast: Window, slow: Window): seq<bool> {
    seq(|close|, i requires 0 <= i < |close| => ShortAt(close, fast, slow, i))
  }

  /** Python's position at bar `i`. */
  function EventAt(close: seq<real>, fast: Window, slow: Window, i: nat): Position
    requires i < |close|
  {
    EventState(Longs(close, fast, slow), Shorts(close, fast, slow), i + 1)
  }

  /** R's position at bar `i`. */
  function LevelAt(close: seq<real>, fast: Window, slow: Window, i: nat): Position
    requires i < |close|
  {
    LevelState(Smas(close, fast), Smas(close, slow), i + 1)
  }

  /** The first bar with both averages. */
  function FirstBoth(fast: Window, slow: Window): nat {
    (if fast < slow then slow else fast) - 1
  }

  function FastMean(close: seq<real>, fast: Window, slow: Window, i: nat): real
    requires FirstBoth(fast, slow) <= i < |close|
  {
    Sma(close, fast, i).value.Value()
  }

  function SlowMean(close: seq<real>, fast: Window, slow: Window, i: nat): real
    requires FirstBoth(fast, slow) <= i < |close|
  {
    Sma(close, slow, i).value.Value()
  }

  /** Julia and R hold the same positions on any series and windows: bar 1 alone never triggers. */
  lemma {:induction false} JuliaIsR(close: seq<real>, fast: Window, slow: Window, n: nat)
    requires n <= |close|
    ensures JuliaState(Smas(close, fast), Smas(close, slow), n) == LevelState(Smas(close, fast), Smas(close, slow), n)
  {
    if n > 1 {
      JuliaIsR(close, fast, slow, n - 1);
    }
  }

  /** Before both averages exist, neither machine moves. */
  lemma {:induction false} FlatBeforeBoth(close: seq<real>, fast: Window, slow: Window, i: nat)
    requires i < |close| && i <= FirstBoth(fast, slow)
    ensures EventAt(close, fast, slow, i) == 0
    ensures i < FirstBoth(fast, slow) ==> LevelAt(close, fast, slow, i) == 0
  {
    if i > 0 {
      FlatBeforeBoth(close, fast, slow, i - 1);
    } else {
      assert EventState(Longs(close, fast, slow), Shorts(close, fast, slow), 0) == 0;
      assert LevelState(Smas(close, fast), Smas(close, slow), 0) == 0;
    }
  }

  /** A position never faces a strictly opposite pair of averages in the level machine. */
  lemma {:induction false} LevelFollowsAverages(close: seq<real>, fast: Window, slow: Window, i: nat)
    requires FirstBoth(fast, slow) <= i < |close|
    ensures var f, s := FastMean(close, fast, slow, i), SlowMean(close, fast, slow, i);
            if LevelAt(close, fast, slow, i) == 1 then f >= s else f <= s
  {
  }

  /** Holding in the event machine means the fast average is not below. */
  lemma {:induction false} EventHoldsAbove(close: seq<real>, fast: Window, slow: Window, i: nat)
    requires FirstBoth(fast, slow) <= i < |close| && EventAt(close, fast, slow, i) == 1
    ensures FastMean(close, fast, slow, i) >= SlowMean(close, fast, slow, i)
  {
    if i == FirstBoth(fast, slow) {
      FlatBeforeBoth(close, fast, slow, i);
    } else if EventAt(close, fast, slow, i - 1) == 1 {
      EventHoldsAbove(close, fast, slow, i - 1);
    }
  }

  /** Once in step, the machines stay in step. */
  lemma {:induction false} InStepFrom(close: seq<real>, fast: Window, slow: Window, j: nat, i: nat)
    requires FirstBoth(fast, slow) <= j <= i < |close|
    requires EventAt(close, fast, slow, j) == LevelAt(close, fast, slow, j)
    ensures EventAt(close, fast, slow, i) == LevelAt(close, fast, slow, i)
    decreases i
  {
    if j < i {
      InStepFrom(close, fast, slow, j, i - 1);
      LevelFollowsAverages(close, fast, slow, i - 1);
    }
  }

  /** They are in step from the first bar with the fast average below, at the latest. */
  lemma {:induction false} InStepOnceBelow(close: seq<real>, fast: Window, slow: Window, j: nat, i: nat)
    requires FirstBoth(fast, slow) <= j <= i < |close|
    requires FastMean(close, fast, slow, j) < SlowMean(close, fast, slow, j)
    ensures EventAt(close, fast, slow, i) == LevelAt(close, fast, slow, i)
  {
    LevelFollowsAverages(close, fast, slow, j);
    if EventAt(close, fast, slow, j) == 1 {
      EventHoldsAbove(close, fast, slow, j);
    }
    InStepFrom(close, fast, slow, j, i);
  }

  /** Events and levels give the same position at every bar exactly when the first bar with both
      averages does not already have the fast one above. */
  lemma {:induction false} EventsAreLevelsExactly(close: seq<real>, fast: Window, slow: Window)
    ensures (forall i: nat | i < |close| :: EventAt(close, fast, slow, i) == LevelAt(close, fast, slow, i))
            <==> var m := FirstBoth(fast, slow);
                 m < |close| ==> FastMean(close, fast, slow, m) <= SlowMean(close, fast, slow, m)
  {
    var m := FirstBoth(fast, slow);
    if m < |close| {
      FlatBeforeBoth(close, fast, slow, m);
      LevelFollowsAverages(close, fast, slow, m);
      LevelAtFirstBoth(close, fast, slow);
    }
    forall i: nat | i < |close| && (m < |close| ==> FastMean(close, fast, slow, m) <= SlowMean(close, fast, slow, m))
      ensures EventAt(close, fast, slow, i) == LevelAt(close, fast, slow, i)
    {
      if i < m {
        FlatBeforeBoth(close, fast, slow, i);
      } else {
        InStepFrom(close, fast, slow, m, i);
      }
    }
  }

  lemma {:induction false} LevelAtFirstBoth(close: seq<real>, fast: Window, slow: Window)
    requires FirstBoth(fast, slow) < |close|
    ensures var m := FirstBoth(fast, slow);
            LevelAt(close, fast, slow, m) ==
            if FastMean(close, fast, slow, m) > SlowMean(close, fast, slow, m) then 1 else 0
  {
    var m := FirstBoth(fast, slow);
    if m > 0 {
      FlatBeforeBoth(close, fast, slow, m - 1);
    } else {
      assert LevelState(Smas(close, fast), Smas(close, slow), 0) == 0;
    }
  }

  /** Two bars that rise: the averages of 1 and 2 bars are first both there on the second, the fast one above.
      The level machine buys; there was no cross, so the event machine does not. */
  lemma {:induction false} EventsCanLag(close: seq<real>)
    requires close == [1.0, 2.0]
    ensures FirstBoth(1, 2) == 1
    ensures EventAt(close, 1, 2, 1) == 0 && LevelAt(close, 1, 2, 1) == 1
  {
    FlatBeforeBoth(close, 1, 2, 1);
    LevelAtFirstBoth(close, 1, 2);
    assert close[1..2] == [2.0] && close[0..2] == [1.0, 2.0];
    assert [2.0][..0] == [] && [1.0, 2.0][..1] == [1.0] && [1.0][..0] == [];
    assert FastMean(close, 1, 2, 1) == 2.0 / 1.0 && SlowMean(close, 1, 2, 1) == 3.0 / 2.0;
  }
}
