/** Price series and moving averages, with None for pandas' and Julia's NaN. */
module Series {
  import opened Text

  function Sum(xs: seq<real>): real {
    if xs == [] then 0.0 else Sum(xs[..|xs| - 1]) + xs[|xs| - 1]
  }

  /** A window length. */
  type Window = n: nat | 1 <= n witness 1

  /** A mean, kept as sum and count; comparisons look at the quotient. */
  datatype Mean = Mean(sum: real, n: Window) {
    function Value(): real {
      sum / n as real
    }
  }

  /** Rolling mean ending at bar `i`; no value until `w` bars are in. */
  function Sma(close: seq<real>, w: Window, i: nat): Option<Mean>
    requires i < |close|
  {
    if i + 1 < w then None else Some(Mean(Sum(close[i + 1 - w..i + 1]), w))
  }

  // Comparisons with a missing value are false.

  predicate Gt(x: Option<Mean>, y: Option<Mean>) {
    x.Some? && y.Some? && x.value.Value() > y.value.Value()
  }

  predicate Le(x: Option<Mean>, y: Option<Mean>) {
    x.Some? && y.Some? && x.value.Value() <= y.value.Value()
  }

  /** Fast average crosses above the slow one at bar `i` (python/backtester/strategies.py). */
  predicate LongAt(close: seq<real>, fast: Window, slow: Window, i: nat)
    requires i < |close|
  {
    && 1 <= i
    && Gt(Sma(close, fast, i), Sma(close, slow, i))
    && Le(Sma(close, fast, i - 1), Sma(close, slow, i - 1))
  }

  predicate ShortAt(close: seq<real>, fast: Window, slow: Window, i: nat)
    requires i < |close|
  {
    && 1 <= i
    && Gt(Sma(close, slow, i), Sma(close, fast, i))
    && Le(Sma(close, slow, i - 1), Sma(close, fast, i - 1))
  }

  // ----- What a mean is -----

  lemma {:induction false} SumAdds(a: seq<real>, b: seq<real>)
    ensures Sum(a + b) == Sum(a) + Sum(b)
  {
    if b == [] {
      assert a + b == a;
    } else {
      var init := b[..|b| - 1];
      SumAdds(a, init);
      assert (a + b)[..|a + b| - 1] == a + init;
    }
  }

  lemma {:induction false} SumOfOne(x: real)
    ensures Sum([x]) == x
  {
    assert [x][..0] == [];
  }

  lemma {:induction false} SumOfEquals(xs: seq<real>, p: real)
    requires forall k | 0 <= k < |xs| :: xs[k] == p
    ensures Sum(xs) == |xs| as real * p
  {
    if xs != [] {
      SumOfEquals(xs[..|xs| - 1], p);
      assert (|xs| - 1) as real * p + p == |xs| as real * p;
    }
  }

  lemma {:induction false} ValueTimesCount(m: Mean)
    ensures m.n as real * m.Value() == m.sum
  {
  }

  /** A full window of one price has that price as its mean; a window not yet full has none. */
  lemma {:induction false} MeanOfEquals(close: seq<real>, w: Window, i: nat, p: real)
    requires i < |close|
    ensures Sma(close, w, i).Some? <==> w <= i + 1
    ensures w <= i + 1 && (forall k | i + 1 - w <= k <= i :: close[k] == p) ==> Sma(close, w, i).value.Value() == p
  {
    if w <= i + 1 && forall k | i + 1 - w <= k <= i :: close[k] == p {
      var win := close[i + 1 - w..i + 1];
      SumOfEquals(win, p);
      ValueTimesCount(Mean(Sum(win), w));
      assert w as real * Mean(Sum(win), w).Value() == w as real * p;
    }
  }

  /** From bar to bar the mean times its width moves by the price that comes in less the one that goes out. */
  lemma {:induction false} MeanSlides(close: seq<real>, w: Window, i: nat)
    requires w <= i < |close|
    ensures w as real * Sma(close, w, i).value.Value() - w as real * Sma(close, w, i - 1).value.Value()
         == close[i] - close[i - w]
  {
    var old', mid, new' := close[i - w..i], close[i + 1 - w..i], close[i + 1 - w..i + 1];
    assert old' == [close[i - w]] + mid && new' == mid + [close[i]];
    SumAdds([close[i - w]], mid);
    SumAdds(mid, [close[i]]);
    SumOfOne(close[i - w]);
    SumOfOne(close[i]);
    ValueTimesCount(Mean(Sum(old'), w));
    ValueTimesCount(Mean(Sum(new'), w));
  }

  function Zeros(n: nat): seq<real> {
    seq(n, _ => 0.0)
  }

  lemma {:induction false} SumZeros(n: nat)
    ensures Sum(Zeros(n)) == 0.0
  {
    if n > 0 {
      SumZeros(n - 1);
      assert Zeros(n)[..n - 1] == Zeros(n - 1);
    }
  }
}
