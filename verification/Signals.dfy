/** The online detectors of python/strategy_bot/signals.py. */
module Signals {
  import opened Text
  import opened Series

  datatype TradeEvent = TradeEvent(symbol: string, price: real)

  datatype Kind = MaCrossUp | MaCrossDown | PriceJumpUp | PriceJumpDown

  datatype Signal = Signal(symbol: string, kind: Kind, price: real)

  /** The prices of one symbol, in arrival order. */
  function PricesOf(events: seq<TradeEvent>, symbol: string): seq<real> {
    if events == [] then []
    else
      var rest, last := PricesOf(events[..|events| - 1], symbol), events[|events| - 1];
      if last.symbol == symbol then rest + [last.price] else rest
  }

  lemma {:induction false} PricesGrow(events: seq<TradeEvent>, ev: TradeEvent, symbol: string)
    ensures ev.symbol == symbol ==> PricesOf(events + [ev], symbol) == PricesOf(events, symbol) + [ev.price]
    ensures ev.symbol != symbol ==> PricesOf(events + [ev], symbol) == PricesOf(events, symbol)
  {
    assert (events + [ev])[..|events|] == events;
  }

  // ----- Moving-average crosses -----

  /** How many prices the detector keeps. */
  function Cap(slow: Window): nat {
    slow + 2
  }

  /** Both averages of a window, once it holds `slow` prices. Slices clip like Python's. */
  function Snapshot(win: seq<real>, fast: Window, slow: Window): Option<(Mean, Mean)>
  {
    if |win| < slow then None
    else Some((Mean(Sum(Tail(win, fast)), fast), Mean(Sum(Tail(win, slow)), slow)))
  }

  /** The crosses a detector reports between two windows. */
  function StreamCross(before: seq<real>, after: seq<real>, fast: Window, slow: Window): seq<Kind>
  {
    CrossOf(Snapshot(before, fast, slow), Snapshot(after, fast, slow))
  }

  function CrossOf(prev: Option<(Mean, Mean)>, cur: Option<(Mean, Mean)>): seq<Kind> {
    if prev.None? || cur.None? then []
    else
      var f0, s0 := prev.value.0.Value(), prev.value.1.Value();
      var f1, s1 := cur.value.0.Value(), cur.value.1.Value();
      if f0 <= s0 && f1 > s1 then [MaCrossUp]
      else if f0 >= s0 && f1 < s1 then [MaCrossDown]
      else []
  }

  /** The same crosses, from the batch definition over the whole history. */
  function BatchCross(close: seq<real>, i: nat, fast: Window, slow: Window): seq<Kind>
    requires i < |close|
  {
    if LongAt(close, fast, slow, i) then [MaCrossUp]
    else if ShortAt(close, fast, slow, i) then [MaCrossDown]
    else []
  }

  /** A pair of averages that is there only once the slow one is. */
  predicate Paired(pair: Option<(Mean, Mean)>, f: Option<Mean>, s: Option<Mean>) {
    && (s.Some? ==> f.Some?)
    && pair == if s.Some? then Some((f.value, s.value)) else None
  }

  /** On a deque of slow + 2 prices, the snapshot is the pair of rolling means at the last bar. */
  lemma {:induction false} SnapshotIsRolling(close: seq<real>, win: seq<real>, n: nat, fast: Window, slow: Window)
    requires fast <= slow && 0 < n <= |close| && win == Tail(close[..n], Cap(slow))
    ensures Paired(Snapshot(win, fast, slow), Sma(close, fast, n - 1), Sma(close, slow, n - 1))
  {
    if n >= slow {
      assert Tail(win, fast) == close[n - fast..n];
      assert Tail(win, slow) == close[n - slow..n];
    }
  }

  lemma {:induction false} TailOfTail(xs: seq<real>, cap: nat, n: nat, m: nat)
    requires m <= |xs| && m == if n <= cap && n <= |xs| then n else if cap <= |xs| then cap else |xs|
    ensures Tail(Tail(xs, cap), n) == xs[|xs| - m..]
  {
  }

  /** With any windows: the slow average is over `slow` prices, the fast one over no more than the slow + 2 kept. */
  lemma {:induction false} SnapshotIsClipped(past: seq<real>, win: seq<real>, fast: Window, slow: Window, cap: nat,
                                             n: nat)
    requires slow <= |past| && cap == slow + 2 && win == Tail(past, Cap(slow))
    requires n == if fast <= cap && fast <= |past| then fast else if cap <= |past| then cap else |past|
    ensures Snapshot(win, fast, slow)
         == Some((Mean(Sum(past[|past| - n..]), fast), Mean(Sum(past[|past| - slow..]), slow)))
  {
    TailOfTail(past, cap, fast, n);
    TailOfTail(past, cap, slow, slow);
  }

  /** Two bars of averages decide the same cross in both forms. */
  lemma {:induction false} CrossesAgree(close: seq<real>, i: nat, fast: Window, slow: Window,
                                        prev: Option<(Mean, Mean)>, cur: Option<(Mean, Mean)>)
    requires i < |close|
    requires Paired(cur, Sma(close, fast, i), Sma(close, slow, i))
    requires i == 0 ==> prev.None?
    requires i > 0 ==> Paired(prev, Sma(close, fast, i - 1), Sma(close, slow, i - 1))
    ensures CrossOf(prev, cur) == BatchCross(close, i, fast, slow)
  {
  }

  /** On the deques before and after bar `i`, the stream reports the batch cross at bar `i`. */
  lemma {:induction false} StreamEqualsBatch(close: seq<real>, i: nat, before: seq<real>, after: seq<real>,
                                             fast: Window, slow: Window)
    requires fast <= slow && i < |close|
    requires before == Tail(close[..i], Cap(slow)) && after == Tail(close[..i + 1], Cap(slow))
    ensures StreamCross(before, after, fast, slow) == BatchCross(close, i, fast, slow)
  {
    SnapshotIsRolling(close, after, i + 1, fast, slow);
    if i > 0 {
      SnapshotIsRolling(close, before, i, fast, slow);
    }
    CrossesAgree(close, i, fast, slow, Snapshot(before, fast, slow), Snapshot(after, fast, slow));
  }

  /** Every tick of every history reports the batch cross. */
  ghost predicate StreamAlwaysBatch(fast: Window, slow: Window) {
    forall close, i: nat | i < |close| ::
      StreamCross(Tail(close[..i], Cap(slow)), Tail(close[..i + 1], Cap(slow)), fast, slow)
      == BatchCross(close, i, fast, slow)
  }

  /** With a fast window longer than the slow one, the stream averages too few prices. */
  lemma {:induction false} ShortSlowDiverges(fast: Window, slow: Window) returns (close: seq<real>)
    requires slow < fast
    ensures |close| == slow + 1
    ensures StreamCross(Tail(close[..slow], Cap(slow)), Tail(close[..slow + 1], Cap(slow)), fast, slow) == [MaCrossUp]
    ensures BatchCross(close, slow, fast, slow) == []
  {
    close := [1.0] + Zeros(slow);
    var before := [1.0] + Zeros(slow - 1);
    SumOneThenZeros(slow - 1);
    SumOneThenZeros(slow);
    SumZeros(slow);
    assert close[..slow] == before && close[..slow + 1] == close;
    assert Snapshot(before, fast, slow) == Some((Mean(1.0, fast), Mean(1.0, slow)));
    assert Tail(close, slow) == Zeros(slow);
    assert Snapshot(close, fast, slow) == Some((Mean(1.0, fast), Mean(0.0, slow)));
    OverLarger(slow, fast);
  }

  lemma {:induction false} OverLarger(slow: Window, fast: Window)
    requires slow < fast
    ensures 0.0 < 1.0 / fast as real <= 1.0 / slow as real
  {
    assert (1.0 / fast as real) * fast as real == 1.0;
    assert (1.0 / slow as real) * slow as real == 1.0;
  }

  lemma {:induction false} SumOneThenZeros(n: nat)
    ensures Sum([1.0] + Zeros(n)) == 1.0
  {
    var xs := [1.0] + Zeros(n);
    if n > 0 {
      SumOneThenZeros(n - 1);
      assert xs[..n] == [1.0] + Zeros(n - 1);
    } else {
      assert xs[..0] == [];
    }
  }

  /** Stream and batch agree on every history exactly when the fast window is not the longer one. */
  lemma {:induction false} StreamIsBatchExactly(fast: Window, slow: Window)
    ensures StreamAlwaysBatch(fast, slow) <==> fast <= slow
  {
    if fast <= slow {
      forall close, i: nat | i < |close|
        ensures StreamCross(Tail(close[..i], Cap(slow)), Tail(close[..i + 1], Cap(slow)), fast, slow)
             == BatchCross(close, i, fast, slow)
      {
        StreamEqualsBatch(close, i, Tail(close[..i], Cap(slow)), Tail(close[..i + 1], Cap(slow)), fast, slow);
      }
    } else {
      var close := ShortSlowDiverges(fast, slow);
    }
  }

  /** deque(maxlen = n).append */
  function Push(win: seq<real>, x: real, n: nat): seq<real> {
    Tail(win + [x], n)
  }

  lemma {:induction false} PushTail(xs: seq<real>, x: real, n: nat)
    ensures Push(Tail(xs, n), x, n) == Tail(xs + [x], n)
  {
  }

  function SignalsOf(ev: TradeEvent, kinds: seq<Kind>): (out: seq<Signal>)
    ensures |out| == |kinds|
    ensures forall i | 0 <= i < |out| ::
              out[i].symbol == ev.symbol && out[i].kind == kinds[i] && out[i].price == ev.price
  {
    seq(|kinds|, i requires 0 <= i < |kinds| => Signal(ev.symbol, kinds[i], ev.price))
  }

  class MovingAverageDetector {
    const fast: Window
    const slow: Window
    var win: map<string, seq<real>>
    /** every event fed so far */
    ghost var fed: seq<TradeEvent>

    ghost predicate Valid()
      reads this
    {
      Windows(win, fed, Cap(slow))
    }

    constructor (fast: Window, slow: Window)
      ensures Valid() && fed == [] && this.fast == fast && this.slow == slow
    {
      this.fast, this.slow, win, fed := fast, slow, map[], [];
    }

    /** Whatever was interleaved before, the report is the cross of the symbol's own full history. */
    method Feed(ev: TradeEvent) returns (out: seq<Signal>)
      requires Valid()
      modifies this
      ensures Valid() && fed == old(fed) + [ev]
      ensures forall s | s in out :: s.symbol == ev.symbol && s.price == ev.price
      ensures out == SignalsOf(ev, Reported(PricesOf(old(fed), ev.symbol), ev.price, fast, slow))
    {
      var before := if ev.symbol in win then win[ev.symbol] else [];
      var after := Push(before, ev.price, Cap(slow));
      WindowsAfter(win, fed, ev, Cap(slow), before, after);
      win := win[ev.symbol := after];
      fed := fed + [ev];
      out := SignalsOf(ev, StreamCross(before, after, fast, slow));
    }
  }

  /** Each symbol's deque holds the tail of that symbol's prices, and nothing is kept for the rest. */
  ghost predicate Windows(win: map<string, seq<real>>, fed: seq<TradeEvent>, cap: nat) {
    && (forall s | s in win :: win[s] == Tail(PricesOf(fed, s), cap))
    && (forall s | s !in win :: PricesOf(fed, s) == [])
  }

  lemma {:induction false} WindowsAfter(win: map<string, seq<real>>, fed: seq<TradeEvent>, ev: TradeEvent, cap: nat,
                                        before: seq<real>, after: seq<real>)
    requires Windows(win, fed, cap)
    requires before == if ev.symbol in win then win[ev.symbol] else []
    requires after == Push(before, ev.price, cap)
    ensures before == Tail(PricesOf(fed, ev.symbol), cap)
    ensures after == Tail(PricesOf(fed, ev.symbol) + [ev.price], cap)
    ensures Windows(win[ev.symbol := after], fed + [ev], cap)
  {
    PushTail(PricesOf(fed, ev.symbol), ev.price, cap);
    forall s {
      PricesGrow(fed, ev, s);
    }
  }

  /** What the detector reports when `price` follows the history `past`. */
  function Reported(past: seq<real>, price: real, fast: Window, slow: Window): seq<Kind> {
    StreamCross(Tail(past, Cap(slow)), Tail(past + [price], Cap(slow)), fast, slow)
  }

  lemma {:induction false} ReportedIsBatch(past: seq<real>, price: real, fast: Window, slow: Window)
    requires fast <= slow
    ensures Reported(past, price, fast, slow) == BatchCross(past + [price], |past|, fast, slow)
  {
    var close := past + [price];
    assert close[..|past|] == past && close[..|past| + 1] == close;
    StreamEqualsBatch(close, |past|, Tail(past, Cap(slow)), Tail(close, Cap(slow)), fast, slow);
  }

  // ----- Price jumps -----

  datatype Jump = Quiet | Fired(kind: Kind) | DividesByZero

  function PercentChange(ref: real, x: real): real
    requires ref != 0.0
  {
    (x - ref) / ref * 100.0
  }

  /** The verdict on price `x` against the oldest price in a full window. */
  function Judge(threshold: real): (real, real) -> Jump {
    (ref: real, x: real) =>
      if ref == 0.0 then DividesByZero
      else
        var change := PercentChange(ref, x);
        if (if change < 0.0 then -change else change) < threshold then Quiet
        else Fired(if change > 0.0 then PriceJumpUp else PriceJumpDown)
  }

  /** One tick: append, and on a full window compare its oldest price with `x`; firing clears it. */
  function JumpStep(win: seq<real>, x: real, window: Window, judge: (real, real) -> Jump): (seq<real>, Jump) {
    var after := Push(win, x, window);
    var jump := if |after| < window then Quiet else judge(after[0], x);
    (if jump.Fired? then [] else after, jump)
  }

  /** A symbol's deque and what each of its ticks reported. */
  datatype JumpLog = JumpLog(win: seq<real>, ticks: seq<Jump>)

  function JumpRun(prices: seq<real>, window: Window, judge: (real, real) -> Jump): JumpLog {
    if prices == [] then JumpLog([], [])
    else
      var past := JumpRun(prices[..|prices| - 1], window, judge);
      var (after, jump) := JumpStep(past.win, prices[|prices| - 1], window, judge);
      JumpLog(after, past.ticks + [jump])
  }

  lemma {:induction false} JumpRunOneMore(past: seq<real>, price: real, window: Window, judge: (real, real) -> Jump)
    ensures var log := JumpRun(past, window, judge);
            var (after, jump) := JumpStep(log.win, price, window, judge);
            JumpRun(past + [price], window, judge) == JumpLog(after, log.ticks + [jump])
  {
    assert (past + [price])[..|past|] == past;
  }

  /** The deque is the last prices since the last firing, at most `window` of them. */
  ghost predicate LogShape(prices: seq<real>, log: JumpLog, window: Window) {
    var start := |prices| - |log.win|;
    && |log.ticks| == |prices| && |log.win| <= window && 0 <= start
    && log.win == prices[start..]
    && (forall j | start <= j < |prices| :: !log.ticks[j].Fired?)
    && (|log.win| < window && 0 < start ==> log.ticks[start - 1].Fired?)
  }

  lemma {:induction false} LogShapeStep(past: seq<real>, price: real, log: JumpLog, window: Window,
                                        judge: (real, real) -> Jump)
    requires LogShape(past, log, window)
    ensures var (after, jump) := JumpStep(log.win, price, window, judge);
            LogShape(past + [price], JumpLog(after, log.ticks + [jump]), window)
  {
    var prices, start := past + [price], |past| - |log.win|;
    assert log.win + [price] == prices[start..];
    var pushed := Push(log.win, price, window);
    assert pushed == prices[|prices| - |pushed|..];
  }

  lemma {:induction false} JumpRunShape(prices: seq<real>, window: Window, judge: (real, real) -> Jump)
    ensures LogShape(prices, JumpRun(prices, window, judge), window)
  {
    if prices != [] {
      var past, price := prices[..|prices| - 1], prices[|prices| - 1];
      JumpRunShape(past, window, judge);
      LogShapeStep(past, price, JumpRun(past, window, judge), window, judge);
      assert past + [price] == prices;
    }
  }

  lemma {:induction false} JumpRunPrefix(prices: seq<real>, n: nat, window: Window, judge: (real, real) -> Jump)
    requires n <= |prices|
    ensures JumpRun(prices[..n], window, judge).ticks <= JumpRun(prices, window, judge).ticks
    decreases |prices|
  {
    if n == |prices| {
      assert prices[..n] == prices;
    } else {
      var past := prices[..|prices| - 1];
      JumpRunPrefix(past, n, window, judge);
      assert past[..n] == prices[..n];
    }
  }

  /** Appending to a history of known shape: the oldest price compared, and when there is one. */
  lemma {:induction false} PushedOldest(past: seq<real>, price: real, log: JumpLog, window: Window)
    requires LogShape(past, log, window)
    ensures var pushed := Push(log.win, price, window);
            && (|pushed| == window <==> window <= |log.win| + 1)
            && (|pushed| == window ==> window <= |past| + 1 && pushed[0] == (past + [price])[|past| + 1 - window])
  {
  }

  /** A tick fires exactly when it is `window` ticks clear of the last firing and the verdict against
      the price `window` - 1 ticks earlier says so. */
  lemma {:induction false} JumpExactly(past: seq<real>, price: real, window: Window, judge: (real, real) -> Jump)
    ensures var ticks := JumpRun(past + [price], window, judge).ticks;
            var from := |past| + 1 - window;
            && |ticks| == |past| + 1
            && (ticks[|past|].Fired? <==>
                  && 0 <= from
                  && (forall j | from <= j < |past| :: !ticks[j].Fired?)
                  && judge((past + [price])[from], price).Fired?)
  {
    var log := JumpRun(past, window, judge);
    JumpRunShape(past, window, judge);
    JumpRunOneMore(past, price, window, judge);
    PushedOldest(past, price, log, window);
    var start := |past| - |log.win|;
    if |log.win| + 1 < window && 0 < start {
      assert JumpRun(past + [price], window, judge).ticks[start - 1] == log.ticks[start - 1];
    }
  }

  /** A firing tick carries the verdict against that price. */
  lemma {:induction false} JumpedVerdict(past: seq<real>, price: real, window: Window, judge: (real, real) -> Jump)
    ensures Jumped(past, price, window, judge).Fired? ==>
              window <= |past| + 1
              && Jumped(past, price, window, judge) == judge((past + [price])[|past| + 1 - window], price)
  {
    JumpRunShape(past, window, judge);
    PushedOldest(past, price, JumpRun(past, window, judge), window);
  }

  /** Two firings of one symbol are at least `window` ticks apart. */
  lemma {:induction false} JumpSpacing(prices: seq<real>, i: nat, k: nat, window: Window, judge: (real, real) -> Jump)
    requires i < k < |prices|
    ensures var ticks := JumpRun(prices, window, judge).ticks;
            |ticks| == |prices| && (ticks[i].Fired? && ticks[k].Fired? ==> k - i >= window)
  {
    JumpRunShape(prices, window, judge);
    var past, upto := prices[..k], prices[..k + 1];
    assert past + [prices[k]] == upto;
    JumpRunPrefix(prices, k + 1, window, judge);
    JumpExactly(past, prices[k], window, judge);
    var ticks := JumpRun(upto, window, judge).ticks;
    assert ticks[i] == JumpRun(prices, window, judge).ticks[i] && ticks[k] == JumpRun(prices, window, judge).ticks[k];
  }

  function Firings(ticks: seq<Jump>): nat {
    if ticks == [] then 0
    else Firings(ticks[..|ticks| - 1]) + if ticks[|ticks| - 1].Fired? then 1 else 0
  }

  lemma {:induction false} CountStep(f: nat, f': nat, window: nat, size: nat, size': nat, n: nat)
    requires f * window + size <= n
    requires (f' == f + 1 && size' == 0 && window <= size + 1) || (f' == f && size' <= size + 1)
    ensures f' * window + size' <= n + 1
  {
    assert (f + 1) * window == f * window + window;
  }

  lemma {:induction false} FiringsStep(log: JumpLog, x: real, window: Window,
                                       judge: (real, real) -> Jump, next: JumpLog)
    requires |log.win| <= window
    requires var (after, jump) := JumpStep(log.win, x, window, judge);
             next == JumpLog(after, log.ticks + [jump])
    ensures || (Firings(next.ticks) == Firings(log.ticks) + 1 && next.win == [] && window <= |log.win| + 1)
            || (Firings(next.ticks) == Firings(log.ticks) && |next.win| <= |log.win| + 1)
  {
    assert next.ticks[..|log.ticks|] == log.ticks;
  }

  /** So n ticks hold at most n / window firings. */
  lemma {:induction false} FiringsBounded(prices: seq<real>, window: Window, judge: (real, real) -> Jump)
    ensures var log := JumpRun(prices, window, judge);
            Firings(log.ticks) * window + |log.win| <= |prices|
  {
    if prices != [] {
      var past, price := prices[..|prices| - 1], prices[|prices| - 1];
      FiringsBounded(past, window, judge);
      var log, next := JumpRun(past, window, judge), JumpRun(prices, window, judge);
      JumpRunShape(past, window, judge);
      FiringsStep(log, price, window, judge, next);
      CountStep(Firings(log.ticks), Firings(next.ticks), window, |log.win|, |next.win|, |past|);
    }
  }

  lemma {:induction false} QuotientAtLeast(change: real, ref: real, rise: real, threshold: real)
    requires ref != 0.0 && change * ref == rise
    ensures Abs(change) * Abs(ref) == Abs(rise)
    ensures Abs(change) >= threshold <==> Abs(rise) >= threshold * Abs(ref)
  {
    assert Abs(change) * Abs(ref) == Abs(rise);
    assert (Abs(change) - threshold) * Abs(ref) == Abs(rise) - threshold * Abs(ref);
  }

  /** What the verdict means, without a quotient: a zero reference raises, and otherwise it fires exactly when the
      price has moved by at least `threshold` percent of the reference, upward when the price over a positive
      reference is higher. */
  lemma {:induction false} JudgeFires(threshold: real, ref: real, x: real)
    ensures var jump := Judge(threshold)(ref, x);
            && (jump.DividesByZero? <==> ref == 0.0)
            && (ref != 0.0 ==> (jump.Fired? <==> Abs(x - ref) * 100.0 >= threshold * Abs(ref)))
            && (0.0 < threshold && jump.Fired? ==>
                  (jump.kind == if (x > ref <==> ref > 0.0) then PriceJumpUp else PriceJumpDown))
  {
    if ref != 0.0 {
      var change := PercentChange(ref, x);
      assert change * ref == (x - ref) * 100.0;
      QuotientAtLeast(change, ref, (x - ref) * 100.0, threshold);
    }
  }

  class PriceJumpDetector {
    const threshold: real
    const window: Window
    var state: map<string, seq<real>>
    ghost var fed: seq<TradeEvent>

    ghost predicate Valid()
      reads this
    {
      JumpWindows(state, fed, window, Judge(threshold))
    }

    constructor (threshold: real, window: Window)
      ensures Valid() && fed == [] && this.threshold == threshold && this.window == window
    {
      this.threshold, this.window, state, fed := threshold, window, map[], [];
    }

    /** The report on a symbol's own n-th tick; a zero reference price raises. */
    method Feed(ev: TradeEvent) returns (out: seq<Signal>, raised: bool)
      requires Valid()
      modifies this
      ensures Valid() && fed == old(fed) + [ev]
      ensures forall s | s in out :: s.symbol == ev.symbol && s.price == ev.price
      ensures var jump := Jumped(PricesOf(old(fed), ev.symbol), ev.price, window, Judge(threshold));
              && out == SignalsOf(ev, if jump.Fired? then [jump.kind] else [])
              && raised == jump.DividesByZero?
    {
      var judge := Judge(threshold);
      var before := if ev.symbol in state then state[ev.symbol] else [];
      var (after, jump) := JumpStep(before, ev.price, window, judge);
      JumpWindowsAfter(state, fed, ev, window, judge, before, after, jump);
      state := state[ev.symbol := after];
      fed := fed + [ev];
      out := SignalsOf(ev, if jump.Fired? then [jump.kind] else []);
      raised := jump.DividesByZero?;
    }
  }

  ghost predicate JumpWindows(state: map<string, seq<real>>, fed: seq<TradeEvent>, window: Window,
                              judge: (real, real) -> Jump) {
    && (forall s | s in state :: state[s] == JumpRun(PricesOf(fed, s), window, judge).win)
    && (forall s | s !in state :: PricesOf(fed, s) == [])
  }

  /** What the detector reports when `price` follows the history `past`. */
  function Jumped(past: seq<real>, price: real, window: Window, judge: (real, real) -> Jump): Jump {
    JumpStep(JumpRun(past, window, judge).win, price, window, judge).1
  }

  /** The report of the object is the last tick of the symbol's own run. */
  lemma {:induction false} JumpedIsLastTick(past: seq<real>, price: real, window: Window, judge: (real, real) -> Jump)
    ensures JumpRun(past + [price], window, judge).ticks
         == JumpRun(past, window, judge).ticks + [Jumped(past, price, window, judge)]
  {
    JumpRunOneMore(past, price, window, judge);
  }

  lemma {:induction false} JumpWindowsAfter(state: map<string, seq<real>>, fed: seq<TradeEvent>, ev: TradeEvent,
                                            window: Window, judge: (real, real) -> Jump,
                         before: seq<real>, after: seq<real>, jump: Jump)
    requires JumpWindows(state, fed, window, judge)
    requires before == if ev.symbol in state then state[ev.symbol] else []
    requires (after, jump) == JumpStep(before, ev.price, window, judge)
    ensures JumpWindows(state[ev.symbol := after], fed + [ev], window, judge)
    ensures jump == Jumped(PricesOf(fed, ev.symbol), ev.price, window, judge)
  {
    JumpRunOneMore(PricesOf(fed, ev.symbol), ev.price, window, judge);
    assert before == JumpRun(PricesOf(fed, ev.symbol), window, judge).win;
    forall s {
      PricesGrow(fed, ev, s);
    }
  }
}
