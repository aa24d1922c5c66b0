/** The detector loop of python/strategy_bot/run.py with its per-(symbol, kind) cooldown. */
module StrategyBot {
  import opened Text
  import opened Series
  import opened Signals

  const COOLDOWN_SEC := 60.0

  type Key = (string, Kind)

  /** A signal and the clock reading when it came up. */
  datatype Attempt = Attempt(signal: Signal, now: real)

  function KeyOf(a: Attempt): Key {
    (a.signal.symbol, a.signal.kind)
  }

  // ----- Thinning one key's times -----

  /** The last kept time; the defaultdict starts every key at 0. */
  function LastKept(kept: seq<real>): real {
    if kept == [] then 0.0 else kept[|kept| - 1]
  }

  /** Keep a time unless it comes less than a cooldown after the last kept one. */
  function Thin(times: seq<real>): seq<real> {
    if times == [] then []
    else
      var kept, t := Thin(times[..|times| - 1]), times[|times| - 1];
      if t - LastKept(kept) < COOLDOWN_SEC then kept else kept + [t]
  }

  /** Kept times are at least a cooldown apart, each also from time 0, whatever the clock does. */
  lemma {:induction false} ThinSpaced(times: seq<real>, i: nat, j: nat)
    requires i <= j < |Thin(times)|
    ensures Thin(times)[i] >= 60.0 * (i + 1) as real
    ensures Thin(times)[j] - Thin(times)[i] >= 60.0 * (j - i) as real
  {
    var kept := Thin(times[..|times| - 1]);
    if j < |kept| {
      ThinSpaced(times[..|times| - 1], i, j);
    } else if i < |kept| {
      ThinSpaced(times[..|times| - 1], i, |kept| - 1);
    } else if |kept| > 0 {
      ThinSpaced(times[..|times| - 1], |kept| - 1, |kept| - 1);
    }
  }

  /** An interval of `span` seconds holds at most span / 60 + 1 kept times. */
  lemma {:induction false} ThinRate(times: seq<real>, i: nat, j: nat, from: real, span: real)
    requires i <= j < |Thin(times)| && from <= Thin(times)[i] && Thin(times)[j] <= from + span
    ensures j - i + 1 <= (span / 60.0).Floor + 1
  {
    ThinSpaced(times, i, j);
    assert (j - i) as real <= span / 60.0;
  }

  ghost predicate Nondecreasing(times: seq<real>) {
    forall i, j | 0 <= i <= j < |times| :: times[i] <= times[j]
  }

  /** On a clock that never goes back, every time not kept lies within a cooldown after a kept one
      (or after time 0). */
  lemma {:induction false} ThinCovers(times: seq<real>, k: nat)
    requires Nondecreasing(times) && k < |times|
    ensures times[k] in Thin(times)
            || times[k] < 60.0
            || exists t :: t in Thin(times) && t <= times[k] < t + 60.0
  {
    var last := |times| - 1;
    var kept := Thin(times[..last]);
    if k < last {
      ThinCovers(times[..last], k);
      assert forall t | t in kept :: t in Thin(times);
    } else if Thin(times) == kept && kept != [] {
      ThinKeepsSome(times[..last], LastKept(kept));
      assert LastKept(kept) in Thin(times);
    } else if kept != Thin(times) {
      assert Thin(times)[|kept|] == times[k];
    }
  }

  lemma {:induction false} ThinKeepsSome(times: seq<real>, t: real)
    requires t in Thin(times)
    ensures t in times
  {
    var kept := Thin(times[..|times| - 1]);
    if t in kept {
      ThinKeepsSome(times[..|times| - 1], t);
    }
  }

  /** A selection of times, taken in order, a cooldown apart from each other and from time 0. */
  ghost predicate SpacedSelection(times: seq<real>, chosen: seq<nat>) {
    && (forall m | 0 <= m < |chosen| :: chosen[m] < |times| && times[chosen[m]] >= COOLDOWN_SEC)
    && (forall m, n | 0 <= m < n < |chosen| ::
          chosen[m] < chosen[n] && times[chosen[n]] - times[chosen[m]] >= COOLDOWN_SEC)
  }

  lemma {:induction false} SelectionBelow(times: seq<real>, chosen: seq<nat>, k: nat, last: nat)
    requires SpacedSelection(times, chosen) && k <= |chosen| && last < |times|
    requires 0 < k ==> chosen[k - 1] < last
    ensures SpacedSelection(times[..last], chosen[..k])
  {
  }

  lemma {:induction false} LastKeptInTime(times: seq<real>, last: nat)
    requires Nondecreasing(times) && last < |times| && Thin(times[..last]) != []
    ensures LastKept(Thin(times[..last])) <= times[last]
  {
    ThinKeepsSome(times[..last], LastKept(Thin(times[..last])));
    var i :| 0 <= i < last && times[..last][i] == LastKept(Thin(times[..last]));
  }

  /** The step of the greedy argument: what is chosen at the last time, greedy could keep too. */
  lemma {:induction false} GreedyStep(times: seq<real>, kept: seq<real>, t: real, c: nat, before: real)
    requires times != [] && kept == Thin(times[..|times| - 1]) && t == times[|times| - 1]
    requires c <= |kept| && t >= COOLDOWN_SEC
    requires kept != [] ==> LastKept(kept) <= t
    requires 0 < c == |kept| ==> LastKept(kept) <= before && t - before >= COOLDOWN_SEC
    ensures c + 1 <= |Thin(times)|
    ensures LastKept(Thin(times)) <= t
  {
  }

  /** The greedy thinning keeps as many times as any spaced selection, and no later. */
  lemma {:induction false} ThinOptimal(times: seq<real>, chosen: seq<nat>)
    requires Nondecreasing(times) && SpacedSelection(times, chosen)
    ensures |chosen| <= |Thin(times)|
    ensures 0 < |chosen| == |Thin(times)| ==> LastKept(Thin(times)) <= times[chosen[|chosen| - 1]]
    decreases |times|
  {
    if chosen != [] {
      assert chosen[0] < |times|;
      var last, c := |times| - 1, |chosen| - 1;
      var past, kept := times[..last], Thin(times[..last]);
      var k := if chosen[c] < last then c + 1 else c;
      SelectionBelow(times, chosen, k, last);
      ThinOptimal(past, chosen[..k]);
      assert forall m | 0 <= m < k :: past[chosen[..k][m]] == times[chosen[m]];
      if k == c {
        if kept != [] {
          LastKeptInTime(times, last);
        }
        GreedyStep(times, kept, times[last], c, if c > 0 then times[chosen[c - 1]] else 0.0);
      }
    }
  }

  // ----- What is sent -----

  /** When the attempts with this symbol and kind came up. */
  function TimesOf(attempts: seq<Attempt>, symbol: string, kind: Kind): seq<real> {
    if attempts == [] then []
    else
      var rest, a := TimesOf(attempts[..|attempts| - 1], symbol, kind), attempts[|attempts| - 1];
      if a.signal.symbol == symbol && a.signal.kind == kind then rest + [a.now] else rest
  }

  /** The attempts with this symbol and kind. */
  function Only(attempts: seq<Attempt>, symbol: string, kind: Kind): seq<Attempt> {
    if attempts == [] then []
    else
      var rest, a := Only(attempts[..|attempts| - 1], symbol, kind), attempts[|attempts| - 1];
      if a.signal.symbol == symbol && a.signal.kind == kind then rest + [a] else rest
  }

  /** The attempts that pass the cooldown of their own symbol and kind, in order. */
  function Sends(offered: seq<Attempt>): seq<Attempt> {
    if offered == [] then []
    else
      var sent, a := Sends(offered[..|offered| - 1]), offered[|offered| - 1];
      if a.now - LastKept(TimesOf(sent, a.signal.symbol, a.signal.kind)) < COOLDOWN_SEC then sent else sent + [a]
  }

  lemma {:induction false} TimesGrow(attempts: seq<Attempt>, a: Attempt, symbol: string, kind: Kind)
    ensures TimesOf(attempts + [a], symbol, kind)
         == TimesOf(attempts, symbol, kind)
            + if a.signal.symbol == symbol && a.signal.kind == kind then [a.now] else []
    ensures Only(attempts + [a], symbol, kind)
         == Only(attempts, symbol, kind) + if a.signal.symbol == symbol && a.signal.kind == kind then [a] else []
  {
    assert (attempts + [a])[..|attempts|] == attempts;
  }

  lemma {:induction false} SendsGrow(offered: seq<Attempt>, a: Attempt)
    ensures Sends(offered + [a])
         == Sends(offered)
            + (if a.now - LastKept(TimesOf(Sends(offered), a.signal.symbol, a.signal.kind)) < COOLDOWN_SEC then []
               else [a])
  {
    assert (offered + [a])[..|offered|] == offered;
  }

  lemma {:induction false} ThinGrow(times: seq<real>, t: real)
    ensures Thin(times + [t])
         == if t - LastKept(Thin(times)) < COOLDOWN_SEC then Thin(times) else Thin(times) + [t]
  {
    assert (times + [t])[..|times|] == times;
  }

  /** For every symbol and kind, the clock readings of what is sent are the thinning of the readings of what came
      up with that symbol and kind. */
  lemma {:induction false} SendsAreThinned(offered: seq<Attempt>, symbol: string, kind: Kind)
    ensures TimesOf(Sends(offered), symbol, kind) == Thin(TimesOf(offered, symbol, kind))
  {
    if offered != [] {
      var past, a := offered[..|offered| - 1], offered[|offered| - 1];
      SendsAreThinned(past, symbol, kind);
      assert offered == past + [a];
      SendsGrow(past, a);
      TimesGrow(Sends(past), a, symbol, kind);
      ThinGrow(TimesOf(past, symbol, kind), a.now);
    }
  }

  lemma {:induction false} OnlyKeepsTimes(attempts: seq<Attempt>, symbol: string, kind: Kind)
    ensures TimesOf(Only(attempts, symbol, kind), symbol, kind) == TimesOf(attempts, symbol, kind)
  {
    if attempts != [] {
      var past, a := attempts[..|attempts| - 1], attempts[|attempts| - 1];
      OnlyKeepsTimes(past, symbol, kind);
      TimesGrow(Only(past, symbol, kind), a, symbol, kind);
    }
  }

  /** Signals of another symbol or another kind never change what one symbol and kind sends. */
  lemma {:induction false} OthersDoNotMatter(offered: seq<Attempt>, symbol: string, kind: Kind)
    ensures Only(Sends(offered), symbol, kind) == Sends(Only(offered, symbol, kind))
  {
    if offered != [] {
      var past, a := offered[..|offered| - 1], offered[|offered| - 1];
      OthersDoNotMatter(past, symbol, kind);
      assert offered == past + [a];
      SendsGrow(past, a);
      TimesGrow(Sends(past), a, symbol, kind);
      if a.signal.symbol == symbol && a.signal.kind == kind {
        SendsGrow(Only(past, symbol, kind), a);
        OnlyKeepsTimes(Sends(past), symbol, kind);
      }
    }
  }

  // ----- The loop -----

  function LastSent(lastSent: map<Key, real>, key: Key): real {
    if key in lastSent then lastSent[key] else 0.0
  }

  /** The dictionary holds the time each symbol and kind was last sent at. */
  ghost predicate Remembers(lastSent: map<Key, real>, sent: seq<Attempt>) {
    forall symbol, kind :: LastSent(lastSent, (symbol, kind)) == LastKept(TimesOf(sent, symbol, kind))
  }

  /** One signal against the cooldown; a failing send changes nothing more. */
  method Offer(a: Attempt, lastSent: map<Key, real>, sent: seq<Attempt>, ghost offered: seq<Attempt>)
      returns (lastSent': map<Key, real>, sent': seq<Attempt>)
    requires sent == Sends(offered) && Remembers(lastSent, sent)
    ensures sent' == Sends(offered + [a]) && Remembers(lastSent', sent')
  {
    var key := KeyOf(a);
    if a.now - LastSent(lastSent, key) < COOLDOWN_SEC {
      lastSent', sent' := lastSent, sent;
    } else {
      lastSent', sent' := lastSent[key := a.now], sent + [a];
    }
    SendsGrow(offered, a);
    forall symbol, kind
      ensures sent' == sent + [a] ==>
                LastSent(lastSent', (symbol, kind)) == LastKept(TimesOf(sent', symbol, kind))
    {
      TimesGrow(sent, a, symbol, kind);
    }
  }

  // The parameters main() passes.
  const FAST: Window := 20
  const SLOW: Window := 60
  const THRESHOLD_PCT := 0.5
  const JUMP_WINDOW: Window := 100

  function CrossSignals(past: seq<TradeEvent>, ev: TradeEvent): seq<Signal> {
    SignalsOf(ev, Reported(PricesOf(past, ev.symbol), ev.price, FAST, SLOW))
  }

  function JumpOn(past: seq<TradeEvent>, ev: TradeEvent): Jump {
    Jumped(PricesOf(past, ev.symbol), ev.price, JUMP_WINDOW, Judge(THRESHOLD_PCT))
  }

  function JumpSignals(past: seq<TradeEvent>, ev: TradeEvent): seq<Signal> {
    var jump := JumpOn(past, ev);
    SignalsOf(ev, if jump.Fired? then [jump.kind] else [])
  }

  /** The signals of a whole stream: each event's cross before its jump. */
  function AllSignals(events: seq<TradeEvent>): seq<Signal> {
    if events == [] then []
    else
      var past, ev := events[..|events| - 1], events[|events| - 1];
      AllSignals(past) + CrossSignals(past, ev) + JumpSignals(past, ev)
  }

  /** Each signal with the clock reading taken for it. */
  function Stamped(signals: seq<Signal>, clock: nat -> real): seq<Attempt> {
    seq(|signals|, i requires 0 <= i < |signals| => Attempt(signals[i], clock(i)))
  }

  /** What the loop carries once the signals `raised` have been offered. */
  ghost predicate Carried(lastSent: map<Key, real>, sent: seq<Attempt>, reading: nat, raised: seq<Signal>,
                          clock: nat -> real) {
    sent == Sends(Stamped(raised, clock)) && Remembers(lastSent, sent) && reading == |raised|
  }

  method OfferAll(signals: seq<Signal>, clock: nat -> real, lastSent: map<Key, real>, sent: seq<Attempt>, reading: nat,
                  ghost raised: seq<Signal>)
      returns (lastSent': map<Key, real>, sent': seq<Attempt>, reading': nat)
    requires Carried(lastSent, sent, reading, raised, clock)
    ensures Carried(lastSent', sent', reading', raised + signals, clock)
  {
    lastSent', sent', reading' := lastSent, sent, reading;
    ghost var done := raised;
    for i := 0 to |signals|
      invariant done == raised + signals[..i] && Carried(lastSent', sent', reading', done, clock)
    {
      lastSent', sent', reading' := OfferNext(signals[i], clock, lastSent', sent', reading', done);
      OneMoreRaised(raised, signals, i);
      done := done + [signals[i]];
    }
    assert signals[..|signals|] == signals;
  }

  lemma {:induction false} OneMoreRaised(raised: seq<Signal>, signals: seq<Signal>, i: nat)
    requires i < |signals|
    ensures raised + signals[..i] + [signals[i]] == raised + signals[..i + 1]
  {
  }

  /** One signal at the next clock reading. */
  method OfferNext(signal: Signal, clock: nat -> real, lastSent: map<Key, real>, sent: seq<Attempt>, reading: nat,
                   ghost raised: seq<Signal>)
      returns (lastSent': map<Key, real>, sent': seq<Attempt>, reading': nat)
    requires Carried(lastSent, sent, reading, raised, clock)
    ensures Carried(lastSent', sent', reading', raised + [signal], clock)
  {
    var a := Attempt(signal, clock(reading));
    assert Stamped(raised + [signal], clock) == Stamped(raised, clock) + [a];
    lastSent', sent' := Offer(a, lastSent, sent, Stamped(raised, clock));
    reading' := reading + 1;
  }

  /** One event: the cross detector's signals, then the jump detector's, which may raise. */
  method OnEvent(ma: MovingAverageDetector, jump: PriceJumpDetector, ev: TradeEvent, clock: nat -> real,
                 lastSent: map<Key, real>, sent: seq<Attempt>, reading: nat, ghost raised: seq<Signal>)
      returns (lastSent': map<Key, real>, sent': seq<Attempt>, reading': nat, stop: bool)
    requires ma.Valid() && jump.Valid() && ma.fed == jump.fed && Tuned(ma, jump)
    requires Carried(lastSent, sent, reading, raised, clock)
    modifies ma, jump
    ensures ma.Valid() && jump.Valid() && ma.fed == jump.fed == old(ma.fed) + [ev]
    ensures stop <==> JumpOn(old(ma.fed), ev).DividesByZero?
    ensures var crosses := raised + CrossSignals(old(ma.fed), ev);
            Carried(lastSent', sent', reading', if stop then crosses else crosses + JumpSignals(old(ma.fed), ev), clock)
  {
    var crosses := ma.Feed(ev);
    lastSent', sent', reading' := OfferAll(crosses, clock, lastSent, sent, reading, raised);
    var jumps;
    jumps, stop := jump.Feed(ev);
    if !stop {
      lastSent', sent', reading' := OfferAll(jumps, clock, lastSent', sent', reading', raised + crosses);
    }
  }

  predicate Tuned(ma: MovingAverageDetector, jump: PriceJumpDetector) {
    ma.fast == FAST && ma.slow == SLOW && jump.threshold == THRESHOLD_PCT && jump.window == JUMP_WINDOW
  }

  /** No event of the stream meets a zero reference price. */
  predicate NeverRaises(events: seq<TradeEvent>) {
    events == []
    || (var past, ev := events[..|events| - 1], events[|events| - 1];
        NeverRaises(past) && !JumpOn(past, ev).DividesByZero?)
  }

  /** `ev` is the first event to raise: its crosses are still sent, its jumps are not. */
  ghost predicate StoppedBy(past: seq<TradeEvent>, ev: TradeEvent, sent: seq<Attempt>, clock: nat -> real) {
    && NeverRaises(past) && JumpOn(past, ev).DividesByZero?
    && sent == Sends(Stamped(AllSignals(past) + CrossSignals(past, ev), clock))
  }

  /** The whole run on a stream of trades: unless a zero reference price stops it, what is sent is what passes the
      cooldown among all signals both detectors raise. */
  method Run(events: seq<TradeEvent>, clock: nat -> real) returns (sent: seq<Attempt>, stopped: Option<nat>)
    ensures stopped.None? ==> NeverRaises(events) && sent == Sends(Stamped(AllSignals(events), clock))
    ensures stopped.Some? ==> stopped.value < |events|
    ensures stopped.Some? ==> StoppedBy(events[..stopped.value], events[stopped.value], sent, clock)
  {
    var ma := new MovingAverageDetector(FAST, SLOW);
    var jump := new PriceJumpDetector(THRESHOLD_PCT, JUMP_WINDOW);
    var lastSent: map<Key, real> := map[];
    var reading := 0;
    sent := [];
    ghost var past: seq<TradeEvent> := [];
    for i := 0 to |events|
      invariant fresh(ma) && fresh(jump) && Tuned(ma, jump)
      invariant ma.Valid() && jump.Valid() && ma.fed == past == jump.fed
      invariant past == events[..i] && Carried(lastSent, sent, reading, AllSignals(past), clock)
      invariant NeverRaises(past)
    {
      var ev, stop := events[i], false;
      ghost var next := RunGrows(events, i, past, ev);
      lastSent, sent, reading, stop := OnEvent(ma, jump, ev, clock, lastSent, sent, reading, AllSignals(past));
      if stop {
        return sent, Some(i);
      }
      past := next;
    }
    assert events[..|events|] == events;
    stopped := None;
  }

  lemma {:induction false} RunGrows(events: seq<TradeEvent>, i: nat, past: seq<TradeEvent>, ev: TradeEvent)
    returns (next: seq<TradeEvent>)
    requires i < |events| && past == events[..i] && ev == events[i]
    ensures next == events[..i + 1] == past + [ev]
    ensures AllSignals(next) == AllSignals(past) + CrossSignals(past, ev) + JumpSignals(past, ev)
    ensures NeverRaises(next) <==> NeverRaises(past) && !JumpOn(past, ev).DividesByZero?
  {
    next := past + [ev];
    assert next[..|past|] == past;
  }

  // ----- The signals of one event, from the symbol's own history -----

  /** At most one cross: up exactly where the 20-tick average crosses above the 60-tick one, down where it crosses
      below, with the event's symbol and price. */
  lemma {:induction false} CrossSignalsExactly(past: seq<TradeEvent>, ev: TradeEvent, close: seq<real>, i: nat)
    requires close == PricesOf(past, ev.symbol) + [ev.price] && i == |close| - 1
    ensures CrossSignals(past, ev) == if LongAt(close, 20, 60, i) then [Signal(ev.symbol, MaCrossUp, ev.price)]
                                      else if ShortAt(close, 20, 60, i) then [Signal(ev.symbol, MaCrossDown, ev.price)]
                                      else []
  {
    ReportedIsBatch(PricesOf(past, ev.symbol), ev.price, 20, 60);
  }

  /** At most one jump: exactly when 100 ticks have passed since the symbol's last one and the price has moved by
      half a percent since the 99th tick before. */
  lemma {:induction false} JumpSignalsExactly(past: seq<TradeEvent>, ev: TradeEvent, close: seq<real>, from: int,
                                              ticks: seq<Jump>)
    requires close == PricesOf(past, ev.symbol) + [ev.price] && from == |close| - 100
    requires ticks == JumpRun(close, 100, Judge(0.5)).ticks
    ensures |ticks| == |close|
    ensures forall s | s in JumpSignals(past, ev) :: s.symbol == ev.symbol && s.price == ev.price
    ensures |JumpSignals(past, ev)| <= 1
    ensures JumpSignals(past, ev) != [] <==>
              && 0 <= from
              && (forall j | from <= j < |close| - 1 :: !ticks[j].Fired?)
              && close[from] != 0.0
              && Abs(ev.price - close[from]) * 100.0 >= 0.5 * Abs(close[from])
    ensures forall s | s in JumpSignals(past, ev) :: 0 <= from
              && s.kind == if (ev.price > close[from] <==> close[from] > 0.0) then PriceJumpUp else PriceJumpDown
  {
    var prices := PricesOf(past, ev.symbol);
    JumpExactly(prices, ev.price, 100, Judge(0.5));
    JumpedIsLastTick(prices, ev.price, 100, Judge(0.5));
    JumpRunShape(prices, 100, Judge(0.5));
    if 0 <= from {
      JudgeFires(0.5, close[from], ev.price);
      JumpedVerdict(prices, ev.price, 100, Judge(0.5));
    }
  }
}
