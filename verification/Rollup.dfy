/** The warehouse's in-memory store and its windowed rollup: timeseries_store.cpp, rollup.cpp and the window
    loop of main.cpp in modules/data-warehouse/src, with the subscriber appending concurrently. */
module Rollup {
  import opened Text

  datatype Row = Row(ts: int, channel: string, tags: seq<(string, string)>, values: seq<(string, real)>)

  type Store = map<string, seq<Row>>

  const CHANNELS: seq<string> := ["trade", "book", "news", "dart"]

  /** The channels a rollup is meant to collect. */
  predicate Collected(channel: string) {
    channel == "trade" || channel == "book" || channel == "news" || channel == "dart"
  }

  lemma {:induction false} CollectedAreListed(channel: string)
    ensures Collected(channel) <==> channel in CHANNELS
  {
    assert CHANNELS[0] == "trade" && CHANNELS[1] == "book" && CHANNELS[2] == "news" && CHANNELS[3] == "dart";
  }

  function Rows(store: Store, channel: string): seq<Row> {
    if channel in store then store[channel] else []
  }

  function Appended(store: Store, r: Row): Store {
    store[r.channel := Rows(store, r.channel) + [r]]
  }

  function AppendedAll(store: Store, rows: seq<Row>): Store {
    if rows == [] then store
    else Appended(AppendedAll(store, rows[..|rows| - 1]), rows[|rows| - 1])
  }

  predicate WellFiled(store: Store) {
    forall ch | ch in store :: forall r | r in store[ch] :: r.channel == ch
  }

  /** Both ends are inclusive. */
  predicate Within(r: Row, from: int, to: int) {
    from <= r.ts <= to
  }

  function Selected(rows: seq<Row>, from: int, to: int): seq<Row> {
    if rows == [] then []
    else
      var rest, r := Selected(rows[..|rows| - 1], from, to), rows[|rows| - 1];
      if Within(r, from, to) then rest + [r] else rest
  }

  predicate Sorted(rows: seq<Row>) {
    forall i, j | 0 <= i < j < |rows| :: rows[i].ts <= rows[j].ts
  }

  /** What query() may give back: the selected rows in time order, ties in any order. */
  predicate Answers(out: seq<Row>, rows: seq<Row>, from: int, to: int) {
    Sorted(out) && multiset(out) == multiset(Selected(rows, from, to))
  }

  function Copies(rows: seq<Row>, r: Row): nat {
    multiset(rows)[r]
  }

  /** The store's multiplicities inside the window, nothing outside. */
  lemma {:induction false} SelectedCopies(rows: seq<Row>, from: int, to: int, r: Row)
    ensures Copies(Selected(rows, from, to), r) == if Within(r, from, to) then Copies(rows, r) else 0
  {
    if rows != [] {
      SelectedCopies(rows[..|rows| - 1], from, to, r);
      assert rows == rows[..|rows| - 1] + [rows[|rows| - 1]];
    }
  }

  // ----- The store -----

  class InMemoryStore {
    var byChannel: Store

    constructor ()
      ensures byChannel == map[]
    {
      byChannel := map[];
    }

    method Append(r: Row)
      requires WellFiled(byChannel)
      modifies this
      ensures byChannel == Appended(old(byChannel), r) && WellFiled(byChannel)
    {
      if r.channel !in byChannel {
        byChannel := byChannel[r.channel := []];
      }
      byChannel := byChannel[r.channel := byChannel[r.channel] + [r]];
    }

    method AppendBatch(rows: seq<Row>)
      requires WellFiled(byChannel)
      modifies this
      ensures byChannel == AppendedAll(old(byChannel), rows) && WellFiled(byChannel)
    {
      for i := 0 to |rows|
        invariant WellFiled(byChannel) && byChannel == AppendedAll(old(byChannel), rows[..i])
      {
        Append(rows[i]);
        assert rows[..i + 1][..i] == rows[..i];
      }
      assert rows[..|rows|] == rows;
    }

    method Query(channel: string, from: int, to: int) returns (out: seq<Row>)
      ensures Answers(out, Rows(byChannel, channel), from, to)
    {
      out := [];
      if channel !in byChannel {
        return;
      }
      var rows := byChannel[channel];
      for i := 0 to |rows|
        invariant out == Selected(rows[..i], from, to)
      {
        assert rows[..i + 1][..i] == rows[..i];
        if from <= rows[i].ts && rows[i].ts <= to {
          out := out + [rows[i]];
        }
      }
      assert rows[..|rows|] == rows;
      out := SortedByTime(out);
    }
  }

  method SortedByTime(rows: seq<Row>) returns (out: seq<Row>)
    ensures Sorted(out) && multiset(out) == multiset(rows)
  {
    out := [];
    for i := 0 to |rows|
      invariant Sorted(out) && multiset(out) == multiset(rows[..i])
    {
      var k := |out|;
      while k > 0 && out[k - 1].ts > rows[i].ts
        invariant 0 <= k <= |out| && forall j | k <= j < |out| :: out[j].ts > rows[i].ts
      {
        k := k - 1;
      }
      assert rows[..i + 1] == rows[..i] + [rows[i]];
      InsertKeepsSorted(out, k, rows[i]);
      InsertKeepsCopies(out, k, rows[i]);
      out := out[..k] + [rows[i]] + out[k..];
    }
    assert rows[..|rows|] == rows;
  }

  lemma {:induction false} InsertKeepsCopies(out: seq<Row>, k: nat, r: Row)
    requires k <= |out|
    ensures multiset(out[..k] + [r] + out[k..]) == multiset(out) + multiset{r}
  {
    assert out == out[..k] + out[k..];
  }

  lemma {:induction false} PartsSorted(out: seq<Row>, k: nat)
    requires Sorted(out) && k <= |out|
    ensures Sorted(out[..k]) && Sorted(out[k..])
  {
  }

  lemma {:induction false} InsertKeepsSorted(out: seq<Row>, k: nat, r: Row)
    requires Sorted(out) && k <= |out| && (k > 0 ==> out[k - 1].ts <= r.ts)
    requires forall j | k <= j < |out| :: out[j].ts > r.ts
    ensures Sorted(out[..k] + [r] + out[k..])
  {
    PartsSorted(out, k);
    SortedAround(out[..k], r, out[k..]);
  }

  lemma {:induction false} SortedAround(low: seq<Row>, r: Row, high: seq<Row>)
    requires Sorted(low) && Sorted(high) && (low != [] ==> low[|low| - 1].ts <= r.ts)
    requires forall j | 0 <= j < |high| :: r.ts <= high[j].ts
    ensures Sorted(low + [r] + high)
  {
    assert forall i | 0 <= i < |low| :: low[i].ts <= r.ts;
  }

  /** Block `k` answers the query of the k-th channel. */
  predicate BlocksAnswer(blocks: seq<seq<Row>>, store: Store, since: int, until: int) {
    forall k | 0 <= k < |blocks| && k < |CHANNELS| :: Answers(blocks[k], Rows(store, CHANNELS[k]), since, until)
  }

  lemma {:induction false} OneMoreBlock(blocks: seq<seq<Row>>, store: Store, since: int, until: int, rows: seq<Row>)
    requires BlocksAnswer(blocks, store, since, until) && |blocks| < |CHANNELS|
    requires Answers(rows, Rows(store, CHANNELS[|blocks|]), since, until)
    ensures BlocksAnswer(blocks + [rows], store, since, until) && Flat(blocks + [rows]) == Flat(blocks) + rows
  {
    assert (blocks + [rows])[..|blocks|] == blocks;
    forall k | 0 <= k < |blocks| + 1
      ensures (blocks + [rows])[k] == if k < |blocks| then blocks[k] else rows
    {
    }
  }

  /** rollup_once() up to the file it writes: the trades, then the books, the news and the disclosures. */
  method RollupOnce(store: InMemoryStore, since: int, until: int) returns (all: seq<Row>)
    ensures exists b :: |b| == 4 && BlocksAnswer(b, store.byChannel, since, until) && all == b[0] + b[1] + b[2] + b[3]
                        && Answers(b[0], Rows(store.byChannel, "trade"), since, until)
                        && Answers(b[1], Rows(store.byChannel, "book"), since, until)
                        && Answers(b[2], Rows(store.byChannel, "news"), since, until)
                        && Answers(b[3], Rows(store.byChannel, "dart"), since, until)
  {
    all := [];
    ghost var blocks: seq<seq<Row>> := [];
    for i := 0 to |CHANNELS|
      invariant |blocks| == i && all == Flat(blocks) && BlocksAnswer(blocks, store.byChannel, since, until)
    {
      var rows := store.Query(CHANNELS[i], since, until);
      OneMoreBlock(blocks, store.byChannel, since, until, rows);
      all := all + rows;
      blocks := blocks + [rows];
    }
    FourBlocks(blocks, store.byChannel, since, until);
  }

  lemma {:induction false} FourBlocks(b: seq<seq<Row>>, store: Store, since: int, until: int)
    requires |b| == 4 && BlocksAnswer(b, store, since, until)
    ensures Flat(b) == b[0] + b[1] + b[2] + b[3]
    ensures Answers(b[0], Rows(store, "trade"), since, until) && Answers(b[1], Rows(store, "book"), since, until)
    ensures Answers(b[2], Rows(store, "news"), since, until) && Answers(b[3], Rows(store, "dart"), since, until)
  {
    FlatFour(b, []);
    assert [] + Flat(b) == Flat(b) && [] + b[0] == b[0];
    assert CHANNELS[0] == "trade" && CHANNELS[1] == "book" && CHANNELS[2] == "news" && CHANNELS[3] == "dart";
  }

  // ----- Runs of the loop beside the subscriber -----

  /** A window under way and the number of channels already queried. */
  datatype Window = Window(until: int, next: nat)

  /** `last` is where the next window begins, or where the one under way began. */
  datatype State = State(store: Store, last: int, window: Option<Window>, out: seq<Row>)

  /** Another thread may append between any two queries. A window that throws keeps nothing. */
  datatype Event =
    | Append(r: Row)
    | Open(until: int)
    | Query(block: seq<Row>)
    | Failed(until: int)

  function Started(now: int): State {
    State(map[], now, None, [])
  }

  /** The clock is taken to move forward from window to window. */
  predicate Enabled(s: State, e: Event) {
    match e
    case Append(_) => true
    case Open(until) => s.window.None? && s.last < until
    case Query(block) =>
      && s.window.Some? && s.window.value.next < |CHANNELS|
      && Answers(block, Rows(s.store, CHANNELS[s.window.value.next]), s.last, s.window.value.until)
    case Failed(until) => s.window.None? && s.last < until
  }

  function Next(s: State, e: Event): State
    requires Enabled(s, e)
  {
    match e
    case Append(r) => s.(store := Appended(s.store, r))
    case Open(until) => s.(window := Some(Window(until, 0)))
    case Query(block) =>
      var w := s.window.value;
      if w.next + 1 < |CHANNELS|
      then s.(window := Some(w.(next := w.next + 1)), out := s.out + block)
      else s.(window := None, last := w.until, out := s.out + block)
    case Failed(until) => s.(last := until)
  }

  predicate Runs(s: State, events: seq<Event>)
    decreases |events|
  {
    events == [] || (Enabled(s, events[0]) && Runs(Next(s, events[0]), events[1..]))
  }

  function After(s: State, events: seq<Event>): State
    requires Runs(s, events)
    decreases |events|
  {
    if events == [] then s else After(Next(s, events[0]), events[1..])
  }

  predicate Valid(s: State) {
    WellFiled(s.store) && (s.window.Some? ==> s.last < s.window.value.until && s.window.value.next < |CHANNELS|)
  }

  /** The next query is of `channel`. */
  predicate Asks(s: State, e: Event, channel: string) {
    e.Query? && s.window.Some? && s.window.value.next < |CHANNELS| && CHANNELS[s.window.value.next] == channel
  }

  predicate Covers(s: State, e: Event, r: Row) {
    Asks(s, e, r.channel) && Within(r, s.last, s.window.value.until)
  }

  /** How often the run asks for the channel of `r` over a window that contains it. */
  function Due(s: State, events: seq<Event>, r: Row): nat
    requires Runs(s, events)
    decreases |events|
  {
    if events == [] then 0
    else Bit(Covers(s, events[0], r)) + Due(Next(s, events[0]), events[1..], r)
  }

  /** The same, summed over the appends of `r`, each counting only what comes after it. */
  function Owed(s: State, events: seq<Event>, r: Row): nat
    requires Runs(s, events)
    decreases |events|
  {
    if events == [] then 0
    else
      var rest := Next(s, events[0]);
      Times(Bit(events[0] == Append(r)), Due(rest, events[1..], r)) + Owed(rest, events[1..], r)
  }

  function Bit(b: bool): nat {
    if b then 1 else 0
  }

  function Times(n: nat, k: nat): nat {
    n * k
  }

  lemma {:induction false} AppendCopies(store: Store, a: Row, r: Row)
    ensures Copies(Rows(Appended(store, a), r.channel), r)
         == Copies(Rows(store, r.channel), r) + Bit(Append(a) == Append(r))
  {
  }

  lemma {:induction false} AppendFiles(store: Store, a: Row)
    requires WellFiled(store)
    ensures WellFiled(Appended(store, a))
  {
  }

  lemma {:induction false} ValidKept(s: State, e: Event)
    requires Valid(s) && Enabled(s, e)
    ensures Valid(Next(s, e))
  {
    if e.Append? {
      AppendFiles(s.store, e.r);
    }
  }

  /** One query emits every stored copy of each row it covers, and nothing else. */
  lemma {:induction false} QueryEmits(s: State, e: Event, r: Row)
    requires Valid(s) && Enabled(s, e) && e.Query?
    ensures Copies(Next(s, e).out, r)
         == Copies(s.out, r) + Times(Bit(Covers(s, e, r)), Copies(Rows(s.store, r.channel), r))
  {
    var w := s.window.value;
    var rows := Rows(s.store, CHANNELS[w.next]);
    SelectedCopies(rows, s.last, w.until, r);
    assert Copies(s.out + e.block, r) == Copies(s.out, r) + Copies(e.block, r);
    if CHANNELS[w.next] != r.channel {
      assert r !in rows;
    }
  }

  lemma {:induction false} StepEmits(s: State, e: Event, r: Row)
    requires Valid(s) && Enabled(s, e)
    ensures Copies(Next(s, e).out, r)
         == Copies(s.out, r) + Times(Bit(Covers(s, e, r)), Copies(Rows(s.store, r.channel), r))
    ensures Copies(Rows(Next(s, e).store, r.channel), r)
         == Copies(Rows(s.store, r.channel), r) + Bit(e == Append(r))
  {
    if e.Query? {
      QueryEmits(s, e, r);
    } else if e.Append? {
      AppendCopies(s.store, e.r, r);
    }
  }

  /** The ledger before a step, from the ledger behind it: emitted, stored, due later, owed later. */
  lemma {:induction false} Balance(out: nat, n: nat, a: nat, c: nat, d: nat, owed: nat)
    ensures (out + Times(c, n)) + Times(n + a, d) + owed == out + Times(n, c + d) + (Times(a, d) + owed)
  {
    assert (n + a) * d == n * d + a * d;
    assert n * (c + d) == n * c + n * d;
  }

  function Ledger(s: State, events: seq<Event>, r: Row): nat
    requires Runs(s, events)
  {
    Copies(s.out, r) + Times(Copies(Rows(s.store, r.channel), r), Due(s, events, r)) + Owed(s, events, r)
  }

  lemma {:induction false} LedgerKept(s: State, events: seq<Event>, r: Row, s': State, rest: seq<Event>)
    requires Valid(s) && Runs(s, events) && events != [] && s' == Next(s, events[0]) && rest == events[1..]
    ensures Ledger(s', rest, r) == Ledger(s, events, r)
  {
    var e := events[0];
    StepEmits(s, e, r);
    OneEventOwes(s, events, r, s', rest);
    Balance(Copies(s.out, r), Copies(Rows(s.store, r.channel), r), Bit(e == Append(r)), Bit(Covers(s, e, r)),
            Due(s', rest, r), Owed(s', rest, r));
  }

  lemma {:induction false} OneEventOwes(s: State, events: seq<Event>, r: Row, s': State, rest: seq<Event>)
    requires Runs(s, events) && events != [] && s' == Next(s, events[0]) && rest == events[1..]
    ensures Due(s, events, r) == Bit(Covers(s, events[0], r)) + Due(s', rest, r)
    ensures Owed(s, events, r) == Times(Bit(events[0] == Append(r)), Due(s', rest, r)) + Owed(s', rest, r)
  {
  }

  /** Exact accounting of every run: what is emitted of a row is, for each copy, one for every later query of
      its channel over a window containing it. */
  lemma {:induction false} EmissionsAccounted(s: State, events: seq<Event>, r: Row)
    requires Valid(s) && Runs(s, events)
    ensures Copies(After(s, events).out, r)
         == Copies(s.out, r) + Times(Copies(Rows(s.store, r.channel), r), Due(s, events, r)) + Owed(s, events, r)
    decreases |events|
  {
    if events == [] {
      assert Times(Copies(Rows(s.store, r.channel), r), 0) == 0;
    } else {
      ValidKept(s, events[0]);
      EmissionsAccounted(Next(s, events[0]), events[1..], r);
      LedgerKept(s, events, r, Next(s, events[0]), events[1..]);
    }
  }

  /** A channel the rollup does not list stays in the store. */
  lemma {:induction false} OthersStay(s: State, events: seq<Event>, r: Row)
    requires Valid(s) && Runs(s, events) && !Collected(r.channel)
    ensures Copies(After(s, events).out, r) == Copies(s.out, r)
    decreases |events|
  {
    if events != [] {
      CollectedAreListed(r.channel);
      ValidKept(s, events[0]);
      StepEmits(s, events[0], r);
      assert Times(0, Copies(Rows(s.store, r.channel), r)) == 0;
      OthersStay(Next(s, events[0]), events[1..], r);
    }
  }

  /** Nobody waits: the subscriber may append before any query, and a window under way gets an answer to each. */
  lemma {:induction false} NobodyWaits(now: int, events: seq<Event>, r: Row)
    requires Runs(Started(now), events)
    ensures var s := After(Started(now), events);
            && Enabled(s, Append(r))
            && if s.window.None? then forall u | s.last < u :: Enabled(s, Open(u)) && Enabled(s, Failed(u))
               else exists block :: Enabled(s, Query(block))
  {
    RunsKeepValid(Started(now), events);
    var s := After(Started(now), events);
    if s.window.Some? {
      var w := s.window.value;
      var block := SomeAnswer(Selected(Rows(s.store, CHANNELS[w.next]), s.last, w.until));
      assert Enabled(s, Query(block));
    }
  }

  lemma {:induction false} RunsKeepValid(s: State, events: seq<Event>)
    requires Valid(s) && Runs(s, events)
    ensures Valid(After(s, events))
    decreases |events|
  {
    if events != [] {
      ValidKept(s, events[0]);
      RunsKeepValid(Next(s, events[0]), events[1..]);
    }
  }

  lemma {:induction false} SomeAnswer(rows: seq<Row>) returns (out: seq<Row>)
    ensures Sorted(out) && multiset(out) == multiset(rows)
  {
    out := [];
    if rows != [] {
      var r := rows[|rows| - 1];
      out := SomeAnswer(rows[..|rows| - 1]);
      assert rows == rows[..|rows| - 1] + [r];
      var k := |out|;
      while k > 0 && out[k - 1].ts > r.ts
        invariant 0 <= k <= |out| && forall j | k <= j < |out| :: out[j].ts > r.ts
      {
        k := k - 1;
      }
      InsertKeepsSorted(out, k, r);
      InsertKeepsCopies(out, k, r);
      out := out[..k] + [r] + out[k..];
    }
  }

  // ----- How many windows contain a timestamp -----

  /** Where the part of the time line not yet asked for begins, for one channel. */
  function Frontier(s: State, channel: string): int {
    if s.window.Some? && exists k | 0 <= k < |CHANNELS| :: k < s.window.value.next && CHANNELS[k] == channel
    then s.window.value.until
    else s.last
  }

  predicate NoFailure(events: seq<Event>) {
    forall e | e in events :: !e.Failed?
  }

  /** The ends of the windows over which `channel` was asked for. */
  function Bounds(s: State, events: seq<Event>, channel: string): seq<int>
    requires Runs(s, events)
    decreases |events|
  {
    if events == [] then []
    else (if Asks(s, events[0], channel) then [s.window.value.until] else [])
         + Bounds(Next(s, events[0]), events[1..], channel)
  }

  /** A step moves the frontier only by asking for the channel or by failing. */
  lemma {:induction false} FrontierMoves(s: State, e: Event, channel: string)
    requires Valid(s) && Enabled(s, e) && channel in CHANNELS
    ensures Asks(s, e, channel) ==>
              Frontier(s, channel) == s.last < s.window.value.until == Frontier(Next(s, e), channel)
    ensures !Asks(s, e, channel) && !e.Failed? ==> Frontier(Next(s, e), channel) == Frontier(s, channel)
    ensures e.Failed? ==> Frontier(s, channel) == s.last < e.until == Frontier(Next(s, e), channel)
  {
  }

  /** No later query goes back behind the frontier: what is still missing there stays missing. */
  lemma {:induction false} BehindIsNeverEmitted(s: State, events: seq<Event>, r: Row)
    requires Valid(s) && Runs(s, events) && r.channel in CHANNELS && r.ts < Frontier(s, r.channel)
    ensures Due(s, events, r) == 0 && Owed(s, events, r) == 0
    ensures Copies(After(s, events).out, r) == Copies(s.out, r)
    decreases |events|
  {
    if events != [] {
      ValidKept(s, events[0]);
      FrontierMoves(s, events[0], r.channel);
      StepEmits(s, events[0], r);
      BehindIsNeverEmitted(Next(s, events[0]), events[1..], r);
    }
  }

  /** The exception handler moves on all the same: a failed window's rows never come out. */
  lemma {:induction false} FailedWindowLosesRows(s: State, events: seq<Event>, r: Row)
    requires Valid(s) && Runs(s, events) && r.channel in CHANNELS
    requires events != [] && events[0].Failed? && r.ts < events[0].until
    ensures Copies(After(s, events).out, r) == Copies(s.out, r)
  {
    ValidKept(s, events[0]);
    FrontierMoves(s, events[0], r.channel);
    BehindIsNeverEmitted(Next(s, events[0]), events[1..], r);
  }

  predicate Ascending(from: int, bounds: seq<int>) {
    (forall i | 0 <= i < |bounds| :: from < bounds[i]) && (forall i, j | 0 <= i < j < |bounds| :: bounds[i] < bounds[j])
  }

  function LastOr(from: int, bounds: seq<int>): int {
    if bounds == [] then from else bounds[|bounds| - 1]
  }

  /** Windows between consecutive bounds containing `ts`, both ends counted in. */
  function Covering(from: int, bounds: seq<int>, ts: int): nat {
    if bounds == [] || ts < from || ts > LastOr(from, bounds) then 0
    else if ts in bounds && ts != LastOr(from, bounds) then 2
    else 1
  }

  lemma {:induction false} CoveringStep(from: int, u: int, rest: seq<int>, ts: int)
    requires from < u && Ascending(u, rest)
    ensures Ascending(from, [u] + rest) && LastOr(from, [u] + rest) == LastOr(u, rest)
    ensures Covering(from, [u] + rest, ts) == Bit(from <= ts <= u) + Covering(u, rest, ts)
  {
    AscendingStep(from, u, rest);
    if ts in rest {
      BoundsAbove(u, rest, ts);
    }
    LastIsBound(u, rest);
  }

  lemma {:induction false} AscendingStep(from: int, u: int, rest: seq<int>)
    requires from < u && Ascending(u, rest)
    ensures Ascending(from, [u] + rest) && LastOr(from, [u] + rest) == LastOr(u, rest)
  {
  }

  lemma {:induction false} BoundsAbove(from: int, bounds: seq<int>, x: int)
    requires Ascending(from, bounds) && x in bounds
    ensures from < x
  {
  }

  lemma {:induction false} LastIsBound(from: int, bounds: seq<int>)
    requires Ascending(from, bounds)
    ensures from <= LastOr(from, bounds)
    ensures bounds != [] ==> from < LastOr(from, bounds) && LastOr(from, bounds) in bounds
  {
  }

  /** Without failures the windows over one channel leave no gap and share only their bounds: a timestamp is
      asked for once, twice when it is an interior bound. */
  lemma {:induction false} DueExactly(s: State, events: seq<Event>, r: Row)
    requires Valid(s) && Runs(s, events) && NoFailure(events) && r.channel in CHANNELS
    ensures var from, bounds := Frontier(s, r.channel), Bounds(s, events, r.channel);
            && Ascending(from, bounds) && LastOr(from, bounds) == Frontier(After(s, events), r.channel)
            && Due(s, events, r) == Covering(from, bounds, r.ts)
    decreases |events|
  {
    if events != [] {
      var e := events[0];
      ValidKept(s, e);
      FrontierMoves(s, e, r.channel);
      DueExactly(Next(s, e), events[1..], r);
      if Asks(s, e, r.channel) {
        CoveringStep(s.last, s.window.value.until, Bounds(Next(s, e), events[1..], r.channel), r.ts);
      }
    }
  }

  // ----- Conservation -----

  function Appends(events: seq<Event>, r: Row): nat {
    if events == [] then 0 else Bit(events[0] == Append(r)) + Appends(events[1..], r)
  }

  /** Every append of `r` comes before the first window containing it is asked for. */
  predicate OnTime(s: State, events: seq<Event>, r: Row)
    requires Runs(s, events)
    decreases |events|
  {
    events == []
    || ((events[0] == Append(r) ==> Frontier(s, r.channel) <= r.ts) && OnTime(Next(s, events[0]), events[1..], r))
  }

  /** A row whose window has closed was asked for exactly when the frontier had not passed it yet. */
  lemma {:induction false} AskedExactlyOnTime(s: State, events: seq<Event>, r: Row)
    requires Valid(s) && Runs(s, events) && NoFailure(events) && r.channel in CHANNELS
    requires r.ts < Frontier(After(s, events), r.channel)
    ensures Due(s, events, r) >= 1 <==> Frontier(s, r.channel) <= r.ts
    ensures Due(s, events, r) == 2 <==> Frontier(s, r.channel) <= r.ts && r.ts in Bounds(s, events, r.channel)
    ensures Due(s, events, r) <= 2
  {
    DueExactly(s, events, r);
  }

  lemma {:induction false} OwedBetween(s: State, events: seq<Event>, r: Row)
    requires Valid(s) && Runs(s, events) && NoFailure(events) && r.channel in CHANNELS && OnTime(s, events, r)
    requires r.ts < Frontier(After(s, events), r.channel)
    ensures Appends(events, r) <= Owed(s, events, r) <= 2 * Appends(events, r)
    ensures r.ts !in Bounds(s, events, r.channel) ==> Owed(s, events, r) == Appends(events, r)
    decreases |events|
  {
    if events != [] {
      var s', rest := Next(s, events[0]), events[1..];
      ValidKept(s, events[0]);
      OwedBetween(s', rest, r);
      OneEventOwes(s, events, r, s', rest);
      if events[0] == Append(r) {
        AppendAsked(s, s', rest, r);
        assert Bounds(s, events, r.channel) == Bounds(s', rest, r.channel);
      }
    }
  }

  /** An append in time is asked for once or twice. */
  lemma {:induction false} AppendAsked(s: State, s': State, rest: seq<Event>, r: Row)
    requires Valid(s) && s' == Next(s, Append(r)) && Valid(s') && Runs(s', rest) && NoFailure(rest)
    requires r.channel in CHANNELS && Frontier(s, r.channel) <= r.ts < Frontier(After(s', rest), r.channel)
    ensures 1 <= Due(s', rest, r) <= 2
    ensures r.ts !in Bounds(s', rest, r.channel) ==> Due(s', rest, r) == 1
  {
    FrontierMoves(s, Append(r), r.channel);
    AskedExactlyOnTime(s', rest, r);
  }

  /** Rows appended in time come out at least once and at most twice each, and exactly once unless their
      timestamp is the bound of a window. */
  lemma {:induction false} RowsConserved(now: int, events: seq<Event>, r: Row)
    requires Runs(Started(now), events) && NoFailure(events) && Collected(r.channel)
    requires OnTime(Started(now), events, r) && r.ts < Frontier(After(Started(now), events), r.channel)
    ensures Appends(events, r) <= Copies(After(Started(now), events).out, r) <= 2 * Appends(events, r)
    ensures r.ts !in Bounds(Started(now), events, r.channel) ==>
              Copies(After(Started(now), events).out, r) == Appends(events, r)
  {
    CollectedAreListed(r.channel);
    EmissionsAccounted(Started(now), events, r);
    assert Times(0, Due(Started(now), events, r)) == 0;
    OwedBetween(Started(now), events, r);
  }

  // ----- Runs with failures -----

  /** A window as one channel saw it: asked for, or given up by an exception. */
  datatype Pass = Pass(from: int, until: int, kept: bool)

  function Passes(s: State, events: seq<Event>, channel: string): seq<Pass>
    requires Runs(s, events)
    decreases |events|
  {
    if events == [] then []
    else
      var e, rest := events[0], Passes(Next(s, events[0]), events[1..], channel);
      if Asks(s, e, channel) then [Pass(s.last, s.window.value.until, true)] + rest
      else if e.Failed? then [Pass(s.last, e.until, false)] + rest
      else rest
  }

  /** One window begins where the one before it ended. */
  predicate Chained(from: int, passes: seq<Pass>, to: int)
    decreases |passes|
  {
    if passes == [] then from == to
    else passes[0].from == from < passes[0].until && Chained(passes[0].until, passes[1..], to)
  }

  /** Kept windows containing `ts`, both ends counted in. */
  function KeptAround(passes: seq<Pass>, ts: int): nat {
    if passes == [] then 0
    else Bit(passes[0].kept && passes[0].from <= ts <= passes[0].until) + KeptAround(passes[1..], ts)
  }

  predicate IsBound(passes: seq<Pass>, ts: int) {
    exists p | p in passes :: p.until == ts
  }

  /** An exception gave up a window with `ts` inside. */
  predicate Thrown(passes: seq<Pass>, ts: int) {
    exists p | p in passes :: !p.kept && p.from < ts < p.until
  }

  lemma {:induction false} DueIsKeptAround(s: State, events: seq<Event>, r: Row)
    requires Valid(s) && Runs(s, events) && r.channel in CHANNELS
    ensures Chained(Frontier(s, r.channel), Passes(s, events, r.channel), Frontier(After(s, events), r.channel))
    ensures Due(s, events, r) == KeptAround(Passes(s, events, r.channel), r.ts)
    decreases |events|
  {
    if events != [] {
      var e, rest := events[0], Passes(Next(s, events[0]), events[1..], r.channel);
      ValidKept(s, e);
      FrontierMoves(s, e, r.channel);
      DueIsKeptAround(Next(s, e), events[1..], r);
      if Asks(s, e, r.channel) {
        FirstPass(Pass(s.last, s.window.value.until, true), rest, Frontier(After(s, events), r.channel), r.ts);
      } else if e.Failed? {
        FirstPass(Pass(s.last, e.until, false), rest, Frontier(After(s, events), r.channel), r.ts);
      }
    }
  }

  lemma {:induction false} FirstPass(p: Pass, rest: seq<Pass>, to: int, ts: int)
    requires p.from < p.until && Chained(p.until, rest, to)
    ensures Chained(p.from, [p] + rest, to)
    ensures KeptAround([p] + rest, ts) == Bit(p.kept && p.from <= ts <= p.until) + KeptAround(rest, ts)
  {
    assert ([p] + rest)[1..] == rest;
  }

  /** Nothing behind a chain's beginning is in it. */
  lemma {:induction false} ChainAhead(from: int, passes: seq<Pass>, to: int, ts: int)
    requires Chained(from, passes, to) && ts < from
    ensures KeptAround(passes, ts) == 0 && !Thrown(passes, ts)
    decreases |passes|
  {
    if passes != [] {
      ChainAhead(passes[0].until, passes[1..], to, ts);
      HeadOrTail(passes);
    }
  }

  lemma {:induction false} HeadOrTail(passes: seq<Pass>)
    requires passes != []
    ensures forall p | p in passes :: p == passes[0] || p in passes[1..]
    ensures passes[0] in passes && forall p | p in passes[1..] :: p in passes
  {
    assert passes == [passes[0]] + passes[1..];
  }

  /** Strictly inside some window: counted once, unless that one was given up. */
  lemma {:induction false} InsideExactly(from: int, passes: seq<Pass>, to: int, ts: int)
    requires Chained(from, passes, to) && from < ts < to && !IsBound(passes, ts)
    ensures KeptAround(passes, ts) == if Thrown(passes, ts) then 0 else 1
    decreases |passes|
  {
    var p, rest := passes[0], passes[1..];
    HeadOrTail(passes);
    assert p.until != ts;
    if p.until < ts {
      InsideExactly(p.until, rest, to, ts);
    } else {
      ChainAhead(p.until, rest, to, ts);
    }
  }

  /** On the bound of two windows: counted once for each of them that was kept. */
  lemma {:induction false} AtBoundExactly(from: int, passes: seq<Pass>, to: int, ts: int, i: nat)
    requires Chained(from, passes, to) && i + 1 < |passes| && passes[i].until == ts
    ensures from < ts && KeptAround(passes, ts) == Bit(passes[i].kept) + Bit(passes[i + 1].kept)
    decreases i
  {
    var rest := passes[1..];
    if i > 0 {
      AtBoundExactly(passes[0].until, rest, to, ts, i - 1);
    } else {
      var p := rest[0];
      assert p.from == ts < p.until;
      ChainAhead(p.until, rest[1..], to, ts);
    }
  }

  /** Every append of `r` comes before any window containing it. */
  predicate InTime(s: State, events: seq<Event>, r: Row)
    requires Runs(s, events)
    decreases |events|
  {
    events == []
    || ((events[0] == Append(r) ==> Frontier(s, r.channel) < r.ts) && InTime(Next(s, events[0]), events[1..], r))
  }

  lemma {:induction false} NoneInTimeBehind(s: State, events: seq<Event>, r: Row)
    requires Valid(s) && Runs(s, events) && r.channel in CHANNELS && InTime(s, events, r)
    requires r.ts <= Frontier(s, r.channel)
    ensures Appends(events, r) == 0 && Owed(s, events, r) == 0
    decreases |events|
  {
    if events != [] {
      ValidKept(s, events[0]);
      FrontierMoves(s, events[0], r.channel);
      NoneInTimeBehind(Next(s, events[0]), events[1..], r);
      OneEventOwes(s, events, r, Next(s, events[0]), events[1..]);
      assert Times(0, Due(Next(s, events[0]), events[1..], r)) == 0;
    }
  }

  /** Each append in time is owed every kept window of the run that contains it. */
  lemma {:induction false} OwedExactly(s: State, events: seq<Event>, r: Row)
    requires Valid(s) && Runs(s, events) && r.channel in CHANNELS && InTime(s, events, r)
    ensures Owed(s, events, r) == Times(Appends(events, r), Due(s, events, r))
    decreases |events|
  {
    if events == [] {
      assert Times(0, 0) == 0;
    } else {
      var s', rest := Next(s, events[0]), events[1..];
      ValidKept(s, events[0]);
      OwedExactly(s', rest, r);
      OneEventOwes(s, events, r, s', rest);
      if Covers(s, events[0], r) {
        FrontierMoves(s, events[0], r.channel);
        NoneInTimeBehind(s', rest, r);
      }
      OwedStep(Bit(events[0] == Append(r)), Bit(Covers(s, events[0], r)), Appends(rest, r), Due(s', rest, r));
    }
  }

  /** An event that is an append covers nothing, and behind one that covers there are no more appends. */
  lemma {:induction false} OwedStep(a: nat, c: nat, n: nat, d: nat)
    requires c == 0 || (a == 0 && n == 0)
    ensures Times(a, d) + Times(n, d) == Times(a + n, c + d)
  {
  }

  lemma {:induction false} EmittedInTime(now: int, events: seq<Event>, r: Row)
    requires Runs(Started(now), events) && r.channel in CHANNELS && InTime(Started(now), events, r)
    ensures Copies(After(Started(now), events).out, r) == Times(Appends(events, r), Due(Started(now), events, r))
  {
    EmissionsAccounted(Started(now), events, r);
    OwedExactly(Started(now), events, r);
    assert Times(0, Due(Started(now), events, r)) == 0;
  }

  /** In any run, failures included, a row appended in time comes out, for each append, exactly once when its
      timestamp is inside a kept window, never when that window threw, and on a bound once for each kept window
      on either side. */
  lemma {:induction false} RowsConservedExactly(now: int, events: seq<Event>, r: Row, passes: seq<Pass>, out: nat)
    requires Runs(Started(now), events) && Collected(r.channel) && InTime(Started(now), events, r)
    requires r.ts < Frontier(After(Started(now), events), r.channel)
    requires passes == Passes(Started(now), events, r.channel) && out == Copies(After(Started(now), events).out, r)
    ensures !IsBound(passes, r.ts) ==> out == if Thrown(passes, r.ts) then 0 else Appends(events, r)
    ensures forall i | 0 <= i && i + 1 < |passes| && passes[i].until == r.ts ::
              out == Times(Appends(events, r), Bit(passes[i].kept) + Bit(passes[i + 1].kept))
  {
    var s := Started(now);
    CollectedAreListed(r.channel);
    DueIsKeptAround(s, events, r);
    var n, d, to := Appends(events, r), Due(s, events, r), Frontier(After(s, events), r.channel);
    EmittedInTime(now, events, r);
    if !IsBound(passes, r.ts) {
      if now < r.ts {
        InsideExactly(now, passes, to, r.ts);
        assert Times(n, 0) == 0 && Times(n, 1) == n;
      } else {
        NoneInTimeBehind(s, events, r);
      }
    }
    forall i | 0 <= i && i + 1 < |passes| && passes[i].until == r.ts
      ensures out == Times(n, Bit(passes[i].kept) + Bit(passes[i + 1].kept))
    {
      AtBoundExactly(now, passes, to, r.ts, i);
    }
  }

  lemma {:induction false} AllKept(s: State, events: seq<Event>, channel: string)
    requires Runs(s, events) && NoFailure(events)
    ensures |Passes(s, events, channel)| == |Bounds(s, events, channel)|
    ensures forall i | 0 <= i < |Passes(s, events, channel)| ::
              Passes(s, events, channel)[i].kept && Passes(s, events, channel)[i].until == Bounds(s, events, channel)[i]
    decreases |events|
  {
    if events != [] {
      AllKept(Next(s, events[0]), events[1..], channel);
    }
  }

  /** Without failures a row stamped with an interior bound comes out exactly twice. */
  lemma {:induction false} TwiceAtInteriorBound(now: int, events: seq<Event>, r: Row)
    requires Runs(Started(now), events) && NoFailure(events) && Collected(r.channel)
    requires InTime(Started(now), events, r) && r.ts < Frontier(After(Started(now), events), r.channel)
    requires r.ts in Bounds(Started(now), events, r.channel)
    ensures Copies(After(Started(now), events).out, r) == 2 * Appends(events, r)
  {
    var s, bounds := Started(now), Bounds(Started(now), events, r.channel);
    var passes := Passes(s, events, r.channel);
    CollectedAreListed(r.channel);
    DueExactly(s, events, r);
    AllKept(s, events, r.channel);
    var i :| 0 <= i < |bounds| && bounds[i] == r.ts;
    assert i + 1 < |passes| && passes[i].kept && passes[i + 1].kept && passes[i].until == r.ts;
    assert Bit(passes[i].kept) + Bit(passes[i + 1].kept) == 2;
    RowsConservedExactly(now, events, r, passes, Copies(After(s, events).out, r));
    assert Times(Appends(events, r), 2) == 2 * Appends(events, r);
  }

  /** A row inside a window that threw: stored, and lost. */
  lemma {:induction false} ThrownWindowExample(r: Row, events: seq<Event>)
    requires r == Row(5, "trade", [], [])
    requires events == [Append(r), Failed(10), Open(20), Query([]), Query([]), Query([]), Query([])]
    ensures Runs(Started(0), events)
    ensures Rows(After(Started(0), events).store, "trade") == [r] && After(Started(0), events).out == []
  {
    var s, window := Next(Started(0), Append(r)), events[2..];
    assert Rows(s.store, "trade") == [] + [r] == [r];
    EmptyWindow(Next(s, Failed(10)), r, window);
    OneEvent(s, Failed(10), window);
    OneEvent(Started(0), Append(r), [Failed(10)] + window);
    assert events == [Append(r)] + ([Failed(10)] + window);
  }

  /** A window behind the only stored row collects nothing. */
  lemma {:induction false} EmptyWindow(s: State, r: Row, window: seq<Event>)
    requires s.window.None? && s.last == 10 && r.ts == 5
    requires forall ch | ch in CHANNELS :: Rows(s.store, ch) == [] || Rows(s.store, ch) == [r]
    requires window == [Open(20), Query([]), Query([]), Query([]), Query([])]
    ensures Runs(s, window) && After(s, window) == s.(last := 20)
  {
    var b: seq<seq<Row>> := [[], [], [], []];
    assert [r][..0] == [] && Selected([r], 10, 20) == [];
    RollupIsOneWindow(s, 20, b);
    FlatFour(b, s.out);
  }

  /** A rollup with no append in between is one window of a run. */
  lemma {:induction false} RollupIsOneWindow(s: State, until: int, b: seq<seq<Row>>)
    requires s.window.None? && s.last < until && |b| == |CHANNELS|
    requires BlocksAnswer(b, s.store, s.last, until)
    ensures var events := [Open(until), Query(b[0]), Query(b[1]), Query(b[2]), Query(b[3])];
            Runs(s, events) && After(s, events) == s.(last := until, out := s.out + Flat(b))
  {
    var s1 := Next(s, Open(until));
    var s2 := Next(s1, Query(b[0]));
    var s3 := Next(s2, Query(b[1]));
    var s4 := Next(s3, Query(b[2]));
    var s5 := Next(s4, Query(b[3]));
    OneEvent(s4, Query(b[3]), []);
    OneEvent(s3, Query(b[2]), [Query(b[3])]);
    OneEvent(s2, Query(b[1]), [Query(b[2]), Query(b[3])]);
    OneEvent(s1, Query(b[0]), [Query(b[1]), Query(b[2]), Query(b[3])]);
    OneEvent(s, Open(until), [Query(b[0]), Query(b[1]), Query(b[2]), Query(b[3])]);
    assert s5.out == s.out + b[0] + b[1] + b[2] + b[3];
    FlatFour(b, s.out);
  }

  lemma {:induction false} OneEvent(s: State, e: Event, rest: seq<Event>)
    requires Enabled(s, e) && Runs(Next(s, e), rest)
    ensures Runs(s, [e] + rest) && After(s, [e] + rest) == After(Next(s, e), rest)
  {
    assert ([e] + rest)[1..] == rest;
  }

  lemma {:induction false} FlatFour(b: seq<seq<Row>>, out: seq<Row>)
    requires |b| == 4
    ensures out + Flat(b) == out + b[0] + b[1] + b[2] + b[3]
  {
    FlatOneMore(b, 0);
    FlatOneMore(b, 1);
    FlatOneMore(b, 2);
    FlatOneMore(b, 3);
    assert b[..4] == b;
  }
}
