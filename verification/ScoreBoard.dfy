/** Decaying sentiment scores of modules/news-pipeline/src/news_score.cpp, pruned in place by the query. */
module ScoreBoard {
  import opened Text

  /** Clock readings and publication times are integers of nanoseconds. */
  const NS_PER_SEC := 1_000_000_000

  const KEPT_HALF_LIVES := 8

  datatype Entry = Entry(contribution: real, ts: int)

  /** What ingest() looks at: sentiment in {-1, 0, 1}, confidence, mentioned tickers, publication time. */
  datatype Article = Article(sentiment: int, confidence: real, tickers: seq<string>, ts: int)

  function Contribution(a: Article): real {
    a.sentiment as real * a.confidence
  }

  /** duration_cast to seconds truncates toward zero. */
  function AgeSeconds(now: int, ts: int): int {
    var d := now - ts;
    if d >= 0 then d / NS_PER_SEC else -((-d) / NS_PER_SEC)
  }

  lemma {:induction false} OlderLater(ts: int, now: int, later: int)
    requires now <= later
    ensures AgeSeconds(now, ts) <= AgeSeconds(later, ts)
  {
  }

  /** A half-life in seconds, and the decay 0.5^x as a function of age over half-life. */
  datatype Decay = Decay(half: int, pow: real -> real)

  ghost predicate Decreasing(d: Decay) {
    && 0 < d.half
    && (forall x, y | x <= y :: d.pow(y) <= d.pow(x))
    && (forall x :: 0.0 < d.pow(x))
    && d.pow(8.0) == 1.0 / 256.0
  }

  function Weight(d: Decay, age: int): real
    requires d.half != 0
  {
    d.pow(age as real / d.half as real)
  }

  predicate Fresh(d: Decay, now: int, e: Entry) {
    AgeSeconds(now, e.ts) <= d.half * KEPT_HALF_LIVES
  }

  /** The entries young enough, in their order. */
  function Kept(d: Decay, now: int, entries: seq<Entry>): seq<Entry> {
    if entries == [] then []
    else
      var rest, e := Kept(d, now, entries[..|entries| - 1]), entries[|entries| - 1];
      if Fresh(d, now, e) then rest + [e] else rest
  }

  function Decayed(d: Decay, now: int, e: Entry): real
    requires d.half != 0
  {
    e.contribution * Weight(d, AgeSeconds(now, e.ts))
  }

  /** Decayed sum of all given entries. */
  function DecayedSum(d: Decay, now: int, entries: seq<Entry>): real
    requires d.half != 0
  {
    if entries == [] then 0.0
    else DecayedSum(d, now, entries[..|entries| - 1]) + Decayed(d, now, entries[|entries| - 1])
  }

  // ----- The board that never prunes -----

  /** Everything ever ingested for one ticker, neutral articles and repeated mentions included. */
  function Mentioned(articles: seq<Article>, ticker: string): seq<Entry> {
    if articles == [] then []
    else
      var a := articles[|articles| - 1];
      Mentioned(articles[..|articles| - 1], ticker) + Hits(a.tickers, ticker, Entry(Contribution(a), a.ts))
  }

  /** `e` once for each occurrence of the ticker. */
  function Hits(tickers: seq<string>, ticker: string, e: Entry): seq<Entry> {
    if tickers == [] then []
    else
      var rest := Hits(tickers[..|tickers| - 1], ticker, e);
      if tickers[|tickers| - 1] == ticker then rest + [e] else rest
  }

  /** The reference score: decayed sum over all ever-ingested contributions of age up to 8 half-lives. */
  function Score(d: Decay, articles: seq<Article>, ticker: string, now: int): real
    requires d.half != 0
  {
    DecayedSum(d, now, Kept(d, now, Mentioned(articles, ticker)))
  }

  lemma {:induction false} KeptAppend(d: Decay, now: int, a: seq<Entry>, b: seq<Entry>)
    ensures Kept(d, now, a + b) == Kept(d, now, a) + Kept(d, now, b)
  {
    if b == [] {
      assert a + b == a;
    } else {
      var n := |b| - 1;
      assert (a + b)[..|a + b| - 1] == a + b[..n];
      KeptAppend(d, now, a, b[..n]);
    }
  }

  lemma {:induction false} SumAppend(d: Decay, now: int, a: seq<Entry>, b: seq<Entry>)
    requires d.half != 0
    ensures DecayedSum(d, now, a + b) == DecayedSum(d, now, a) + DecayedSum(d, now, b)
  {
    if b == [] {
      assert a + b == a;
    } else {
      var n := |b| - 1;
      assert (a + b)[..|a + b| - 1] == a + b[..n];
      SumAppend(d, now, a, b[..n]);
    }
  }

  /** Pruning now changes nothing for any later instant: ages only grow. */
  lemma {:induction false} KeptTwice(d: Decay, now: int, later: int, entries: seq<Entry>)
    requires now <= later
    ensures Kept(d, later, Kept(d, now, entries)) == Kept(d, later, entries)
  {
    if entries != [] {
      var past, e := entries[..|entries| - 1], entries[|entries| - 1];
      KeptTwice(d, now, later, past);
      OlderLater(e.ts, now, later);
      var kept := Kept(d, now, past);
      assert (kept + [e])[..|kept|] == kept;
    }
  }

  /** Contributions of zero, which ingest() throws away, weigh nothing in the reference either. */
  lemma {:induction false} ZeroHits(d: Decay, now: int, tickers: seq<string>, ticker: string, e: Entry)
    requires d.half != 0 && e.contribution == 0.0
    ensures DecayedSum(d, now, Kept(d, now, Hits(tickers, ticker, e))) == 0.0
  {
    if tickers != [] {
      ZeroHits(d, now, tickers[..|tickers| - 1], ticker, e);
      var rest := Hits(tickers[..|tickers| - 1], ticker, e);
      var kept := Kept(d, now, rest);
      assert (rest + [e])[..|rest|] == rest && (kept + [e])[..|kept|] == kept;
    }
  }

  /** What a query adds up from a stored list. */
  function StoredSum(d: Decay, entries: seq<Entry>, now: int): real
    requires d.half != 0
  {
    DecayedSum(d, now, Kept(d, now, entries))
  }

  lemma {:induction false} StoredSumAppend(d: Decay, a: seq<Entry>, b: seq<Entry>, now: int)
    requires d.half != 0
    ensures StoredSum(d, a + b, now) == StoredSum(d, a, now) + StoredSum(d, b, now)
  {
    KeptAppend(d, now, a, b);
    SumAppend(d, now, Kept(d, now, a), Kept(d, now, b));
  }

  function Stored(entries: map<string, seq<Entry>>, ticker: string): seq<Entry> {
    if ticker in entries then entries[ticker] else []
  }

  /** No query of the ticker so far was later than `now`. */
  predicate Reached(queried: map<string, int>, ticker: string, now: int) {
    ticker in queried ==> queried[ticker] <= now
  }

  /** The latest query of the ticker once it has been queried at `now` too. */
  function Latest(queried: map<string, int>, ticker: string, now: int): int {
    if ticker in queried && now < queried[ticker] then queried[ticker] else now
  }

  /** What could be queried before, at `now` or after it, still can. */
  ghost predicate NoLater(before: map<string, int>, after: map<string, int>, now: int) {
    forall t, n: int | Reached(before, t, n) && now <= n :: Reached(after, t, n)
  }

  /** What every operation keeps: at any instant not before the last query, the pruned list adds up to
      the score of a board that never prunes. */
  ghost predicate Agrees(d: Decay, entries: map<string, seq<Entry>>, articles: seq<Article>,
                         queried: map<string, int>) {
    && d.half != 0
    && forall t, now: int | Reached(queried, t, now) ::
         StoredSum(d, Stored(entries, t), now) == Score(d, articles, t, now)
  }

  /** Every ticker's list has grown by its mentions. */
  ghost predicate Pushed(entries: map<string, seq<Entry>>, entries': map<string, seq<Entry>>, tickers: seq<string>,
                         e: Entry) {
    forall t :: Stored(entries', t) == Stored(entries, t) + Hits(tickers, t, e)
  }

  lemma {:induction false} AgreesAfterIngest(d: Decay, entries: map<string, seq<Entry>>,
                                             entries': map<string, seq<Entry>>, articles: seq<Article>,
                                             queried: map<string, int>, a: Article)
    requires Agrees(d, entries, articles, queried)
    requires var e := Entry(Contribution(a), a.ts);
             if e.contribution == 0.0 then entries' == entries
             else Pushed(entries, entries', a.tickers, e)
    ensures Agrees(d, entries', articles + [a], queried)
  {
    var e := Entry(Contribution(a), a.ts);
    forall t, now: int | Reached(queried, t, now)
      ensures StoredSum(d, Stored(entries', t), now) == Score(d, articles + [a], t, now)
    {
      var hits := Hits(a.tickers, t, e);
      assert (articles + [a])[..|articles|] == articles;
      assert Mentioned(articles + [a], t) == Mentioned(articles, t) + hits;
      StoredSumAppend(d, Mentioned(articles, t), hits, now);
      if e.contribution == 0.0 {
        ZeroHits(d, now, a.tickers, t, e);
      } else {
        StoredSumAppend(d, Stored(entries, t), hits, now);
      }
    }
  }

  lemma {:induction false} AgreesAfterQuery(d: Decay, entries: map<string, seq<Entry>>, articles: seq<Article>,
                                            queried: map<string, int>, ticker: string, now: int, mark: int)
    requires Agrees(d, entries, articles, queried) && ticker in entries
    requires now <= mark && (ticker in queried ==> queried[ticker] <= mark)
    ensures Agrees(d, entries[ticker := Kept(d, now, entries[ticker])], articles, queried[ticker := mark])
  {
    forall t, later: int | Reached(queried[ticker := mark], t, later)
      ensures StoredSum(d, Stored(entries[ticker := Kept(d, now, entries[ticker])], t), later)
           == Score(d, articles, t, later)
    {
      assert Reached(queried, t, later);
      if t == ticker {
        KeptTwice(d, now, later, entries[ticker]);
      }
    }
  }

  lemma {:induction false} StoredOneMore(now: map<string, seq<Entry>>, ticker: string, e: Entry, t: string)
    ensures Stored(now[ticker := Stored(now, ticker) + [e]], t) == Stored(now, t) + (if t == ticker then [e] else [])
  {
  }

  lemma {:induction false} HitsOneMore(tickers: seq<string>, ticker: string, e: Entry, t: string)
    ensures Hits(tickers + [ticker], t, e) == Hits(tickers, t, e) + (if t == ticker then [e] else [])
  {
    assert (tickers + [ticker])[..|tickers|] == tickers;
  }

  lemma {:induction false} Regrouped(a: seq<Entry>, b: seq<Entry>, c: seq<Entry>)
    ensures (a + b) + c == a + (b + c)
  {
  }

  lemma {:induction false} PushedOneMore(entries: map<string, seq<Entry>>, now: map<string, seq<Entry>>,
                                         tickers: seq<string>, ticker: string, e: Entry)
    requires Pushed(entries, now, tickers, e)
    ensures Pushed(entries, now[ticker := Stored(now, ticker) + [e]], tickers + [ticker], e)
  {
    var later := now[ticker := Stored(now, ticker) + [e]];
    forall t
      ensures Stored(later, t) == Stored(entries, t) + Hits(tickers + [ticker], t, e)
    {
      StoredOneMore(now, ticker, e, t);
      HitsOneMore(tickers, ticker, e, t);
      Regrouped(Stored(entries, t), Hits(tickers, t, e), if t == ticker then [e] else []);
    }
  }

  /** Moving an entry down leaves what is still to be read alone. */
  lemma {:induction false} WriteBehind(vec: seq<Entry>, was: seq<Entry>, read: nat, write: nat, e: Entry)
    requires |vec| == |was| && write <= read < |vec| && vec[read..] == was[read..]
    ensures vec[read + 1..] == was[read + 1..]
    ensures vec[write := e][read + 1..] == was[read + 1..]
    ensures vec[write := e][..write + 1] == vec[..write] + [e]
  {
    assert vec[read + 1..] == vec[read..][1..] && was[read + 1..] == was[read..][1..];
  }

  class NewsScoreBoard {
    const decay: Decay
    var entries: map<string, seq<Entry>>
    /** everything ever ingested, and the latest query instant of each ticker */
    ghost var articles: seq<Article>
    ghost var queried: map<string, int>

    ghost predicate Valid()
      reads this
    {
      Agrees(decay, entries, articles, queried)
    }

    constructor (decay: Decay)
      requires decay.half != 0
      ensures Valid() && articles == [] && queried == map[] && this.decay == decay
    {
      this.decay, entries, articles, queried := decay, map[], [], map[];
    }

    method Ingest(a: Article)
      requires Valid()
      modifies this
      ensures Valid() && articles == old(articles) + [a] && queried == old(queried)
    {
      var s := Contribution(a);
      ghost var before := entries;
      articles := articles + [a];
      if s == 0.0 || a.tickers == [] {
        AgreesAfterIngest(decay, before, entries, old(articles), queried, a);
        return;
      }
      entries := PushAll(entries, a.tickers, Entry(s, a.ts));
      AgreesAfterIngest(decay, before, entries, old(articles), queried, a);
    }

    /** One entry for each mention, under its ticker. */
    static method PushAll(entries: map<string, seq<Entry>>, tickers: seq<string>, e: Entry)
      returns (entries': map<string, seq<Entry>>)
      ensures Pushed(entries, entries', tickers, e)
    {
      entries' := entries;
      for i := 0 to |tickers|
        invariant Pushed(entries, entries', tickers[..i], e)
      {
        var t := tickers[i];
        PushedOneMore(entries, entries', tickers[..i], t, e);
        assert tickers[..i + 1] == tickers[..i] + [t];
        entries' := entries'[t := (if t in entries' then entries'[t] else []) + [e]];
      }
      assert tickers[..|tickers|] == tickers;
    }

    /** The erase-remove loop: kept entries move down to `write` while their decayed sum accumulates. */
    static method Compact(d: Decay, now: int, was: seq<Entry>) returns (vec: seq<Entry>, sum: real)
      requires d.half != 0
      ensures vec == Kept(d, now, was)
      ensures sum == DecayedSum(d, now, Kept(d, now, was))
    {
      vec := was;
      var write := 0;
      sum := 0.0;
      for read := 0 to |vec|
        invariant |vec| == |was| && 0 <= write <= read && vec[read..] == was[read..]
        invariant vec[..write] == Kept(d, now, was[..read])
        invariant sum == DecayedSum(d, now, vec[..write])
      {
        var e := vec[read];
        assert e == vec[read..][0] == was[read] && was[..read + 1][..read] == was[..read];
        WriteBehind(vec, was, read, write, e);
        if AgeSeconds(now, e.ts) <= d.half * KEPT_HALF_LIVES {
          ghost var kept := vec[..write];
          sum := sum + Decayed(d, now, e);
          vec := vec[write := e];
          write := write + 1;
          assert (kept + [e])[..|kept|] == kept;
        }
      }
      assert was[..|was|] == was;
      vec := vec[..write];
    }

    /** The query compacts its ticker's list in place to exactly the fresh entries, in order; unless the
        clock went back behind an earlier query, its answer is the never-pruned score. */
    method GetScore(ticker: string, now: int) returns (sum: real)
      requires Valid()
      modifies this
      ensures Valid() && articles == old(articles)
      ensures queried == old(queried)[ticker := Latest(old(queried), ticker, now)]
      ensures entries == if ticker in old(entries)
                         then old(entries)[ticker := Kept(decay, now, old(entries)[ticker])] else old(entries)
      ensures Reached(old(queried), ticker, now) ==> sum == Score(decay, articles, ticker, now)
    {
      ghost var mark := Latest(queried, ticker, now);
      if ticker !in entries {
        queried := queried[ticker := mark];
        return 0.0;
      }
      var vec;
      vec, sum := Compact(decay, now, entries[ticker]);
      AgreesAfterQuery(decay, entries, articles, queried, ticker, now, mark);
      entries := entries[ticker := vec];
      queried := queried[ticker := mark];
    }

    /** Every known ticker's score at one instant; a ticker it leaves out scores 0. Each known ticker counts as
        queried then, and its list is compacted. */
    method Snapshot(now: int) returns (out: map<string, real>)
      requires Valid()
      modifies this
      ensures Valid() && articles == old(articles)
      ensures out.Keys == old(entries).Keys && QueriedAt(old(entries), old(queried), now, {}, entries, queried)
      ensures NoLater(old(queried), queried, now)
      ensures forall t | Reached(old(queried), t, now) :: Score(decay, articles, t, now) == AnswerFor(out, t)
    {
      out := map[];
      ghost var was, before := entries, queried;
      var rest := entries.Keys;
      while rest != {}
        invariant Valid() && articles == old(articles)
        invariant rest <= was.Keys && out.Keys == was.Keys - rest
        invariant QueriedAt(was, before, now, rest, entries, queried)
        invariant forall t | t in out && Reached(before, t, now) :: out[t] == Score(decay, articles, t, now)
        decreases rest
      {
        var t :| t in rest;
        ghost var stored, asked := entries, queried;
        var score := GetScore(t, now);
        QueriedOne(was, before, now, rest, stored, asked, t);
        out := out[t := score];
        rest := rest - {t};
      }
      QueriedNoLater(was, before, now, entries, queried);
      UnknownScoresZero(entries, articles, before, queried, now);
    }

    /** What is compacted and marked once all of `was` but `rest` has been queried at `now`. */
    ghost predicate QueriedAt(was: map<string, seq<Entry>>, before: map<string, int>, now: int, rest: set<string>,
                              entries: map<string, seq<Entry>>, queried: map<string, int>)
    {
      && entries.Keys == was.Keys
      && (forall t | t in was :: entries[t] == if t in rest then was[t] else Kept(decay, now, was[t]))
      && (forall t :: t in queried <==> t in before || (t in was && t !in rest))
      && forall t | t in queried :: queried[t] == if t in was && t !in rest then Latest(before, t, now) else before[t]
    }

    lemma {:induction false} QueriedOne(was: map<string, seq<Entry>>, before: map<string, int>, now: int,
                                        rest: set<string>, entries: map<string, seq<Entry>>, queried: map<string, int>,
                                        t: string)
      requires t in rest && rest <= was.Keys && QueriedAt(was, before, now, rest, entries, queried)
      ensures QueriedAt(was, before, now, rest - {t}, entries[t := Kept(decay, now, entries[t])],
                        queried[t := Latest(queried, t, now)])
    {
    }

    lemma {:induction false} QueriedNoLater(was: map<string, seq<Entry>>, before: map<string, int>, now: int,
                                            entries: map<string, seq<Entry>>, queried: map<string, int>)
      requires QueriedAt(was, before, now, {}, entries, queried)
      ensures NoLater(before, queried, now)
    {
    }

    lemma {:induction false} UnknownScoresZero(entries: map<string, seq<Entry>>, articles: seq<Article>,
                                               before: map<string, int>, queried: map<string, int>, now: int)
      requires Agrees(decay, entries, articles, queried) && NoLater(before, queried, now)
      ensures forall t | t !in entries && Reached(before, t, now) :: Score(decay, articles, t, now) == 0.0
    {
      forall t | t !in entries && Reached(before, t, now)
        ensures Score(decay, articles, t, now) == 0.0
      {
        assert Reached(queried, t, now) && StoredSum(decay, Stored(entries, t), now) == 0.0;
      }
    }
  }

  function AnswerFor(answer: map<string, real>, ticker: string): real {
    if ticker in answer then answer[ticker] else 0.0
  }

  // ----- All runs -----

  datatype Op = Ingest(a: Article) | Ask(ticker: string, now: int) | AskAll(now: int)

  /** The articles ingested by the operations. */
  function Ingested(ops: seq<Op>): seq<Article> {
    if ops == [] then []
    else
      var before, op := Ingested(ops[..|ops| - 1]), ops[|ops| - 1];
      if op.Ingest? then before + [op.a] else before
  }

  /** No query is behind an earlier one. */
  predicate ClockForward(ops: seq<Op>) {
    forall i, j | 0 <= i < j < |ops| && !ops[i].Ingest? && !ops[j].Ingest? :: ops[i].now <= ops[j].now
  }

  /** What a query must answer, ticker by ticker: the never-pruned score over everything ingested before it. */
  ghost predicate Answered(d: Decay, past: seq<Article>, op: Op, answer: map<string, real>) {
    && d.half != 0
    && (op.Ingest? ==> answer == map[])
    && (op.Ask? ==> answer.Keys == {op.ticker} && answer[op.ticker] == Score(d, past, op.ticker, op.now))
    && (op.AskAll? ==> forall t :: Score(d, past, t, op.now) == AnswerFor(answer, t))
  }

  /** Nothing has been queried later than the queries from `i` on. */
  ghost predicate Ready(queried: map<string, int>, ops: seq<Op>, i: nat) {
    forall j, t | i <= j < |ops| && !ops[j].Ingest? :: Reached(queried, t, ops[j].now)
  }

  lemma {:induction false} ReadyKept(before: map<string, int>, after: map<string, int>, ops: seq<Op>, i: nat)
    requires ClockForward(ops) && i < |ops| && Ready(before, ops, i)
    requires after == before || (!ops[i].Ingest? && NoLater(before, after, ops[i].now))
    ensures Ready(after, ops, i + 1)
  {
  }

  ghost predicate AllAnswered(d: Decay, ops: seq<Op>, answers: seq<map<string, real>>) {
    |answers| <= |ops| && forall i | 0 <= i < |answers| :: Answered(d, Ingested(ops[..i]), ops[i], answers[i])
  }

  lemma {:induction false} IngestedOneMore(ops: seq<Op>, i: nat, past: seq<Article>)
    requires i < |ops| && past == Ingested(ops[..i])
    ensures Ingested(ops[..i + 1]) == past + if ops[i].Ingest? then [ops[i].a] else []
  {
    assert ops[..i + 1][..i] == ops[..i];
  }

  lemma {:induction false} OneMoreAnswered(d: Decay, ops: seq<Op>, answers: seq<map<string, real>>,
                                           answer: map<string, real>, past: seq<Article>)
    requires AllAnswered(d, ops, answers) && |answers| < |ops| && past == Ingested(ops[..|answers|])
    requires Answered(d, past, ops[|answers|], answer)
    ensures AllAnswered(d, ops, answers + [answer])
  {
    var more := answers + [answer];
    forall i | 0 <= i < |more|
      ensures Answered(d, Ingested(ops[..i]), ops[i], more[i])
    {
      assert more[i] == if i < |answers| then answers[i] else answer;
    }
  }

  method Perform(board: NewsScoreBoard, op: Op) returns (answer: map<string, real>)
    requires board.Valid() && (!op.Ingest? ==> forall t :: Reached(board.queried, t, op.now))
    modifies board
    ensures board.Valid()
    ensures board.articles == old(board.articles) + if op.Ingest? then [op.a] else []
    ensures board.queried == old(board.queried)
            || (!op.Ingest? && NoLater(old(board.queried), board.queried, op.now))
    ensures Answered(board.decay, old(board.articles), op, answer)
  {
    answer := map[];
    match op
    case Ingest(a) => board.Ingest(a);
    case Ask(ticker, now) =>
      var score := board.GetScore(ticker, now);
      answer := map[ticker := score];
    case AskAll(now) => answer := board.Snapshot(now);
  }

  /** Pruning is invisible: in any interleaving of the three operations on a clock that does not go back, every
      answer is that of a board that keeps everything. */
  method Run(d: Decay, ops: seq<Op>) returns (answers: seq<map<string, real>>)
    requires d.half != 0 && ClockForward(ops)
    ensures |answers| == |ops|
    ensures forall i | 0 <= i < |ops| :: Answered(d, Ingested(ops[..i]), ops[i], answers[i])
  {
    var board := new NewsScoreBoard(d);
    answers := [];
    for i := 0 to |ops|
      invariant |answers| == i && board.decay == d && board.Valid()
      invariant board.articles == Ingested(ops[..i]) && Ready(board.queried, ops, i)
      invariant AllAnswered(d, ops, answers)
    {
      ghost var past, before := board.articles, board.queried;
      var answer := Perform(board, ops[i]);
      ReadyKept(before, board.queried, ops, i);
      IngestedOneMore(ops, i, past);
      OneMoreAnswered(d, ops, answers, answer, past);
      answers := answers + [answer];
    }
  }

  // ----- What a score is -----

  lemma {:induction false} MentionedAdds(a: seq<Article>, b: seq<Article>, ticker: string)
    ensures Mentioned(a + b, ticker) == Mentioned(a, ticker) + Mentioned(b, ticker)
  {
    if b == [] {
      assert a + b == a;
    } else {
      var init := b[..|b| - 1];
      MentionedAdds(a, init, ticker);
      assert (a + b)[..|a + b| - 1] == a + init;
    }
  }

  /** Scores add up over the articles. */
  lemma {:induction false} ScoreAdds(d: Decay, a: seq<Article>, b: seq<Article>, ticker: string, now: int)
    requires d.half != 0
    ensures Score(d, a + b, ticker, now) == Score(d, a, ticker, now) + Score(d, b, ticker, now)
  {
    MentionedAdds(a, b, ticker);
    StoredSumAppend(d, Mentioned(a, ticker), Mentioned(b, ticker), now);
  }

  /** Whole seconds from `ts` to `now`, cut toward zero. */
  predicate WholeSecondsOld(ts: int, now: int, age: int) {
    if ts <= now then 0 <= age && age * 1_000_000_000 <= now - ts < (age + 1) * 1_000_000_000
    else age <= 0 && -age * 1_000_000_000 <= ts - now < (-age + 1) * 1_000_000_000
  }

  lemma {:induction false} AgeIs(ts: int, now: int, age: int)
    requires WholeSecondsOld(ts, now, age)
    ensures AgeSeconds(now, ts) == age
  {
  }

  function Scaled(n: nat, x: real): real {
    n as real * x
  }

  lemma {:induction false} ScaledStep(n: nat, x: real)
    ensures Scaled(0, x) == 0.0 && Scaled(n + 1, x) == Scaled(n, x) + x
  {
    assert (n + 1) as real * x == n as real * x + x;
  }

  lemma {:induction false} OneEntrySum(d: Decay, now: int, e: Entry)
    requires d.half != 0
    ensures StoredSum(d, [e], now) == if Fresh(d, now, e) then Decayed(d, now, e) else 0.0
  {
    var none: seq<Entry> := [];
    assert [e][..0] == none && none + [e] == [e];
    assert Kept(d, now, [e]) == if Fresh(d, now, e) then [e] else none;
    assert DecayedSum(d, now, [e]) == DecayedSum(d, now, none) + Decayed(d, now, e);
  }

  lemma {:induction false} HitsOfOneMore(tickers: seq<string>, ticker: string)
    requires tickers != []
    ensures multiset(tickers)[ticker]
         == multiset(tickers[..|tickers| - 1])[ticker] + if tickers[|tickers| - 1] == ticker then 1 else 0
  {
    assert tickers == tickers[..|tickers| - 1] + [tickers[|tickers| - 1]];
  }

  lemma {:induction false} HitsAddUp(d: Decay, now: int, tickers: seq<string>, ticker: string, e: Entry, x: real)
    requires d.half != 0 && x == StoredSum(d, [e], now)
    ensures StoredSum(d, Hits(tickers, ticker, e), now) == Scaled(multiset(tickers)[ticker], x)
  {
    if tickers == [] {
      ScaledStep(0, x);
    } else {
      var init := tickers[..|tickers| - 1];
      HitsAddUp(d, now, init, ticker, e, x);
      HitsOfOneMore(tickers, ticker);
      if tickers[|tickers| - 1] == ticker {
        StoredSumAppend(d, Hits(init, ticker, e), [e], now);
        ScaledStep(multiset(init)[ticker], x);
      }
    }
  }

  lemma {:induction false} MentionedOnce(a: Article, ticker: string)
    ensures Mentioned([a], ticker) == Hits(a.tickers, ticker, Entry(Contribution(a), a.ts))
  {
    var none: seq<Article> := [];
    assert [a][..0] == none && Mentioned(none, ticker) == [];
  }

  /** What `m` mentions contribute: for each, sentiment times confidence times the decay. */
  function Share(m: nat, sentiment: int, confidence: real, decay: real): real {
    m as real * ((sentiment as real * confidence) * decay)
  }

  lemma {:induction false} ShareIs(m: nat, sentiment: int, confidence: real, decay: real, c: real, x: real)
    requires c == sentiment as real * confidence && x == c * decay
    ensures Scaled(m, x) == Share(m, sentiment, confidence, decay)
  {
  }

  lemma {:induction false} DecayedIs(d: Decay, now: int, c: real, ts: int, age: int, w: real)
    requires d.half != 0 && WholeSecondsOld(ts, now, age) && w == d.pow(age as real / d.half as real)
    ensures StoredSum(d, [Entry(c, ts)], now) == if age <= d.half * 8 then c * w else 0.0
  {
    AgeIs(ts, now, age);
    OneEntrySum(d, now, Entry(c, ts));
  }

  /** One article scores, for each time it mentions the ticker, its sentiment times its confidence times 0.5 to the
      age over the half-life, and nothing once it is more than 8 half-lives old. */
  lemma {:induction false} ScoreOfOne(d: Decay, a: Article, ticker: string, now: int, age: int, w: real)
    requires d.half != 0 && WholeSecondsOld(a.ts, now, age) && w == d.pow(age as real / d.half as real)
    ensures Score(d, [a], ticker, now)
         == if age <= d.half * 8 then Share(multiset(a.tickers)[ticker], a.sentiment, a.confidence, w) else 0.0
  {
    var c, m := Contribution(a), multiset(a.tickers)[ticker];
    var x := StoredSum(d, [Entry(c, a.ts)], now);
    DecayedIs(d, now, c, a.ts, age, w);
    MentionedOnce(a, ticker);
    HitsAddUp(d, now, a.tickers, ticker, Entry(c, a.ts), x);
    if age <= d.half * 8 {
      ShareIs(m, a.sentiment, a.confidence, w, c, x);
    } else {
      assert Scaled(m, 0.0) == 0.0;
    }
  }

  /** At the instant of its publication a single mention scores plus or minus the confidence. */
  lemma {:induction false} FreshScore(d: Decay, a: Article, ticker: string)
    requires 0 < d.half && d.pow(0.0) == 1.0 && multiset(a.tickers)[ticker] == 1
    requires a.sentiment == 1 || a.sentiment == -1
    ensures Score(d, [a], ticker, a.ts) == if a.sentiment == 1 then a.confidence else -a.confidence
  {
    assert 0 as real / d.half as real == 0.0;
    ScoreOfOne(d, a, ticker, a.ts, 0, 1.0);
    assert Share(1, a.sentiment, a.confidence, 1.0) == a.sentiment as real * a.confidence;
  }

  /** What is published at `now` or before, and will not have expired at `later`. */
  predicate Lasts(d: Decay, a: Article, now: int, later: int) {
    a.ts <= now && later - a.ts < (d.half * 8 + 1) * 1_000_000_000
  }

  ghost predicate Halving(d: Decay) {
    0 < d.half && forall x :: d.pow(x + 1.0) == d.pow(x) / 2.0
  }

  lemma {:induction false} HalfLifeAges(half: int, ts: int, now: int, later: int, age: int)
    requires 0 < half && later == now + half * 1_000_000_000 && ts <= now
    requires later - ts < (half * 8 + 1) * 1_000_000_000 && age == (now - ts) / 1_000_000_000
    ensures WholeSecondsOld(ts, now, age) && WholeSecondsOld(ts, later, age + half) && age + half <= half * 8
  {
    assert (age + half) * 1_000_000_000 == age * 1_000_000_000 + half * 1_000_000_000;
  }

  lemma {:induction false} RatioAndOne(age: real, half: real)
    requires half > 0.0
    ensures (age + half) / half == age / half + 1.0
  {
    var q := age / half;
    assert (q + 1.0) * half == age + half;
    Quotient(age + half, half, q + 1.0);
  }

  lemma {:induction false} OneMoreHalfLife(d: Decay, age: int)
    requires Halving(d)
    ensures d.pow((age + d.half) as real / d.half as real) == d.pow(age as real / d.half as real) / 2.0
  {
    RatioAndOne(age as real, d.half as real);
    assert (age + d.half) as real == age as real + d.half as real;
  }

  lemma {:induction false} ShareHalves(m: nat, sentiment: int, confidence: real, w: real)
    ensures Share(m, sentiment, confidence, w / 2.0) == Share(m, sentiment, confidence, w) / 2.0
  {
    var c := sentiment as real * confidence;
    assert c * (w / 2.0) == (c * w) / 2.0;
  }

  lemma {:induction false} OneHalves(d: Decay, a: Article, ticker: string, now: int, later: int)
    requires Halving(d) && later == now + d.half * 1_000_000_000 && Lasts(d, a, now, later)
    ensures Score(d, [a], ticker, later) == Score(d, [a], ticker, now) / 2.0
  {
    var age := (now - a.ts) / 1_000_000_000;
    var w := d.pow(age as real / d.half as real);
    HalfLifeAges(d.half, a.ts, now, later, age);
    OneMoreHalfLife(d, age);
    ScoreOfOne(d, a, ticker, now, age, w);
    ScoreOfOne(d, a, ticker, later, age + d.half, w / 2.0);
    ShareHalves(multiset(a.tickers)[ticker], a.sentiment, a.confidence, w);
  }

  /** One half-life later every score is exactly half, as long as nothing expires in between. */
  lemma {:induction false} ScoreHalves(d: Decay, articles: seq<Article>, ticker: string, now: int, later: int)
    requires Halving(d) && later == now + d.half * 1_000_000_000
    requires forall a | a in articles :: Lasts(d, a, now, later)
    ensures Score(d, articles, ticker, later) == Score(d, articles, ticker, now) / 2.0
  {
    if articles != [] {
      var past, a := articles[..|articles| - 1], articles[|articles| - 1];
      ScoreHalves(d, past, ticker, now, later);
      OneHalves(d, a, ticker, now, later);
      assert articles == past + [a];
      ScoreAdds(d, past, [a], ticker, now);
      ScoreAdds(d, past, [a], ticker, later);
    }
  }

  // ----- How far the truncated sum is from the full one -----

  function Dropped(d: Decay, now: int, entries: seq<Entry>): seq<Entry> {
    if entries == [] then []
    else
      var rest, e := Dropped(d, now, entries[..|entries| - 1]), entries[|entries| - 1];
      if Fresh(d, now, e) then rest else rest + [e]
  }

  function AbsSum(entries: seq<Entry>): real {
    if entries == [] then 0.0
    else AbsSum(entries[..|entries| - 1]) + Abs(entries[|entries| - 1].contribution)
  }

  lemma {:induction false} ExpiredWeight(d: Decay, now: int, e: Entry)
    requires Decreasing(d) && !Fresh(d, now, e)
    ensures Abs(Decayed(d, now, e)) <= Abs(e.contribution) / 256.0
  {
    var age := AgeSeconds(now, e.ts);
    var x := age as real / d.half as real;
    assert x * d.half as real == age as real;
    assert x >= 8.0;
    var w := d.pow(x);
    assert 0.0 < w <= 1.0 / 256.0;
    SmallShare(e.contribution, w);
  }

  lemma {:induction false} SmallShare(c: real, w: real)
    requires 0.0 < w <= 1.0 / 256.0
    ensures Abs(c * w) <= Abs(c) / 256.0
  {
    if c >= 0.0 {
      assert c * w <= c * (1.0 / 256.0);
    } else {
      assert (-c) * w <= (-c) * (1.0 / 256.0);
    }
  }

  lemma {:induction false} GapStep(full: real, kept: real, x: real, m: real, c: real)
    requires Abs(full - kept) <= m / 256.0 && Abs(x) <= c / 256.0
    ensures Abs(full + x - kept) <= (m + c) / 256.0
  {
  }

  /** Cutting at 8 half-lives costs at most 1/256 of the dropped contributions' absolute values. */
  lemma {:induction false} TruncationGap(d: Decay, now: int, entries: seq<Entry>)
    requires Decreasing(d)
    ensures Abs(DecayedSum(d, now, entries) - DecayedSum(d, now, Kept(d, now, entries)))
         <= AbsSum(Dropped(d, now, entries)) / 256.0
  {
    if entries != [] {
      var past, e := entries[..|entries| - 1], entries[|entries| - 1];
      TruncationGap(d, now, past);
      var kept, dropped := Kept(d, now, past), Dropped(d, now, past);
      assert (kept + [e])[..|kept|] == kept && (dropped + [e])[..|dropped|] == dropped;
      if !Fresh(d, now, e) {
        ExpiredWeight(d, now, e);
        GapStep(DecayedSum(d, now, past), DecayedSum(d, now, kept), Decayed(d, now, e), AbsSum(dropped),
                Abs(e.contribution));
      }
    }
  }

  // ----- When a query may prune -----

  /** The entry that expires in the second of instant `q`. */
  function Expiring(d: Decay, q: int): Entry {
    Entry(1.0, q - (d.half * KEPT_HALF_LIVES + 1) * NS_PER_SEC)
  }

  lemma {:induction false} ExpiresAt(d: Decay, q: int, now: int)
    requires 0 < d.half && now < q
    ensures !Fresh(d, q, Expiring(d, q)) && Fresh(d, now, Expiring(d, q))
  {
    var limit := d.half * KEPT_HALF_LIVES;
    WholeSeconds(limit + 1, (limit + 1) * NS_PER_SEC);
    BelowWhole(limit + 1, now - Expiring(d, q).ts);
  }

  lemma {:induction false} WholeSeconds(n: nat, ns: int)
    requires ns == n * NS_PER_SEC
    ensures ns / NS_PER_SEC == n
  {
  }

  lemma {:induction false} BelowWhole(n: nat, ns: int)
    requires ns < n * NS_PER_SEC && 0 < n
    ensures (if ns >= 0 then ns / NS_PER_SEC else -((-ns) / NS_PER_SEC)) < n
  {
  }

  /** A query behind an earlier one misses what expired in between. */
  lemma {:induction false} ClockBackMisses(d: Decay, q: int, now: int)
    requires Decreasing(d) && now < q
    ensures StoredSum(d, Kept(d, q, [Expiring(d, q)]), now) != StoredSum(d, [Expiring(d, q)], now)
  {
    var e := Expiring(d, q);
    ExpiresAt(d, q, now);
    assert [e][..0] == [];
    assert Kept(d, now, [e]) == [e] && Kept(d, q, [e]) == [];
    var w := Weight(d, AgeSeconds(now, e.ts));
    assert w > 0.0;
    assert Decayed(d, now, e) == 1.0 * w;
  }

  /** Pruning at `q` is invisible at `now`, whatever is stored, exactly when `now` is not behind `q`. */
  lemma {:induction false} PruningInvisibleExactly(d: Decay, q: int, now: int)
    requires Decreasing(d)
    ensures (forall entries :: StoredSum(d, Kept(d, q, entries), now) == StoredSum(d, entries, now)) <==> q <= now
  {
    if q <= now {
      forall entries
        ensures StoredSum(d, Kept(d, q, entries), now) == StoredSum(d, entries, now)
      {
        KeptTwice(d, q, now, entries);
      }
    } else {
      ClockBackMisses(d, q, now);
    }
  }
}
