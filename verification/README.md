# Verified models of a market-data and trading toolchain

Dafny models of the parts of the repository where the behaviour is hardest to see from one body of code, with
proofs about them. `dafny verify dfyconfig.toml` (Dafny 4.11) covers the whole project. Automatic induction is
switched off on every lemma: each induction is written out as a recursive call.

One module models one component:

- `Ner` - the ticker tagger: aliases by descending length, a bitmap of consumed bytes, a scan for each alias.
- `Series`, `Signals`, `StrategyBot` - moving averages, the two streaming detectors, and the loop that sends their
  signals under a cooldown for each (symbol, kind).
- `Positions`, `Equity` - three position machines (Python on cross events, Julia and R on levels), equity, drawdown.
- `Hub` - the server-sent-events fan-out: the locked map of subscribers as a class, and all interleavings of attach,
  detach, publish, per-subscriber push and receive as a state machine.
- `ScoreBoard` - decaying news scores, pruned by the query that reads them.
- `TradeCodec` - the hand-written JSON printer of the feeds and the substring-search reader of the warehouse.
- `Rollup`, `Projection` - the warehouse's store, its window loop beside a concurrent subscriber, and the CSV and
  Arrow forms of the rows.
- `Tokenizer` - greedy longest-match encoding and the attention mask.
- `Poller` - the disclosure poller's bounded duplicate filter in front of the store.
- `KrxSession`, `Lifecycle` - the exchange clock, the start/stop protocol of three clients, and the supervisor that
  joins them.
- `Text` - `Option`, substring search and spans.

Strings are sequences of bytes (`char` stands for one byte). Prices, averages and decay weights are exact reals.
Hash maps, sorts with ties and thread schedules are left open, so a statement holds for every order they may take.

Several promises hold only under a condition. Each condition is stated as "exactly when" over all inputs, with a
concrete failing case beside it:

- The tagger's comment promises stable output (`modules/news-pipeline/src/ner.cpp:55`). Keys of equal length are
  sorted in whatever order the hash map gives: `Ner.StableExactlyWhenUncontended`; "ab" and "ba" in "aba" may come out
  either way (`Ner.OrderCanMatter`).
- Longest match holds for an alias in every body exactly when it cannot overlap itself: `Ner.LongestMatchExactly`;
  "aba" in "xxababa" (`Ner.BorderedOccurrenceCanBeMissed`).
- Streaming and batch crosses agree exactly when the fast window is not the longer one:
  `Signals.StreamIsBatchExactly`; `Signals.ShortSlowDiverges` gives a history for every such pair.
- Event-driven and level-driven positions agree exactly when the fast average does not start above:
  `Positions.EventsAreLevelsExactly`; two rising bars (`Positions.EventsCanLag`).
- Pruning at one instant is invisible exactly at instants not behind it: `ScoreBoard.PruningInvisibleExactly`;
  `ScoreBoard.ClockBackMisses` gives the lost entry for every earlier instant.
- A printed trade is read back exactly when its symbol has no quote and its tokens are clean, since the printer does
  not escape as section 7 of RFC 8259 asks: `TradeCodec.RoundTripExactly`; the symbol `a"b` (`TradeCodec.QuotedSymbolExample`).
- A text is masked right under every vocabulary with the four specials exactly when it does not spell "[PAD]":
  `Tokenizer.MaskedRightExactly`; `Tokenizer.PadTextIsMasked` gives a vocabulary and a length for every text that does,
  and `Tokenizer.PadTextExample` one such mask.
- The delay "until the next state change" (`modules/stock-feed/include/stock/krx_session.hpp:30`) drops the fraction of
  the current second and also stops at boundaries of days without trading: `KrxSession.NextChangeExactly`; 08:29:59.5
  on a Monday (`KrxSession.OversleepsHalfASecond`) and 08:00 on a Saturday (`KrxSession.WeekendBoundaryIsNoChange`).
- The poller's comment speaks of evicting the smallest number (`modules/dart-crawler/src/dart_client.cpp:143-144`); the
  code evicts the oldest emission: `Poller.FilterSufficesExactly`; 10,001 numbers and the first again
  (`Poller.LateReturnExample`). The store behind it hides this (`Poller.FilterIsInvisible`).
- A row comes out of the rollup once for each kept window around it, so not at all when its window threw:
  `Rollup.RowsConservedExactly`; `Rollup.ThrownWindowExample`.
- A client can bring the process down exactly when it does not reconnect or has no handler around its callback:
  `Lifecycle.TerminatesExactly`, whose two runs are `Lifecycle.OverwrittenRuns` and `Lifecycle.EscapedRuns`.
- A CSV file is read back cell by cell exactly when no cell holds a comma or a line break:
  `Projection.CsvReadsBackExactly`; the tag "a,b" (`Projection.CommaSplitsCell`).

## Model

| member | source | states |
|---|---|---|
| Ner.TickerNer.AddCompany | modules/news-pipeline/src/ner.cpp:25-27 | the corporate name becomes a key for itself and its ticker, replacing an earlier entry |
| Ner.TickerNer.AddAlias | modules/news-pipeline/src/ner.cpp:28-36 | an alias takes the name of some entry with that ticker; without one the dictionary is unchanged |
| Ner.TickerNer.SortedAliases | modules/news-pipeline/src/ner.cpp:56-62 | every key once, by descending length, ties open |
| Ner.TickerNer.Visit | modules/news-pipeline/src/ner.cpp:70-82 | the bitmap lets an occurrence in exactly when it overlaps no earlier hit, and then marks exactly its bytes |
| Ner.TickerNer.Scan | modules/news-pipeline/src/ner.cpp:66-84 | one alias adds exactly the visited occurrences free of what was taken before it |
| Ner.TickerNer.Tag | modules/news-pipeline/src/ner.cpp:54-90 | the result lists, strictly by start and with the dictionary's ticker and name for the bytes, exactly the winning spans of one admissible alias order |
| Ner.VisitedApart | modules/news-pipeline/src/ner.cpp:68-83 | occurrences visited for one alias never overlap |
| Ner.SkippedOnlyInsideVisited | modules/news-pipeline/src/ner.cpp:82 | an occurrence the scan skips starts strictly inside an earlier visited one |
| Ner.BorderlessAllVisited | modules/news-pipeline/src/ner.cpp:69-82 | an alias that cannot overlap itself has every occurrence visited |
| Ner.WinnersSound | modules/news-pipeline/src/ner.cpp:66-84 | winning spans spell aliases and are pairwise disjoint |
| Ner.CandidateWinsOrIsCovered | modules/news-pipeline/src/ner.cpp:66-84 | a visited occurrence wins or overlaps a winner at least as long |
| Ner.BorderlessOccurrencesTagged | modules/news-pipeline/src/ner.cpp:54-90 | longest match: every occurrence of a borderless alias is a hit or overlaps a hit at least as long |
| Ner.OccurrencesTaggedOrSkipped | modules/news-pipeline/src/ner.cpp:54-90 | any occurrence is a hit, or overlaps a hit at least as long, or starts inside an earlier occurrence of the same alias |
| Ner.BorderedOccurrenceCanBeMissed | modules/news-pipeline/src/ner.cpp:82 | a concrete occurrence no hit touches, lost by the jump to the end of a refused occurrence, in every order |
| Ner.LongestMatchExactly | modules/news-pipeline/src/ner.cpp:54-90 | for every nonempty alias: each of its occurrences in every body, dictionary and order is a hit or overlaps a different hit at least as long, exactly when no proper prefix of it is a suffix |
| Ner.WinnersAreCanonical | modules/news-pipeline/src/ner.cpp:59-84 | without contention the winners are the order-free choice "no longer canonical candidate overlaps" |
| Ner.StableExactlyWhenUncontended | modules/news-pipeline/src/ner.cpp:55-84 | the hits are the same under every hash-map order exactly when no equal-length pair of candidates contends for bytes no longer winner takes |
| Ner.StableWhenEqualLengthsApart | modules/news-pipeline/src/ner.cpp:55-84 | in particular when no two distinct equal-length aliases overlap in the body |
| Ner.ListsUnique | modules/news-pipeline/src/ner.cpp:85-88 | distinct starts leave the final sort no choice: the spans fix the mention list |
| Ner.MentionsStable | modules/news-pipeline/src/ner.cpp:54-90 | two calls under different orders return the same mentions when nothing contends |
| Ner.OrderCanMatter | modules/news-pipeline/src/ner.cpp:55-62 | a two-alias body whose output depends on the hash-map order |
| Series.MeanOfEquals | python/strategy_bot/signals.py:42-48 | a full window of one price has that price as its mean, and a window not yet full has none |
| Series.MeanSlides | python/backtester/strategies.py:9-10 | from bar to bar the mean times its width moves by the price that comes in less the one that goes out |
| Signals.SnapshotIsRolling | python/strategy_bot/signals.py:42-48 | averages over the bounded deque are the rolling means of the full history |
| Signals.SnapshotIsClipped | python/strategy_bot/signals.py:28-48 | with any windows the slow average is over the last slow prices and the fast one over no more than the slow + 2 the deque keeps |
| Signals.StreamEqualsBatch | python/strategy_bot/signals.py:27-48 | at every tick the streaming cross is the batch cross of the full history |
| Signals.ShortSlowDiverges | python/strategy_bot/signals.py:43-47 | for any fast window longer than the slow one, a history on which they differ |
| Signals.StreamIsBatchExactly | python/backtester/strategies.py:7-13 | stream and batch agree on every history exactly when the fast window is not longer |
| Signals.MovingAverageDetector.Feed | python/strategy_bot/signals.py:27-40 | whatever symbols are interleaved, the report depends on the symbol's own full history alone, and carries the event's symbol and price |
| Signals.ReportedIsBatch | python/strategy_bot/signals.py:27-40 | and is the batch cross at the newest tick |
| Signals.JumpRunShape | python/strategy_bot/signals.py:59-67 | the deque is the run of last prices since the last firing, capped at the window |
| Signals.JumpExactly | python/strategy_bot/signals.py:58-70 | a tick fires exactly when a full window has passed since the last firing and the change from window-1 ticks earlier is large enough |
| Signals.JumpSpacing | python/strategy_bot/signals.py:61-67 | two firings of a symbol are at least a window of ticks apart |
| Signals.FiringsBounded | python/strategy_bot/signals.py:58-70 | n ticks hold at most n/window firings |
| Signals.JudgeFires | python/strategy_bot/signals.py:64-66 | firing means abs(price - reference) * 100 >= threshold * abs(reference); the kind is up exactly when the price rose over a positive reference or fell below a negative one; a zero reference raises |
| Signals.PriceJumpDetector.Feed | python/strategy_bot/signals.py:58-70 | the report is that of the symbol's own run, with the event's symbol and price; a zero reference price raises |
| Signals.JumpedIsLastTick | python/strategy_bot/signals.py:58-70 | one feed adds one tick to the symbol's run |
| StrategyBot.ThinSpaced | python/strategy_bot/run.py:69-72 | sends of one (symbol, kind) are 60 s apart, whatever the clock does |
| StrategyBot.ThinRate | python/strategy_bot/run.py:52-72 | T seconds hold at most floor(T/60)+1 sends of one key |
| StrategyBot.ThinCovers | python/strategy_bot/run.py:69-72 | on a clock that does not go back, a suppressed signal is within 60 s after a sent one |
| StrategyBot.ThinOptimal | python/strategy_bot/run.py:69-72 | no other 60 s spaced choice sends more |
| StrategyBot.SendsAreThinned | python/strategy_bot/run.py:68-72 | for every symbol and kind, the clock readings of the sends with those fields are the thinning of the readings of all signals with those fields |
| StrategyBot.OthersDoNotMatter | python/strategy_bot/run.py:68-72 | signals of another symbol or kind never change which signals of one symbol and kind are sent |
| StrategyBot.Offer | python/strategy_bot/run.py:68-77 | the dictionary lookup decides like the cooldown of the signal's own symbol and kind, and keeps remembering when each was last sent |
| StrategyBot.Run | python/strategy_bot/run.py:63-77 | over a whole stream, what is sent is what passes the cooldown among all signals both detectors raise, in order, up to the event that raises, if any |
| StrategyBot.CrossSignalsExactly | python/strategy_bot/run.py:47-66 | an event raises a cross signal exactly where the 20-tick average of its symbol crosses the 60-tick one, with its symbol and price |
| StrategyBot.JumpSignalsExactly | python/strategy_bot/run.py:48-66 | an event raises a jump signal exactly when 100 ticks of its symbol have passed since the last one and the price moved by half a percent over them, upward or downward as named |
| Positions.EventPositions | python/backtester/run.py:26-33 | the position loop holds exactly the event machine's state at every bar |
| Positions.LevelPositions | r/quant_research/backtest.R:43-56 | R's loop holds exactly the level machine's state |
| Positions.JuliaPositions | julia/quant-tools/src/backtest.jl:9-27 | Julia's loop fails below slow bars and otherwise holds its machine's state, flat on bar 1 |
| Positions.JuliaIsR | julia/quant-tools/src/backtest.jl:14-27 | Julia and R hold the same positions on every series and windows |
| Positions.InStepFrom | python/backtester/run.py:28-33 | once event and level machines agree they agree for good |
| Positions.InStepOnceBelow | r/quant_research/backtest.R:49-54 | they agree from the first bar with the fast average below |
| Positions.EventsAreLevelsExactly | python/backtester/strategies.py:9-13 | they agree at every bar exactly when the first bar with both averages does not have the fast one above |
| Positions.EventsCanLag | python/backtester/run.py:28-33 | two rising bars on which the level machine buys and the event machine does not |
| Equity.JuliaEquityIsPython | julia/quant-tools/src/backtest.jl:29-34 | for the same positions Julia's equity at a bar is Python's |
| Equity.PythonCurveIsOneThenJulia | python/backtester/run.py:35-39 | Python's curve is a leading 1 followed by Julia's |
| Equity.RunsListHoldings | python/backtester/run.py:26-33 | the recorded runs are exactly the maximal stretches held, in order, the last one open if unsold |
| Equity.EquityTelescopes | python/backtester/run.py:35-39 | equity is the product over holding runs of (1-fee) times the price ratio inside the run times the exit bar's growth less the fee |
| Equity.ZeroFeeIsPriceRatios | python/backtester/run.py:35-39 | at zero fee closed runs multiply to exit over entry prices |
| Equity.ZeroFeeEquity | python/backtester/run.py:35-39 | at zero fee equity after any bar is the product of exit over entry prices, times the last price over the entry price of a run still open |
| Equity.TradesAreRunEnds | python/backtester/run.py:36 | trades are two for each closed run and one for an open one |
| Equity.DrawdownIsWorstFall | julia/quant-tools/src/backtest.jl:38-40 | the one-pass running-maximum value is the least equity[t] / equity[s] - 1 over all s <= t, attained, and in (-1, 0] |
| Equity.LeadingBarOnlyDeepens | python/backtester/run.py:48 | a bar put in front can only make the drawdown worse |
| Equity.PythonDrawdownBelowJulia | python/backtester/run.py:39-48 | Python's drawdown is never above Julia's on the same positions |
| Hub.Fanout.Attach | go/lqc-gateway/subscribe.go:21-30 | adds a fresh open empty channel under the name |
| Hub.Fanout.Detach | go/lqc-gateway/subscribe.go:32-42 | removes the channel and an emptied name, and closes the channel once |
| Hub.Fanout.Deliver | go/lqc-gateway/subscribe.go:44-53 | offers the payload once to each subscriber, dropping on a full buffer, changing nothing else |
| Hub.DetachUndoesAttach | go/lqc-gateway/subscribe.go:21-42 | attaching and detaching restore the subscriber map |
| Hub.InvKept | go/lqc-gateway/sse.go:30-48 | every action of every participant keeps the hub invariant |
| Hub.HubSafe | go/lqc-gateway/subscribe.go:21-53 | in every interleaving no send or close hits a closed channel, no set is empty, buffers hold at most 64, and received plus buffered is an in-order selection of what was published while attached, short by exactly the drops, each on a full buffer |
| Hub.ReceiverNeverWaits | go/lqc-gateway/sse.go:41-47 | in every reachable state a reading handler with something in its buffer can receive, deliveries under way included |
| Hub.NobodyIsLockedOut | go/lqc-gateway/subscribe.go:21-53 | a delivery under way can take its channels in any order; without one anybody can attach, publish and detach |
| Hub.AcceptedFromOffered | go/lqc-gateway/subscribe.go:47-52 | accepted payloads are a subsequence of offered ones, and offered = accepted + dropped |
| Hub.DeliveryNeverWaits | go/lqc-gateway/subscribe.go:44-53 | from any reachable delivery the deliverer's own steps finish it, one for each subscriber and one more |
| ScoreBoard.ScoreAdds | modules/news-pipeline/src/news_score.cpp:24-36 | scores add up over the articles |
| ScoreBoard.ScoreOfOne | modules/news-pipeline/src/news_score.cpp:10-36 | one article scores, for each mention, its sentiment times its confidence times 0.5 to the age in whole seconds over the half-life, and nothing beyond 8 half-lives |
| ScoreBoard.FreshScore | modules/news-pipeline/src/news_score.cpp:11-32 | at its publication instant a single mention scores plus or minus the confidence |
| ScoreBoard.ScoreHalves | modules/news-pipeline/src/news_score.cpp:31-32 | one half-life later the score of any articles is half of what it was, as long as none expires in between |
| ScoreBoard.NewsScoreBoard.Ingest | modules/news-pipeline/src/news_score.cpp:10-17 | keeps the board in agreement with the one that never prunes |
| ScoreBoard.NewsScoreBoard.Compact | modules/news-pipeline/src/news_score.cpp:24-36 | in-place compaction is the order-preserving filter, and the sum is over what it keeps |
| ScoreBoard.NewsScoreBoard.GetScore | modules/news-pipeline/src/news_score.cpp:19-37 | the score is that over everything ever ingested, unless the clock went back behind an earlier query of the ticker |
| ScoreBoard.NewsScoreBoard.Snapshot | modules/news-pipeline/src/news_score.cpp:39-45 | the same for every ticker at once, 0 for those left out; every list is compacted, and instants from then on stay answerable |
| ScoreBoard.Run | modules/news-pipeline/src/news_score.cpp:10-45 | in any interleaving of ingest, score and snapshot on a clock that does not go back, every answer is that of a board that keeps everything |
| ScoreBoard.KeptTwice | modules/news-pipeline/src/news_score.cpp:28-36 | pruning at one instant never changes what a later one keeps |
| ScoreBoard.TruncationGap | modules/news-pipeline/src/news_score.cpp:31-32 | cutting at 8 half-lives costs at most 1/256 of the dropped absolute contributions |
| ScoreBoard.PruningInvisibleExactly | modules/news-pipeline/src/news_score.cpp:24-36 | for every half-life: pruning at one instant changes no sum at another, whatever is stored, exactly when the other is not earlier |
| ScoreBoard.ClockBackMisses | modules/news-pipeline/src/news_score.cpp:28-35 | for every half-life and earlier instant, an entry the later query lost |
| TradeCodec.PrintTrade | modules/market-feed/src/redis_publisher.cpp:15-25 | the stream operators print the fields in one order, with the market feed's extra id field or without |
| TradeCodec.PrintedText | modules/market-feed/src/redis_publisher.cpp:15-25 | the printed text byte for byte, with the id field or without |
| TradeCodec.GetNumber | modules/data-warehouse/src/main.cpp:29-39 | the two cursor loops cut out the specified token |
| TradeCodec.ReadString | modules/data-warehouse/src/main.cpp:41-48 | up to the next quote, the rest without one, empty for a missing key |
| TradeCodec.FindsKey | modules/data-warehouse/src/main.cpp:30-33 | the search stops at the first piece between quotes that is the key and is followed by a colon |
| TradeCodec.ReadTokensAreClean | modules/data-warehouse/src/main.cpp:34-38 | on any text a read token has no comma, closing brace or quote and no leading space |
| TradeCodec.ReadStringsAreQuoteFree | modules/data-warehouse/src/main.cpp:46-47 | on any text a read string has no quote |
| TradeCodec.QuotedNumberIsRead | modules/data-warehouse/src/main.cpp:34-38 | a number written as a string, after a space or not, is read like a bare one |
| TradeCodec.UnclosedStringIsRead | modules/data-warehouse/src/main.cpp:46-47 | a string that never closes is read to the end of the text |
| TradeCodec.PriceReadBack | modules/stock-feed/src/main.cpp:53-62 | the printed price token comes back, also for a symbol spelled like a key |
| TradeCodec.QtyReadBack | modules/stock-feed/src/main.cpp:53-62 | the printed quantity token comes back |
| TradeCodec.SideReadBack | modules/stock-feed/src/main.cpp:53-62 | the printed side comes back as 1 for a buy and 2 for a sell |
| TradeCodec.StampsReadBack | python/common/redis_io.py:30-31 | the exchange and the local time stamp are read under their own keys |
| TradeCodec.SymbolReadBack | modules/market-feed/src/redis_publisher.cpp:17 | the symbol comes back exactly when it has no quote |
| TradeCodec.QuotedSymbolIsCut | modules/data-warehouse/src/main.cpp:46-47 | a symbol with a quote comes back cut at its first one |
| TradeCodec.QuotedSymbolExample | modules/market-feed/src/redis_publisher.cpp:17 | the symbol a"b comes back as a |
| TradeCodec.RoundTripExactly | modules/data-warehouse/src/main.cpp:29-59 | all fields come back exactly when the symbol is quote-free and the price and quantity tokens are clean |
| TradeCodec.TradeToRow | modules/data-warehouse/src/main.cpp:50-60 | the row's tags and values, or the exception of the first number that does not convert |
| TradeCodec.PrintedTradeBecomesRow | modules/data-warehouse/src/main.cpp:50-60 | the row trade_to_row builds from a printed trade holds the trade's own symbol, price, quantity and side |
| Tokenizer.LinesInvertIds | modules/news-pipeline/src/finbert.cpp:49-51 | a piece is known exactly when it is a line, and its id is the last such line's number |
| Tokenizer.SpecialsNamed | modules/news-pipeline/src/finbert.cpp:52-55 | each special id names the line that spells its own special |
| Tokenizer.MissingSpecialIsZero | modules/news-pipeline/src/finbert.cpp:52-55 | a special the file lacks gets id 0 |
| Tokenizer.Tokenizer.constructor | modules/news-pipeline/src/finbert.cpp:44-56 | the numbering loop, with 0 for a special that is missing |
| Tokenizer.Tokenizer.Match | modules/news-pipeline/src/finbert.cpp:69-84 | the descending loop finds the longest piece of at most 16 bytes, or one unknown byte |
| Tokenizer.Tokenizer.Encode | modules/news-pipeline/src/finbert.cpp:60-89 | CLS, the tokens that fit, SEP, pads, for any length asked for |
| Tokenizer.SegmentedExactly | modules/news-pipeline/src/finbert.cpp:64-85 | the tokens are the one and only segmentation into longest pieces with whitespace skipped between them |
| Tokenizer.IdsDecode | modules/news-pipeline/src/finbert.cpp:60-89 | read through the vocabulary file, the output is "[CLS]", for each token the longest line of at most 16 bytes that the text spells there or "[UNK]" for one byte, "[SEP]", and "[PAD]" ever after |
| Tokenizer.RoomIsUsed | modules/news-pipeline/src/finbert.cpp:64 | encoding stops early only where nothing but whitespace is left |
| Tokenizer.TextRebuilt | modules/news-pipeline/src/finbert.cpp:49-85 | ids decoded through the vocabulary file, with the skipped whitespace, spell the text up to where encoding stopped |
| Tokenizer.LengthExactly | modules/news-pipeline/src/finbert.cpp:62-88 | the length asked for comes out exactly when it is at least 2 |
| Tokenizer.TruncationIsPrefix | modules/news-pipeline/src/finbert.cpp:64 | a smaller length only cuts tokens off the end |
| Tokenizer.Mask | modules/news-pipeline/src/finbert.cpp:112-115 | 0 on every id equal to the padding's, 1 elsewhere |
| Tokenizer.MaskExactly | modules/news-pipeline/src/finbert.cpp:111-115 | for one vocabulary, text and length: the mask is ones on CLS, tokens and SEP and zeros behind exactly when none of those has the padding's id |
| Tokenizer.PadOnlyFromText | modules/news-pipeline/src/finbert.cpp:52-55 | with all specials in the file, only the text "[PAD]" gets the padding's id |
| Tokenizer.MaskedRightExactly | modules/news-pipeline/src/finbert.cpp:107-115 | for every text: every mask, over all vocabularies with the four specials and all lengths, covers exactly CLS, tokens and SEP, exactly when "[PAD]" stands nowhere in the text |
| Tokenizer.MaskRightWithoutPad | modules/news-pipeline/src/finbert.cpp:107-115 | the half for texts without it: every such vocabulary, length and mask is right |
| Tokenizer.PadIsReached | modules/news-pipeline/src/finbert.cpp:64-85 | with just the four specials as vocabulary, the scan comes to every "[PAD]" in the text and takes it for padding |
| Tokenizer.PadTextIsMasked | modules/news-pipeline/src/finbert.cpp:113-115 | the half for texts with it: at every occurrence, a vocabulary and a length whose mask is wrong |
| Tokenizer.PadTextExample | modules/news-pipeline/src/finbert.cpp:113-115 | the text "[PAD]" itself is masked away |
| Poller.PollLoop | modules/dart-crawler/src/dart_client.cpp:140-164 | over any pages the set and the deque stay the tail of the emissions, and the store and the reports are the first disclosures of each number polled |
| Poller.Handle | modules/dart-crawler/src/main.cpp:33-41 | one disclosure through filter, callback and store keeps that |
| Poller.EmissionsSpaced | modules/dart-crawler/src/dart_client.cpp:153-158 | any 10,001 consecutive emissions have different numbers |
| Poller.EvictKeepsStep | modules/dart-crawler/src/dart_client.cpp:155-158 | eviction at 10,000 keeps the set equal to the duplicate-free deque |
| Poller.FirstSeenIsFirst | modules/dart-crawler/src/disclosure_store.cpp:19-24 | each number once, each with the first disclosure that carried it |
| Poller.FilterIsInvisible | modules/dart-crawler/src/main.cpp:33-41 | the store holds what it would hold without the filter |
| Poller.FilterSufficesExactly | modules/dart-crawler/src/dart_client.cpp:143-160 | the filter alone reports each number once exactly when none comes back after 10,000 newer ones |
| Poller.LateReturnIsEmittedAgain | modules/dart-crawler/src/dart_client.cpp:155-160 | after 10,001 different numbers the first of them is emitted again |
| Poller.LateReturnExample | modules/dart-crawler/src/dart_client.cpp:155-160 | so the filter alone does not report each number once |
| Poller.InMemoryStore.Insert | modules/dart-crawler/src/disclosure_store.cpp:19-24 | adds at the end exactly when the number is new; otherwise nothing changes |
| Poller.InMemoryStore.Find | modules/dart-crawler/src/disclosure_store.cpp:25-30 | the record stored under the number, if there is one |
| Poller.InMemoryStore.Recent | modules/dart-crawler/src/disclosure_store.cpp:31-42 | the newest records first, at most the limit, none for a negative one |
| Rollup.InMemoryStore.Append | modules/data-warehouse/src/timeseries_store.cpp:14-17 | the row joins its own channel |
| Rollup.InMemoryStore.AppendBatch | modules/data-warehouse/src/timeseries_store.cpp:18-21 | rows join their channels in order |
| Rollup.InMemoryStore.Query | modules/data-warehouse/src/timeseries_store.cpp:22-35 | a time-sorted permutation of the channel's rows within both inclusive ends |
| Rollup.RollupOnce | modules/data-warehouse/src/rollup.cpp:38-46 | the trades, then the books, the news and the disclosures of the window, each block the answer to its query |
| Rollup.NobodyWaits | modules/data-warehouse/src/main.cpp:102-115 | in every reachable state the subscriber can append, a next window can open or fail, and a window under way has an answer to its next query |
| Rollup.RollupIsOneWindow | modules/data-warehouse/src/main.cpp:107-113 | a rollup without appends in between is one window of a run |
| Rollup.EmissionsAccounted | modules/data-warehouse/src/main.cpp:102-115 | in every run, for every row, copies emitted are exactly one for each later query of its channel over a window containing it |
| Rollup.OthersStay | modules/data-warehouse/src/rollup.cpp:38 | a row on any channel but trade, book, news and dart never comes out |
| Rollup.DueExactly | modules/data-warehouse/src/main.cpp:107-113 | without failures a timestamp is asked for once, twice when it is an interior bound, never outside |
| Rollup.AskedExactlyOnTime | modules/data-warehouse/src/main.cpp:107-113 | a row behind the last window is asked for exactly when it was appended before its window's query |
| Rollup.RowsConserved | modules/data-warehouse/src/rollup.cpp:38-46 | without failures, rows on trade, book, news or dart appended no later than their first window come out at least once and at most twice, exactly once unless stamped with a window bound |
| Rollup.RowsConservedExactly | modules/data-warehouse/src/main.cpp:102-115 | in every run, failures included, a row on trade, book, news or dart appended before any window around it comes out once for each append inside a kept window, never inside one that threw, and on a bound once for each kept window on either side |
| Rollup.TwiceAtInteriorBound | modules/data-warehouse/src/timeseries_store.cpp:29-31 | without failures a row stamped with an interior bound comes out exactly twice for each append |
| Rollup.ThrownWindowExample | modules/data-warehouse/src/main.cpp:108-113 | a stored row inside a window that threw does not come out of the next one |
| Rollup.BehindIsNeverEmitted | modules/data-warehouse/src/main.cpp:107-113 | a row appended after its window's query never comes out |
| Rollup.FailedWindowLosesRows | modules/data-warehouse/src/main.cpp:108-113 | neither do the rows of a window that threw |
| Projection.KeysExactly | modules/data-warehouse/src/parquet_writer.cpp:22-26 | the columns are exactly the keys some row has, in strict byte order |
| Projection.ColumnsCanonical | modules/data-warehouse/src/parquet_writer.cpp:58-62 | row order and repetition do not change the columns |
| Projection.LessExactly | modules/data-warehouse/src/parquet_writer.cpp:22-23 | the column order goes by the first byte that differs, a proper prefix first |
| Projection.Search | modules/data-warehouse/src/parquet_writer.cpp:38-40 | the first pair with the key, or none |
| Projection.WriteCsv | modules/data-warehouse/src/parquet_writer.cpp:20-50 | header and one line for each row, two fixed cells and one for each key |
| Projection.RowsToTable | modules/data-warehouse/src/parquet_writer.cpp:56-124 | the builder loops fill the specified columns |
| Projection.FormsAgree | modules/data-warehouse/src/parquet_writer.cpp:75-97 | every entry of the table shows its CSV cell; a tag is null exactly where the cell is empty, a value exactly where the row lacks the key |
| Projection.FixedByName | modules/data-warehouse/src/parquet_writer.cpp:30-35 | "ts_ns" and "channel" stand once, at positions 0 and 1, in the header line and the field list, over the rows' stamps and channels |
| Projection.TagByName | modules/data-warehouse/src/parquet_writer.cpp:31-41 | "tag." and a key of the row stand at exactly one position of both, over the first value the row has for it, null in the table when that is empty |
| Projection.ValueByName | modules/data-warehouse/src/parquet_writer.cpp:32-47 | "val." and a key of the row stand at exactly one position of both, over the first value the row has for it |
| Projection.SplitCsv | modules/news-pipeline/src/ner.cpp:12-21 | the character loop splits at every comma |
| Projection.SplitJoinExactly | modules/news-pipeline/src/ner.cpp:12-21 | splitting undoes joining exactly when no part holds the separator |
| Projection.CsvReadsBackExactly | modules/data-warehouse/src/parquet_writer.cpp:30-49 | reading lines and splitting them recovers every cell exactly when none holds a comma or a line break |
| Projection.CommaSplitsCell | modules/data-warehouse/src/parquet_writer.cpp:36-41 | a file with the tag "a,b" is not read back |
| KrxSession.OpenExactlyInHours | modules/stock-feed/src/krx_session.cpp:15-47 | the market is not closed exactly Monday to Friday in Korea from 08:30 to 15:30 and from 15:40 to 18:00, told from the seconds since 1970 |
| KrxSession.SleepBounds | modules/stock-feed/src/krx_session.cpp:49-66 | the delay is between 1 s and 14 h 30 min |
| KrxSession.ChangesExactlyOnMarketDays | modules/stock-feed/src/krx_session.cpp:38-66 | the state differs after the delay exactly when that instant falls on a market day |
| KrxSession.BoundaryTradesExactly | modules/stock-feed/src/krx_session.cpp:49-66 | whether the delay ends on a market day, read off the weekday and the time it starts at |
| KrxSession.NeverOversleepsExactly | modules/stock-feed/src/krx_session.cpp:15-66 | the state is constant during the delay exactly when it starts on a whole second or when, by the weekday and time it starts at, the next boundary is on a day without trading |
| KrxSession.NextChangeExactly | modules/stock-feed/include/stock/krx_session.hpp:30-32 | the delay is the one to the next state change exactly when it starts on a whole second and the next boundary is on a market day |
| KrxSession.OversleepsHalfASecond | modules/stock-feed/src/krx_session.cpp:59-60 | at 08:29:59.5 on a Monday the delay is a whole second |
| KrxSession.WeekendBoundaryIsNoChange | modules/stock-feed/src/krx_session.cpp:57-62 | at 08:00 on a Saturday the delay ends without a change |
| KrxSession.ReachesChange | modules/stock-feed/src/krx_session.cpp:49-66 | repeated sleeping reaches a change after a number of sleeps known beforehand, at most 13, and skips none |
| Lifecycle.InvKept | modules/stock-feed/src/kis_client.cpp:130-137 | with reconnect on, or in the subscriber while its callback does not throw, every step of controller and worker keeps the protocol invariant |
| Lifecycle.LifecycleSafe | modules/market-feed/src/binance_client.cpp:68-76 | in every interleaving at most one live worker, no joinable thread overwritten or destroyed, none left once the flag is down |
| Lifecycle.StopWaitsForWorker | modules/data-warehouse/src/redis_subscriber.cpp:24-27 | stop() comes back only with every worker returned |
| Lifecycle.WorkerWindsDown | modules/market-feed/src/binance_client.cpp:86-175 | once the flag is down the worker returns after at most four of its own steps, and then the join goes through |
| Lifecycle.NobodyHoldsUp | modules/market-feed/src/binance_client.cpp:68-175 | in every reachable state a live worker can take its next step, well or with an error, and a controller between calls can call |
| Lifecycle.WindsDown | modules/market-feed/src/binance_client.cpp:86-175 | how many steps that is when connecting and reading go well, for each place the worker may stand at |
| Lifecycle.TerminatesExactly | modules/market-feed/src/binance_client.cpp:166-170 | some interleaving brings the process down exactly when the client does not reconnect or has no handler |
| Lifecycle.OverwrittenRuns | modules/market-feed/src/binance_client.cpp:68-71 | with reconnect off: a failed connection, then a start() over the thread nobody joined |
| Lifecycle.EscapedRuns | modules/data-warehouse/src/main.cpp:38 | in the subscriber: the first message's number does not convert and the exception leaves the thread |
| Lifecycle.EscapeExactly | modules/data-warehouse/src/redis_subscriber.cpp:31-72 | a run of the subscriber brings the process down exactly when its callback throws |
| Lifecycle.PassFollowsSession | modules/stock-feed/src/main.cpp:116-136 | after a supervisor pass the feed runs, with one live worker, exactly when the sampled instant is in the trading hours, wherever the worker's steps fall |
| Lifecycle.PassIsPossible | modules/stock-feed/src/main.cpp:116-136 | whatever instant it samples and wherever the worker stands, the supervisor can make its pass |
| Lifecycle.SupervisorFollowsSession | modules/stock-feed/src/main.cpp:116-136 | over any sequence of sampled instants from the start of the process, wherever the worker's steps fall, after every pass the feed is up exactly when that pass's instant is in the trading hours |

## Left out

- Network, broker, database, object-store, Parquet and inference calls: their results are parameters (pages of
  disclosures, streams of trades, clock readings, connection outcomes).
- Floating point: averages, equity and decay are exact reals; number formatting and `std::stod` are parameters, and
  `pow(0.5, x)` is any positive decreasing function equal to 1/256 at 8. A zero half-life is excluded.
- Integer widths: timestamps and ids are unbounded.
- `std::sort`: modelled as any sorted permutation, carried out by an insertion sort; its own algorithm is not modelled.
- Detail strings, emoji and message text of signals; a notifier that fails changes nothing else.
- R's drawdown, and Sharpe, CAGR, RSI, Bollinger and the constant-weights backtest: library calls, square roots and
  fractional powers. R's returns, fees and equity are the same series as Python's.
- A backtest on prices that are not positive.
- Fees are given as a rate; the division of basis points by 10,000 is not modelled.
- Positions.JuliaIsR: both loops are compared on averages that are missing where the window is not full; on a series
  shorter than a window R's `TTR::SMA` stops with an error, and Julia does on one shorter than the slow window.
- `book_to_json`: nothing in the repository reads it back.
- The rollup's file name, which two windows ending in the same second would share, its upload, and retention.
- Rollup.RowsConserved: counts rows collected by windows that did not throw; a window's success is decided when it
  opens, and the clock is taken to move forward from window to window.
- The hub's subscribe loop beyond its calls to deliver: one goroutine delivers, so deliveries follow each other.
- The request checks of the SSE handler and the bytes it writes.
- `load_csv` of the tagger; only its line splitter is modelled.
- KrxSession.NeverOversleepsExactly: instants from 1970 on; before, the conversion to seconds rounds the other way.
- Of the three clients: the frames a worker reads, how long a connection, a frame or a pause takes, and more than one
  controlling thread. The two exchange clients' `run_loop` bodies are modelled by their common skeleton; the
  subscriber's two pauses count as one.
- The PostgreSQL store behind the poller.
- `softmax3`, logits and batching of the classifier; the judge engine, the order book and the option-pricing code.
