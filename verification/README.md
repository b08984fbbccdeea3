# Verified model of the Triak backtester and channel agent

The project models the backtest trade simulator and the stateful parts around it, and proves what holds of
every run.

- **Inputs** (`Market`, `Symbols`, `SymbolRoundTrip`, `Lookups`, `TimeSegments`): candles, channel events and
  configuration; canonical market symbols; where an entry fills.
- **One position** (`Positions`, `OpenPosition`, `Accounting`, `NetProfit`, `Sizing`): partial exits, target ladder,
  stops, fees, and how allocation, margin gate and loss budget set the quantity and the stop.
- **The simulator** (`Events`, `Replay`, `Simulator`): the effect of every event, the candle cursor, and the two
  drivers. `Replay.Run` is the one-shot driver with a running balance; `Replay.Resume` is the resumable driver
  with a dictionary of closed trades. `Simulator` runs both on mutable records and dictionaries.
- **Runs** (`Ledger`, `Drivers`, `Segments`, `SegmentReplay`, `SegmentLimits`, `Resumption`, `Journeys`, `Lives`,
  `Soundness`, `Reach`, `Exits`, `Updates`, `Orders`, `Risk`, `ExplicitStop`, `Dominance`, `MarginGate`): refinement
  between the drivers, segmented and repeated calls against one call, every signal's life in a run, conservation, what
  ends or updates a position, what an order is worth, the loss bounds, fill-policy dominance and the portfolio margin.
- **The candle cache** (`CandleCache`): ranges that grow on demand and agree with one direct fetch.
- **The channel agent** (`Drafts`, `ChannelContexts`, `AgentLogs`, `ChannelAgents`): consolidation with deadlines,
  reverse indexes, and a log whose discipline gives the protocol's safety properties.
- **Consolidation of a backtest** (`Consolidation`, `MergedSymbols`, `RecordLists`, `Consolidator`): records and the
  global list of events rewritten together.
- **Scores** (`Scoring`, `TailStatistics`, `Histograms`): drawdown, fill rate, expected shortfall, percentiles,
  histogram.

Code that changes state is a class or a method with loops (`OpenPosition`, `OpenBook`, `PreviewState`, `Cache`,
`ChannelContext`, `ChannelAgent`, `BacktestRecords`), each proved equal to a function of the old state. The
theorems are lemmas about those functions. Where the code does not do what one would expect of it, a lemma gives an
input that shows it or the exact condition under which it does.

## What the proofs brought to light

- Trading an id a second time keeps one trade in the resumable driver and two in the one-shot driver; the drivers
  agree exactly when that does not happen (`Drivers.DriversAgreeExactly`, `Drivers.DuplicateIdsDisagree`).
- An entry first touched in a later segment than the one its event is applied in is lost, although one replay of
  the whole fills it; segmented replay is the whole exactly when no event is lost in this way
  (`SegmentLimits.SegmentedReplayExactly`).
- Of two candles of one market that open together and close apart, the first can be skipped by a position that
  the second fills (`Journeys.MissedExactly`, `Journeys.TwinIsMissed`).
- The optimistic policy is not always the better one: once the stop has been moved past entry, a candle that
  touches it together with targets favours the conservative policy exactly when the sum of those targets is worse
  than as many times the stop (`Dominance.ClashExactly`, `Dominance.OptimistDominatesExactly`,
  `Dominance.TrailedStopReverses`).
- A tick sets the update time of a signal to its own clock, so it moves the time back when a follow-up was dated
  later; only attaching and merging are monotone (`ChannelAgents.TickCanGoBack`).
- A stop update at or below zero escapes the risk budget that every other stop update has to fit
  (`ExplicitStop.NonPositiveStopEscapes`).
- A merged update that crosses the entry bounds has them swapped, so the latest provider of one bound ends up as
  the other, and each bound stays too wide until it is given anew without a crossing
  (`Consolidation.BoundsLatestExactly`, `Consolidation.BoundsLatestOverFoldExactly`).
- Canonicalisation is not idempotent, and a signal is canonicalised again at every merge, so a symbol that is not
  a fixpoint changes under way and never comes back (`SymbolRoundTrip.IdempotentExactly`,
  `MergedSymbols.FirstSymbolExactly`).
- A mergeable follow-up without a message id is merged into the opening and also stays in the record
  (`RecordLists.UnmarkedFollowUpStays`, `RecordLists.RecordLosesExactlyItsFollowUps`).
- The runner's drawdown does not see a fall from the starting capital; the scorer's does
  (`Scoring.RunnerMissesFirstLoss`).

## Model

| member | source | states |
|---|---|---|
| Drivers.DriversAgree | src/triak_trade/backtesting/simulator.py:233-404 | from a fresh state, with distinct OPEN ids, closing at the end and no event after the open of the last candle, the resumable driver and the one-shot driver return the same trades in the same order and the same balance, leave nothing open, and consume every event |
| Drivers.DriversAgreeExactly | src/triak_trade/backtesting/simulator.py:233-404 | with no event after the open of the last candle, the two drivers return the same trades in the same order if and only if the one-shot run trades no id twice, whatever ids the events carry; and then the same balance |
| Drivers.PrefixesAgree | src/triak_trade/backtesting/simulator.py:284-367 | after any number of events the dictionary of closed trades equals the trade list, the open positions are the same and both cursors stand at the same candle |
| Drivers.DuplicateIdsDisagree | src/triak_trade/backtesting/simulator.py:468-469 | two OPEN events under one id leave two trades in the one driver and one in the other |
| Drivers.AllDueExactly | src/triak_trade/backtesting/simulator.py:286-298 | the resumable driver consumes every event exactly when none comes after the open of the last candle |
| SegmentReplay.SegmentedReplayIsWhole | src/triak_trade/backtesting/backtest_runner.py:2045-2071 | replaying a history segment by segment with carried state gives the same open positions, closed trades, event count and time reached as one replay of the whole, for any number of segments of one market, provided no event lies strictly inside the last candle of a non-final segment and each entry is touched in its own segment or in none |
| SegmentReplay.TwoSegments | src/triak_trade/backtesting/simulator.py:278-400 | the same for any carried state and one cut |
| SegmentLimits.SegmentedReplayExactly | src/triak_trade/backtesting/backtest_runner.py:2045-2071 | with distinct OPEN ids and no event inside the last candle of a non-final segment, replaying any number of segments gives what the whole gives if and only if at no cut an event is lost: applied before the cut, without an entry there, though it would be filled if the later candles were seen |
| SegmentLimits.ChainExactly | src/triak_trade/backtesting/simulator.py:278-400 | the same from any carried state |
| SegmentLimits.LostIsSeen | src/triak_trade/backtesting/simulator.py:448-479 | the first lost event is on record as unfilled after its segment, and never is in the whole |
| SegmentLimits.OneOpenExactly | src/triak_trade/backtesting/simulator.py:286-298 | for one OPEN event and one cut: the two differ exactly when the entry is missing before the cut and the whole would fill it |
| SegmentLimits.InsideMatters | src/triak_trade/backtesting/simulator.py:286-298 | the premise on events inside a last candle is needed: a limit order that arrives inside the last candle before the cut, and is touched there only, is filled by the whole and not by the segments |
| SegmentLimits.InsideIsDifferent | src/triak_trade/backtesting/simulator.py:286-298 | the same for every opening inside the last candle before a cut that the whole fills and the later candles do not touch |
| Resumption.RepeatExactly | src/triak_trade/backtesting/simulator.py:278-404 | repeating a call of the resumable driver on its own result changes nothing if and only if the first call consumed every event, from any earlier state, with or without closing at the end: no candle is faced, no event applied and no trade recorded a second time |
| Resumption.RepeatIsIdle | src/triak_trade/backtesting/simulator.py:2107-2117 | in particular a second call is idle when every event was due in the first |
| Resumption.CallByCall | src/triak_trade/backtesting/simulator.py:278-404 | candles and events arriving as time goes on: a call on the first candles and events, then one on all of them, gives what a single call on everything gives; under the premises of the segmented replay, but also when the new candles are a single one |
| Resumption.ExtendedCall | src/triak_trade/backtesting/simulator.py:278-404 | the same when both calls know all the events |
| Segments.FindEntryAcross | src/triak_trade/backtesting/simulator.py:1083-1116 | the entry found in two concatenated lists is the one in the first, else the one in the second |
| Segments.SweepAcross | src/triak_trade/backtesting/simulator.py:1199-1300 | sweeping a concatenation is sweeping the first part and then, from its survivors, the second |
| Segments.SameAnswersSameEffect | src/triak_trade/backtesting/simulator.py:1538-1961 | an event has the same effect on two candle lists that answer its lookups alike |
| Lives.NoCandleMissed | src/triak_trade/backtesting/simulator.py:499-521 | in any run, the fate of any opened signal, whatever updates, partial closes, cancels and close-alls touch it and however many other signals and markets there are, is its life alone: the candles from the cursor at its opening to the end, each once and in order, and the events between them; in time order the same as from the very first candle, as long as no candle behind the cursor opened together with the entry candle |
| Lives.LifeInRun | src/triak_trade/backtesting/simulator.py:499-934 | from any moment to any other, the place of an open signal in the run is that of its life alone, and the cursor is where time puts it |
| Lives.EventProjects | src/triak_trade/backtesting/simulator.py:842-934 | an event does to each open position what it would do to that one alone |
| Lives.GoneStaysGone | src/triak_trade/backtesting/simulator.py:842-934 | a signal that is not open stays so under every event that does not open it |
| Lives.JourneyInRun | src/triak_trade/backtesting/simulator.py:499-521 | as long as no event touches it while it is open, a signal is where its journey through the candles takes it |
| Journeys.MissedExactly | src/triak_trade/backtesting/simulator.py:1083-1116 | the entry candle is never behind the cursor; a candle behind the cursor concerns the new position exactly when it opened together with the entry candle |
| Journeys.TwinIsMissed | src/triak_trade/backtesting/simulator.py:1083-1116 | two candles of one market that open together and close apart: the first is missed when the second fills the entry |
| Journeys.NothingBehind | src/triak_trade/backtesting/simulator.py:1083-1116 | without such twins no candle behind the cursor concerns the new position |
| Journeys.CursorInPast | src/triak_trade/backtesting/simulator.py:1199-1202 | after any events up to a time every candle behind the cursor had closed by then |
| Journeys.SweepProjects | src/triak_trade/backtesting/simulator.py:1199-1263 | a sweep over many positions does to each of them what it would do to that one alone |
| Ledger.LedgerConserved | src/triak_trade/backtesting/simulator.py:499-1025 | with distinct ids a run ends with exactly one trade per opened signal, nothing left open, and the final balance equal to the initial one plus the sum of the profits |
| Ledger.BookBalanced | src/triak_trade/backtesting/simulator.py:528-531 | at every moment each opened id is in exactly one place, open or closed, and the balance is the initial one plus the profits so far |
| Ledger.EventConserves | src/triak_trade/backtesting/simulator.py:1538-1961 | an event adds its own id when it opens a signal and otherwise neither loses nor repeats any |
| Soundness.ReachableSound | src/triak_trade/backtesting/simulator.py:499-952 | every position of every reachable book keeps its accounts, a positive quantity and a ladder of targets beyond entry; every trade adds up |
| Soundness.RunAddsUp | src/triak_trade/backtesting/simulator.py:1491-1536 | every filled trade of a run: profit is direction times (average exit less entry) times quantity, less the fees of both sides; an unfilled one has none |
| Soundness.OpenedSound | src/triak_trade/backtesting/simulator.py:533-833 | whatever is opened has a positive quantity and a valid ladder |
| Soundness.FollowSound | src/triak_trade/backtesting/simulator.py:1963-2069 | a close, cancel or update keeps the position sound or ends it with a trade that adds up |
| Accounting.TakeOffAccounts | src/triak_trade/backtesting/simulator.py:1436-1464 | taking any part off keeps: profit is direction times (exit notional less entry notional of what was sold), fees are the rate times (entry notional of the whole plus exit notional), and what remains lies between nothing and the original |
| Accounting.CloseAccounts | src/triak_trade/backtesting/simulator.py:1436-1464 | the same for a fraction, which closes everything from one upwards and leaves a remainder below one |
| Accounting.FinalizeAddsUp | src/triak_trade/backtesting/simulator.py:1491-1536 | a position with nothing left is finalised to a trade that adds up |
| Accounting.HitsArePrefix | src/triak_trade/backtesting/simulator.py:1319-1321 | on an ordered ladder the targets a candle touches are a prefix of it |
| Accounting.TakeNearest | src/triak_trade/backtesting/simulator.py:1373-1430 | taking the k nearest of n targets leaves (n-k)/n of the quantity, names exactly those k, keeps the ladder, and leaves nothing exactly when k is n |
| Risk.TargetShares | src/triak_trade/backtesting/simulator.py:1373-1430 | at every later moment of a run an open position that no event has touched so far and that has hit k of its n targets holds exactly (n-k)/n of its original quantity |
| Sizing.SanitizeIsLadder | src/triak_trade/backtesting/simulator.py:2656-2694 | the sanitised targets are exactly the acceptable ones, each once, strictly further from entry at every step |
| Sizing.SanitizeTakeProfits | src/triak_trade/backtesting/simulator.py:2656-2694 | the loop computes the sanitised list |
| Sizing.AllocationMeans | src/triak_trade/backtesting/simulator.py:2526-2538 | for any limits and leverage the allocation lies between its limits, a ceiling below the floor counting as the floor; between them it buys the same exposure at every leverage, and otherwise it sits at the limit in its way |
| Orders.OpeningExactly | src/triak_trade/backtesting/simulator.py:533-833 | with a stop of its own and no loss cap an order is filled exactly when its entry is found, balance, share and free margin are positive and the stop is strictly on the losing side; it then ties up exactly its share of the balance, or the free margin where that is less, at the price, time, stop and leverage asked for, with nothing taken off |
| Orders.OrderExactly | src/triak_trade/backtesting/simulator.py:606-665 | the same for the quantity alone, for any stop |
| Orders.RoundedOrder | src/triak_trade/backtesting/simulator.py:606-665 | with a loss cap the quantity is the nearest tick to the one the share buys, unless the gate makes it the one the free margin buys |
| Orders.SyntheticOpening | src/triak_trade/backtesting/simulator.py:676-694 | a signal without a stop opens on the default stop with the quantity its margin buys where the loss there fits the configured share of the balance, and otherwise uses that share up |
| Orders.CappedOpening | src/triak_trade/backtesting/simulator.py:695-771 | a signal with its own stop under a loss cap opens with the quantity its margin buys, or with the last tick whose loss at the stop fits the configured share |
| Orders.DefaultStopMeans | src/triak_trade/backtesting/simulator.py:677-683 | the default stop lies on the losing side, at the configured share of the entry price |
| Orders.LeverageMeans | src/triak_trade/backtesting/simulator.py:580-592 | the effective leverage is the nearest to the wanted one, the event's or the default, between one and the maximum; one where leverage is not modelled |
| Orders.NearestTick | src/triak_trade/backtesting/simulator.py:629-630 | rounding half to even gives the nearest tick, of two equally near the even one |
| Orders.SyntheticIsTight | src/triak_trade/backtesting/simulator.py:2572-2654 | the cap on a synthetic stop changes nothing when the loss there fits the budget, and otherwise uses the budget up, unless a long stop would be negative |
| Orders.ExplicitIsLargest | src/triak_trade/backtesting/simulator.py:2541-2570 | the cap on a signal's own stop leaves the quantity asked for or the last tick whose loss fits the budget |
| Sizing.AcceptableMeans | src/triak_trade/backtesting/simulator.py:2656-2694 | a target is acceptable when positive, on the profitable side, and at most fifty stop distances away |
| Risk.LossIsBounded | src/triak_trade/backtesting/simulator.py:676-694 | a signal opened on the synthetic stop loses, net of entry and exit fees, at most the configured share of the balance at entry, in any run in which no event closes it at a worse price than its opening stop or leaves it a worse stop; targets, leverage, tighter stops, partial closes and cancels may come in any number |
| Risk.SyntheticFits | src/triak_trade/backtesting/simulator.py:2572-2654 | after the cap the stop is on the losing side, the quantity is positive and no larger, and the fee-inclusive loss at the stop fits the budget |
| Risk.JourneyCovered | src/triak_trade/backtesting/simulator.py:1311-1371 | along any candles an ended position lost at most what its whole quantity loses at a price that its stop is no worse than; one still open has met no candle of its market that closed worse |
| Risk.LossAtMostAtStop | src/triak_trade/backtesting/simulator.py:1311-1371 | over a run a signal of which no event closes anything at a price worse than a given one, or leaves a worse stop, loses, net of fees, at most what its whole quantity loses at that price |
| Risk.TouchedCovered | src/triak_trade/backtesting/simulator.py:842-934 | a cancel, close-all, full or partial close or update that respects the price keeps what has been taken off no worse than it, or ends the position within the bound |
| Risk.OthersRespect | src/triak_trade/backtesting/simulator.py:1963-2069 | every event that is no close and asks for no worse stop respects the price: cancels, new targets, leverage, a stop at entry, and events that do nothing |
| Risk.LeftAloneIsKept | src/triak_trade/backtesting/simulator.py:499-521 | so does every event when none touches the signal while it is open |
| ExplicitStop.ExplicitLossIsBounded | src/triak_trade/backtesting/simulator.py:744-771 | the same bound for a signal sized against its own stop: at most the configured share of the balance at entry, as long as no event closes it at a worse price or leaves it a worse stop |
| ExplicitStop.OpenedWithinBudget | src/triak_trade/backtesting/simulator.py:695-771 | such a position keeps the requested stop, and its fee-inclusive loss there fits the budget |
| ExplicitStop.QuantityIsLargest | src/triak_trade/risk/stop_loss.py:21-59 | a quantity loses no more than the budget at the stop exactly when it is at most the computed one |
| ExplicitStop.ExplicitFits | src/triak_trade/backtesting/simulator.py:2541-2570 | after rounding down the quantity still fits, and is no larger than asked for |
| ExplicitStop.ClampIsNearestSafe | src/triak_trade/risk/stop_loss.py:62-140 | the clamped stop fits the budget, is the requested one exactly when that fits, and is otherwise the nearest to it that fits |
| ExplicitStop.UpdateStopExactly | src/triak_trade/backtesting/simulator.py:1991-2013 | an update takes over a requested stop exactly when the loss of what is left fits the budget there |
| Updates.UpdateLeaves | src/triak_trade/backtesting/simulator.py:1963-2069 | what any update leaves of a sound position: the stop at entry if it is to move there, whatever the action and configuration, else the accepted one, else the old one; the targets already taken followed by exactly the acceptable new ones; the requested leverage up to the maximum; everything else, and everything under another action or a void update, as it was |
| Updates.AcceptsExactly | src/triak_trade/risk/stop_loss.py:62-140 | a requested stop is rejected exactly when a cap is in force, it is positive, and the loss of what is left exceeds the budget there |
| Updates.FollowUpdates | src/triak_trade/backtesting/simulator.py:872-934 | an event that is neither a cancel nor a close keeps the position with that update |
| ExplicitStop.NonPositiveStopEscapes | src/triak_trade/risk/stop_loss.py:82-94 | a requested stop at or below zero is taken over unchecked |
| Dominance.OptimistDominatesExactly | src/triak_trade/backtesting/simulator.py:1311-1371 | for a run of a single signal, whatever its events and candles, the optimistic final balance is at least the conservative one if and only if no candle of the conservative run touches the stop and targets whose sum is worse than as many times the stop |
| Dominance.OptimistDominates | src/triak_trade/backtesting/simulator.py:1311-1371 | in particular, the optimistic final balance is at least the conservative one in every run of a single signal in which its stop never stands past entry |
| Dominance.ListedStopsStayBehind | src/triak_trade/backtesting/simulator.py:1963-2069 | which is so when no stop in the event list is past the entry price |
| Dominance.TrailedStopReverses | src/triak_trade/backtesting/simulator.py:1323-1371 | a run that the optimist loses: the stop is moved past the target, and one candle touches both |
| Dominance.ClashExactly | src/triak_trade/backtesting/simulator.py:1323-1371 | on a candle that touches the stop and any number of targets both policies end the position, and the optimist nets at least as much exactly when the sum of the touched targets is no worse than as many times the stop |
| Dominance.NearestMoveValue | src/triak_trade/backtesting/simulator.py:1373-1430 | taking the k nearest targets, each for an equal share, moves the value of the position with the rest stopped out by the share times what their sum differs from k times the stop |
| Dominance.SteadyNeverLoses | src/triak_trade/backtesting/simulator.py:1323-1371 | with the stop behind entry the touched targets are never worse than the stop |
| Dominance.ClashFavoursOptimist | src/triak_trade/backtesting/simulator.py:1323-1371 | then both policies end the position and the optimist nets at least as much |
| Dominance.PolicyIrrelevant | src/triak_trade/backtesting/engine.py:121-152 | if no candle touches both a stop and a target, the two policies give the same run |
| Reach.CandleReaches | src/triak_trade/backtesting/simulator.py:1311-1371 | a relevant candle ends a position exactly when its range reaches the stop or every pending target; a position it leaves open has its stop strictly below the low (long) or above the high (short), and every target still pending strictly beyond the other end |
| Reach.JourneyReaches | src/triak_trade/backtesting/simulator.py:1311-1371 | along any candles: a position still open has met none that reached its stop or a target still pending, and an ended one was ended by a candle that reached its stop or all its pending targets |
| Reach.StatusTells | src/triak_trade/backtesting/simulator.py:1466-1489 | a trade made by a candle carries its close time, and its status tells how it came about: stop or targets, after a partial close by hand, after other targets, both in one candle |
| Exits.ManualPriceMeans | src/triak_trade/backtesting/simulator.py:1145-1165 | a close by hand is made at the open of the first candle of the market from then on, else at entry |
| Exits.CloseMeans | src/triak_trade/backtesting/simulator.py:872-934 | a full close sells the rest at that price, a partial one exactly its part of the rest, and a close of nothing only sets the flag; status, time and net profit of the trade |
| Exits.CloseAllMeans | src/triak_trade/backtesting/simulator.py:842-871 | a close of everything does so to each position |
| Exits.CancelMeans | src/triak_trade/backtesting/simulator.py:872-934 | a cancel sells the rest at entry |
| Exits.FinalPriceMeans | src/triak_trade/backtesting/simulator.py:1001-1025 | the end of a run closes at the last exit price, else at the last close of the market, else at entry |
| Exits.EndMeans | src/triak_trade/backtesting/simulator.py:1001-1025 | at the close time of the last candle, whole, net of both fees and as a percentage of the balance at entry |
| Exits.RefusedMeans | src/triak_trade/backtesting/simulator.py:448-479 | an order without a fill is one unfilled trade in which nothing was bought, won or paid |
| MarginGate.MarginWithinBalance | src/triak_trade/backtesting/simulator.py:634-665 | right after every OPEN that fills, the margin of all open positions is at most the realised balance |
| MarginGate.FillFits | src/triak_trade/backtesting/simulator.py:683-771 | the gate still holds after every later quantity cap |
| Soundness.OrderQuantityPositive | src/triak_trade/backtesting/simulator.py:606-665 | without rounding, what allocation and gate let through is positive |
| MarginGate.CapsShrink | src/triak_trade/backtesting/simulator.py:2541-2654 | no later cap raises the quantity |
| Simulator.Simulate | src/triak_trade/backtesting/simulator.py:406-1081 | the event loop with a running balance computes the specified run |
| Simulator.SimulateIncrementally | src/triak_trade/backtesting/simulator.py:233-404 | the resumable loop, its carried state and its recomputed balance are the specified resumption |
| Simulator.PreviewState.Advance | src/triak_trade/backtesting/simulator.py:278-400 | one call on carried state |
| Simulator.PreviewState.ReplayDue | src/triak_trade/backtesting/simulator.py:284-367 | applies exactly the events that are due, each after the candles before it |
| Simulator.PreviewState.FindResumeIndex | src/triak_trade/backtesting/simulator.py:2107-2117 | the first candle that closes after the time reached |
| Simulator.PreviewState.RecordTrades | src/triak_trade/backtesting/simulator.py:314-316 | trades are recorded under their ids, a repeated id keeping its place |
| Simulator.OpenBook.ProcessCandlesUntil | src/triak_trade/backtesting/simulator.py:1157-1300 | sweeps the open positions over the candles up to a time; with nothing open only the cursor moves |
| Simulator.OpenBook.FaceCandle | src/triak_trade/backtesting/simulator.py:1204-1263 | one candle against every open position, the ended ones leaving the dictionary |
| Simulator.OpenBook.ApplyEvent | src/triak_trade/backtesting/simulator.py:1538-1961 | open, close-all, cancel, close or update, as specified |
| Simulator.OpenBook.Open | src/triak_trade/backtesting/simulator.py:533-833 | an OPEN event is filled or leaves an unfilled trade |
| Simulator.OpenBook.FollowUp | src/triak_trade/backtesting/simulator.py:872-934 | a cancel, close or update of one position |
| Simulator.OpenBook.CloseEverything | src/triak_trade/backtesting/simulator.py:842-871 | closes every position at the next open of its market |
| Simulator.OpenBook.CloseAtEnd | src/triak_trade/backtesting/simulator.py:1001-1025 | closes what is left at the last price of its market |
| OpenPositions.OpenPosition.ApplyCandle | src/triak_trade/backtesting/simulator.py:1311-1371 | the fields after a candle are those of the specified outcome |
| OpenPositions.OpenPosition.ApplyTakeProfitHits | src/triak_trade/backtesting/simulator.py:1373-1430 | takes each touched target in order |
| OpenPositions.OpenPosition.CloseFraction | src/triak_trade/backtesting/simulator.py:1436-1464 | takes a fraction off, with its profit and fee |
| OpenPositions.OpenPosition.CloseRemaining | src/triak_trade/backtesting/simulator.py:1466-1475 | takes the rest off and finalises |
| OpenPositions.OpenPosition.ApplyLiveStyleUpdate | src/triak_trade/backtesting/simulator.py:1963-2069 | stop, targets and leverage after an update, or no change when it is rejected |
| OpenPositions.OpenPosition.UpdateStop | src/triak_trade/backtesting/simulator.py:1976-2022 | moves the stop to entry or to the requested price, keeps it when the request is unsafe, and tells whether an unsafe stop rejects a target update as a whole |
| OpenPositions.OpenPosition.UpdateTargets | src/triak_trade/backtesting/simulator.py:2023-2050 | replaces the targets still to come, keeping the ones taken, unless none of the new ones is usable |
| OpenPositions.OpenPosition.UpdateLeverage | src/triak_trade/backtesting/simulator.py:2051-2069 | the leverage after an update |
| OpenPositions.OpenPosition.HitTakeProfits | src/triak_trade/backtesting/simulator.py:1319-1321 | the pending targets that a candle touches, in their order |
| Lookups.FindEntryExecution | src/triak_trade/backtesting/simulator.py:1083-1116 | the first candle of the market that fills the entry, and the price it fills at |
| Lookups.EntryMeans | src/triak_trade/backtesting/simulator.py:1083-1116 | the fill is at the first candle that can fill: at its open, at the price asked for, or half way between the bounds; there is none exactly when no candle can |
| Lookups.FillsMeans | src/triak_trade/backtesting/simulator.py:1083-1116 | a market order is filled by any candle that opens from the signal on, one with a price or range by any that closes later and trades at such a price |
| Lookups.FirstCandleOpenAfter | src/triak_trade/backtesting/simulator.py:1145-1155 | the open of the first candle of the market at or after a time |
| Lookups.FindLastPrice | src/triak_trade/backtesting/simulator.py:2452-2458 | the close of the last candle of the market, else the fallback |
| Market.SortedInputs | src/triak_trade/backtesting/simulator.py:434-435 | sorting orders events and candles, keeps all of them, and changes nothing that is in order |
| TimeSegments.MarketDataSegments | src/triak_trade/backtesting/backtest_runner.py:911-927 | cuts a range into a chain of full steps and a rest |
| TimeSegments.EveryMomentOnce | src/triak_trade/backtesting/backtest_runner.py:911-927 | every moment of the range falls into exactly one span |
| CandleCache.Cache.EnsurePrefetched | src/triak_trade/backtesting/real_runner.py:2882-2970 | after any request, failed or not, each cached list is the provider's answer over its recorded range; ranges only grow; a success covers the request and comes from a candidate; a failure changes nothing; without failure, no data means that every candidate is empty; the answer is from the first candidate that covers the request, or else from the first that gives anything: each before it failed in its own calls or had no data |
| CandleCache.Cache.Extend | src/triak_trade/backtesting/real_runner.py:2910-2945 | a cached symbol is widened to the hull of its range and the request, gaps included, or left as it was |
| CandleCache.Cache.FetchFirst | src/triak_trade/backtesting/real_runner.py:2948-2968 | a first answer is recorded only if there is data |
| CandleCache.Cache.FindCovered | src/triak_trade/backtesting/real_runner.py:2896-2905 | the first candidate whose range covers the request |
| CandleCache.Cache.TryCandidate | src/triak_trade/backtesting/real_runner.py:2907-2968 | one candidate: extended, fetched first, without data, or failed, and unchanged unless it answers |
| CandleCache.Cache.FetchAll | src/triak_trade/backtesting/real_runner.py:2918-2935 | the missing ranges are fetched in order until one fails |
| CandleCache.Cache.Store | src/triak_trade/backtesting/real_runner.py:2940-2944 | records an answer over a range that covers the one before |
| CandleCache.Cache.Release | src/triak_trade/backtesting/backtest_runner.py:633-634 | a symbol is dropped from both dictionaries |
| CandleCache.MergeGaps | src/triak_trade/backtesting/real_runner.py:2936-2938 | merging the answers for the missing ranges gives the provider's answer for the widened range |
| CandleCache.MergeCandleBatches | src/triak_trade/backtesting/real_runner.py:2973-2982 | the dictionary loop computes the specified merge |
| CandleCache.GapsCover | src/triak_trade/backtesting/real_runner.py:2911-2917 | the gaps requested adjoin the range and widen it to the hull of range and request, disjoint requests included |
| CandleCache.MergeIsFetch | src/triak_trade/backtesting/real_runner.py:2973-2982 | merging the answers of two adjoining ranges is the answer of the joint range |
| CandleCache.MergeIsUnion | src/triak_trade/backtesting/real_runner.py:2973-2982 | for candles of one history the merge is ordered, free of duplicates, and holds exactly the candles of both lists |
| CandleCache.CoveringAnswers | src/triak_trade/backtesting/real_runner.py:2899-2905 | a wider cached range holds every candle of the request |
| ChannelContexts.ChannelContext.AddRecentMessage | src/triak_trade/agents/context.py:66-72 | for distinct ids the deque and the catalogue hold exactly the last messages |
| ChannelContexts.ChannelContext.AddSignal | src/triak_trade/agents/context.py:79-86 | files the state, its messages and its pending mark |
| ChannelContexts.ChannelContext.AttachMessage | src/triak_trade/agents/context.py:175-182 | adds the message once and moves the update time to the latest of creation, last update and message |
| ChannelContexts.ChannelContext.MergeSignal | src/triak_trade/agents/context.py:184-198 | merges, moves the update time forward only, and raises the version by one |
| ChannelContexts.ReplyIsSearch | src/triak_trade/agents/context.py:94-100 | the reverse index finds a signal exactly when a search of all active signals would |
| ChannelContexts.RecentPendingIsSearch | src/triak_trade/agents/context.py:152-173 | the pending neighbours are exactly the pending signals related to one of the few messages before |
| ChannelContexts.FilingKeepsIndex | src/triak_trade/agents/context.py:79-86 | the index stays the inverse of the related messages |
| ChannelContexts.WindowSlides | src/triak_trade/agents/context.py:66-72 | dropping the oldest of a full window and appending is the window of the longer history |
| ChannelAgents.ChannelAgent.IngestMessage | src/triak_trade/agents/channel_agent.py:47-215 | opens a pending signal, joins an existing one inside its window, ignores one outside, or reports an ambiguity; index, deadlines, versions and log move together |
| ChannelAgents.ChannelAgent.Tick | src/triak_trade/agents/channel_agent.py:268-356 | decides exactly the signals whose deadline has come, in filing order, and leaves no deadline at or before the time |
| ChannelAgents.ChannelAgent.Conclude | src/triak_trade/agents/channel_agent.py:280-346 | one decision: the action, the status, the end of the deadline |
| ChannelAgents.ChannelAgent.OpenSignal | src/triak_trade/agents/channel_agent.py:81-98 | a new signal is filed as pending under a free id, with its deadline |
| ChannelAgents.ChannelAgent.JoinSignal | src/triak_trade/agents/channel_agent.py:141-142 | a message is attached to a signal and merged into it |
| ChannelAgents.PendingIsOneSet | src/triak_trade/agents/channel_agent.py:81-98 | in every reachable state pending ids, pending deadlines and signals in consolidation are the same set, one deadline each |
| ChannelAgents.RelatedIsOnFile | src/triak_trade/agents/channel_agent.py:217-259 | a message tied without the classifier is tied to an active signal, and a reply always to the signal replied to |
| ChannelAgents.RelatedExactly | src/triak_trade/agents/channel_agent.py:217-267 | a message that the classifier ties to nothing belongs to a signal exactly when it replies to one of its messages; else when it is the one signal of the symbol; else when it is the one pending signal among the last three messages, the message acts on signals or looks like part of one, and the symbols do not differ |
| ChannelAgents.IntakeMeans | src/triak_trade/agents/channel_agent.py:79-215 | a message opens a signal when new and tied to none, joins one on file up to the end of the window after its last message, is passed over afterwards, and is ambiguous when it should belong to something that is not on file |
| ChannelAgents.FollowUpMeans | src/triak_trade/agents/channel_agent.py:367-405 | kind, reason and risk flag of the action proposed for each kind of follow-up; none for openings, entry updates and ignored messages |
| ChannelAgents.DecisionMeans | src/triak_trade/agents/channel_agent.py:286-330 | an accepted signal becomes a risky order that names its messages, any other is dropped |
| ChannelAgents.TickGoesForwardExactly | src/triak_trade/agents/channel_agent.py:344 | a tick keeps every update time from going back exactly when its clock is behind none of the due signals |
| ChannelAgents.TickCanGoBack | src/triak_trade/agents/channel_agent.py:344 | a follow-up dated after the clock makes the tick move an update time back |
| AgentLogs.DecidedOnce | src/triak_trade/agents/channel_agent.py:280-346 | over any interleaving a signal is decided at most once |
| AgentLogs.DecidedNotBeforeDeadline | src/triak_trade/agents/channel_agent.py:280-282 | a decision follows the opening and is not before its deadline |
| AgentLogs.OpenedOnce | src/triak_trade/agents/channel_agent.py:81-98 | a signal is opened once |
| AgentLogs.FollowUpsComeAfter | src/triak_trade/agents/channel_agent.py:172-185 | every follow-up action comes after the decision |
| Consolidator.BacktestRecords.ApplyLiveConsolidation | src/triak_trade/backtesting/backtest_runner.py:1477-1636 | every record meets its fate, the global list is rewritten, rejected signals leave records, order and tracking, and valid plus invalid counts are conserved exactly when no more are rejected than were counted valid |
| Consolidator.ConsolidateRecord | src/triak_trade/backtesting/backtest_runner.py:1500-1584 | the fate of one record, what it becomes and the messages it uses up |
| Consolidator.MergeFollowUps | src/triak_trade/backtesting/backtest_runner.py:1512-1531 | the loop merges every other mergeable event up to the deadline in time order |
| Consolidator.DropConsumed | src/triak_trade/backtesting/backtest_runner.py:1571-1582 | the comprehension keeps the opening and every event whose message was not used up |
| Consolidator.RewriteEvents | src/triak_trade/backtesting/backtest_runner.py:1618-1636 | the loop over the global list computes the specified rewriting |
| RecordLists.ListsStayTogether | src/triak_trade/backtesting/backtest_runner.py:1562-1636 | if the global list and a surviving record agree on the signal's events before the pass, they agree after it |
| RecordLists.RecordLosesExactlyItsFollowUps | src/triak_trade/backtesting/backtest_runner.py:1562-1582 | a surviving record keeps its events in order minus exactly the merged follow-ups, with its opening moved to the deadline in place, exactly when the message ids tell the follow-ups from the other events |
| RecordLists.UnmarkedFollowUpStays | src/triak_trade/backtesting/backtest_runner.py:1527-1531 | a stop update without a message id is merged into the opening and stays in the record |
| RecordLists.ConsumedExactly | src/triak_trade/backtesting/backtest_runner.py:1527-1531 | a message is used up exactly when a mergeable follow-up up to the deadline carries its id; one without an id is merged and leaves no mark |
| RecordLists.RejectedVanish | src/triak_trade/backtesting/backtest_runner.py:1619-1624 | nothing left in the global list names a rejected signal |
| RecordLists.FateMeans | src/triak_trade/backtesting/backtest_runner.py:1500-1568 | a record without an opening is left alone, one whose merged opening is misplaced or cannot be opened is rejected, any other has its opening moved to the end of the waiting time with the normalised merged signal and otherwise as it was |
| RecordLists.RewrittenMeans | src/triak_trade/backtesting/backtest_runner.py:1569-1587 | a surviving record takes side and canonical symbol of its moved opening, and keeps its ids |
| Consolidation.FollowUpsExactly | src/triak_trade/backtesting/backtest_runner.py:1518-1522 | the merged follow-ups are exactly the other mergeable events up to the deadline |
| Consolidation.FollowUpMeans | src/triak_trade/backtesting/backtest_runner.py:1491-1522 | an event is a follow-up exactly when it is an opening or update, other than the record's first opening, up to the end of the waiting time |
| Consolidation.FollowUpsInOrder | src/triak_trade/backtesting/backtest_runner.py:1518-1531 | the follow-ups are merged in the order of time, those of one time in the order of the record |
| Consolidation.LatestInTimeWins | src/triak_trade/backtesting/backtest_runner.py:1512-1531 | over a record, stop, targets, leverage and entry type of the merged opening come from the follow-up with the greatest timestamp that gives one, the last in the record of several |
| Consolidation.LatestProviderWins | src/triak_trade/agents/context.py:12-44 | stop, targets, leverage and entry type come from the last follow-up that gives one |
| Consolidation.FirstProviderWins | src/triak_trade/agents/context.py:15-17 | side and market come from the first provider; so does a symbol if building a signal again leaves the symbols alone |
| MergedSymbols.FirstSymbolExactly | src/triak_trade/domain/models.py:108-116 | the symbol comes from the first provider exactly when nothing is merged, no symbol is given, or building a signal leaves the first symbol given alone |
| Consolidation.BoundsLatestExactly | src/triak_trade/domain/models.py:132-136 | in one merge each entry bound comes from the latest provider exactly when the two chosen bounds do not cross; otherwise they are swapped |
| Consolidation.BoundsLatestOverFoldExactly | src/triak_trade/domain/models.py:132-136 | over all merges an entry bound comes from its latest provider if and only if no merge from that provider on crosses the bounds |
| Consolidation.CrossingsWiden | src/triak_trade/domain/models.py:132-136 | otherwise the low bound lies strictly below the latest one given, the high bound strictly above |
| Consolidation.BoundsLatestOverFold | src/triak_trade/domain/models.py:132-136 | in particular both come from their latest providers when no merge crosses them |
| Consolidation.MergedIsOpening | src/triak_trade/agents/context.py:18-43 | the merged signal is an opening tied to the first message, with the greatest confidence |
| Drafts.MergeMeans | src/triak_trade/agents/context.py:12-44 | a clear action and a given reason replace the old ones, the greater confidence stays, message and parser version are the first and the last |
| SymbolRoundTrip.ContractRoundTrip | src/triak_trade/core/symbols.py:10-47 | for a canonical base and main quote the contract name canonicalises back exactly when the base is not the quote |
| SymbolRoundTrip.CandidatesNameTheMarket | src/triak_trade/core/symbols.py:56-74 | every contract candidate names the symbol's own market, unless the base is the quote |
| SymbolRoundTrip.FixpointExactly | src/triak_trade/core/symbols.py:10-47 | a quoted symbol is left alone exactly when it is clean and no cutting step touches it |
| SymbolRoundTrip.CanonicalIsNotIdempotent | src/triak_trade/core/symbols.py:23-26 | canonicalising twice can differ from once |
| SymbolRoundTrip.DollarsBecomeTether | src/triak_trade/core/symbols.py:10-47 | every clean base quoted in USD canonicalises to that base in USDT |
| SymbolRoundTrip.BareBaseGetsTether | src/triak_trade/core/symbols.py:10-47 | a clean text without a known quote gets USDT if it is a word of at most ten letters, and else stays as it is |
| SymbolRoundTrip.DoubledDollars | src/triak_trade/core/symbols.py:38-39 | a base quoted in USD and USDT at once keeps USDT, unless it looks wrapped |
| SymbolRoundTrip.IdempotentExactly | src/triak_trade/core/symbols.py:10-47 | for any string a second canonicalisation changes nothing exactly when the first leaves no main quote, or no cutting step applies to what it leaves |
| SymbolRoundTrip.UnquotedIsFixpoint | src/triak_trade/core/symbols.py:34-46 | a canonical form without a main quote is always left alone |
| SymbolRoundTrip.BucketIsMarket | src/triak_trade/core/symbols.py:50-53 | candles are filed under the key of a symbol exactly when they are of its market |
| SymbolRoundTrip.CanonicalIsClean | src/triak_trade/core/symbols.py:10-47 | a canonical symbol holds upper-case letters and digits only |
| Symbols.CanonicalMarketSymbol | src/triak_trade/core/symbols.py:10-47 | the loops compute the canonical form |
| Symbols.CompactSymbol | src/triak_trade/core/symbols.py:14-16 | drops everything but letters and digits and upper-cases |
| Symbols.StripQuoteWrapper | src/triak_trade/core/symbols.py:23-26 | removes one leading quote that is also at the end |
| Symbols.StripSwapMarker | src/triak_trade/core/symbols.py:28-32 | removes a swap marker before the quote |
| Symbols.HasKnownQuote | src/triak_trade/core/symbols.py:40-42 | the loop finds a known quote exactly when there is one |
| Symbols.FuturesContractSymbolCandidates | src/triak_trade/core/symbols.py:56-74 | the list of contract names |
| Scoring.MaxDrawdown | src/triak_trade/backtesting/scoring.py:218-234 | one pass finds the largest fall of the equity curve between any two points, the start included |
| Scoring.EquityMaxDrawdown | src/triak_trade/backtesting/backtest_runner.py:2432-2444 | the runner finds the largest fall between points, once some point was positive |
| Scoring.EquityCurve | src/triak_trade/backtesting/backtest_runner.py:2406-2429 | the points of the curve from the starting capital |
| Scoring.RunnerNeverExceedsScorer | src/triak_trade/backtesting/backtest_runner.py:2432-2444 | on the same profits the runner's drawdown is at most the scorer's |
| Scoring.DrawdownsAgreeExactly | src/triak_trade/backtesting/backtest_runner.py:2432-2444 | with a positive first point they agree exactly when every fall from the starting capital is matched by one as deep between later points |
| Scoring.RunnerMissesFirstLoss | src/triak_trade/backtesting/backtest_runner.py:2433-2439 | a losing first trade is a fall for the scorer and none for the runner |
| Scoring.FillRateAtMostOne | src/triak_trade/backtesting/scoring.py:149-154 | over any run with distinct ids the fill rate is at most one |
| Scoring.RatioAtMostOne | src/triak_trade/backtesting/scoring.py:149-154 | the rate of at most as many as parsed is between zero and one |
| Scoring.ClampNeverBites | src/triak_trade/backtesting/scoring.py:149-196 | with rates between zero and one and no negative drawdown the final score is the weighted mean |
| Scoring.RunScoreIsWeightedMean | src/triak_trade/backtesting/scoring.py:98-196 | for the events and trades of any run with distinct ids the final score is the weighted mean of its parts: the outer clamp changes nothing |
| Scoring.ScoreRises | src/triak_trade/backtesting/scoring.py:149-196 | the score never falls when profit, win rate, profit factor or the share of signals filled rises, nor when the drawdown shrinks |
| Scoring.PerfectExactly | src/triak_trade/backtesting/scoring.py:149-196 | full marks go exactly to a channel that made at least thirty percent, won every filled trade, made at least three times what it lost, never fell, filled every signal and at least twelve, and came to the same under both policies |
| Scoring.NothingExactly | src/triak_trade/backtesting/scoring.py:149-196 | nothing goes exactly to one that made nothing, won nothing, fell by at least a fifth, filled nothing and came to opposite results |
| Scoring.BlendByParts | src/triak_trade/backtesting/scoring.py:183-191 | what each part adds when it goes from nothing to full marks: 24, 18, 17, 15, 10, 10 and 6 points |
| Scoring.BlendOfEqual | src/triak_trade/backtesting/scoring.py:183-191 | the weights sum to one |
| Scoring.InExitOrder | src/triak_trade/backtesting/scoring.py:218-228 | drawdown looks at the trades in the order of their exits, those without one last |
| Scoring.CountsMean | src/triak_trade/backtesting/scoring.py:99-107 | filled, winning and losing trades are counted as such |
| Scoring.GrossBalances | src/triak_trade/backtesting/scoring.py:99-107 | what was won less what was lost is what the filled trades came to |
| Scoring.FactorAboveOne | src/triak_trade/backtesting/scoring.py:99-107 | the profit factor is above one exactly when the filled trades made money |
| Scoring.ConsistencyMeans | src/triak_trade/backtesting/scoring.py:156-164 | consistency is full exactly when both policies agree, and nothing exactly when they differ by at least the larger result |
| Scoring.WinRateIsShare | src/triak_trade/backtesting/scoring.py:98-108 | the win rate of any trades lies between zero and one |
| TailStatistics.ShortfallIsWorst | src/triak_trade/backtesting/backtest_analytics.py:1005-1010 | no other choice of a tenth of the values has a smaller mean |
| TailStatistics.ShortfallBetween | src/triak_trade/backtesting/backtest_analytics.py:1005-1010 | the shortfall lies between the worst value and the mean |
| TailStatistics.PercentilesRise | src/triak_trade/backtesting/backtest_analytics.py:1013-1018 | percentiles are sample values, never fall, and run from least to greatest |
| TailStatistics.PercentileCounts | src/triak_trade/backtesting/backtest_analytics.py:1013-1018 | at most p hundredths of the other values lie below the p-th percentile, and more than that at or below it |
| TailStatistics.TailSizeMeans | src/triak_trade/backtesting/backtest_analytics.py:1005-1010 | the tail is the least positive number of values that makes a tenth of them |
| Histograms.Histogram | src/triak_trade/backtesting/backtest_analytics.py:798-832 | equal buckets from least to greatest with the number of values in each; the counts sum to the number of values |
| Histograms.CountBuckets | src/triak_trade/backtesting/backtest_analytics.py:816-819 | the counting loop: each bucket has the number of values that fall into it, and the counts sum to the number of values |
| Histograms.ValueInsideItsBucket | src/triak_trade/backtesting/backtest_analytics.py:815-819 | every value lies inside the bucket it is counted in |

## Left out

- Decimal arithmetic is exact real arithmetic; only the two roundings to eight places that change a quantity are
  modelled. The step by one unit in the last place inside the stop clamp has no real counterpart.
- Times are integers; sides are long or short in the simulator (buy, sell and unknown only occur in drafts); prices
  of candles are positive, as is the midpoint of an entry range; a fee of a whole notional or more is excluded.
- Strategies are absent, as when none is configured; the expiry hook always answers that nothing expires.
- Signal ids of events are strings; the fallback ids made up for events without one are not modelled.
- Notes, trade ids, channel ids, snapshots, price and level histories, charts and logging carry no state that the
  proofs need.
- The simulator takes canonical symbols; positions are found by market instead of through the per-market index,
  which `SymbolRoundTrip.BucketIsMarket` shows to hold the same candles. Characters outside ASCII are dropped when
  symbols are compacted and not upper-cased elsewhere.
- Drivers.DriversAgree: the source spells out the effect of an event once for each driver (simulator.py:528-934 and
  1538-1961); the model has it once, the two texts being the same for events with a signal id, so the agreement
  proved is that of the drivers around it.
- Risk.LossIsBounded: needs a positive loss percentage, because zero switches the cap off.
- ExplicitStop.ExplicitLossIsBounded: the bound is at the stop the position was opened with; for a signal whose
  stop is widened later, `Risk.LossAtMostAtStop` gives the bound at the worst stop it had.
- SegmentReplay.SegmentedReplayIsWhole: an event inside the last candle of a non-final segment is excluded; what the
  two replays then make of it is stated for a single opening only (`SegmentLimits.InsideIsDifferent`).
- Soundness.OrderQuantityPositive: is about sizing without explicit-stop rounding; with it a positive quantity can
  round to zero, and `Soundness.OpenedSound` covers what is opened either way.
- Dominance.OptimistDominates: is about a run with one signal; with several, the balances that size later orders
  differ between the policies.
- CandleCache.Cache.EnsurePrefetched: the provider answers from one fixed history; which calls fail is arbitrary.
- ChannelAgents.ChannelAgent.IngestMessage: the classifier's verdict is an arbitrary input and one reading of the
  clock serves the whole call; signals always hold a parsed signal; ids made from messages are taken as injective;
  distinct message ids are a premise.
- ChannelAgents.ChannelAgent.Tick: the validator is an arbitrary function; the branch for a deadline without a
  signal is absent because the invariant rules it out.
- ChannelContexts.ChannelContext.AddRecentMessage: the seeded message catalogue, reply chains and following
  messages are reading aids for the classifier and are not modelled.
- Consolidator.BacktestRecords.ApplyLiveConsolidation: traces and the map from symbols to traces are not modelled;
  the validator's normalisation and verdicts are arbitrary functions; an event's identity is its place in the list.
- RecordLists.ListsStayTogether: compares the events that are not broadcast to all records by a close-all, and needs
  records as they are built: their events carry their id, and only the opening comes from the signal's own message.
- Scoring.ClampNeverBites: the final rounding of the components is not modelled.
- Message classification, text heuristics, the building of records and follow-up correlation are inputs.
- Telegram, HTTP, storage, the process pool, reports and the dashboard are input and output.
- Bootstrap statistics are random; median, standard deviation and the ranking tables are not modelled.
