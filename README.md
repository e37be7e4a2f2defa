# tradeaudit-pro: trade reconstruction and discipline scoring, in Dafny

This project models the part of tradeaudit-pro that turns a broker's tradebook into closed
trades, then scores and summarises them. The input is rows of one broker's CSV, already split
into typed cells. The output is the closed-trade table, its summary statistics and the pattern
advisories.

- **Detection and dispatch** (`BrokerParser`, `broker.dfy`). An upload's header is matched
  against three column signatures. The match lowercases the column names and tries Zerodha,
  then Kotak, then ICICI Direct. A Kotak statement counts as derivatives when the first row's
  `Security Name` mentions FUT or OPT. `ParseBrokerFile` either detects the broker or takes
  the caller's broker name, then returns the chosen normalizer's result or an error.
- **Zerodha normalizer** (`ZerodhaParser`, `zerodha.dfy`).
  - Each fill's charges are estimated from fixed percentages, in place over an array.
  - Fills are grouped by (symbol, date). A group whose buy and sell totals agree within 0.01
    becomes one trade at the quantity-weighted average prices (aggregate-and-match).
  - A balanced group whose buys, or whose sells, carry no time at all makes the holding period
    `int(NaN)`. That raises, and the whole parse fails.
- **Kotak normalizer** (`KotakParser`, `kotak.dfy`). Charges are copied from the statement.
  In each group, each buy in row order takes the first remaining sell whose quantity differs
  from its own by strictly less than 10%. That sell is then removed (greedy pairwise matching).
- **ICICI Direct normalizer** (`IciciParser`, `icici.dfy`).
  - Commas are stripped from text cells before conversion.
  - Each fill's total charge is STT plus exchange charges plus stamp duty plus brokerage.
  - Trades come from aggregate-and-match with no times: every ICICI trade is intraday, with
    a holding period of 0.
- **Discipline scorer** (`DisciplineScorer`, `discipline.dfy`).
  - A clamped point score and a step-function letter grade.
  - The analysis columns, added in place to an array of rows.
  - The summary statistics.
  - The advisories: overtrading, a losing streak of five or more, and a win rate above 60%
    with a profit factor below 1.

The shared modules:

- `Fills` (`fills.dfy`): the fill, trade, charge and error records, plus the grouping, side
  filters, column sums, weighted averages, earliest and latest times, and the error messages
  that the normalizers share.
- `Text` (`text.dfy`): the string operations on cells and column names. These are lower, upper,
  capitalize, strip and substring search, over ASCII letters and ASCII whitespace.
- `Base` (`base.dfy`): `Option`/`Result`, and truncation of an elapsed time in seconds to
  minutes, as `int()` does (toward zero, not floor).

Conventions of the model:

- Timestamps are whole seconds, and a date is the day number `floor(timestamp / 86400)`.
- Money and quantities are exact `real`s.
- Python's `float()` of a text cell is the parameter `toFloat: string -> Option<real>`.
- An upload (`BrokerParser.Upload`) carries its header, the first row's `Security Name` cell,
  and its rows as each normalizer reads them.

What the code does, where its comments or design documents say otherwise:

- Zerodha and Kotak holding periods use `int(...)`, which truncates toward zero
  (`Base.TruncationIsNotFloor`). ICICI Direct sets the holding period to 0.
- Kotak's trade type is decided by `holding_minutes < 24*60`, not by comparing calendar dates.
  A trade with a missing time therefore has holding 0 and is intraday.
- Kotak's tolerance is strict (`KotakParser.StrictTolerance`).
- Kotak's comment promises the closest quantity, but the code takes the first eligible sell in
  row order (`KotakParser.FirstNotClosest`).
- Detection lowercases column names, but the normalizers check their required columns with
  exact case. The Kotak sample is also read only from a column named exactly
  `Security Name`, so a lowercased header is detected as equity
  (`BrokerParser.InexactSecurityColumnMeansEquity`).

## Model

| member | source | states |
|---|---|---|
| Base.TruncMinutes | modules/parsers/zerodha_parser.py:152 | minutes of an elapsed time in seconds truncated toward zero: 60·r ≤ s < 60·r+60 for s ≥ 0, mirrored for s < 0 |
| Base.TruncationIsNotFloor | modules/parsers/kotak_parser.py:105 | −90 s gives −1 minute under `int()` truncation, while floor division gives −2 |
| Base.DayOf | modules/parsers/zerodha_parser.py:143 | the calendar day of a timestamp is the day whose 86400-second span contains it |
| Base.DayOfMoment | modules/parsers/kotak_parser.py:30-35 | a timestamp assembled from a trade date and a time of day falls on that trade date |
| Text.Lower | modules/parsers/broker_parser.py:19 | same length, each character lowercased (ASCII letters only) |
| Text.Upper | modules/parsers/broker_parser.py:29 | same length, each character uppercased |
| Text.Capitalize | modules/parsers/zerodha_parser.py:33 | same length; the first character uppercased and every later one lowercased |
| Text.CapitalizeIgnoresCase | modules/parsers/kotak_parser.py:40 | a transaction type reads the same whatever case it was written in (lowercased or uppercased first), and capitalizing twice changes nothing |
| Text.SideNames | modules/parsers/icici_parser.py:36 | "BUY", "buy" and "Buy" all become "Buy", and "SELL", "sell" and "Sell" all become "Sell", the two actions the side filters select |
| Text.LowerAll | modules/parsers/broker_parser.py:19 | the column list with every name lowercased, position by position |
| Text.StripBounds | modules/parsers/kotak_parser.py:39 | the stripped name is the cell between two bounds, with only whitespace before the first bound and from the second on |
| Text.StripCutsOnlySpace | modules/parsers/kotak_parser.py:39 | the stripped name is a contiguous piece of the cell with only whitespace cut from its two ends, and it is empty exactly when the cell is whitespace only |
| Fills.FirstMissing | modules/parsers/kotak_parser.py:31-53 | none exactly when every named column is present; otherwise the first name, in access order, that the header lacks, every earlier one being present |
| Fills.KeyOf | modules/parsers/zerodha_parser.py:113 | a fill belongs to a (symbol, date) group exactly when both keys are present, so `groupby` drops the rest |
| Fills.GroupKeys | modules/parsers/zerodha_parser.py:113 | each group key appears once, and a key is listed exactly when some fill carries it |
| Fills.Group | modules/parsers/zerodha_parser.py:113 | a group holds exactly the fills with its key |
| Fills.GroupCounts | modules/parsers/zerodha_parser.py:113 | a group holds each fill with its key exactly as often as the table does, so repeated identical fills all count |
| Fills.GroupInRowOrder | modules/parsers/zerodha_parser.py:113 | the group of two consecutive runs of rows is the first run's group followed by the second's: the fills of a trade keep row order |
| Fills.Side | modules/parsers/zerodha_parser.py:114-115 | the buys (sells) of a group are exactly its fills with that action |
| Fills.SideCounts | modules/parsers/zerodha_parser.py:114-115 | a side holds each fill with that action exactly as often as the group does |
| Fills.SideInRowOrder | modules/parsers/kotak_parser.py:74-75 | the side of two consecutive runs of rows is the first run's side followed by the second's: the buys and sells keep row order, which the greedy matching depends on |
| Fills.Closable | modules/parsers/zerodha_parser.py:117-127 | the group keys whose buy and sell sides are both present and agree within 0.01, and no others |
| Fills.AveragePrice | modules/parsers/zerodha_parser.py:129-130 | the weighted average times the total quantity is the total notional |
| Fills.AveragePriceWithin | modules/parsers/zerodha_parser.py:129-130 | with positive quantities the weighted average lies between the lowest and highest fill price |
| Fills.EarliestTimeIsLeast | modules/parsers/zerodha_parser.py:132 | the least time present, ignoring missing ones; none exactly when every time is missing |
| Fills.LatestTimeIsGreatest | modules/parsers/zerodha_parser.py:133 | the greatest time present, ignoring missing ones; none exactly when every time is missing |
| ZerodhaParser.EstimateCharges | modules/parsers/zerodha_parser.py:64-100 | brokerage is min(20, 0.03%); STT 0.1% only on a sell; stamp duty 0.015% only on a buy; stored exchange charges include SEBI; GST 18% of brokerage and exchange without SEBI; total is the sum of the stored components |
| ZerodhaParser.EstimatedChargesSign | modules/parsers/zerodha_parser.py:68-93 | no fill pays both STT and stamp duty; on non-negative turnover every charge is non-negative |
| ZerodhaParser.CalculateCharges | modules/parsers/zerodha_parser.py:59-102 | every fill of the array gets its estimated charges in place, and nothing else about it changes |
| ZerodhaParser.Normalize | modules/parsers/zerodha_parser.py:27-46 | the fill keeps the symbol, quantity and price, capitalizes the trade type, has a date and a time exactly when those cells parse, and starts with every charge at 0 |
| ZerodhaParser.FirstGarbled | modules/parsers/zerodha_parser.py:27-28 | none exactly when every date cell parses; otherwise the text of the first unparseable cell, every earlier cell parsing |
| ZerodhaParser.SidesOutcome | modules/parsers/zerodha_parser.py:114-156 | no trade exactly when the sides do not balance; failure exactly when they balance but the buys or the sells have no time |
| ZerodhaParser.GroupOutcome | modules/parsers/zerodha_parser.py:113-127 | a group yields no trade exactly when it does not balance |
| ZerodhaParser.ClosedTrade | modules/parsers/zerodha_parser.py:129-156 | settles; quantity is the total bought; prices are the sides' weighted averages; charges are every fill's; entry and exit are the given times and the entry date the entry's day; holding is the truncated elapsed minutes; intraday exactly when both fall on one day; fill counts are the sides' sizes |
| ZerodhaParser.Reconstruct | modules/parsers/zerodha_parser.py:105-158 | fails exactly when some group balances but lacks a buy or a sell time, and then only with the holding-period failure; on success one trade per balanced group, in group order, the j-th from the j-th balanced group |
| ZerodhaParser.OnlyNaNMinutesFails | modules/parsers/zerodha_parser.py:152 | the one failure the reconstruction loop can end in is `int()` of a holding period computed from a missing time |
| ZerodhaParser.FailureSticks | modules/parsers/zerodha_parser.py:51-56 | once a group fails, the whole reconstruction ends in that failure |
| ZerodhaParser.FailsIff | modules/parsers/zerodha_parser.py:113-152 | reconstruction fails exactly when some group balances but lacks a buy or a sell time |
| ZerodhaParser.OneTradePerClosableGroup | modules/parsers/zerodha_parser.py:113-156 | on success there is exactly one trade per balanced group, in group order, and the j-th trade is the j-th balanced group's |
| ZerodhaParser.ClosedTradeAmounts | modules/parsers/zerodha_parser.py:122-150 | quantity is the total bought; the sides' totals agree within 0.01; prices are the sides' weighted averages; gross = (exit − entry)·qty; charges are all fills' totals; net = gross − charges |
| ZerodhaParser.ClosedTradeTiming | modules/parsers/zerodha_parser.py:132-153 | entry is the earliest buy time and exit the latest sell time; entry date is the entry's day; holding is the truncated elapsed minutes; intraday exactly when both fall on one day |
| ZerodhaParser.ReconstructTrades | modules/parsers/zerodha_parser.py:105-158 | the loop over groups computes the reconstruction, stopping at the first failing group |
| ZerodhaParser.Parse | modules/parsers/zerodha_parser.py:17-56 | the invalid-format error exactly when a required column is missing; success exactly when the columns are present, no execution-time or trade-date cell is garbled and reconstruction succeeds, and then the trades are that reconstruction; a timestamp error carries the text of a garbled cell; every error is Zerodha's |
| ZerodhaParser.ParseFile | modules/parsers/zerodha_parser.py:17-56 | validating, normalizing, estimating charges in place and reconstructing gives the parse result |
| ZerodhaParser.PartialFillsScenario | modules/parsers/zerodha_parser.py:121-153 | buys of 50 at 100 and 50 at 102 closed by a sell of 100 at 105 two hours later: 100 shares, entry 101, exit 105, gross 400, held 120 minutes, intraday |
| KotakParser.FirstEligible | modules/parsers/kotak_parser.py:85-90 | none exactly when no remaining sell is within the strict 10% tolerance; otherwise the first such sell in row order |
| KotakParser.RemoveAt | modules/parsers/kotak_parser.py:132 | dropping the used sell removes exactly that one fill |
| KotakParser.GreedyMatches | modules/parsers/kotak_parser.py:83-132 | no more pairs than buys, and every pair is within tolerance |
| KotakParser.EachSellUsedOnce | modules/parsers/kotak_parser.py:90-132 | the sells of the pairs are a sub-multiset of the group's sells (each sell at most once), so there are no more pairs than sells |
| KotakParser.EachBuyUsedOnce | modules/parsers/kotak_parser.py:83-90 | the buys of the pairs are a sub-multiset of the group's buys |
| KotakParser.SidesTrades | modules/parsers/kotak_parser.py:77-132 | no more trades than buys and no more than sells, so none without both; each trade joins an eligible buy and sell of the group |
| KotakParser.MatchGroup | modules/parsers/kotak_parser.py:83-132 | the loop over buys that shrinks the remaining sells produces the greedy matching's trades |
| KotakParser.ReconstructTrades | modules/parsers/kotak_parser.py:65-134 | the loop over groups produces the reconstruction |
| KotakParser.Normalize | modules/parsers/kotak_parser.py:29-53 | the security name and exchange are stripped and the side capitalized; the charge columns are copied, with no exchange charges or stamp duty; the fill has a time exactly when both the date and the time parse, and that time falls on the trade date |
| KotakParser.Reconstruct | modules/parsers/kotak_parser.py:65-134 | every trade pairs a buy of some group with an eligible sell of the same group |
| KotakParser.TradesFromGroups | modules/parsers/kotak_parser.py:73-132 | over any list of groups, every trade comes from a buy and an eligible sell of one of those groups |
| KotakParser.Parse | modules/parsers/kotak_parser.py:20-62 | the invalid-format error exactly when a required column is missing; success exactly when every column read is present, and then the trades are the reconstruction; otherwise the failure names the first column, in the order the code reads them, that the header lacks; every error is Kotak's |
| KotakParser.PairTrade | modules/parsers/kotak_parser.py:92-128 | settles; quantity is the buy's; prices and times are the two fills'; charges add both; holding 0 unless both times are known, else truncated minutes; intraday exactly when held under 1440 minutes; brokerage, STT, GST and misc are the two fills' sums |
| KotakParser.FirstNotClosest | modules/parsers/kotak_parser.py:84-90 | a buy of 100 facing sells of 108 then 101 is paired with the 108 |
| KotakParser.StrictTolerance | modules/parsers/kotak_parser.py:85 | a sell exactly 10% away from the buy never closes it |
| KotakParser.SellUsedOnce | modules/parsers/kotak_parser.py:131-132 | two buys of 100 facing one sell of 100 give one pair, for the first buy |
| IciciParser.StripCommas | modules/parsers/icici_parser.py:41 | the result has no comma, adds no character, and is the input when the input had none |
| IciciParser.StripCommasConcat | modules/parsers/icici_parser.py:41 | removing commas from a concatenation removes them from each part |
| IciciParser.StripCommasIdempotent | modules/parsers/icici_parser.py:41 | removing commas twice is removing them once |
| IciciParser.CleanNumeric | modules/parsers/icici_parser.py:39-42 | a number stays; text converts after its commas are removed, and a failed conversion reports the comma-free text |
| IciciParser.GroupedDigits | modules/parsers/icici_parser.py:39-44 | "1,000" converts as "1000" |
| IciciParser.FirstBadCell | modules/parsers/icici_parser.py:41-42 | none exactly when every cell of the column converts; otherwise the failure of the first cell, in row order, that does not, every earlier cell converting |
| IciciParser.ConversionFailure | modules/parsers/icici_parser.py:44-52 | none exactly when every converted column is present and converts; otherwise the failure of the first column, in conversion order, that is missing (its KeyError) or has a bad cell (that cell's failure), every earlier column converting |
| IciciParser.Normalize | modules/parsers/icici_parser.py:53 | a fill's total charge is STT + exchange charges + stamp duty + brokerage |
| IciciParser.SumOfCharges | modules/parsers/icici_parser.py:53-98 | when each fill's total is its four components, the summed totals are the four summed columns |
| IciciParser.ClosedTrade | modules/parsers/icici_parser.py:81-121 | settles; quantity is the total bought; prices are the sides' weighted averages; no times, holding 0, intraday; total charges, brokerage, STT, exchange charges and stamp duty are each summed over all buys and sells; fill counts are the sides' sizes |
| IciciParser.Reconstruct | modules/parsers/icici_parser.py:64-123 | one trade per balanced group, in group order, the j-th from the j-th balanced group, and no others |
| IciciParser.SidesOutcome | modules/parsers/icici_parser.py:73-86 | a trade exactly when both sides are present and their totals agree within 0.01 |
| IciciParser.GroupOutcome | modules/parsers/icici_parser.py:72-86 | a group yields a trade exactly when it balances |
| IciciParser.ReconstructTrades | modules/parsers/icici_parser.py:64-123 | the loop over groups produces the reconstruction |
| IciciParser.OneTradePerClosableGroup | modules/parsers/icici_parser.py:72-121 | exactly one trade per balanced group, in group order, and no others |
| IciciParser.ClosedTradeFacts | modules/parsers/icici_parser.py:81-120 | the trade of a balanced group settles; quantity is the total bought; prices are weighted averages; no times; holding 0; intraday; fill counts are the sides' sizes; total charges, brokerage, STT, exchange charges and stamp duty are each the sum over all its buy and sell fills |
| IciciParser.TradeChargesAddUp | modules/parsers/icici_parser.py:98-115 | a trade's total charges are its reported brokerage, STT, exchange charges and stamp duty together |
| IciciParser.SideChargesAddUp | modules/parsers/icici_parser.py:53-74 | the buys and sells of a group keep the per-fill charge identity |
| IciciParser.ReconstructedChargesAddUp | modules/parsers/icici_parser.py:53-116 | every reconstructed trade's total charges equal the sum of its four reported charge columns |
| IciciParser.Parse | modules/parsers/icici_parser.py:18-61 | the invalid-format error exactly when a required column is missing; success exactly when, in addition, every converted column is present and converts; on success the trades are the reconstruction of the normalized fills, each with charges that add up; every error is ICICI's |
| BrokerParser.KotakCategory | modules/parsers/broker_parser.py:28-41 | derivatives exactly when an exactly named `Security Name` column has a first-row name with FUT or OPT; detection fails exactly when that column exists but the file has no rows or the cell is empty |
| BrokerParser.Detect | modules/parsers/broker_parser.py:11-41 | Zerodha exactly when its signature matches; Kotak exactly when Zerodha's does not, Kotak's does and the sample can be read; ICICI exactly when only its signature matches; the type is equity except for Kotak's sample |
| BrokerParser.Route | modules/parsers/broker_parser.py:67-77 | each known identifier gives exactly that normalizer's result; the unsupported-broker error exactly for any other name, and it names the broker |
| BrokerParser.ParseBrokerFile | modules/parsers/broker_parser.py:44-77 | the auto-detect error exactly when no broker was given and detection fails; with detection the detected broker and type are routed; otherwise the caller's |
| BrokerParser.DetectedTypeOverrides | modules/parsers/broker_parser.py:57-62 | without a broker, the caller's statement type makes no difference |
| BrokerParser.UnsupportedMessage | modules/parsers/broker_parser.py:74-75 | an unknown broker name ends in "Unsupported broker: " followed by that name |
| BrokerParser.DetectionIgnoresCase | modules/parsers/broker_parser.py:19-36 | headers equal once lowercased, with the same first-row security name, are detected as the same broker (or both fail) |
| BrokerParser.InexactSecurityColumnMeansEquity | modules/parsers/broker_parser.py:26-32 | a Kotak header without an exactly named `Security Name` column is equity whatever the first row holds |
| DisciplineScorer.PnlPoints | modules/analysis/discipline_scorer.py:22-27 | 30 exactly for a profit, 15 exactly for −500 < net ≤ 0, 0 exactly for net ≤ −500 |
| DisciplineScorer.HoldingPoints | modules/analysis/discipline_scorer.py:31-37 | 0 for a period ≤ 0; −10 exactly for 1–4 minutes; +20 exactly for 15–240; +10 exactly for 5–14 or above 240 |
| DisciplineScorer.SizePoints | modules/analysis/discipline_scorer.py:41-47 | +20 exactly for a position value in [10000, 500000], +5 exactly above, +10 exactly below |
| DisciplineScorer.Score | modules/analysis/discipline_scorer.py:9-52 | the score lies in [0, 100] and is the raw points capped at 100 |
| DisciplineScorer.RawScoreRange | modules/analysis/discipline_scorer.py:19-50 | the raw points lie in [45, 120], so the clamp never raises a score |
| DisciplineScorer.GradeOf | modules/analysis/discipline_scorer.py:55-68 | A+ exactly from 90, A in [80, 90), B in [70, 80), C in [60, 70), D in [50, 60), F below 50 |
| DisciplineScorer.GradeMonotone | modules/analysis/discipline_scorer.py:55-68 | a higher score never earns a lower grade |
| DisciplineScorer.AnalyzeTrades | modules/analysis/discipline_scorer.py:71-87 | an empty table is left alone and reported as not analysed; otherwise each row gets its score, grade, win flag and return in place and keeps its trade |
| DisciplineScorer.Assess | modules/analysis/discipline_scorer.py:79-85 | the score lies in [0, 100]; the grade is that score's (F exactly below 50); win exactly for a positive net P&L; the return is the trade's return percentage |
| DisciplineScorer.ReturnPct | modules/analysis/discipline_scorer.py:84-85 | no value exactly for an entry price of 0; otherwise the return times the entry price is 100 times the price move, and on a positive entry price the return is positive exactly when the exit price is higher |
| DisciplineScorer.Wins | modules/analysis/discipline_scorer.py:98 | the number of winning trades is at most the number of trades |
| DisciplineScorer.Losses | modules/analysis/discipline_scorer.py:99 | the number of losing trades is at most the number of trades |
| DisciplineScorer.WinTotal | modules/analysis/discipline_scorer.py:124 | total winnings are non-negative, and positive exactly when there is a win |
| DisciplineScorer.LossTotal | modules/analysis/discipline_scorer.py:125 | total losses are non-positive, and negative exactly when there is a loss |
| DisciplineScorer.NetIsWinsPlusLosses | modules/analysis/discipline_scorer.py:109-125 | the table's net P&L is the winners' total plus the losers' total |
| DisciplineScorer.NetIsGrossLessCharges | modules/analysis/discipline_scorer.py:107-109 | for settled trades the net P&L total is the gross total less the charges total |
| DisciplineScorer.ScoreTotal | modules/analysis/discipline_scorer.py:117 | the scores add up to between 0 and 100 per trade |
| DisciplineScorer.LargestNet | modules/analysis/discipline_scorer.py:114 | the largest net P&L is some trade's and at least every trade's |
| DisciplineScorer.SmallestNet | modules/analysis/discipline_scorer.py:115 | the smallest net P&L is some trade's and at most every trade's |
| DisciplineScorer.WinsAndLosses | modules/analysis/discipline_scorer.py:97-99 | wins and losses together never exceed the trades |
| DisciplineScorer.AllWinners | modules/analysis/discipline_scorer.py:98-99 | in a table of profits only, every trade is a win and none a loss |
| DisciplineScorer.ZerodhaTablesHaveNoBrokerage | modules/analysis/discipline_scorer.py:119-120 | a table without brokerage and STT columns totals 0 for both |
| DisciplineScorer.AverageWin | modules/analysis/discipline_scorer.py:111 | the average win is non-negative, and 0 exactly when there is no win |
| DisciplineScorer.AverageLoss | modules/analysis/discipline_scorer.py:112 | the average loss is non-positive, and 0 exactly when there is no loss |
| DisciplineScorer.ProfitFactor | modules/analysis/discipline_scorer.py:123-126 | non-negative; 0 exactly when there is no win or no loss; with losses it scales total losses to total wins |
| DisciplineScorer.WinRate | modules/analysis/discipline_scorer.py:105 | a percentage in [0, 100], 100 exactly when every trade wins |
| DisciplineScorer.AverageScore | modules/analysis/discipline_scorer.py:117 | the average discipline score lies in [0, 100] |
| DisciplineScorer.SummaryStats | modules/analysis/discipline_scorer.py:90-128 | none exactly for an empty table; otherwise the trade count, the win and loss counts, win rate, profit factor, average win and loss, largest and smallest net, the net, gross, charges, brokerage and STT totals and the average score of the table; hence wins + losses ≤ trades, averages 0 exactly for an empty side, profit factor 0 exactly without wins or losses, largest loss ≤ largest win, average score in [0, 100] |
| DisciplineScorer.TradingDays | modules/analysis/discipline_scorer.py:143 | a non-empty table has at least one distinct entry date |
| DisciplineScorer.RunEndingAtIsRun | modules/analysis/discipline_scorer.py:156-161 | the counted run is made of losses and cannot be extended to the left |
| DisciplineScorer.RunsEndingAtAreShorter | modules/analysis/discipline_scorer.py:156-161 | no run of losses ending at a position is longer than the count there |
| DisciplineScorer.LongestRunIsLongest | modules/analysis/discipline_scorer.py:153-163 | `max_consecutive_losses` is the length of some run of losses, and no run of losses is longer |
| DisciplineScorer.LongestLossStreak | modules/analysis/discipline_scorer.py:153-161 | the loop over the rows, resetting the count at each non-losing trade, ends with `max_consecutive_losses`, the longest run of losses |
| DisciplineScorer.PatternsOf | modules/analysis/discipline_scorer.py:131-181 | nothing under 5 trades; overtrading exactly above 50 trades averaging more than 5 per day; streak exactly at 5 or more consecutive losses; mismatch exactly for a win rate above 60 with a profit factor below 1 |
| DisciplineScorer.DetectPatterns | modules/analysis/discipline_scorer.py:131-181 | the checks in order, with the streak found by one pass over the rows, give the advisories |
| DisciplineScorer.AllWinnersStats | modules/analysis/discipline_scorer.py:105-126 | a table of profits only has a win rate of 100 and a profit factor of 0 |
| DisciplineScorer.AllWinnersLookLikeCuttingWinners | modules/analysis/discipline_scorer.py:172-179 | five or more winning trades, and no losses, always raise the winners-cut-short advisory |
| DisciplineScorer.FiveLossesInARow | modules/analysis/discipline_scorer.py:153-169 | five losses followed by a win is a streak of five, and it raises the streak advisory |

## Left out

- Reading the file is not modelled: `pd.read_csv`, the byte-order mark, encodings,
  `file.seek(0)` and the five-row read during detection. Each normalizer receives its header
  and typed rows, and detection receives the header and the first row's security-name cell.
- `pd.to_datetime` with the broker-specific formats is not modelled. A parsed date is a day
  number, a parsed time a count of seconds, and an unparseable cell is missing (or, for
  Zerodha, which does not coerce, garbled text that fails the parse). Sub-second times are
  not modelled.
- `astype(float)` of Zerodha and Kotak cells is not modelled: quantities, prices and charges
  arrive as numbers. An empty cell that would become NaN, and a text cell that would make the
  conversion raise, are not represented. Python's `float()` of ICICI text is the parameter
  `toFloat`.
- ZerodhaParser.CalculateCharges: does not round the stored charges to two decimals (`round(x, 2)`), because values are exact reals. The same holds for every `round` in the trade dictionaries and in the statistics.
- DisciplineScorer.PatternsOf: compares the unrounded win rate and profit factor with 60 and 1. The source compares the values rounded to one and two decimals, so a win rate of 60.04 does not fire there.
- DisciplineScorer.SummaryStats: the win rate and profit factor are not rounded, and a `None` table is not an input (an empty one gives no statistics).
- Fills.AveragePrice: for a zero total quantity this gives 0, where the source's division gives NaN or infinity.
- DisciplineScorer.ReturnPct: for an entry price of 0 this gives no value, where the source's division gives infinity or NaN.
- Binary floating point is not modelled. Sums and products are exact, so pandas' float sums and the 0.01 and 10% tolerances are not affected by representation error.
- Group order is not modelled. pandas `groupby` visits groups in sorted key order; this model
  visits them in order of first appearance. The groups, their trades and the trades
  within a group are the same; only the row order of the trade table differs, and with it the
  row order `DetectPatterns` scans for losing streaks.
- Exception texts are only approximated. `Fills.CauseText` renders each failure close to
  Python's message (a `KeyError` as the quoted column name), but pandas' and Python's exact
  wording for timestamp and number conversions is not reproduced.
- Other exceptions a normalizer's `try` block could catch are not modelled. A NaN transaction
  type in `str.capitalize` is one example; only the failures listed in `Fills.Cause` are.
- The advisories' titles and messages are not modelled, because they are formatted text with
  emoji. `Pattern` carries the values each message reports, plus the type and severity.
- `get_supported_brokers` is not modelled. It returns a constant dictionary of display names for the
  user interface and takes no part in dispatch.
- `analyze_trades` and `get_summary_stats` called with `None`: the model's inputs are always
  tables, and the empty table is handled.
- The Kotak `Total` column is read only for its `KeyError`. Its value is not used, so the
  rows do not carry it.
- `app.py` (the Streamlit interface), `modules/utils/charts.py` (Plotly figures) and
  `test_parsers.py` (a command-line script that prints sample files) are not part of this
  model.
- String operations (lower, upper, capitalize, strip) treat only ASCII letters, and strip
  removes only the ASCII characters `str.isspace()` accepts: blank, tab, line feed, carriage
  return, vertical tab, form feed and the separators `\x1c` to `\x1f`. Unicode case mapping
  and Unicode whitespace are not modelled.
