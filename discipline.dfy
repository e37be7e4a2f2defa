/**
 * The discipline scorer: a clamped, point-based score per trade and its letter grade, the
 * per-trade columns the analysis adds in place, the portfolio summary statistics, and the
 * pattern advisories (overtrading, losing streak, winners cut short).
 */
module DisciplineScorer {
  import opened Base
  import opened Fills

  /** Points for the result: 30 for a profit, 15 for a loss smaller than 500 (or none), else 0. */
  function PnlPoints(netPnl: real): (p: int)
    ensures p == 30 <==> netPnl > 0.0
    ensures p == 15 <==> -500.0 < netPnl <= 0.0
    ensures p == 0 <==> netPnl <= -500.0
  {
    if netPnl > 0.0 then 30 else if netPnl > -500.0 then 15 else 0
  }

  /** Points for the holding period; a period that is not positive earns nothing. */
  function HoldingPoints(minutes: int): (p: int)
    ensures minutes <= 0 ==> p == 0
    ensures p == -10 <==> 0 < minutes < 5
    ensures p == 20 <==> 15 <= minutes <= 240
    ensures p == 10 <==> (5 <= minutes < 15 || minutes > 240)
  {
    if minutes > 0 then
      if minutes < 5 then -10
      else if 15 <= minutes <= 240 then 20
      else 10
    else 0
  }

  /** Points for the position value: 20 between 10,000 and 500,000, 5 above, 10 below. */
  function SizePoints(positionValue: real): (p: int)
    ensures p == 20 <==> 10000.0 <= positionValue <= 500000.0
    ensures p == 5 <==> positionValue > 500000.0
    ensures p == 10 <==> positionValue < 10000.0
  {
    if 10000.0 <= positionValue <= 500000.0 then 20
    else if positionValue > 500000.0 then 5
    else 10
  }

  function RawScore(t: Trade): int
  {
    50 + PnlPoints(t.netPnl) + HoldingPoints(t.holdingMinutes) + SizePoints(t.quantity * t.entryPrice)
  }

  /** `calculate_basic_discipline_score`: the raw points clamped to [0, 100]. */
  function Score(t: Trade): (s: int)
    ensures 0 <= s <= 100
    ensures RawScore(t) <= 100 ==> s == RawScore(t)
    ensures RawScore(t) > 100 ==> s == 100
  {
    var raw := RawScore(t);
    if raw > 100 then 100 else if raw < 0 then 0 else raw
  }

  /** The raw points always lie in [45, 120], so the clamp only ever lowers a score. */
  lemma RawScoreRange(t: Trade)
    ensures 45 <= RawScore(t) <= 120
    ensures Score(t) <= RawScore(t)
  {
  }

  datatype Grade = APlus | A | B | C | D | F {
    function Letter(): string
    {
      match this
      case APlus => "A+"
      case A => "A"
      case B => "B"
      case C => "C"
      case D => "D"
      case F => "F"
    }

    /** The grade's place in the order F < D < C < B < A < A+. */
    function Rank(): nat
    {
      match this
      case F => 0
      case D => 1
      case C => 2
      case B => 3
      case A => 4
      case APlus => 5
    }
  }

  /** `get_grade`: a step function with steps at 50, 60, 70, 80 and 90. */
  function GradeOf(score: int): (g: Grade)
    ensures g == APlus <==> score >= 90
    ensures g == A <==> 80 <= score < 90
    ensures g == B <==> 70 <= score < 80
    ensures g == C <==> 60 <= score < 70
    ensures g == D <==> 50 <= score < 60
    ensures g == F <==> score < 50
  {
    if score >= 90 then APlus
    else if score >= 80 then A
    else if score >= 70 then B
    else if score >= 60 then C
    else if score >= 50 then D
    else F
  }

  /** A higher score never earns a lower grade. */
  lemma GradeMonotone(s1: int, s2: int)
    requires s1 <= s2
    ensures GradeOf(s1).Rank() <= GradeOf(s2).Rank()
  {
  }

  /** The columns `analyze_trades` adds to a trade: score, grade, win flag and return. */
  datatype Assessment = Assessment(score: int, grade: Grade, win: bool, returnPct: Option<real>)

  /**
   * The return in percent of the entry price: the price move is that share of the entry price,
   * and on a positive entry price it is positive exactly when the exit price is higher. With an
   * entry price of 0 the division has no finite value.
   */
  function ReturnPct(t: Trade): (r: Option<real>)
    ensures r.None? <==> t.entryPrice == 0.0
    ensures r.Some? ==> r.value * t.entryPrice == (t.exitPrice - t.entryPrice) * 100.0
    ensures r.Some? && t.entryPrice > 0.0 ==> (r.value > 0.0 <==> t.exitPrice > t.entryPrice)
  {
    if t.entryPrice == 0.0 then None
    else
      var q := (t.exitPrice - t.entryPrice) / t.entryPrice;
      assert q * t.entryPrice == t.exitPrice - t.entryPrice;
      Some(q * 100.0)
  }

  /**
   * The columns `analyze_trades` adds to one trade: a score in [0, 100], the grade of that
   * score (F exactly below 50), a win flag exactly for a profit, and the return.
   */
  function Assess(t: Trade): (a: Assessment)
    ensures 0 <= a.score <= 100 && a.score == Score(t) && a.grade == GradeOf(a.score)
    ensures a.win <==> t.netPnl > 0.0
    ensures a.grade == F <==> a.score < 50
    ensures a.returnPct == ReturnPct(t)
  {
    var s := Score(t);
    Assessment(s, GradeOf(s), t.netPnl > 0.0, ReturnPct(t))
  }

  /** A row of the trade table: the trade and, once analysed, its added columns. */
  datatype Row = Row(trade: Trade, assessment: Option<Assessment>)

  /**
   * `analyze_trades`: on a non-empty table every row gets its assessment in place and the
   * trades are left as they were; an empty table is not analysed.
   */
  method AnalyzeTrades(table: array<Row>) returns (analyzed: bool)
    modifies table
    ensures analyzed <==> table.Length > 0
    ensures forall i :: 0 <= i < table.Length ==> table[i].trade == old(table[i].trade)
    ensures analyzed ==> forall i :: 0 <= i < table.Length ==>
      table[i].assessment == Some(Assess(table[i].trade))
    ensures !analyzed ==> table[..] == old(table[..])
  {
    if table.Length == 0 {
      return false;
    }
    forall i | 0 <= i < table.Length {
      table[i] := Row(table[i].trade, Some(Assess(table[i].trade)));
    }
    return true;
  }

  // Column totals and counts over the trade table.

  function Wins(ts: seq<Trade>): (n: nat)
    ensures n <= |ts|
  {
    if |ts| == 0 then 0 else (if ts[0].netPnl > 0.0 then 1 else 0) + Wins(ts[1..])
  }

  function Losses(ts: seq<Trade>): (n: nat)
    ensures n <= |ts|
  {
    if |ts| == 0 then 0 else (if ts[0].netPnl < 0.0 then 1 else 0) + Losses(ts[1..])
  }

  /** The net P&L of the winning trades together: positive exactly when there is a win. */
  function WinTotal(ts: seq<Trade>): (r: real)
    ensures r >= 0.0
    ensures r > 0.0 <==> Wins(ts) > 0
  {
    if |ts| == 0 then 0.0 else (if ts[0].netPnl > 0.0 then ts[0].netPnl else 0.0) + WinTotal(ts[1..])
  }

  /** The net P&L of the losing trades together: negative exactly when there is a loss. */
  function LossTotal(ts: seq<Trade>): (r: real)
    ensures r <= 0.0
    ensures r < 0.0 <==> Losses(ts) > 0
  {
    if |ts| == 0 then 0.0 else (if ts[0].netPnl < 0.0 then ts[0].netPnl else 0.0) + LossTotal(ts[1..])
  }

  function NetTotal(ts: seq<Trade>): real
  {
    if |ts| == 0 then 0.0 else ts[0].netPnl + NetTotal(ts[1..])
  }

  /** The net P&L of the table is what the winners made plus what the losers lost. */
  lemma {:induction false} NetIsWinsPlusLosses(ts: seq<Trade>)
    ensures NetTotal(ts) == WinTotal(ts) + LossTotal(ts)
  {
    if |ts| > 0 {
      NetIsWinsPlusLosses(ts[1..]);
    }
  }

  /** On a table of settled trades, the net P&L total is the gross total less the charges total. */
  lemma {:induction false} NetIsGrossLessCharges(ts: seq<Trade>)
    requires forall i :: 0 <= i < |ts| ==> Settled(ts[i])
    ensures NetTotal(ts) == GrossTotal(ts) - ChargesTotal(ts)
  {
    if |ts| > 0 {
      assert Settled(ts[0]);
      NetIsGrossLessCharges(ts[1..]);
    }
  }

  function GrossTotal(ts: seq<Trade>): real
  {
    if |ts| == 0 then 0.0 else ts[0].grossPnl + GrossTotal(ts[1..])
  }

  function ChargesTotal(ts: seq<Trade>): real
  {
    if |ts| == 0 then 0.0 else ts[0].totalCharges + ChargesTotal(ts[1..])
  }

  /** The trade's `brokerage` column; Zerodha trades have none, which sums as nothing. */
  function BrokerageOf(t: Trade): real
  {
    match t.detail
    case ZerodhaDetail(_, _) => 0.0
    case KotakDetail(brokerage, _, _, _, _, _) => brokerage
    case IciciDetail(brokerage, _, _, _, _, _) => brokerage
  }

  function SttOf(t: Trade): real
  {
    match t.detail
    case ZerodhaDetail(_, _) => 0.0
    case KotakDetail(_, stt, _, _, _, _) => stt
    case IciciDetail(_, stt, _, _, _, _) => stt
  }

  function BrokerageTotal(ts: seq<Trade>): real
  {
    if |ts| == 0 then 0.0 else BrokerageOf(ts[0]) + BrokerageTotal(ts[1..])
  }

  function SttTotal(ts: seq<Trade>): real
  {
    if |ts| == 0 then 0.0 else SttOf(ts[0]) + SttTotal(ts[1..])
  }

  function ScoreTotal(ts: seq<Trade>): (r: int)
    ensures 0 <= r <= 100 * |ts|
  {
    if |ts| == 0 then 0 else Score(ts[0]) + ScoreTotal(ts[1..])
  }

  /** `net_pnl.max()` */
  function LargestNet(ts: seq<Trade>): (r: real)
    requires |ts| > 0
    ensures forall i :: 0 <= i < |ts| ==> ts[i].netPnl <= r
    ensures exists i :: 0 <= i < |ts| && ts[i].netPnl == r
  {
    if |ts| == 1 then ts[0].netPnl
    else
      var rest := LargestNet(ts[1..]);
      assert forall i :: 1 <= i < |ts| ==> ts[i] == ts[1..][i - 1];
      if ts[0].netPnl >= rest then ts[0].netPnl else rest
  }

  /** `net_pnl.min()` */
  function SmallestNet(ts: seq<Trade>): (r: real)
    requires |ts| > 0
    ensures forall i :: 0 <= i < |ts| ==> r <= ts[i].netPnl
    ensures exists i :: 0 <= i < |ts| && ts[i].netPnl == r
  {
    if |ts| == 1 then ts[0].netPnl
    else
      var rest := SmallestNet(ts[1..]);
      assert forall i :: 1 <= i < |ts| ==> ts[i] == ts[1..][i - 1];
      if ts[0].netPnl <= rest then ts[0].netPnl else rest
  }

  /** A trade is a win, a loss, or neither, so wins and losses together never exceed the trades. */
  lemma {:induction false} WinsAndLosses(ts: seq<Trade>)
    ensures Wins(ts) + Losses(ts) <= |ts|
  {
    if |ts| > 0 {
      WinsAndLosses(ts[1..]);
    }
  }

  /** A table of winners only: every trade a win and none a loss. */
  lemma {:induction false} AllWinners(ts: seq<Trade>)
    requires forall i :: 0 <= i < |ts| ==> ts[i].netPnl > 0.0
    ensures Wins(ts) == |ts| && Losses(ts) == 0
  {
    if |ts| > 0 {
      AllWinners(ts[1..]);
    }
  }

  /** Zerodha trades carry no brokerage or STT column, so such a table totals 0 for both. */
  lemma {:induction false} ZerodhaTablesHaveNoBrokerage(ts: seq<Trade>)
    requires forall i :: 0 <= i < |ts| ==> ts[i].detail.ZerodhaDetail?
    ensures BrokerageTotal(ts) == 0.0 && SttTotal(ts) == 0.0
  {
    if |ts| > 0 {
      ZerodhaTablesHaveNoBrokerage(ts[1..]);
    }
  }

  /** `avg_win`: the mean net P&L of the winning trades, 0 when there are none. */
  function AverageWin(ts: seq<Trade>): (r: real)
    ensures r >= 0.0 && (r == 0.0 <==> Wins(ts) == 0)
  {
    if Wins(ts) > 0 then WinTotal(ts) / Wins(ts) as real else 0.0
  }

  /** `avg_loss`: the mean net P&L of the losing trades, 0 when there are none. */
  function AverageLoss(ts: seq<Trade>): (r: real)
    ensures r <= 0.0 && (r == 0.0 <==> Losses(ts) == 0)
  {
    if Losses(ts) > 0 then LossTotal(ts) / Losses(ts) as real else 0.0
  }

  /**
   * The profit factor, total wins over total losses: 0 when nothing was lost (and when nothing
   * was won), otherwise the ratio that scales the losses to the wins.
   */
  function ProfitFactor(ts: seq<Trade>): (r: real)
    ensures r >= 0.0
    ensures r == 0.0 <==> Wins(ts) == 0 || Losses(ts) == 0
    ensures Losses(ts) > 0 ==> r * -LossTotal(ts) == WinTotal(ts)
  {
    var totalLosses := -LossTotal(ts);
    if totalLosses > 0.0 then WinTotal(ts) / totalLosses else 0.0
  }

  /** `win_rate`: the percentage of trades that are wins. */
  function WinRate(ts: seq<Trade>): (r: real)
    requires |ts| > 0
    ensures 0.0 <= r <= 100.0
    ensures r == 100.0 <==> Wins(ts) == |ts|
  {
    var w, n := Wins(ts) as real, |ts| as real;
    QuotientWithin(w, n, 1.0);
    assert w / n == 1.0 <==> w == n;
    w / n * 100.0
  }

  /** `avg_discipline_score` */
  function AverageScore(ts: seq<Trade>): (r: real)
    requires |ts| > 0
    ensures 0.0 <= r <= 100.0
  {
    var total, n := ScoreTotal(ts) as real, |ts| as real;
    QuotientWithin(total, n, 100.0);
    total / n
  }

  datatype Stats = Stats(totalTrades: nat, winningTrades: nat, losingTrades: nat, winRate: real,
                         grossPnl: real, totalCharges: real, netPnl: real,
                         avgWin: real, avgLoss: real, largestWin: real, largestLoss: real,
                         avgDisciplineScore: real, totalBrokerage: real, totalStt: real,
                         profitFactor: real)

  /**
   * `get_summary_stats` of an analysed table (whose scores are `Score` of its trades): none for
   * an empty table. The average win and loss are 0 when that side is empty, and the profit
   * factor is 0 when nothing was lost.
   */
  function SummaryStats(ts: seq<Trade>): (r: Option<Stats>)
    ensures r.None? <==> |ts| == 0
    ensures r.Some? ==> (r.value.totalTrades == |ts|
      && r.value.winningTrades + r.value.losingTrades <= r.value.totalTrades
      && 0.0 <= r.value.winRate <= 100.0)
    ensures r.Some? ==> (r.value.avgWin == 0.0 <==> r.value.winningTrades == 0) && r.value.avgWin >= 0.0
    ensures r.Some? ==> (r.value.avgLoss == 0.0 <==> r.value.losingTrades == 0) && r.value.avgLoss <= 0.0
    ensures r.Some? ==> (r.value.profitFactor == 0.0 <==> r.value.winningTrades == 0 || r.value.losingTrades == 0)
    ensures r.Some? ==> r.value.largestLoss <= r.value.largestWin
    ensures r.Some? ==> 0.0 <= r.value.avgDisciplineScore <= 100.0
    ensures r.Some? ==> (r.value.winningTrades == Wins(ts) && r.value.losingTrades == Losses(ts)
      && r.value.winRate == WinRate(ts) && r.value.profitFactor == ProfitFactor(ts)
      && r.value.avgWin == AverageWin(ts) && r.value.avgLoss == AverageLoss(ts)
      && r.value.largestWin == LargestNet(ts) && r.value.largestLoss == SmallestNet(ts))
    ensures r.Some? ==> (r.value.netPnl == NetTotal(ts) && r.value.grossPnl == GrossTotal(ts)
      && r.value.totalCharges == ChargesTotal(ts) && r.value.avgDisciplineScore == AverageScore(ts)
      && r.value.totalBrokerage == BrokerageTotal(ts) && r.value.totalStt == SttTotal(ts))
  {
    if |ts| == 0 then None
    else
      WinsAndLosses(ts);
      Some(Stats(|ts|, Wins(ts), Losses(ts), WinRate(ts),
                 GrossTotal(ts), ChargesTotal(ts), NetTotal(ts),
                 AverageWin(ts), AverageLoss(ts), LargestNet(ts), SmallestNet(ts),
                 AverageScore(ts), BrokerageTotal(ts), SttTotal(ts), ProfitFactor(ts)))
  }

  /** The advisories `detect_patterns` can raise. */
  datatype Pattern =
    | Overtrading(tradesPerDay: real)
    | LosingStreak(length: nat)
    | WinnersCutShort(winRate: real, profitFactor: real)
  {
    function Kind(): string
    {
      if this.LosingStreak? then "danger" else "warning"
    }

    function Severity(): string
    {
      if this.Overtrading? then "medium" else "high"
    }
  }

  /** The number of distinct entry dates, `entry_date.nunique()`. */
  function TradingDays(ts: seq<Trade>): (d: nat)
    ensures |ts| > 0 ==> d >= 1
  {
    var days := set i | 0 <= i < |ts| :: ts[i].entryDate;
    assert |ts| > 0 ==> ts[0].entryDate in days;
    |days|
  }

  // The losing streak: consecutive trades, in row order, each with a negative net P&L.

  predicate LossRun(ts: seq<Trade>, lo: int, hi: int)
  {
    0 <= lo <= hi <= |ts| && forall k :: lo <= k < hi ==> ts[k].netPnl < 0.0
  }

  /** The length of the run of losses that ends just before position `n`. */
  function RunEndingAt(ts: seq<Trade>, n: nat): (r: nat)
    requires n <= |ts|
    ensures r <= n
  {
    if n == 0 || ts[n - 1].netPnl >= 0.0 then 0 else RunEndingAt(ts, n - 1) + 1
  }

  /** The longest run ending at or before position `n`. */
  function LongestRun(ts: seq<Trade>, n: nat): (r: nat)
    requires n <= |ts|
    ensures r <= n
  {
    if n == 0 then 0
    else
      var best, cur := LongestRun(ts, n - 1), RunEndingAt(ts, n);
      if cur > best then cur else best
  }

  /** Where a longest run ending at or before `n` ends. */
  function LongestRunEnd(ts: seq<Trade>, n: nat): (e: nat)
    requires n <= |ts|
    ensures e <= n && RunEndingAt(ts, e) == LongestRun(ts, n)
  {
    if n == 0 then 0
    else if RunEndingAt(ts, n) > LongestRun(ts, n - 1) then n
    else LongestRunEnd(ts, n - 1)
  }

  function MaxLossStreak(ts: seq<Trade>): nat
  {
    LongestRun(ts, |ts|)
  }

  /** The run that ends before `n` is a run of losses, and it cannot be extended to the left. */
  lemma {:induction false} RunEndingAtIsRun(ts: seq<Trade>, n: nat)
    requires n <= |ts|
    ensures LossRun(ts, n - RunEndingAt(ts, n), n)
    ensures n - RunEndingAt(ts, n) > 0 ==> ts[n - RunEndingAt(ts, n) - 1].netPnl >= 0.0
  {
    if n > 0 && ts[n - 1].netPnl < 0.0 {
      RunEndingAtIsRun(ts, n - 1);
    }
  }

  /** Every run of losses that ends before `hi` is no longer than the one `RunEndingAt` measures. */
  lemma {:induction false} RunsEndingAtAreShorter(ts: seq<Trade>, lo: nat, hi: nat)
    requires LossRun(ts, lo, hi)
    ensures hi - lo <= RunEndingAt(ts, hi)
    decreases hi
  {
    if lo < hi {
      assert ts[hi - 1].netPnl < 0.0;
      RunsEndingAtAreShorter(ts, lo, hi - 1);
    }
  }

  /**
   * `max_consecutive_losses` is the length of the longest run of losses: some run of losses
   * has that length, and no run of losses is longer.
   */
  lemma {:induction false} LongestRunIsLongest(ts: seq<Trade>, n: nat)
    requires n <= |ts|
    ensures var e := LongestRunEnd(ts, n); LossRun(ts, e - LongestRun(ts, n), e)
    ensures forall lo, hi :: LossRun(ts, lo, hi) && hi <= n ==> hi - lo <= LongestRun(ts, n)
  {
    RunEndingAtIsRun(ts, LongestRunEnd(ts, n));
    if n > 0 {
      LongestRunIsLongest(ts, n - 1);
      forall lo, hi | LossRun(ts, lo, hi) && hi <= n
        ensures hi - lo <= LongestRun(ts, n)
      {
        if hi == n {
          RunsEndingAtAreShorter(ts, lo, hi);
        }
      }
    }
  }

  /** The overtrading advisory: more than 50 trades averaging more than 5 per trading day. */
  function OvertradingAdvice(ts: seq<Trade>): seq<Pattern>
  {
    if |ts| > 50 && |ts| as real / TradingDays(ts) as real > 5.0
    then [Overtrading(|ts| as real / TradingDays(ts) as real)] else []
  }

  /** The losing-streak advisory: five or more consecutive losses. */
  function StreakAdvice(ts: seq<Trade>): seq<Pattern>
  {
    if MaxLossStreak(ts) >= 5 then [LosingStreak(MaxLossStreak(ts))] else []
  }

  /** The mismatch advisory: a win rate above 60% with a profit factor below 1. */
  function MismatchAdvice(ts: seq<Trade>): seq<Pattern>
    requires |ts| > 0
  {
    var stats := SummaryStats(ts).value;
    if stats.winRate > 60.0 && stats.profitFactor < 1.0
    then [WinnersCutShort(stats.winRate, stats.profitFactor)] else []
  }

  /** `detect_patterns` as a specification. */
  function PatternsOf(ts: seq<Trade>): (ps: seq<Pattern>)
    ensures |ts| < 5 ==> ps == []
    ensures (exists p :: p in ps && p.Overtrading?) <==>
      (|ts| > 50 && |ts| as real / TradingDays(ts) as real > 5.0)
    ensures (exists p :: p in ps && p.LosingStreak?) <==> (|ts| >= 5 && MaxLossStreak(ts) >= 5)
    ensures (exists p :: p in ps && p.WinnersCutShort?) <==> (|ts| >= 5 &&
      SummaryStats(ts).value.winRate > 60.0 && SummaryStats(ts).value.profitFactor < 1.0)
  {
    if |ts| < 5 then []
    else
      var over, streak, mismatch := OvertradingAdvice(ts), StreakAdvice(ts), MismatchAdvice(ts);
      var ps := over + streak + mismatch;
      assert forall p :: p in ps <==> p in over || p in streak || p in mismatch;
      assert over != [] ==> over[0] in ps;
      assert streak != [] ==> streak[0] in ps;
      assert mismatch != [] ==> mismatch[0] in ps;
      ps
  }

  /** The loop of `detect_patterns` that counts consecutive losses, in row order. */
  method LongestLossStreak(ts: seq<Trade>) returns (longest: nat)
    ensures longest == MaxLossStreak(ts)
  {
    var consecutive := 0;
    longest := 0;
    var i := 0;
    while i < |ts|
      invariant 0 <= i <= |ts|
      invariant consecutive == RunEndingAt(ts, i) && longest == LongestRun(ts, i)
    {
      if ts[i].netPnl < 0.0 {
        consecutive := consecutive + 1;
        longest := if longest > consecutive then longest else consecutive;
      } else {
        consecutive := 0;
      }
      i := i + 1;
    }
  }

  /** `detect_patterns`: the checks in order, the streak found by one pass over the rows. */
  method DetectPatterns(ts: seq<Trade>) returns (patterns: seq<Pattern>)
    ensures patterns == PatternsOf(ts)
  {
    patterns := [];
    if |ts| < 5 {
      return;
    }
    if |ts| > 50 {
      var perDay := |ts| as real / TradingDays(ts) as real;
      if perDay > 5.0 {
        patterns := patterns + [Overtrading(perDay)];
      }
    }
    assert patterns == OvertradingAdvice(ts);
    var longest := LongestLossStreak(ts);
    if longest >= 5 {
      patterns := patterns + [LosingStreak(longest)];
    }
    assert patterns == OvertradingAdvice(ts) + StreakAdvice(ts);
    var stats := SummaryStats(ts).value;
    if stats.winRate > 60.0 && stats.profitFactor < 1.0 {
      patterns := patterns + [WinnersCutShort(stats.winRate, stats.profitFactor)];
    }
    assert patterns == OvertradingAdvice(ts) + StreakAdvice(ts) + MismatchAdvice(ts);
  }

  /**
   * Because the profit factor is 0 without losses, five or more winning trades always raise the
   * winners-cut-short advisory.
   */
  lemma AllWinnersLookLikeCuttingWinners(ts: seq<Trade>)
    requires |ts| >= 5
    requires forall i :: 0 <= i < |ts| ==> ts[i].netPnl > 0.0
    ensures exists p :: p in PatternsOf(ts) && p.WinnersCutShort?
  {
    AllWinnersStats(ts);
    var stats := SummaryStats(ts).value;
    assert stats.winRate > 60.0 && stats.profitFactor < 1.0;
    var ps := PatternsOf(ts);
    assert exists p :: p in ps && p.WinnersCutShort?;
  }

  /** A table of winners only has a win rate of 100 and, having no losses, a profit factor of 0. */
  lemma AllWinnersStats(ts: seq<Trade>)
    requires |ts| > 0
    requires forall i :: 0 <= i < |ts| ==> ts[i].netPnl > 0.0
    ensures SummaryStats(ts).Some?
    ensures SummaryStats(ts).value.winRate == 100.0 && SummaryStats(ts).value.profitFactor == 0.0
  {
    AllWinners(ts);
    assert WinRate(ts) == 100.0 && ProfitFactor(ts) == 0.0;
  }

  /** Five losses in a row followed by a win is a streak of five, which raises the advisory. */
  lemma FiveLossesInARow(ts: seq<Trade>)
    requires |ts| == 6
    requires forall i :: 0 <= i < 5 ==> ts[i].netPnl < 0.0
    requires ts[5].netPnl > 0.0
    ensures MaxLossStreak(ts) == 5
    ensures exists p :: p in PatternsOf(ts) && p.LosingStreak?
  {
    LongestRunIsLongest(ts, 6);
    assert LossRun(ts, 0, 5);
    assert RunEndingAt(ts, 6) == 0;
    assert MaxLossStreak(ts) == 5;
    var ps := PatternsOf(ts);
    assert exists p :: p in ps && p.LosingStreak?;
  }
}
