/**
 * The Zerodha tradebook normalizer: fills get estimated charges, then every (symbol, date)
 * group whose buy and sell quantities balance becomes one trade at the sides' weighted
 * average prices (aggregate-and-match).
 */
module ZerodhaParser {
  import opened Base
  import opened Text
  import opened Fills

  /** One tradebook row: symbol, trade_date, trade_type, quantity, price, order_execution_time. */
  datatype Row = Row(symbol: Option<string>, tradeDate: DateCell, tradeType: string,
                     quantity: real, price: real, executionTime: DateCell)

  const Required: seq<string> :=
    ["symbol", "trade_date", "trade_type", "quantity", "price", "order_execution_time"]

  /**
   * The estimated charges of one fill of the given turnover: brokerage is the lower of 20 and
   * 0.03%, STT 0.1% on a sell, stamp duty 0.015% on a buy, exchange charges 0.00325% plus SEBI
   * 0.0001% (stored together), GST 18% of brokerage and exchange charges without SEBI.
   */
  function EstimateCharges(action: string, turnover: real): (c: Charges)
    ensures c.brokerage <= 20.0 && c.brokerage <= 0.0003 * turnover
    ensures c.brokerage == 20.0 || c.brokerage == 0.0003 * turnover
    ensures action == "Sell" ==> c.stt == 0.001 * turnover
    ensures action != "Sell" ==> c.stt == 0.0
    ensures action == "Buy" ==> c.stampDuty == 0.00015 * turnover
    ensures action != "Buy" ==> c.stampDuty == 0.0
    ensures c.exchange == 0.0000335 * turnover
    ensures c.gst == 0.18 * (c.brokerage + 0.0000325 * turnover)
    ensures c.misc == 0.0
    ensures c.total == c.brokerage + c.stt + c.exchange + c.stampDuty + c.gst
  {
    var brokerage := if 20.0 <= turnover * 0.0003 then 20.0 else turnover * 0.0003;
    var stt := if action == "Sell" then turnover * 0.001 else 0.0;
    var exchangeCharges := turnover * 0.0000325;
    var sebiCharges := turnover * 0.000001;
    var stampDuty := if action == "Buy" then turnover * 0.00015 else 0.0;
    var gst := (brokerage + exchangeCharges) * 0.18;
    var total := brokerage + stt + exchangeCharges + sebiCharges + stampDuty + gst;
    Charges(brokerage, stt, exchangeCharges + sebiCharges, stampDuty, gst, 0.0, total)
  }

  /** A fill never pays both STT and stamp duty, and on a non-negative turnover every charge is non-negative. */
  lemma EstimatedChargesSign(action: string, turnover: real)
    requires turnover >= 0.0
    ensures var c := EstimateCharges(action, turnover);
      c.stt == 0.0 || c.stampDuty == 0.0
    ensures var c := EstimateCharges(action, turnover);
      0.0 <= c.brokerage && 0.0 <= c.stt && 0.0 <= c.stampDuty && 0.0 <= c.gst && c.total >= c.brokerage
  {
  }

  /** A fill with its charge columns replaced by the estimate for its action and turnover. */
  function WithEstimatedCharges(f: Fill): Fill
  {
    f.(charges := EstimateCharges(f.action, f.qty * f.price))
  }

  /** `calculate_zerodha_charges`: every fill's charge columns overwritten in place. */
  method CalculateCharges(fills: array<Fill>)
    modifies fills
    ensures forall i :: 0 <= i < fills.Length ==> fills[i] == WithEstimatedCharges(old(fills[i]))
  {
    var i := 0;
    while i < fills.Length
      invariant 0 <= i <= fills.Length
      invariant forall j :: 0 <= j < i ==> fills[j] == WithEstimatedCharges(old(fills[j]))
      invariant forall j :: i <= j < fills.Length ==> fills[j] == old(fills[j])
    {
      fills[i] := WithEstimatedCharges(fills[i]);
      i := i + 1;
    }
  }

  /**
   * The fill of a row before charges are estimated: the side capitalized, the date and time
   * present exactly when their cells parse, and every charge column 0.
   */
  function Normalize(r: Row): (f: Fill)
    ensures f.symbol == r.symbol && f.action == Capitalize(r.tradeType)
    ensures f.qty == r.quantity && f.price == r.price
    ensures f.date.Some? <==> r.tradeDate.Value?
    ensures f.time.Some? <==> r.executionTime.Value?
    ensures f.charges == NoCharges
  {
    Fill(r.symbol, Coerced(r.tradeDate), Capitalize(r.tradeType), r.quantity, r.price,
         Coerced(r.executionTime), NoCharges, "")
  }

  /** The first cell `pd.to_datetime` cannot parse; without `errors='coerce'` it raises. */
  function FirstGarbled(cells: seq<DateCell>): (r: Option<string>)
    ensures r.None? <==> forall i :: 0 <= i < |cells| ==> !cells[i].Garbled?
    ensures r.Some? ==> exists i :: (0 <= i < |cells| && cells[i] == Garbled(r.value)
      && forall j :: 0 <= j < i ==> !cells[j].Garbled?)
  {
    if |cells| == 0 then None
    else if cells[0].Garbled? then Some(cells[0].text)
    else
      var rest := FirstGarbled(cells[1..]);
      assert forall i :: 1 <= i < |cells| ==> cells[i] == cells[1..][i - 1];
      if rest.Some? then
        var i :| 0 <= i < |cells[1..]| && cells[1..][i] == Garbled(rest.value)
          && forall j :: 0 <= j < i ==> !cells[1..][j].Garbled?;
        assert cells[i + 1] == Garbled(rest.value);
        rest
      else
        rest
  }

  function ExecutionTimes(rows: seq<Row>): seq<DateCell>
  {
    seq(|rows|, i requires 0 <= i < |rows| => rows[i].executionTime)
  }

  function TradeDates(rows: seq<Row>): seq<DateCell>
  {
    seq(|rows|, i requires 0 <= i < |rows| => rows[i].tradeDate)
  }

  /** The fills with their estimated charges, in row order. */
  function ChargedFills(rows: seq<Row>): (fs: seq<Fill>)
    ensures |fs| == |rows|
  {
    seq(|rows|, i requires 0 <= i < |rows| => WithEstimatedCharges(Normalize(rows[i])))
  }

  /**
   * The trade of a balanced group, given the earliest buy time and the latest sell time: the
   * buys' quantity at the two sides' weighted average prices, the charges of every fill, a
   * holding period of the truncated elapsed minutes, intraday exactly when both times fall on
   * one day, and the number of fills on each side.
   */
  function ClosedTrade(k: Key, buys: seq<Fill>, sells: seq<Fill>, entry: int, exit: int): (t: Trade)
    ensures Settled(t) && t.broker == Zerodha && t.symbol == k.0
    ensures t.quantity == Sum(buys, Qty)
    ensures t.entryPrice == AveragePrice(buys) && t.exitPrice == AveragePrice(sells)
    ensures t.totalCharges == Sum(buys, TotalCharges) + Sum(sells, TotalCharges)
    ensures t.entryTime == Some(entry) && t.exitTime == Some(exit) && t.entryDate == DayOf(entry)
    ensures t.holdingMinutes == TruncMinutes(exit - entry)
    ensures t.tradeType == Intraday <==> DayOf(exit) == DayOf(entry)
    ensures t.detail == ZerodhaDetail(|buys|, |sells|)
  {
    var qty := Sum(buys, Qty);
    var avgBuy := AveragePrice(buys);
    var avgSell := AveragePrice(sells);
    var gross := (avgSell - avgBuy) * qty;
    var charges := Sum(buys, TotalCharges) + Sum(sells, TotalCharges);
    Trade(Zerodha, k.0, DayOf(entry), Some(entry), Some(exit), qty, avgBuy, avgSell,
          gross, charges, gross - charges, TruncMinutes(exit - entry),
          if DayOf(exit) == DayOf(entry) then Intraday else Delivery,
          ZerodhaDetail(|buys|, |sells|))
  }

  /**
   * What one group, split into its buys and its sells, contributes: nothing when the sides do
   * not balance, a failure when they balance but the buys or the sells carry no time at all
   * (the holding period becomes `int(NaN)`), and otherwise exactly one trade.
   */
  function SidesOutcome(k: Key, buys: seq<Fill>, sells: seq<Fill>): (r: Result<Option<Trade>, Cause>)
    ensures r == Ok(None) <==> !BalancedSides(buys, sells)
    ensures r.Err? <==> (BalancedSides(buys, sells) &&
      (EarliestTime(buys).None? || LatestTime(sells).None?))
    ensures r.Err? ==> r.error == NaNMinutes
  {
    if |buys| == 0 || |sells| == 0 then Ok(None)
    else if Abs(Sum(buys, Qty) - Sum(sells, Qty)) > 0.01 then Ok(None)
    else if EarliestTime(buys).None? || LatestTime(sells).None? then Err(NaNMinutes)
    else Ok(Some(ClosedTrade(k, buys, sells, EarliestTime(buys).value, LatestTime(sells).value)))
  }

  function GroupOutcome(fills: seq<Fill>, k: Key): (r: Result<Option<Trade>, Cause>)
    ensures r == Ok(None) <==> !Balanced(Group(fills, k))
  {
    var g := Group(fills, k);
    SidesOutcome(k, Buys(g), Sells(g))
  }

  /** The groups `ks` taken in order; the first failing group ends the whole reconstruction. */
  function TradesOver(fills: seq<Fill>, ks: seq<Key>): Result<seq<Trade>, Cause>
  {
    if |ks| == 0 then Ok([])
    else
      match TradesOver(fills, ks[..|ks| - 1])
      case Err(c) => Err(c)
      case Ok(ts) =>
        match GroupOutcome(fills, ks[|ks| - 1])
        case Err(c) => Err(c)
        case Ok(None) => Ok(ts)
        case Ok(Some(t)) => Ok(ts + [t])
  }

  /**
   * `reconstruct_zerodha_trades`: it fails exactly when some group balances but lacks a buy
   * time or a sell time; otherwise it gives one trade per balanced group, in group order.
   */
  function Reconstruct(fills: seq<Fill>): (r: Result<seq<Trade>, Cause>)
    ensures r.Err? <==> exists k :: k in GroupKeys(fills) && GroupOutcome(fills, k).Err?
    ensures r.Err? ==> r.error == NaNMinutes
    ensures r.Ok? ==> |r.value| == |Closable(fills, GroupKeys(fills))|
    ensures r.Ok? ==> forall j :: 0 <= j < |r.value| ==>
      GroupOutcome(fills, Closable(fills, GroupKeys(fills))[j]) == Ok(Some(r.value[j]))
  {
    var ks := GroupKeys(fills);
    FailsIff(fills, ks);
    OnlyNaNMinutesFails(fills, ks);
    var r := TradesOver(fills, ks);
    if r.Ok? then OneTradePerClosableGroup(fills, ks, r.value); r else r
  }

  /** One more group: how `TradesOver` of a longer prefix follows from the shorter one. */
  lemma TradesOverStep(fills: seq<Fill>, ks: seq<Key>, i: nat, ts: seq<Trade>)
    requires i < |ks| && TradesOver(fills, ks[..i]) == Ok(ts)
    ensures TradesOver(fills, ks[..i + 1]) ==
      match GroupOutcome(fills, ks[i])
      case Err(c) => Err(c)
      case Ok(None) => Ok(ts)
      case Ok(Some(t)) => Ok(ts + [t])
  {
    assert ks[..i + 1][..i] == ks[..i];
  }

  lemma {:induction false} FailureSticks(fills: seq<Fill>, ks: seq<Key>, n: nat)
    requires n <= |ks|
    requires TradesOver(fills, ks[..n]).Err?
    ensures TradesOver(fills, ks) == TradesOver(fills, ks[..n])
    decreases |ks| - n
  {
    if n < |ks| {
      assert ks[..n + 1][..n] == ks[..n];
      FailureSticks(fills, ks, n + 1);
    } else {
      assert ks[..n] == ks;
    }
  }

  /**
   * Exactly one trade per balanced group, in group order: when reconstruction succeeds, the
   * j-th trade is the one the j-th balanced group yields, and there are no others.
   */
  lemma {:induction false} OneTradePerClosableGroup(fills: seq<Fill>, ks: seq<Key>, ts: seq<Trade>)
    requires TradesOver(fills, ks) == Ok(ts)
    ensures |ts| == |Closable(fills, ks)|
    ensures forall j :: 0 <= j < |ts| ==> GroupOutcome(fills, Closable(fills, ks)[j]) == Ok(Some(ts[j]))
  {
    if |ks| > 0 {
      var init, last := ks[..|ks| - 1], ks[|ks| - 1];
      assert TradesOver(fills, init).Ok?;
      var ts0, c0 := TradesOver(fills, init).value, Closable(fills, init);
      OneTradePerClosableGroup(fills, init, ts0);
      assert Closable(fills, ks) == c0 + (if Balanced(Group(fills, last)) then [last] else []);
      match GroupOutcome(fills, last)
      case Ok(None) =>
        assert ts == ts0 && Closable(fills, ks) == c0;
      case Ok(Some(t)) =>
        OneMoreClosedGroup(fills, c0, last, ts0, t);
        assert ts == ts0 + [t] && Closable(fills, ks) == c0 + [last];
    }
  }

  /** A closed group after the ones already matched extends both lists by one. */
  lemma OneMoreClosedGroup(fills: seq<Fill>, c0: seq<Key>, last: Key, ts0: seq<Trade>, t: Trade)
    requires GroupOutcome(fills, last) == Ok(Some(t))
    requires |ts0| == |c0| && forall j :: 0 <= j < |ts0| ==> GroupOutcome(fills, c0[j]) == Ok(Some(ts0[j]))
    ensures |ts0 + [t]| == |c0 + [last]|
    ensures forall j :: 0 <= j < |ts0| + 1 ==> GroupOutcome(fills, (c0 + [last])[j]) == Ok(Some((ts0 + [t])[j]))
  {
  }

  /** The one failure reconstruction can end in is the holding period of a missing time. */
  lemma {:induction false} OnlyNaNMinutesFails(fills: seq<Fill>, ks: seq<Key>)
    ensures TradesOver(fills, ks).Err? ==> TradesOver(fills, ks).error == NaNMinutes
  {
    if |ks| > 0 {
      OnlyNaNMinutesFails(fills, ks[..|ks| - 1]);
    }
  }

  /** Reconstruction fails exactly when some group balances but lacks a buy time or a sell time. */
  lemma {:induction false} FailsIff(fills: seq<Fill>, ks: seq<Key>)
    ensures TradesOver(fills, ks).Err? <==> exists k :: k in ks && GroupOutcome(fills, k).Err?
  {
    if |ks| > 0 {
      var init, last := ks[..|ks| - 1], ks[|ks| - 1];
      FailsIff(fills, init);
      assert ks == init + [last];
      if TradesOver(fills, init).Err? {
        var k :| k in init && GroupOutcome(fills, k).Err?;
        assert k in ks;
      } else if GroupOutcome(fills, last).Err? {
        assert last in ks;
      } else {
        assert forall k :: k in ks ==> k in init || k == last;
      }
    }
  }

  /** The trade of a group takes its quantity, prices and charges from the group's two sides. */
  lemma ClosedTradeAmounts(k: Key, buys: seq<Fill>, sells: seq<Fill>, t: Trade)
    requires SidesOutcome(k, buys, sells) == Ok(Some(t))
    ensures Settled(t) && t.broker == Zerodha && t.symbol == k.0
    ensures t.quantity == Sum(buys, Qty) && Abs(t.quantity - Sum(sells, Qty)) <= 0.01
    ensures t.entryPrice == AveragePrice(buys) && t.exitPrice == AveragePrice(sells)
    ensures t.totalCharges == Sum(buys, TotalCharges) + Sum(sells, TotalCharges)
  {
    assert t == ClosedTrade(k, buys, sells, EarliestTime(buys).value, LatestTime(sells).value);
  }

  /**
   * The trade of a group runs from the earliest buy to the latest sell; its holding period is
   * the truncated elapsed minutes, and it is intraday exactly when both fall on one day.
   */
  lemma ClosedTradeTiming(k: Key, buys: seq<Fill>, sells: seq<Fill>, t: Trade)
    requires SidesOutcome(k, buys, sells) == Ok(Some(t))
    ensures t.entryTime == EarliestTime(buys) && t.exitTime == LatestTime(sells)
    ensures t.entryTime.Some? && t.exitTime.Some? && t.entryDate == DayOf(t.entryTime.value)
    ensures t.holdingMinutes == TruncMinutes(t.exitTime.value - t.entryTime.value)
    ensures t.tradeType == Intraday <==> DayOf(t.exitTime.value) == DayOf(t.entryTime.value)
  {
    assert t == ClosedTrade(k, buys, sells, EarliestTime(buys).value, LatestTime(sells).value);
  }

  /** The loop over groups of `reconstruct_zerodha_trades`, appending one trade per closed group. */
  method ReconstructTrades(fills: seq<Fill>) returns (r: Result<seq<Trade>, Cause>)
    ensures r == Reconstruct(fills)
  {
    var keys := GroupKeys(fills);
    var trades: seq<Trade> := [];
    var i := 0;
    while i < |keys|
      invariant 0 <= i <= |keys|
      invariant TradesOver(fills, keys[..i]) == Ok(trades)
    {
      TradesOverStep(fills, keys, i, trades);
      var g := Group(fills, keys[i]);
      var buys, sells := Buys(g), Sells(g);
      if |buys| == 0 || |sells| == 0 {
        assert GroupOutcome(fills, keys[i]) == Ok(None);
        i := i + 1;
        continue;
      }
      if Abs(Sum(buys, Qty) - Sum(sells, Qty)) > 0.01 {
        assert GroupOutcome(fills, keys[i]) == Ok(None);
        i := i + 1;
        continue;
      }
      var entry, exit := EarliestTime(buys), LatestTime(sells);
      if entry.None? || exit.None? {
        assert GroupOutcome(fills, keys[i]).Err?;
        FailureSticks(fills, keys, i + 1);
        return Err(NaNMinutes);
      }
      var t := ClosedTrade(keys[i], buys, sells, entry.value, exit.value);
      assert GroupOutcome(fills, keys[i]) == Ok(Some(t));
      trades := trades + [t];
      i := i + 1;
    }
    assert keys[..i] == keys;
    r := Ok(trades);
  }

  /** A garbled cell of the execution-time or trade-date column is the garbled cell of some row. */
  lemma GarbledRows(rows: seq<Row>)
    ensures FirstGarbled(ExecutionTimes(rows)).None? <==> forall i :: 0 <= i < |rows| ==> !rows[i].executionTime.Garbled?
    ensures FirstGarbled(TradeDates(rows)).None? <==> forall i :: 0 <= i < |rows| ==> !rows[i].tradeDate.Garbled?
    ensures FirstGarbled(ExecutionTimes(rows)).Some? ==>
      exists i :: 0 <= i < |rows| && rows[i].executionTime == Garbled(FirstGarbled(ExecutionTimes(rows)).value)
    ensures FirstGarbled(TradeDates(rows)).Some? ==>
      exists i :: 0 <= i < |rows| && rows[i].tradeDate == Garbled(FirstGarbled(TradeDates(rows)).value)
  {
    assert forall i :: 0 <= i < |rows| ==> ExecutionTimes(rows)[i] == rows[i].executionTime;
    assert forall i :: 0 <= i < |rows| ==> TradeDates(rows)[i] == rows[i].tradeDate;
  }

  /** `parse_zerodha` */
  function Parse(table: Table<Row>): (r: Result<seq<Trade>, ParseError>)
    ensures r == Err(InvalidFormat(Zerodha)) <==> !HasColumns(table.columns, Required)
    ensures r.Err? ==> r.error == InvalidFormat(Zerodha) || (r.error.ParseFailed? && r.error.broker == Zerodha)
    ensures r.Ok? <==> (HasColumns(table.columns, Required)
      && (forall i :: 0 <= i < |table.rows| ==> !table.rows[i].executionTime.Garbled?)
      && (forall i :: 0 <= i < |table.rows| ==> !table.rows[i].tradeDate.Garbled?)
      && Reconstruct(ChargedFills(table.rows)).Ok?)
    ensures r.Ok? ==> Reconstruct(ChargedFills(table.rows)) == Ok(r.value)
    ensures r.Err? && r.error.ParseFailed? && r.error.cause.BadTimestamp? ==>
      exists i :: 0 <= i < |table.rows| && (table.rows[i].executionTime == Garbled(r.error.cause.text)
        || table.rows[i].tradeDate == Garbled(r.error.cause.text))
  {
    GarbledRows(table.rows);
    if !HasColumns(table.columns, Required) then Err(InvalidFormat(Zerodha))
    else if FirstGarbled(ExecutionTimes(table.rows)).Some? then
      Err(ParseFailed(Zerodha, BadTimestamp(FirstGarbled(ExecutionTimes(table.rows)).value)))
    else if FirstGarbled(TradeDates(table.rows)).Some? then
      Err(ParseFailed(Zerodha, BadTimestamp(FirstGarbled(TradeDates(table.rows)).value)))
    else
      match Reconstruct(ChargedFills(table.rows))
      case Err(c) => Err(ParseFailed(Zerodha, c))
      case Ok(ts) => Ok(ts)
  }

  /** `parse_zerodha` step by step: validate, normalize, estimate charges in place, reconstruct. */
  method ParseFile(table: Table<Row>) returns (r: Result<seq<Trade>, ParseError>)
    ensures r == Parse(table)
  {
    if !HasColumns(table.columns, Required) {
      return Err(InvalidFormat(Zerodha));
    }
    var badTime := FirstGarbled(ExecutionTimes(table.rows));
    if badTime.Some? {
      return Err(ParseFailed(Zerodha, BadTimestamp(badTime.value)));
    }
    var badDate := FirstGarbled(TradeDates(table.rows));
    if badDate.Some? {
      return Err(ParseFailed(Zerodha, BadTimestamp(badDate.value)));
    }
    var rows := table.rows;
    var fills := new Fill[|rows|](i requires 0 <= i < |rows| => Normalize(rows[i]));
    CalculateCharges(fills);
    assert fills[..] == ChargedFills(rows);
    var trades := ReconstructTrades(fills[..]);
    match trades {
      case Err(c) => r := Err(ParseFailed(Zerodha, c));
      case Ok(ts) => r := Ok(ts);
    }
  }

  /**
   * Two partial buys (50 at 100 and 50 at 102) closed by one sell of 100 at 105 on the same day
   * give one intraday trade of 100 at an entry price of 101 and a gross P&L of 400.
   */
  lemma PartialFillsScenario()
    ensures var day := 20000;
      var b1 := WithEstimatedCharges(Fill(Some("INFY"), Some(day), "Buy", 50.0, 100.0, Some(day * 86400 + 33300), NoCharges, ""));
      var b2 := WithEstimatedCharges(Fill(Some("INFY"), Some(day), "Buy", 50.0, 102.0, Some(day * 86400 + 34200), NoCharges, ""));
      var s1 := WithEstimatedCharges(Fill(Some("INFY"), Some(day), "Sell", 100.0, 105.0, Some(day * 86400 + 40500), NoCharges, ""));
      var r := SidesOutcome(("INFY", day), [b1, b2], [s1]);
      && r.Ok? && r.value.Some?
      && r.value.value.quantity == 100.0 && r.value.value.entryPrice == 101.0
      && r.value.value.exitPrice == 105.0 && r.value.value.grossPnl == 400.0
      && r.value.value.netPnl == 400.0 - r.value.value.totalCharges
      && r.value.value.holdingMinutes == 120 && r.value.value.tradeType == Intraday
  {
    var day := 20000;
    var b1 := WithEstimatedCharges(Fill(Some("INFY"), Some(day), "Buy", 50.0, 100.0, Some(day * 86400 + 33300), NoCharges, ""));
    var b2 := WithEstimatedCharges(Fill(Some("INFY"), Some(day), "Buy", 50.0, 102.0, Some(day * 86400 + 34200), NoCharges, ""));
    var s1 := WithEstimatedCharges(Fill(Some("INFY"), Some(day), "Sell", 100.0, 105.0, Some(day * 86400 + 40500), NoCharges, ""));
    assert [b1, b2][1..] == [b2] && [b2][1..] == [] && [s1][1..] == [];
    assert Sum([b1, b2], Qty) == b1.qty + Sum([b2], Qty) == 100.0;
    assert Sum([b1, b2], Notional) == b1.qty * b1.price + Sum([b2], Notional) == 10100.0;
    assert Sum([s1], Qty) == 100.0 && Sum([s1], Notional) == s1.qty * s1.price == 10500.0;
    assert EarliestTime([b2]) == Some(day * 86400 + 34200);
    assert EarliestTime([b1, b2]) == Some(day * 86400 + 33300);
    assert LatestTime([s1]) == Some(day * 86400 + 40500);
  }
}
