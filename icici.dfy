/**
 * The ICICI Direct normalizer: numeric columns may hold text with thousands separators, which
 * are removed before conversion; each fill's total charge is the sum of four charge columns;
 * and every (symbol, date) group whose sides balance becomes one trade at the weighted average
 * prices, with no time information (aggregate-and-match).
 */
module IciciParser {
  import opened Base
  import opened Text
  import opened Fills

  /** A numeric cell as read: text (possibly with commas) in a text column, or a number. */
  datatype Cell = Written(s: string) | Number(r: real)

  /** `str.replace(',', '')` */
  function StripCommas(s: string): (r: string)
    ensures ',' !in r
    ensures ',' !in s ==> r == s
    ensures forall c :: c in r ==> c in s
  {
    if |s| == 0 then ""
    else if s[0] == ',' then StripCommas(s[1..])
    else [s[0]] + StripCommas(s[1..])
  }

  /** Removing commas piece by piece is removing them from the whole. */
  lemma {:induction false} StripCommasConcat(a: string, b: string)
    ensures StripCommas(a + b) == StripCommas(a) + StripCommas(b)
  {
    if |a| > 0 {
      assert (a + b)[1..] == a[1..] + b;
      StripCommasConcat(a[1..], b);
    } else {
      assert a + b == b;
    }
  }

  lemma StripCommasIdempotent(s: string)
    ensures StripCommas(StripCommas(s)) == StripCommas(s)
  {
  }

  /**
   * `clean_numeric` on one cell: text loses its commas and is then converted by `float()`
   * (given here as `toFloat`); a failed conversion is the error the parse reports.
   */
  function CleanNumeric(c: Cell, toFloat: string -> Option<real>): (r: Result<real, Cause>)
    ensures c.Number? ==> r == Ok(c.r)
    ensures c.Written? && toFloat(StripCommas(c.s)).Some? ==> r == Ok(toFloat(StripCommas(c.s)).value)
    ensures c.Written? && toFloat(StripCommas(c.s)).None? ==> r == Err(NotANumber(StripCommas(c.s)))
  {
    match c
    case Number(x) => Ok(x)
    case Written(s) =>
      var t := StripCommas(s);
      match toFloat(t)
      case Some(x) => Ok(x)
      case None => Err(NotANumber(t))
  }

  /** A thousands-separated amount converts as the same digits without separators. */
  lemma GroupedDigits(toFloat: string -> Option<real>)
    requires toFloat("1000") == Some(1000.0)
    ensures CleanNumeric(Written("1,000"), toFloat) == Ok(1000.0)
  {
    var s := "1,000";
    assert s[1..] == ",000" && s[1..][1..] == "000";
    assert StripCommas("000") == "000";
    assert StripCommas(",000") == "000";
    assert StripCommas(s) == ['1'] + StripCommas(",000");
    assert ['1'] + "000" == "1000";
  }

  /**
   * One orderbook row: the date (day number) when it parses, the stock and action cells
   * (None for an empty cell) and the numeric cells.
   */
  datatype Row = Row(date: Option<int>, stock: Option<string>, action: Option<string>,
                     qty: Cell, price: Cell, tradeValue: Cell, stt: Cell,
                     exchangeCharges: Cell, stampDuty: Cell, brokerage: Cell)

  const Required: seq<string> := ["Date", "Stock", "Action", "Qty", "Price"]

  /** The numeric columns, in the order `parse_icici` converts them. */
  datatype Column = QtyColumn | PriceColumn | TradeValueColumn | SttColumn | ExchangeColumn
                  | StampDutyColumn | BrokerageColumn
  {
    function Name(): string
    {
      match this
      case QtyColumn => "Qty"
      case PriceColumn => "Price"
      case TradeValueColumn => "Trade Value"
      case SttColumn => "STT"
      case ExchangeColumn => "Transaction and SEBI Turnover charges"
      case StampDutyColumn => "Stamp Duty"
      case BrokerageColumn => "Brokerage Incl. Taxes"
    }

    function CellOf(r: Row): Cell
    {
      match this
      case QtyColumn => r.qty
      case PriceColumn => r.price
      case TradeValueColumn => r.tradeValue
      case SttColumn => r.stt
      case ExchangeColumn => r.exchangeCharges
      case StampDutyColumn => r.stampDuty
      case BrokerageColumn => r.brokerage
    }
  }

  const Converted: seq<Column> :=
    [QtyColumn, PriceColumn, TradeValueColumn, SttColumn, ExchangeColumn, StampDutyColumn, BrokerageColumn]

  predicate ColumnConverts(rows: seq<Row>, col: Column, toFloat: string -> Option<real>)
  {
    forall i :: 0 <= i < |rows| ==> CleanNumeric(col.CellOf(rows[i]), toFloat).Ok?
  }

  /** The failure converting one column raises: the first cell, in row order, that does not convert. */
  function FirstBadCell(rows: seq<Row>, col: Column, toFloat: string -> Option<real>): (r: Option<Cause>)
    ensures r.None? <==> ColumnConverts(rows, col, toFloat)
    ensures r.Some? ==> exists i :: (0 <= i < |rows| && CleanNumeric(col.CellOf(rows[i]), toFloat) == Err(r.value)
      && ColumnConverts(rows[..i], col, toFloat))
  {
    if |rows| == 0 then None
    else
      var rest := FirstBadCell(rows[1..], col, toFloat);
      ColumnConvertsCons(rows, col, toFloat, |rows| - 1);
      assert rows[..|rows|] == rows && rows[1..][..|rows| - 1] == rows[1..];
      match CleanNumeric(col.CellOf(rows[0]), toFloat)
      case Err(c) =>
        assert ColumnConverts(rows[..0], col, toFloat);
        Some(c)
      case Ok(_) =>
        if rest.Some? then
          var i :| 0 <= i < |rows[1..]| && CleanNumeric(col.CellOf(rows[1..][i]), toFloat) == Err(rest.value)
            && ColumnConverts(rows[1..][..i], col, toFloat);
          ColumnConvertsCons(rows, col, toFloat, i);
          assert rows[1..][i] == rows[i + 1];
          rest
        else
          rest
  }

  /**
   * The failure the column conversions raise, column by column in order: a missing column is a
   * KeyError, and within a present column the first cell that does not convert is the error.
   */
  function ConversionFailure(columns: seq<string>, rows: seq<Row>, cols: seq<Column>,
                             toFloat: string -> Option<real>): (r: Option<Cause>)
    ensures r.None? <==> ColumnsConvert(columns, rows, cols, toFloat)
    ensures r.Some? && r.value.MissingColumn? ==> r.value.name !in columns
    ensures r.Some? ==> exists j :: (0 <= j < |cols| && ColumnsConvert(columns, rows, cols[..j], toFloat)
      && ColumnFails(columns, rows, cols[j], toFloat, r.value))
  {
    if |cols| == 0 then None
    else if cols[0].Name() !in columns then
      assert ColumnsConvert(columns, rows, cols[..0], toFloat);
      Some(MissingColumn(cols[0].Name()))
    else
      match FirstBadCell(rows, cols[0], toFloat)
      case Some(c) =>
        assert ColumnsConvert(columns, rows, cols[..0], toFloat);
        Some(c)
      case None =>
        var rest := ConversionFailure(columns, rows, cols[1..], toFloat);
        ColumnsConvertCons(columns, rows, cols, toFloat, |cols| - 1);
        assert cols[..|cols|] == cols && cols[1..][..|cols| - 1] == cols[1..];
        if rest.Some? then
          var j :| 0 <= j < |cols[1..]| && ColumnsConvert(columns, rows, cols[1..][..j], toFloat)
            && ColumnFails(columns, rows, cols[1..][j], toFloat, rest.value);
          ColumnsConvertCons(columns, rows, cols, toFloat, j);
          assert cols[1..][j] == cols[j + 1];
          rest
        else
          rest
  }

  /** The first `n + 1` columns convert when the first does and the `n` after it do. */
  lemma ColumnsConvertCons(columns: seq<string>, rows: seq<Row>, cols: seq<Column>, toFloat: string -> Option<real>, n: nat)
    requires n < |cols|
    ensures ColumnsConvert(columns, rows, cols[..n + 1], toFloat) <==>
      (cols[0].Name() in columns && ColumnConverts(rows, cols[0], toFloat) && ColumnsConvert(columns, rows, cols[1..][..n], toFloat))
  {
    var p, q := cols[..n + 1], cols[1..][..n];
    assert forall i :: 0 <= i < n ==> q[i] == p[i + 1];
    assert p[0] == cols[0];
    if ColumnsConvert(columns, rows, p, toFloat) {
      forall i | 0 <= i < n
        ensures q[i].Name() in columns && ColumnConverts(rows, q[i], toFloat)
      {
        assert q[i] == p[i + 1];
      }
    }
    if cols[0].Name() in columns && ColumnConverts(rows, cols[0], toFloat) && ColumnsConvert(columns, rows, q, toFloat) {
      forall i | 0 <= i <= n
        ensures p[i].Name() in columns && ColumnConverts(rows, p[i], toFloat)
      {
        if i > 0 {
          assert p[i] == q[i - 1];
        }
      }
    }
  }

  /** The first `n + 1` cells of a column convert when the first does and the `n` after it do. */
  lemma ColumnConvertsCons(rows: seq<Row>, col: Column, toFloat: string -> Option<real>, n: nat)
    requires n < |rows|
    ensures ColumnConverts(rows[..n + 1], col, toFloat) <==>
      (CleanNumeric(col.CellOf(rows[0]), toFloat).Ok? && ColumnConverts(rows[1..][..n], col, toFloat))
  {
    var p, q := rows[..n + 1], rows[1..][..n];
    assert forall i :: 0 <= i < n ==> q[i] == p[i + 1];
    assert p[0] == rows[0];
    if ColumnConverts(p, col, toFloat) {
      forall i | 0 <= i < n
        ensures CleanNumeric(col.CellOf(q[i]), toFloat).Ok?
      {
        assert q[i] == p[i + 1];
      }
    }
    if CleanNumeric(col.CellOf(rows[0]), toFloat).Ok? && ColumnConverts(q, col, toFloat) {
      forall i | 0 <= i <= n
        ensures CleanNumeric(col.CellOf(p[i]), toFloat).Ok?
      {
        if i > 0 {
          assert p[i] == q[i - 1];
        }
      }
    }
  }

  /** Every one of `cols` is in the header and converts in every row. */
  predicate ColumnsConvert(columns: seq<string>, rows: seq<Row>, cols: seq<Column>, toFloat: string -> Option<real>)
  {
    forall j :: 0 <= j < |cols| ==> cols[j].Name() in columns && ColumnConverts(rows, cols[j], toFloat)
  }

  /** Converting `col` raises `c`: its KeyError, or the failure of its first bad cell. */
  predicate ColumnFails(columns: seq<string>, rows: seq<Row>, col: Column, toFloat: string -> Option<real>, c: Cause)
  {
    if col.Name() !in columns then c == MissingColumn(col.Name()) else FirstBadCell(rows, col, toFloat) == Some(c)
  }

  /** The value of a numeric cell when it converts (an unconvertible cell never reaches a fill). */
  function NumberIn(c: Cell, toFloat: string -> Option<real>): real
  {
    match CleanNumeric(c, toFloat)
    case Ok(x) => x
    case Err(_) => 0.0
  }

  /** `astype(str)`: an empty cell becomes the text "nan". */
  function TextOf(cell: Option<string>): string
  {
    if cell.Some? then cell.value else "nan"
  }

  /** The fill of a row; the total charge is STT, exchange charges, stamp duty and brokerage together. */
  function Normalize(r: Row, toFloat: string -> Option<real>): (f: Fill)
    ensures f.charges.total == f.charges.stt + f.charges.exchange + f.charges.stampDuty + f.charges.brokerage
  {
    var stt := NumberIn(r.stt, toFloat);
    var exchange := NumberIn(r.exchangeCharges, toFloat);
    var stampDuty := NumberIn(r.stampDuty, toFloat);
    var brokerage := NumberIn(r.brokerage, toFloat);
    Fill(Some(Strip(TextOf(r.stock))), r.date, Capitalize(TextOf(r.action)),
         NumberIn(r.qty, toFloat), NumberIn(r.price, toFloat),
         if r.date.Some? then Some(MomentOf(r.date.value, 0)) else None,
         Charges(brokerage, stt, exchange, stampDuty, 0.0, 0.0, stt + exchange + stampDuty + brokerage), "")
  }

  function NormalizedFills(rows: seq<Row>, toFloat: string -> Option<real>): (fs: seq<Fill>)
    ensures |fs| == |rows| && forall i :: 0 <= i < |rows| ==> fs[i] == Normalize(rows[i], toFloat)
  {
    seq(|rows|, i requires 0 <= i < |rows| => Normalize(rows[i], toFloat))
  }

  /** Each fill's total charge is the sum of its four charge components. */
  predicate ChargesAddUp(fs: seq<Fill>)
  {
    forall i :: 0 <= i < |fs| ==>
      fs[i].charges.total == fs[i].charges.stt + fs[i].charges.exchange + fs[i].charges.stampDuty + fs[i].charges.brokerage
  }

  /** When every fill's total is its four components, the column totals add up the same way. */
  lemma {:induction false} SumOfCharges(fs: seq<Fill>)
    requires ChargesAddUp(fs)
    ensures Sum(fs, TotalCharges) == Sum(fs, Brokerage) + Sum(fs, Stt) + Sum(fs, Exchange) + Sum(fs, StampDuty)
  {
    if |fs| > 0 {
      assert ChargesAddUp(fs[1..]) by {
        assert forall i :: 1 <= i < |fs| ==> fs[1..][i - 1] == fs[i];
      }
      SumOfCharges(fs[1..]);
    }
  }

  /**
   * The trade of a balanced group: the buys' quantity at the two sides' weighted average
   * prices, no times and no holding period (so intraday), every charge column the sum over
   * all fills of both sides, and the number of fills on each side.
   */
  function ClosedTrade(k: Key, buys: seq<Fill>, sells: seq<Fill>): (t: Trade)
    ensures Settled(t) && t.broker == Icici && t.symbol == k.0 && t.entryDate == k.1
    ensures t.quantity == Sum(buys, Qty)
    ensures t.entryPrice == AveragePrice(buys) && t.exitPrice == AveragePrice(sells)
    ensures t.entryTime.None? && t.exitTime.None? && t.holdingMinutes == 0 && t.tradeType == Intraday
    ensures t.totalCharges == Sum(buys, TotalCharges) + Sum(sells, TotalCharges)
    ensures t.detail == IciciDetail(Sum(buys, Brokerage) + Sum(sells, Brokerage), Sum(buys, Stt) + Sum(sells, Stt),
                                    Sum(buys, Exchange) + Sum(sells, Exchange),
                                    Sum(buys, StampDuty) + Sum(sells, StampDuty), |buys|, |sells|)
  {
    var qty := Sum(buys, Qty);
    var avgBuy := AveragePrice(buys);
    var avgSell := AveragePrice(sells);
    var gross := (avgSell - avgBuy) * qty;
    var charges := Sum(buys, TotalCharges) + Sum(sells, TotalCharges);
    Trade(Icici, k.0, k.1, None, None, qty, avgBuy, avgSell, gross, charges, gross - charges, 0, Intraday,
          IciciDetail(Sum(buys, Brokerage) + Sum(sells, Brokerage), Sum(buys, Stt) + Sum(sells, Stt),
                      Sum(buys, Exchange) + Sum(sells, Exchange), Sum(buys, StampDuty) + Sum(sells, StampDuty),
                      |buys|, |sells|))
  }

  /** A group yields a trade exactly when its sides balance. */
  function SidesOutcome(k: Key, buys: seq<Fill>, sells: seq<Fill>): (r: Option<Trade>)
    ensures r.Some? <==> BalancedSides(buys, sells)
  {
    if |buys| == 0 || |sells| == 0 then None
    else if Abs(Sum(buys, Qty) - Sum(sells, Qty)) > 0.01 then None
    else Some(ClosedTrade(k, buys, sells))
  }

  function GroupOutcome(fills: seq<Fill>, k: Key): (r: Option<Trade>)
    ensures r.Some? <==> Balanced(Group(fills, k))
  {
    var g := Group(fills, k);
    SidesOutcome(k, Buys(g), Sells(g))
  }

  function TradesOver(fills: seq<Fill>, ks: seq<Key>): seq<Trade>
  {
    if |ks| == 0 then []
    else
      var ts := TradesOver(fills, ks[..|ks| - 1]);
      match GroupOutcome(fills, ks[|ks| - 1])
      case None => ts
      case Some(t) => ts + [t]
  }

  /** `reconstruct_icici_trades`: one trade per balanced group, in group order, and no others. */
  function Reconstruct(fills: seq<Fill>): (ts: seq<Trade>)
    ensures |ts| == |Closable(fills, GroupKeys(fills))|
    ensures forall j :: 0 <= j < |ts| ==> GroupOutcome(fills, Closable(fills, GroupKeys(fills))[j]) == Some(ts[j])
  {
    OneTradePerClosableGroup(fills, GroupKeys(fills), TradesOver(fills, GroupKeys(fills)));
    TradesOver(fills, GroupKeys(fills))
  }

  lemma TradesOverStep(fills: seq<Fill>, ks: seq<Key>, i: nat)
    requires i < |ks|
    ensures TradesOver(fills, ks[..i + 1]) ==
      match GroupOutcome(fills, ks[i])
      case None => TradesOver(fills, ks[..i])
      case Some(t) => TradesOver(fills, ks[..i]) + [t]
  {
    assert ks[..i + 1][..i] == ks[..i];
  }

  /** The loop over groups of `reconstruct_icici_trades`, appending one trade per balanced group. */
  method ReconstructTrades(fills: seq<Fill>) returns (trades: seq<Trade>)
    ensures trades == Reconstruct(fills)
  {
    var keys := GroupKeys(fills);
    trades := [];
    var i := 0;
    while i < |keys|
      invariant 0 <= i <= |keys|
      invariant trades == TradesOver(fills, keys[..i])
    {
      TradesOverStep(fills, keys, i);
      var g := Group(fills, keys[i]);
      var buys, sells := Buys(g), Sells(g);
      if |buys| == 0 || |sells| == 0 {
        assert GroupOutcome(fills, keys[i]).None?;
        i := i + 1;
        continue;
      }
      if Abs(Sum(buys, Qty) - Sum(sells, Qty)) > 0.01 {
        assert GroupOutcome(fills, keys[i]).None?;
        i := i + 1;
        continue;
      }
      var t := ClosedTrade(keys[i], buys, sells);
      assert GroupOutcome(fills, keys[i]) == Some(t);
      trades := trades + [t];
      i := i + 1;
    }
    assert keys[..i] == keys;
  }

  /** Exactly one trade per balanced group, in group order, and no others. */
  lemma {:induction false} OneTradePerClosableGroup(fills: seq<Fill>, ks: seq<Key>, ts: seq<Trade>)
    requires TradesOver(fills, ks) == ts
    ensures |ts| == |Closable(fills, ks)|
    ensures forall j :: 0 <= j < |ts| ==> GroupOutcome(fills, Closable(fills, ks)[j]) == Some(ts[j])
  {
    if |ks| > 0 {
      var init, last := ks[..|ks| - 1], ks[|ks| - 1];
      var ts0, c0 := TradesOver(fills, init), Closable(fills, init);
      OneTradePerClosableGroup(fills, init, ts0);
      assert Closable(fills, ks) == c0 + (if Balanced(Group(fills, last)) then [last] else []);
      match GroupOutcome(fills, last)
      case None =>
        assert ts == ts0 && Closable(fills, ks) == c0;
      case Some(t) =>
        assert ts == ts0 + [t] && Closable(fills, ks) == c0 + [last];
    }
  }

  /**
   * The trade of a balanced group settles, takes its quantity and average prices from the
   * sides, has no times, a holding period of 0 and is intraday, counts the sides' fills, and
   * reports as each charge the sum of that charge over all its buys and sells.
   */
  lemma ClosedTradeFacts(k: Key, buys: seq<Fill>, sells: seq<Fill>, t: Trade)
    requires SidesOutcome(k, buys, sells) == Some(t)
    ensures Settled(t) && t.broker == Icici && t.symbol == k.0 && t.entryDate == k.1
    ensures t.quantity == Sum(buys, Qty) && Abs(t.quantity - Sum(sells, Qty)) <= 0.01
    ensures t.entryPrice == AveragePrice(buys) && t.exitPrice == AveragePrice(sells)
    ensures t.entryTime.None? && t.exitTime.None? && t.holdingMinutes == 0 && t.tradeType == Intraday
    ensures t.detail.IciciDetail? && t.detail.buyFills == |buys| && t.detail.sellFills == |sells|
    ensures t.totalCharges == Sum(buys, TotalCharges) + Sum(sells, TotalCharges)
    ensures t.detail.IciciDetail? && t.detail.brokerage == Sum(buys, Brokerage) + Sum(sells, Brokerage)
    ensures t.detail.IciciDetail? && t.detail.stt == Sum(buys, Stt) + Sum(sells, Stt)
    ensures t.detail.IciciDetail? && t.detail.exchangeCharges == Sum(buys, Exchange) + Sum(sells, Exchange)
    ensures t.detail.IciciDetail? && t.detail.stampDuty == Sum(buys, StampDuty) + Sum(sells, StampDuty)
  {
    assert t == ClosedTrade(k, buys, sells);
  }

  /**
   * When every fill's total is its four components, a trade's total charges are its reported
   * brokerage, STT, exchange charges and stamp duty together.
   */
  lemma TradeChargesAddUp(k: Key, buys: seq<Fill>, sells: seq<Fill>, t: Trade)
    requires ChargesAddUp(buys) && ChargesAddUp(sells)
    requires SidesOutcome(k, buys, sells) == Some(t)
    ensures t.detail.IciciDetail?
    ensures t.totalCharges == t.detail.brokerage + t.detail.stt + t.detail.exchangeCharges + t.detail.stampDuty
  {
    assert t == ClosedTrade(k, buys, sells);
    SumOfCharges(buys);
    SumOfCharges(sells);
  }

  /** The fills of one side of one group of normalized rows keep the per-fill identity. */
  lemma SideChargesAddUp(fills: seq<Fill>, k: Key, action: string)
    requires ChargesAddUp(fills)
    ensures ChargesAddUp(Side(Group(fills, k), action))
  {
    var s := Side(Group(fills, k), action);
    forall i | 0 <= i < |s|
      ensures s[i].charges.total == s[i].charges.stt + s[i].charges.exchange + s[i].charges.stampDuty + s[i].charges.brokerage
    {
      assert s[i] in s;
      assert s[i] in fills;
      var j :| 0 <= j < |fills| && fills[j] == s[i];
    }
  }

  /** `parse_icici` */
  function Parse(table: Table<Row>, toFloat: string -> Option<real>): (r: Result<seq<Trade>, ParseError>)
    ensures r == Err(InvalidFormat(Icici)) <==> !HasColumns(table.columns, Required)
    ensures r.Err? ==> r.error == InvalidFormat(Icici) || (r.error.ParseFailed? && r.error.broker == Icici)
    ensures r.Ok? <==> (HasColumns(table.columns, Required)
      && ConversionFailure(table.columns, table.rows, Converted, toFloat).None?)
    ensures r.Ok? ==> r.value == Reconstruct(NormalizedFills(table.rows, toFloat))
    ensures r.Ok? ==> forall t :: t in r.value ==> (t.detail.IciciDetail? &&
      t.totalCharges == t.detail.brokerage + t.detail.stt + t.detail.exchangeCharges + t.detail.stampDuty)
  {
    if !HasColumns(table.columns, Required) then Err(InvalidFormat(Icici))
    else
      match ConversionFailure(table.columns, table.rows, Converted, toFloat)
      case Some(c) => Err(ParseFailed(Icici, c))
      case None =>
        var fills := NormalizedFills(table.rows, toFloat);
        var ts := Reconstruct(fills);
        ReconstructedChargesAddUp(fills);
        Ok(ts)
  }

  /** Every trade reconstructed from normalized fills reports charges that add up. */
  lemma ReconstructedChargesAddUp(fills: seq<Fill>)
    requires ChargesAddUp(fills)
    ensures forall t :: t in Reconstruct(fills) ==> (t.detail.IciciDetail? &&
      t.totalCharges == t.detail.brokerage + t.detail.stt + t.detail.exchangeCharges + t.detail.stampDuty)
  {
    var ks, ts := GroupKeys(fills), Reconstruct(fills);
    OneTradePerClosableGroup(fills, ks, ts);
    forall j | 0 <= j < |ts|
      ensures ts[j].detail.IciciDetail? && ts[j].totalCharges ==
        ts[j].detail.brokerage + ts[j].detail.stt + ts[j].detail.exchangeCharges + ts[j].detail.stampDuty
    {
      GroupChargesAddUp(fills, Closable(fills, ks)[j], ts[j]);
    }
  }

  /** The trade of one group of normalized fills reports charges that add up. */
  lemma GroupChargesAddUp(fills: seq<Fill>, k: Key, t: Trade)
    requires ChargesAddUp(fills) && GroupOutcome(fills, k) == Some(t)
    ensures t.detail.IciciDetail?
    ensures t.totalCharges == t.detail.brokerage + t.detail.stt + t.detail.exchangeCharges + t.detail.stampDuty
  {
    var g := Group(fills, k);
    SideChargesAddUp(fills, k, "Buy");
    SideChargesAddUp(fills, k, "Sell");
    TradeChargesAddUp(k, Buys(g), Sells(g), t);
  }
}
