/**
 * The records every normalizer produces and consumes: one executed fill, one closed trade,
 * the errors a parse can end in, and the grouping of fills by (symbol, trade date) with the
 * side filters, sums and weighted averages that aggregate-and-match reconstruction uses.
 */
module Fills {
  import opened Base

  datatype Broker = Zerodha | Kotak | Icici {
    /** The identifier `parse_broker_file` dispatches on. */
    function Id(): string
    {
      match this
      case Zerodha => "zerodha"
      case Kotak => "kotak"
      case Icici => "icici"
    }

    /** The value of a trade's `broker` column. */
    function Name(): string
    {
      match this
      case Zerodha => "Zerodha"
      case Kotak => "Kotak Securities"
      case Icici => "ICICI Direct"
    }
  }

  /** A CSV table as a normalizer sees it: the header's column names and the rows below it. */
  datatype Table<R> = Table(columns: seq<string>, rows: seq<R>)

  /** A date or time cell: empty, parsed, or text the parser cannot read. */
  datatype DateCell = Blank | Value(n: int) | Garbled(text: string)

  /** What `pd.to_datetime(..., errors='coerce')` makes of a cell. */
  function Coerced(c: DateCell): (r: Option<int>)
    ensures r.Some? <==> c.Value?
  {
    if c.Value? then Some(c.n) else None
  }

  predicate HasColumns(columns: seq<string>, names: seq<string>)
  {
    forall i :: 0 <= i < |names| ==> names[i] in columns
  }

  /** The first of `names`, in order, that the header lacks: the column whose access raises KeyError. */
  function FirstMissing(columns: seq<string>, names: seq<string>): (r: Option<string>)
    ensures r.None? <==> HasColumns(columns, names)
    ensures r.Some? ==> exists i :: (0 <= i < |names| && names[i] == r.value && r.value !in columns
      && HasColumns(columns, names[..i]))
  {
    if |names| == 0 then None
    else if names[0] !in columns then
      assert HasColumns(columns, names[..0]);
      Some(names[0])
    else
      var rest := FirstMissing(columns, names[1..]);
      if rest.Some? then
        var i :| 0 <= i < |names[1..]| && names[1..][i] == rest.value && HasColumns(columns, names[1..][..i]);
        assert names[i + 1] == rest.value;
        assert HasColumns(columns, names[..i + 1]) by {
          assert forall j :: 1 <= j <= i ==> names[j] == names[1..][j - 1];
        }
        rest
      else
        assert forall j :: 1 <= j < |names| ==> names[j] == names[1..][j - 1];
        rest
  }

  /** Per-fill charges; a broker that has no such component leaves it 0. */
  datatype Charges = Charges(brokerage: real, stt: real, exchange: real, stampDuty: real,
                             gst: real, misc: real, total: real)

  const NoCharges := Charges(0.0, 0.0, 0.0, 0.0, 0.0, 0.0, 0.0)

  /**
   * One fill after normalization: `stock_symbol`, `trade_date_only`, `action`, `qty`,
   * `trade_price`, `trade_datetime` (seconds), the charge columns and the exchange.
   */
  datatype Fill = Fill(symbol: Option<string>, date: Option<int>, action: string, qty: real,
                       price: real, time: Option<int>, charges: Charges, venue: string)

  type Key = (string, int)

  /** The (symbol, date) group a fill falls in; a fill with a missing key is in none, as in `groupby`. */
  function KeyOf(f: Fill): (r: Option<Key>)
    ensures r.Some? <==> f.symbol.Some? && f.date.Some?
  {
    if f.symbol.Some? && f.date.Some? then Some((f.symbol.value, f.date.value)) else None
  }

  predicate Distinct<T(==)>(s: seq<T>)
  {
    forall i, j :: 0 <= i < j < |s| ==> s[i] != s[j]
  }

  /** The keys of the groups, each once, in order of first appearance. */
  function GroupKeys(fills: seq<Fill>): (ks: seq<Key>)
    ensures Distinct(ks)
    ensures forall k :: k in ks <==> exists i :: 0 <= i < |fills| && KeyOf(fills[i]) == Some(k)
  {
    if |fills| == 0 then []
    else
      var init := fills[..|fills| - 1];
      var ks := GroupKeys(init);
      assert forall i :: 0 <= i < |init| ==> init[i] == fills[i];
      match KeyOf(fills[|fills| - 1])
      case None => ks
      case Some(k) => if k in ks then ks else ks + [k]
  }

  /** The fills of one group, in row order. */
  function Group(fills: seq<Fill>, k: Key): (g: seq<Fill>)
    ensures forall f :: f in g <==> f in fills && KeyOf(f) == Some(k)
  {
    if |fills| == 0 then []
    else
      assert fills == [fills[0]] + fills[1..];
      (if KeyOf(fills[0]) == Some(k) then [fills[0]] else []) + Group(fills[1..], k)
  }

  /** The fills of a group whose action is exactly `action`, in row order. */
  function Side(g: seq<Fill>, action: string): (r: seq<Fill>)
    ensures forall f :: f in r <==> f in g && f.action == action
  {
    if |g| == 0 then []
    else
      assert g == [g[0]] + g[1..];
      (if g[0].action == action then [g[0]] else []) + Side(g[1..], action)
  }

  /**
   * The group of consecutive rows is the group of the first rows followed by the group of the
   * rest: together with a one-row table giving that row exactly when it has the key, the
   * fills of a group keep their row order.
   */
  lemma {:induction false} GroupInRowOrder(a: seq<Fill>, b: seq<Fill>, k: Key)
    ensures Group(a + b, k) == Group(a, k) + Group(b, k)
  {
    if |a| > 0 {
      var head := if KeyOf(a[0]) == Some(k) then [a[0]] else [];
      assert (a + b)[0] == a[0] && (a + b)[1..] == a[1..] + b;
      assert Group(a + b, k) == head + Group(a[1..] + b, k);
      assert Group(a, k) == head + Group(a[1..], k);
      GroupInRowOrder(a[1..], b, k);
      assert head + (Group(a[1..], k) + Group(b, k)) == (head + Group(a[1..], k)) + Group(b, k);
    } else {
      assert a + b == b;
    }
  }

  /** A group holds each fill with its key exactly as often as the table does, and no other. */
  lemma {:induction false} GroupCounts(fills: seq<Fill>, k: Key)
    ensures forall f :: multiset(Group(fills, k))[f] == if KeyOf(f) == Some(k) then multiset(fills)[f] else 0
  {
    if |fills| > 0 {
      GroupCounts(fills[1..], k);
      assert fills == [fills[0]] + fills[1..];
      assert multiset(fills) == multiset{fills[0]} + multiset(fills[1..]);
    }
  }

  /** A side holds each fill with that action exactly as often as the group does, and no other. */
  lemma {:induction false} SideCounts(g: seq<Fill>, action: string)
    ensures forall f :: multiset(Side(g, action))[f] == if f.action == action then multiset(g)[f] else 0
  {
    if |g| > 0 {
      SideCounts(g[1..], action);
      assert g == [g[0]] + g[1..];
      assert multiset(g) == multiset{g[0]} + multiset(g[1..]);
    }
  }

  /** A side of consecutive rows is the side of the first rows followed by the side of the rest. */
  lemma {:induction false} SideInRowOrder(a: seq<Fill>, b: seq<Fill>, action: string)
    ensures Side(a + b, action) == Side(a, action) + Side(b, action)
  {
    if |a| > 0 {
      var head := if a[0].action == action then [a[0]] else [];
      assert (a + b)[0] == a[0] && (a + b)[1..] == a[1..] + b;
      assert Side(a + b, action) == head + Side(a[1..] + b, action);
      assert Side(a, action) == head + Side(a[1..], action);
      SideInRowOrder(a[1..], b, action);
      assert head + (Side(a[1..], action) + Side(b, action)) == (head + Side(a[1..], action)) + Side(b, action);
    } else {
      assert a + b == b;
    }
  }

  function Buys(g: seq<Fill>): seq<Fill> { Side(g, "Buy") }

  function Sells(g: seq<Fill>): seq<Fill> { Side(g, "Sell") }

  /** The per-fill quantities that reconstruction adds up. */
  datatype Field = Qty | Notional | Brokerage | Stt | Exchange | StampDuty | Gst | Misc | TotalCharges

  function ValueOf(f: Fill, field: Field): real
  {
    match field
    case Qty => f.qty
    case Notional => f.qty * f.price
    case Brokerage => f.charges.brokerage
    case Stt => f.charges.stt
    case Exchange => f.charges.exchange
    case StampDuty => f.charges.stampDuty
    case Gst => f.charges.gst
    case Misc => f.charges.misc
    case TotalCharges => f.charges.total
  }

  /** A column's `.sum()` over some fills. */
  function Sum(fs: seq<Fill>, field: Field): real
  {
    if |fs| == 0 then 0.0 else ValueOf(fs[0], field) + Sum(fs[1..], field)
  }

  lemma {:induction false} SumOfPositive(fs: seq<Fill>)
    requires |fs| > 0
    requires forall i :: 0 <= i < |fs| ==> fs[i].qty > 0.0
    ensures Sum(fs, Qty) > 0.0
  {
    if |fs| > 1 {
      SumOfPositive(fs[1..]);
    }
  }

  /**
   * A group balances when it has a buy and a sell and the two sides' total quantities differ
   * by no more than 0.01: the only groups aggregate-and-match turns into a trade.
   */
  predicate BalancedSides(buys: seq<Fill>, sells: seq<Fill>)
  {
    |buys| > 0 && |sells| > 0 && Abs(Sum(buys, Qty) - Sum(sells, Qty)) <= 0.01
  }

  predicate Balanced(g: seq<Fill>)
  {
    BalancedSides(Buys(g), Sells(g))
  }

  /** The keys among `ks` whose group balances, in order. */
  function Closable(fills: seq<Fill>, ks: seq<Key>): (r: seq<Key>)
    ensures |r| <= |ks|
    ensures forall k :: k in r <==> k in ks && Balanced(Group(fills, k))
  {
    if |ks| == 0 then []
    else
      var init, last := ks[..|ks| - 1], ks[|ks| - 1];
      assert ks == init + [last];
      Closable(fills, init) + (if Balanced(Group(fills, last)) then [last] else [])
  }

  /**
   * The quantity-weighted average price `(qty * price).sum() / qty.sum()`. For a zero total
   * quantity the source divides by zero (NaN or infinity); the model gives 0.
   */
  function AveragePrice(fs: seq<Fill>): (r: real)
    ensures Sum(fs, Qty) != 0.0 ==> r * Sum(fs, Qty) == Sum(fs, Notional)
  {
    if Sum(fs, Qty) == 0.0 then 0.0 else Sum(fs, Notional) / Sum(fs, Qty)
  }

  /**
   * One more fill keeps the bounds: if the fill's notional and the rest's notional each lie
   * between their quantity at the lowest and at the highest price, so does their sum.
   */
  lemma ExtendedWithin(q: real, p: real, sq: real, sn: real, lo: real, hi: real)
    requires q >= 0.0 && lo <= p <= hi
    requires lo * sq <= sn <= hi * sq
    ensures lo * (q + sq) <= q * p + sn <= hi * (q + sq)
  {
    assert q * (p - lo) >= 0.0;
    assert q * (hi - p) >= 0.0;
  }

  lemma {:induction false} NotionalWithin(fs: seq<Fill>, lo: real, hi: real)
    requires forall i :: 0 <= i < |fs| ==> fs[i].qty >= 0.0 && lo <= fs[i].price <= hi
    ensures lo * Sum(fs, Qty) <= Sum(fs, Notional) <= hi * Sum(fs, Qty)
  {
    if |fs| > 0 {
      var rest := fs[1..];
      NotionalWithin(rest, lo, hi);
      ExtendedWithin(fs[0].qty, fs[0].price, Sum(rest, Qty), Sum(rest, Notional), lo, hi);
    }
  }

  /** With positive quantities, the weighted average lies between the lowest and highest price. */
  lemma AveragePriceWithin(fs: seq<Fill>, lo: real, hi: real)
    requires |fs| > 0
    requires forall i :: 0 <= i < |fs| ==> fs[i].qty > 0.0 && lo <= fs[i].price <= hi
    ensures lo <= AveragePrice(fs) <= hi
  {
    SumOfPositive(fs);
    NotionalWithin(fs, lo, hi);
    var q, n := Sum(fs, Qty), Sum(fs, Notional);
    assert AveragePrice(fs) == n / q;
  }

  /** `trade_datetime.min()`: the earliest time present (missing ones skipped), None if there is none. */
  function EarliestTime(fs: seq<Fill>): Option<int>
  {
    if |fs| == 0 then None
    else
      var rest := EarliestTime(fs[1..]);
      match fs[0].time
      case None => rest
      case Some(t) => if rest.Some? && rest.value < t then rest else Some(t)
  }

  /** `trade_datetime.max()`: the latest time present, None if there is none. */
  function LatestTime(fs: seq<Fill>): Option<int>
  {
    if |fs| == 0 then None
    else
      var rest := LatestTime(fs[1..]);
      match fs[0].time
      case None => rest
      case Some(t) => if rest.Some? && rest.value > t then rest else Some(t)
  }

  /** The earliest time is one of the times present and no later than any of them; none only when every time is missing. */
  lemma {:induction false} EarliestTimeIsLeast(fs: seq<Fill>)
    ensures var r := EarliestTime(fs);
      && (r.None? <==> forall i :: 0 <= i < |fs| ==> fs[i].time.None?)
      && (r.Some? ==> exists i :: 0 <= i < |fs| && fs[i].time == r)
      && (r.Some? ==> forall i :: 0 <= i < |fs| && fs[i].time.Some? ==> r.value <= fs[i].time.value)
  {
    if |fs| > 0 {
      EarliestTimeIsLeast(fs[1..]);
      assert forall i :: 1 <= i < |fs| ==> fs[i] == fs[1..][i - 1];
    }
  }

  /** The latest time is one of the times present and no earlier than any of them; none only when every time is missing. */
  lemma {:induction false} LatestTimeIsGreatest(fs: seq<Fill>)
    ensures var r := LatestTime(fs);
      && (r.None? <==> forall i :: 0 <= i < |fs| ==> fs[i].time.None?)
      && (r.Some? ==> exists i :: 0 <= i < |fs| && fs[i].time == r)
      && (r.Some? ==> forall i :: 0 <= i < |fs| && fs[i].time.Some? ==> fs[i].time.value <= r.value)
  {
    if |fs| > 0 {
      LatestTimeIsGreatest(fs[1..]);
      assert forall i :: 1 <= i < |fs| ==> fs[i] == fs[1..][i - 1];
    }
  }

  datatype TradeType = Intraday | Delivery

  /** The charge breakdown and bookkeeping columns that differ from broker to broker. */
  datatype Detail =
    | ZerodhaDetail(buyFills: nat, sellFills: nat)
    | KotakDetail(brokerage: real, stt: real, gst: real, misc: real, category: string, exchange: string)
    | IciciDetail(brokerage: real, stt: real, exchangeCharges: real, stampDuty: real,
                  buyFills: nat, sellFills: nat)

  /** One closed round trip, a row of the trade table. */
  datatype Trade = Trade(broker: Broker, symbol: string, entryDate: int,
                         entryTime: Option<int>, exitTime: Option<int>,
                         quantity: real, entryPrice: real, exitPrice: real,
                         grossPnl: real, totalCharges: real, netPnl: real,
                         holdingMinutes: int, tradeType: TradeType, detail: Detail)

  /** The P&L identities every reconstructed trade satisfies. */
  predicate Settled(t: Trade)
  {
    t.grossPnl == (t.exitPrice - t.entryPrice) * t.quantity && t.netPnl == t.grossPnl - t.totalCharges
  }

  /** The underlying failure inside a parse, as the caught exception would describe it. */
  datatype Cause =
    | MissingColumn(name: string)   // KeyError on a column the code reads
    | NotANumber(text: string)      // float() of a text cell fails
    | BadTimestamp(text: string)    // pd.to_datetime without errors='coerce' fails
    | NaNMinutes                    // int() of a holding period computed from a missing time

  datatype ParseError =
    | InvalidFormat(broker: Broker)        // a required column is missing
    | ParseFailed(broker: Broker, cause: Cause)
    | Undetected
    | Unsupported(name: string)

  function CauseText(c: Cause): string
  {
    match c
    case MissingColumn(name) => "'" + name + "'"
    case NotANumber(text) => "could not convert string to float: '" + text + "'"
    case BadTimestamp(text) => "Unknown datetime string format, unable to parse: " + text
    case NaNMinutes => "cannot convert float NaN to integer"
  }

  /** The error string the parse entry points return. */
  function Message(e: ParseError): string
  {
    match e
    case InvalidFormat(Zerodha) => "Invalid Zerodha format. Missing required columns."
    case InvalidFormat(Kotak) => "Invalid Kotak format. Missing required columns."
    case InvalidFormat(Icici) => "Invalid ICICI Direct format. Missing required columns."
    case ParseFailed(Zerodha, c) => "Error parsing Zerodha file: " + CauseText(c)
    case ParseFailed(Kotak, c) => "Error parsing Kotak file: " + CauseText(c)
    case ParseFailed(Icici, c) => "Error parsing ICICI file: " + CauseText(c)
    case Undetected => "Could not auto-detect broker format. Please select manually."
    case Unsupported(name) => "Unsupported broker: " + name
  }
}
