/**
 * The Kotak Securities normalizer: charges are copied from the statement's columns, and in
 * every (symbol, date) group each buy, in row order, is paired with the first remaining sell
 * whose quantity is within 10% of its own; that sell is then used up (greedy pairwise matching).
 */
module KotakParser {
  import opened Base
  import opened Text
  import opened Fills

  /**
   * One statement row as the normalizer reads it: the date (day number) and the time of day
   * (seconds) when they parse, the security name, the transaction type, the numeric columns
   * and the exchange. The `Total` column is read but not used, so it is not carried here.
   */
  datatype Row = Row(tradeDate: Option<int>, tradeTime: Option<SecondOfDay>, securityName: Option<string>,
                     transactionType: string, quantity: real, marketRate: real,
                     brokerage: real, gst: real, sttCtt: real, misc: real, totalCharges: real,
                     exchange: string)

  const Required: seq<string> :=
    ["Trade Date", "Transaction Type", "Quantity", "Market Rate", "Total Charges"]

  /** The further columns the normalizer reads, in the order it reads them. */
  const Accessed: seq<string> :=
    ["Trade Time", "Security Name", "Total", "Brokerage", "GST", "STT/CTT", "Misc.", "Exchange"]

  /**
   * The fill of a row: the security name and exchange stripped, the side capitalized, the
   * charge columns copied (Kotak reports no exchange charges or stamp duty), and a time only
   * when both the date and the time parse, which then falls on the trade date.
   */
  function Normalize(r: Row): (f: Fill)
    ensures f.symbol.Some? <==> r.securityName.Some?
    ensures f.symbol.Some? ==> f.symbol.value == Strip(r.securityName.value)
    ensures f.date == r.tradeDate && f.action == Capitalize(r.transactionType)
    ensures f.time.Some? <==> r.tradeDate.Some? && r.tradeTime.Some?
    ensures f.time.Some? ==> DayOf(f.time.value) == r.tradeDate.value
    ensures f.charges == Charges(r.brokerage, r.sttCtt, 0.0, 0.0, r.gst, r.misc, r.totalCharges)
  {
    var time := if r.tradeDate.Some? && r.tradeTime.Some? then Some(MomentOf(r.tradeDate.value, r.tradeTime.value)) else None;
    assert time.Some? ==> DayOf(time.value) == r.tradeDate.value by {
      if time.Some? {
        DayOfMoment(r.tradeDate.value, r.tradeTime.value);
      }
    }
    Fill(if r.securityName.Some? then Some(Strip(r.securityName.value)) else None,
         r.tradeDate, Capitalize(r.transactionType), r.quantity, r.marketRate, time,
         Charges(r.brokerage, r.sttCtt, 0.0, 0.0, r.gst, r.misc, r.totalCharges),
         Strip(r.exchange))
  }

  function NormalizedFills(rows: seq<Row>): (fs: seq<Fill>)
    ensures |fs| == |rows| && forall i :: 0 <= i < |rows| ==> fs[i] == Normalize(rows[i])
  {
    seq(|rows|, i requires 0 <= i < |rows| => Normalize(rows[i]))
  }

  /** A sell can close a buy when the two quantities differ by strictly less than 10% of the buy's. */
  predicate Eligible(buy: Fill, sell: Fill)
  {
    Abs(sell.qty - buy.qty) < buy.qty * 0.1
  }

  /** `matching_sells.iloc[0]`: the position of the first eligible sell, if any. */
  function FirstEligible(buy: Fill, sells: seq<Fill>): (r: Option<nat>)
    ensures r.None? <==> forall j :: 0 <= j < |sells| ==> !Eligible(buy, sells[j])
    ensures r.Some? ==> r.value < |sells| && Eligible(buy, sells[r.value])
    ensures r.Some? ==> forall j :: 0 <= j < r.value ==> !Eligible(buy, sells[j])
  {
    if |sells| == 0 then None
    else if Eligible(buy, sells[0]) then Some(0)
    else
      var rest := FirstEligible(buy, sells[1..]);
      assert forall j :: 1 <= j < |sells| ==> sells[j] == sells[1..][j - 1];
      match rest
      case None => None
      case Some(j) => Some(j + 1)
  }

  /** `sells.drop(sell_row.name)`: the remaining sells without the one just used. */
  function RemoveAt(s: seq<Fill>, i: nat): (r: seq<Fill>)
    requires i < |s|
    ensures |r| == |s| - 1
    ensures multiset(r) + multiset{s[i]} == multiset(s)
    ensures forall f :: f in r ==> f in s
  {
    assert s == s[..i] + [s[i]] + s[i + 1..];
    s[..i] + s[i + 1..]
  }

  /** A buy and the sell it was paired with. */
  datatype Match = Match(buy: Fill, sell: Fill)

  function SoldIn(ms: seq<Match>): (r: seq<Fill>)
    ensures |r| == |ms| && forall i :: 0 <= i < |ms| ==> r[i] == ms[i].sell
  {
    if |ms| == 0 then [] else [ms[0].sell] + SoldIn(ms[1..])
  }

  function BoughtIn(ms: seq<Match>): (r: seq<Fill>)
    ensures |r| == |ms| && forall i :: 0 <= i < |ms| ==> r[i] == ms[i].buy
  {
    if |ms| == 0 then [] else [ms[0].buy] + BoughtIn(ms[1..])
  }

  /** The pairs the matching loop makes, each of an eligible buy and sell. */
  function GreedyMatches(buys: seq<Fill>, sells: seq<Fill>): (ms: seq<Match>)
    ensures |ms| <= |buys|
    ensures forall i :: 0 <= i < |ms| ==> Eligible(ms[i].buy, ms[i].sell)
    decreases |buys|
  {
    if |buys| == 0 then []
    else
      match FirstEligible(buys[0], sells)
      case None => GreedyMatches(buys[1..], sells)
      case Some(j) => [Match(buys[0], sells[j])] + GreedyMatches(buys[1..], RemoveAt(sells, j))
  }

  /**
   * No sell is used twice: the sells of the pairs are a sub-multiset of the group's sells, so
   * there are at most as many pairs as sells.
   */
  lemma {:induction false} EachSellUsedOnce(buys: seq<Fill>, sells: seq<Fill>)
    ensures var ms := GreedyMatches(buys, sells);
      multiset(SoldIn(ms)) <= multiset(sells) && |ms| <= |sells|
    ensures forall m :: m in GreedyMatches(buys, sells) ==> m.sell in sells
    decreases |buys|
  {
    if |buys| > 0 {
      match FirstEligible(buys[0], sells)
      case None =>
        EachSellUsedOnce(buys[1..], sells);
      case Some(j) =>
        var rest := RemoveAt(sells, j);
        EachSellUsedOnce(buys[1..], rest);
        var ms := GreedyMatches(buys, sells);
        assert ms == [Match(buys[0], sells[j])] + GreedyMatches(buys[1..], rest);
        assert SoldIn(ms) == [sells[j]] + SoldIn(GreedyMatches(buys[1..], rest));
        assert multiset(SoldIn(GreedyMatches(buys[1..], rest))) <= multiset(rest);
        assert |multiset(SoldIn(ms))| <= |multiset(sells)|;
    }
  }

  /** Every buy is paired at most once, in row order: the buys of the pairs are a sub-multiset of the group's buys. */
  lemma {:induction false} EachBuyUsedOnce(buys: seq<Fill>, sells: seq<Fill>)
    ensures multiset(BoughtIn(GreedyMatches(buys, sells))) <= multiset(buys)
    ensures forall m :: m in GreedyMatches(buys, sells) ==> m.buy in buys
    decreases |buys|
  {
    if |buys| > 0 {
      assert buys == [buys[0]] + buys[1..];
      match FirstEligible(buys[0], sells)
      case None =>
        EachBuyUsedOnce(buys[1..], sells);
      case Some(j) =>
        var rest := RemoveAt(sells, j);
        EachBuyUsedOnce(buys[1..], rest);
        var ms := GreedyMatches(buys, sells);
        assert ms == [Match(buys[0], sells[j])] + GreedyMatches(buys[1..], rest);
        assert BoughtIn(ms) == [buys[0]] + BoughtIn(GreedyMatches(buys[1..], rest));
    }
  }

  /**
   * The trade of one pair. It settles, carries the buy's quantity and the two fills' prices,
   * adds the two fills' charges, and has a holding period of 0 unless both times are known;
   * it is intraday exactly when it was held for less than a day.
   */
  function PairTrade(k: Key, m: Match, category: string): (t: Trade)
    ensures Settled(t) && t.broker == Kotak && t.symbol == k.0 && t.entryDate == k.1
    ensures t.quantity == m.buy.qty && t.entryPrice == m.buy.price && t.exitPrice == m.sell.price
    ensures t.entryTime == m.buy.time && t.exitTime == m.sell.time
    ensures t.totalCharges == m.buy.charges.total + m.sell.charges.total
    ensures m.buy.time.None? || m.sell.time.None? ==> t.holdingMinutes == 0
    ensures m.buy.time.Some? && m.sell.time.Some? ==>
      t.holdingMinutes == TruncMinutes(m.sell.time.value - m.buy.time.value)
    ensures t.tradeType == Intraday <==> t.holdingMinutes < 1440
    ensures t.detail == KotakDetail(m.buy.charges.brokerage + m.sell.charges.brokerage,
                                    m.buy.charges.stt + m.sell.charges.stt,
                                    m.buy.charges.gst + m.sell.charges.gst,
                                    m.buy.charges.misc + m.sell.charges.misc, category, m.buy.venue)
  {
    var b, s := m.buy, m.sell;
    var gross := (s.price - b.price) * b.qty;
    var charges := b.charges.total + s.charges.total;
    var holding := if b.time.Some? && s.time.Some? then TruncMinutes(s.time.value - b.time.value) else 0;
    Trade(Kotak, k.0, k.1, b.time, s.time, b.qty, b.price, s.price, gross, charges, gross - charges,
          holding, if holding < 24 * 60 then Intraday else Delivery,
          KotakDetail(b.charges.brokerage + s.charges.brokerage, b.charges.stt + s.charges.stt,
                      b.charges.gst + s.charges.gst, b.charges.misc + s.charges.misc,
                      category, b.venue))
  }

  /** One trade per pair, in pair order. */
  function PairTrades(k: Key, ms: seq<Match>, category: string): seq<Trade>
  {
    if |ms| == 0 then [] else [PairTrade(k, ms[0], category)] + PairTrades(k, ms[1..], category)
  }

  lemma {:induction false} PairTradesEach(k: Key, ms: seq<Match>, category: string)
    ensures var ts := PairTrades(k, ms, category);
      |ts| == |ms| && forall i :: 0 <= i < |ms| ==> ts[i] == PairTrade(k, ms[i], category)
  {
    if |ms| > 0 {
      PairTradesEach(k, ms[1..], category);
    }
  }

  /**
   * The trades of one group from its buys and its sells: none when it lacks either, otherwise
   * one per pair, each pairing an eligible buy and sell of the group.
   */
  function SidesTrades(k: Key, buys: seq<Fill>, sells: seq<Fill>, category: string): (ts: seq<Trade>)
    ensures |ts| <= |buys| && |ts| <= |sells|
    ensures forall t :: t in ts ==> exists m: Match :: m.buy in buys && m.sell in sells && Eligible(m.buy, m.sell) && t == PairTrade(k, m, category)
  {
    if |buys| == 0 || |sells| == 0 then []
    else
      var ms := GreedyMatches(buys, sells);
      EachSellUsedOnce(buys, sells);
      PairTradesEach(k, ms, category);
      PairedTradesFromGroup(k, buys, sells, category);
      PairTrades(k, ms, category)
  }

  /** Each trade of the matching pairs an eligible buy of the group with one of its sells. */
  lemma PairedTradesFromGroup(k: Key, buys: seq<Fill>, sells: seq<Fill>, category: string)
    ensures forall t :: t in PairTrades(k, GreedyMatches(buys, sells), category) ==>
      exists m: Match :: m.buy in buys && m.sell in sells && Eligible(m.buy, m.sell) && t == PairTrade(k, m, category)
  {
    var ms := GreedyMatches(buys, sells);
    var ts := PairTrades(k, ms, category);
    EachSellUsedOnce(buys, sells);
    EachBuyUsedOnce(buys, sells);
    PairTradesEach(k, ms, category);
    forall t | t in ts
      ensures exists m: Match :: m.buy in buys && m.sell in sells && Eligible(m.buy, m.sell) && t == PairTrade(k, m, category)
    {
      var i :| 0 <= i < |ts| && ts[i] == t;
      var m := ms[i];
      assert m in ms;
      assert m.buy in buys && m.sell in sells && Eligible(m.buy, m.sell) && t == PairTrade(k, m, category);
    }
  }

  function GroupTrades(fills: seq<Fill>, k: Key, category: string): seq<Trade>
  {
    var g := Group(fills, k);
    SidesTrades(k, Buys(g), Sells(g), category)
  }

  /** The groups `ks` taken in order, their trades concatenated. */
  function TradesOver(fills: seq<Fill>, ks: seq<Key>, category: string): seq<Trade>
  {
    if |ks| == 0 then []
    else TradesOver(fills, ks[..|ks| - 1], category) + GroupTrades(fills, ks[|ks| - 1], category)
  }

  /** A pair of a buy and an eligible sell, both of the group `k`. */
  predicate PairedIn(fills: seq<Fill>, k: Key, m: Match)
  {
    m.buy in Buys(Group(fills, k)) && m.sell in Sells(Group(fills, k)) && Eligible(m.buy, m.sell)
  }

  /**
   * `reconstruct_kotak_trades`: every trade pairs a buy of some group with an eligible sell of
   * the same group.
   */
  function Reconstruct(fills: seq<Fill>, category: string): (ts: seq<Trade>)
    ensures forall t :: t in ts ==> exists k, m :: k in GroupKeys(fills) && PairedIn(fills, k, m) && t == PairTrade(k, m, category)
  {
    TradesFromGroups(fills, GroupKeys(fills), category);
    TradesOver(fills, GroupKeys(fills), category)
  }

  lemma {:induction false} TradesFromGroups(fills: seq<Fill>, ks: seq<Key>, category: string)
    ensures forall t :: t in TradesOver(fills, ks, category) ==>
      exists k, m :: k in ks && PairedIn(fills, k, m) && t == PairTrade(k, m, category)
  {
    if |ks| > 0 {
      var init, last := ks[..|ks| - 1], ks[|ks| - 1];
      TradesFromGroups(fills, init, category);
      forall t | t in TradesOver(fills, ks, category)
        ensures exists k, m :: k in ks && PairedIn(fills, k, m) && t == PairTrade(k, m, category)
      {
        if t in TradesOver(fills, init, category) {
          var k, m :| k in init && PairedIn(fills, k, m) && t == PairTrade(k, m, category);
          assert k in ks;
        } else {
          var g := Group(fills, last);
          assert t in SidesTrades(last, Buys(g), Sells(g), category);
          var m: Match :| m.buy in Buys(g) && m.sell in Sells(g) && Eligible(m.buy, m.sell) && t == PairTrade(last, m, category);
          assert PairedIn(fills, last, m) && last in ks;
        }
      }
    }
  }

  lemma TradesOverStep(fills: seq<Fill>, ks: seq<Key>, i: nat, category: string)
    requires i < |ks|
    ensures TradesOver(fills, ks[..i + 1], category) == TradesOver(fills, ks[..i], category) + GroupTrades(fills, ks[i], category)
  {
    assert ks[..i + 1][..i] == ks[..i];
  }

  /** One buy of the matching loop: it takes the first eligible remaining sell, or none. */
  lemma GreedyStep(buys: seq<Fill>, i: nat, remaining: seq<Fill>)
    requires i < |buys|
    ensures GreedyMatches(buys[i..], remaining) ==
      match FirstEligible(buys[i], remaining)
      case None => GreedyMatches(buys[i + 1..], remaining)
      case Some(j) => [Match(buys[i], remaining[j])] + GreedyMatches(buys[i + 1..], RemoveAt(remaining, j))
  {
    assert buys[i..][0] == buys[i] && buys[i..][1..] == buys[i + 1..];
  }

  lemma PairTradesCons(k: Key, m: Match, rest: seq<Match>, category: string)
    ensures PairTrades(k, [m] + rest, category) == [PairTrade(k, m, category)] + PairTrades(k, rest, category)
  {
    assert ([m] + rest)[1..] == rest;
  }

  /** The inner loop of `reconstruct_kotak_trades`: each buy in turn takes and removes its sell. */
  method MatchGroup(k: Key, buys: seq<Fill>, sells: seq<Fill>, category: string) returns (trades: seq<Trade>)
    ensures trades == PairTrades(k, GreedyMatches(buys, sells), category)
  {
    var remaining := sells;
    trades := [];
    var i := 0;
    while i < |buys|
      invariant 0 <= i <= |buys|
      invariant trades + PairTrades(k, GreedyMatches(buys[i..], remaining), category)
        == PairTrades(k, GreedyMatches(buys, sells), category)
    {
      GreedyStep(buys, i, remaining);
      var j := FirstEligible(buys[i], remaining);
      if j.Some? {
        var m := Match(buys[i], remaining[j.value]);
        var next := RemoveAt(remaining, j.value);
        var rest := GreedyMatches(buys[i + 1..], next);
        assert GreedyMatches(buys[i..], remaining) == [m] + rest;
        PairTradesCons(k, m, rest, category);
        assert (trades + [PairTrade(k, m, category)]) + PairTrades(k, rest, category)
          == trades + PairTrades(k, [m] + rest, category);
        trades := trades + [PairTrade(k, m, category)];
        remaining := next;
      } else {
        assert GreedyMatches(buys[i..], remaining) == GreedyMatches(buys[i + 1..], remaining);
      }
      i := i + 1;
    }
  }

  /** The outer loop of `reconstruct_kotak_trades` over the (symbol, date) groups. */
  method ReconstructTrades(fills: seq<Fill>, category: string) returns (trades: seq<Trade>)
    ensures trades == Reconstruct(fills, category)
  {
    var keys := GroupKeys(fills);
    trades := [];
    var i := 0;
    while i < |keys|
      invariant 0 <= i <= |keys|
      invariant trades == TradesOver(fills, keys[..i], category)
    {
      TradesOverStep(fills, keys, i, category);
      var g := Group(fills, keys[i]);
      var buys, sells := Buys(g), Sells(g);
      if |buys| == 0 || |sells| == 0 {
        assert GroupTrades(fills, keys[i], category) == [];
        i := i + 1;
        continue;
      }
      var ts := MatchGroup(keys[i], buys, sells, category);
      assert GroupTrades(fills, keys[i], category) == ts;
      trades := trades + ts;
      i := i + 1;
    }
    assert keys[..i] == keys;
  }

  /** `parse_kotak` */
  function Parse(table: Table<Row>, category: string): (r: Result<seq<Trade>, ParseError>)
    ensures r == Err(InvalidFormat(Kotak)) <==> !HasColumns(table.columns, Required)
    ensures r.Err? ==> r.error == InvalidFormat(Kotak) || (r.error.ParseFailed? && r.error.broker == Kotak)
    ensures r.Ok? <==> HasColumns(table.columns, Required) && HasColumns(table.columns, Accessed)
    ensures r.Err? && HasColumns(table.columns, Required) ==>
      exists i :: (0 <= i < |Accessed| && Accessed[i] !in table.columns && HasColumns(table.columns, Accessed[..i])
        && r == Err(ParseFailed(Kotak, MissingColumn(Accessed[i]))))
    ensures r.Ok? ==> r.value == Reconstruct(NormalizedFills(table.rows), category)
  {
    if !HasColumns(table.columns, Required) then Err(InvalidFormat(Kotak))
    else
      match FirstMissing(table.columns, Accessed)
      case Some(c) => Err(ParseFailed(Kotak, MissingColumn(c)))
      case None => Ok(Reconstruct(NormalizedFills(table.rows), category))
  }

  /**
   * The first eligible sell is taken, not the closest: a buy of 100 facing sells of 108 and
   * then 101 is paired with the 108.
   */
  lemma FirstNotClosest(b: Fill, s1: Fill, s2: Fill)
    requires b.qty == 100.0 && s1.qty == 108.0 && s2.qty == 101.0
    ensures GreedyMatches([b], [s1, s2]) == [Match(b, s1)]
  {
    assert FirstEligible(b, [s1, s2]) == Some(0);
    assert [b][1..] == [];
  }

  /** The tolerance is strict: a sell exactly 10% away from the buy never closes it. */
  lemma StrictTolerance(b: Fill, s: Fill)
    requires b.qty == 100.0 && (s.qty == 110.0 || s.qty == 90.0)
    ensures GreedyMatches([b], [s]) == []
  {
    assert FirstEligible(b, [s]) == None by {
      assert !Eligible(b, [s][0]);
    }
    assert [b][1..] == [];
  }

  /** A sell is used once: two equal buys facing one equal sell give one pair, for the first buy. */
  lemma SellUsedOnce(b1: Fill, b2: Fill, s: Fill)
    requires b1.qty == 100.0 && b2.qty == 100.0 && s.qty == 100.0
    ensures GreedyMatches([b1, b2], [s]) == [Match(b1, s)]
  {
    assert FirstEligible(b1, [s]) == Some(0);
    assert RemoveAt([s], 0) == [];
    assert [b1, b2][1..] == [b2] && [b2][1..] == [];
    assert GreedyMatches([b2], []) == [];
  }
}
