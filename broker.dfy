/**
 * Format detection and dispatch: an upload's header is matched, case-insensitively and in a
 * fixed priority, against one column signature per broker; the first row's security name tells
 * Kotak derivatives from Kotak equity; and the chosen normalizer's result, or an error, is returned.
 */
module BrokerParser {
  import opened Base
  import opened Text
  import opened Fills
  import ZerodhaParser
  import KotakParser
  import IciciParser

  /**
   * The first row's `Security Name` cell, consulted only when a column of exactly that name
   * exists: absent because the file has no rows, an empty cell, or a name.
   */
  datatype Sample = NoRows | EmptyCell | Name(s: string)

  /**
   * One uploaded file: its header, the security-name sample, and its rows as each of the three
   * normalizers reads them.
   */
  datatype Upload = Upload(columns: seq<string>, securityName: Sample,
                           zerodhaRows: seq<ZerodhaParser.Row>, kotakRows: seq<KotakParser.Row>,
                           iciciRows: seq<IciciParser.Row>)

  const Equity := "equity"
  const Derivatives := "derivatives"

  /** The column signature of each broker, over the lowercased column names. */
  predicate Signature(b: Broker, lowered: seq<string>)
  {
    match b
    case Zerodha => "symbol" in lowered && "order_execution_time" in lowered && "trade_type" in lowered
    case Kotak => "trade date" in lowered && "security name" in lowered && "transaction type" in lowered
    case Icici => "stock" in lowered && "order ref." in lowered && "settlement" in lowered
  }

  /** A contract name marks a derivative when, uppercased, it mentions FUT or OPT. */
  predicate NamesDerivative(s: string)
  {
    Contains(Upper(s), "FUT") || Contains(Upper(s), "OPT")
  }

  /**
   * The Kotak statement type. Without an exactly named `Security Name` column the sample is
   * the empty string, so equity; reading the first row of an empty file, or upper-casing an
   * empty cell, raises, and the caught exception makes detection fail.
   */
  function KotakCategory(u: Upload): (r: Option<string>)
    ensures r == Some(Derivatives) <==> "Security Name" in u.columns && u.securityName.Name? && NamesDerivative(u.securityName.s)
    ensures r.None? <==> "Security Name" in u.columns && !u.securityName.Name?
    ensures r.Some? ==> r.value == Equity || r.value == Derivatives
  {
    if "Security Name" !in u.columns then Some(Equity)
    else
      match u.securityName
      case NoRows => None
      case EmptyCell => None
      case Name(s) => if NamesDerivative(s) then Some(Derivatives) else Some(Equity)
  }

  /** `detect_broker_format`: the first signature that matches, in the order Zerodha, Kotak, ICICI. */
  function Detect(u: Upload): (r: Option<(Broker, string)>)
    ensures r.Some? && r.value.0 == Zerodha <==> Signature(Zerodha, LowerAll(u.columns))
    ensures r.Some? && r.value.0 == Kotak <==>
      !Signature(Zerodha, LowerAll(u.columns)) && Signature(Kotak, LowerAll(u.columns)) && KotakCategory(u).Some?
    ensures r.Some? && r.value.0 == Icici <==>
      !Signature(Zerodha, LowerAll(u.columns)) && !Signature(Kotak, LowerAll(u.columns)) && Signature(Icici, LowerAll(u.columns))
    ensures r.Some? && r.value.0 != Kotak ==> r.value.1 == Equity
    ensures r.Some? && r.value.0 == Kotak ==> Some(r.value.1) == KotakCategory(u)
  {
    var lowered := LowerAll(u.columns);
    if Signature(Zerodha, lowered) then Some((Zerodha, Equity))
    else if Signature(Kotak, lowered) then
      match KotakCategory(u)
      case None => None
      case Some(c) => Some((Kotak, c))
    else if Signature(Icici, lowered) then Some((Icici, Equity))
    else None
  }

  /** The normalizer a broker identifier names, or the unsupported-broker error. */
  function Route(u: Upload, broker: string, tradeType: string, toFloat: string -> Option<real>): (r: Result<seq<Trade>, ParseError>)
    ensures broker == "zerodha" ==> r == ZerodhaParser.Parse(Table(u.columns, u.zerodhaRows))
    ensures broker == "kotak" ==> r == KotakParser.Parse(Table(u.columns, u.kotakRows), tradeType)
    ensures broker == "icici" ==> r == IciciParser.Parse(Table(u.columns, u.iciciRows), toFloat)
    ensures r == Err(Unsupported(broker)) <==> broker != "zerodha" && broker != "kotak" && broker != "icici"
    ensures r.Err? && r.error.Unsupported? ==> r.error.name == broker
    ensures r.Err? ==> !r.error.Undetected?
  {
    if broker == Zerodha.Id() then ZerodhaParser.Parse(Table(u.columns, u.zerodhaRows))
    else if broker == Kotak.Id() then KotakParser.Parse(Table(u.columns, u.kotakRows), tradeType)
    else if broker == Icici.Id() then IciciParser.Parse(Table(u.columns, u.iciciRows), toFloat)
    else Err(Unsupported(broker))
  }

  /**
   * `parse_broker_file`: with no broker given, the detected broker and statement type are used
   * (the caller's type is ignored), and a failed detection is its own error.
   */
  function ParseBrokerFile(u: Upload, broker: Option<string>, tradeType: string,
                           toFloat: string -> Option<real>): (r: Result<seq<Trade>, ParseError>)
    ensures r == Err(Undetected) <==> broker.None? && Detect(u).None?
    ensures broker.None? && Detect(u).Some? ==>
      r == Route(u, Detect(u).value.0.Id(), Detect(u).value.1, toFloat)
    ensures broker.Some? ==> r == Route(u, broker.value, tradeType, toFloat)
  {
    if broker.None? then
      match Detect(u)
      case None => Err(Undetected)
      case Some((b, detectedType)) => Route(u, b.Id(), detectedType, toFloat)
    else Route(u, broker.value, tradeType, toFloat)
  }

  /** With detection, the statement type the caller passes makes no difference. */
  lemma DetectedTypeOverrides(u: Upload, t1: string, t2: string, toFloat: string -> Option<real>)
    ensures ParseBrokerFile(u, None, t1, toFloat) == ParseBrokerFile(u, None, t2, toFloat)
  {
  }

  /** An unknown broker name ends in the unsupported-broker message naming it. */
  lemma UnsupportedMessage(u: Upload, name: string, tradeType: string, toFloat: string -> Option<real>)
    requires name != "zerodha" && name != "kotak" && name != "icici"
    ensures var r := ParseBrokerFile(u, Some(name), tradeType, toFloat);
      r.Err? && Message(r.error) == "Unsupported broker: " + name
  {
  }

  /**
   * The detected broker depends on the column names only up to case: two uploads whose headers
   * agree once lowercased, and whose samples agree, are detected as the same broker.
   */
  lemma DetectionIgnoresCase(u: Upload, v: Upload)
    requires LowerAll(u.columns) == LowerAll(v.columns) && u.securityName == v.securityName
    requires u.securityName.Name?
    ensures Detect(u).Some? <==> Detect(v).Some?
    ensures Detect(u).Some? ==> Detect(u).value.0 == Detect(v).value.0
  {
  }

  /**
   * The statement type does not ignore case: without a column named exactly `Security Name`
   * the sample is never read, so a Kotak header is equity whatever the first row holds.
   */
  lemma InexactSecurityColumnMeansEquity(u: Upload)
    requires !Signature(Zerodha, LowerAll(u.columns)) && Signature(Kotak, LowerAll(u.columns))
    requires "Security Name" !in u.columns
    ensures Detect(u) == Some((Kotak, Equity))
  {
  }
}
