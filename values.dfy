/**
 * Parameter values as they arrive from a local table or the exoplanet
 * archive, `safe_value`'s normalisation of them, the five-column target row,
 * and the archive's single-row name query.
 */
module Values {
  import opened Common

  datatype Unit = Day | Hour | Minute | Second | NonTime

  /** The units `safe_value` is asked to convert to. */
  type TimeUnit = u: Unit | u != NonTime witness Day

  /**
   * A raw cell: Python None, a NaN, an astropy quantity, something `float()`
   * accepts (a number or numeric text), or something it rejects.
   */
  datatype Raw = Null | NaN | Quantity(magnitude: real, unit: Unit) | Number(value: real) | Garbage

  function SecondsPer(u: TimeUnit): (r: real)
    ensures r > 0.0
  {
    match u
    case Day => 86400.0
    case Hour => 3600.0
    case Minute => 60.0
    case Second => 1.0
  }

  /**
   * `x.to(unit).value`, and `x.value` when the conversion raises because the
   * quantity is not a time.
   */
  function Convert(v: real, from: Unit, to: TimeUnit): (r: real)
    ensures from == to || from == NonTime ==> r == v
    ensures from != NonTime ==> r * SecondsPer(to) == v * SecondsPer(from)
  {
    if from == NonTime then v else v * SecondsPer(from) / SecondsPer(to)
  }

  /** `safe_value(x, unit)`: absence is None, never a sentinel number, and
      nothing raises. */
  function SafeValue(x: Raw, unit: TimeUnit): (r: Option<real>)
    ensures r.None? <==> x.Null? || x.NaN? || x.Garbage?
    ensures x.Number? ==> r == Some(x.value)
    ensures x.Quantity? && (x.unit == unit || x.unit == NonTime) ==> r == Some(x.magnitude)
  {
    match x
    case Null => None
    case NaN => None
    case Quantity(v, u) => Some(Convert(v, u, unit))
    case Number(v) => Some(v)
    case Garbage => None
  }

  /** Converting a time quantity to another time unit and back is lossless. */
  lemma ConvertRoundTrip(v: real, a: TimeUnit, b: TimeUnit)
    ensures Convert(Convert(v, a, b), b, a) == v
  {
    var w := Convert(v, a, b);
    assert w * SecondsPer(b) == v * SecondsPer(a);
    var back := Convert(w, b, a);
    assert back * SecondsPer(a) == w * SecondsPer(b);
  }

  /** A duration catalogued in days reaches the pipeline in hours. */
  lemma DaysToHours(d: real)
    ensures SafeValue(Quantity(d, Day), Hour) == Some(24.0 * d)
  {
  }

  /** The five columns the pipeline reads per target (`pl_name`, `hostname`,
      `pl_orbper`, `pl_tranmid`, `pl_trandur`). */
  datatype Row = Row(plName: string, hostname: Option<string>, orbper: Raw, tranmid: Raw, trandur: Raw)

  /** The row standing in for a name the archive did not resolve. */
  function Placeholder(name: string): Row {
    Row(name, None, Null, Null, Null)
  }

  /** The archive's answer to a query: an exception, no rows, or the first
      row returned. */
  datatype CatalogReply = QueryRaised(error: string) | NoRows | FirstRow(row: Row)

  /** The archive query service, keyed by the `where` clause it is sent. */
  type Catalog = string -> CatalogReply

  /** `name.replace("'", "''")`. */
  function EscapeQuotes(s: string): (r: string)
    ensures |r| >= |s|
  {
    if s == [] then []
    else (if s[0] == '\'' then "''" else [s[0]]) + EscapeQuotes(s[1..])
  }

  /** How SQL reads the body of a quoted literal: `''` stands for one quote. */
  function SqlLiteralBody(r: string): string {
    if r == [] then []
    else if |r| >= 2 && r[0] == '\'' && r[1] == '\'' then "'" + SqlLiteralBody(r[2..])
    else [r[0]] + SqlLiteralBody(r[1..])
  }

  /** No quote in an escaped name stands alone, so the literal cannot end early. */
  predicate QuotesPaired(r: string)
    decreases |r|
  {
    if r == [] then true
    else if r[0] == '\'' then |r| >= 2 && r[1] == '\'' && QuotesPaired(r[2..])
    else QuotesPaired(r[1..])
  }

  /** The `where` clause of the archive query for one planet name. */
  function WhereClause(name: string): string {
    "pl_name = '" + EscapeQuotes(name) + "'"
  }

  /** The archive reads back exactly the name that was escaped. */
  lemma {:induction false} EscapeRoundTrip(s: string)
    ensures SqlLiteralBody(EscapeQuotes(s)) == s
    ensures QuotesPaired(EscapeQuotes(s))
  {
    if s != [] {
      EscapeRoundTrip(s[1..]);
      var rest := EscapeQuotes(s[1..]);
      if s[0] == '\'' {
        assert EscapeQuotes(s) == "''" + rest;
        assert ("''" + rest)[2..] == rest;
      } else {
        assert EscapeQuotes(s) == [s[0]] + rest;
        assert ([s[0]] + rest)[1..] == rest;
      }
    }
  }
}
