/** The ranking registry ORDER_FILTERS shared by the server and the page.
    Its module is not part of this model; its keys are the ones the page
    offers (REVENUE, QUANTITY, ORDERS), each naming one column of the report. */
module OrderFilters {
  import opened Outcomes

  /** The column a ranking orders by: revenue, sold_bottles or order_count. */
  datatype Metric = Revenue | Quantity | Orders

  /** The key under which ORDER_FILTERS registers a ranking; also the value
      the page sends as `orderBy`. */
  function Key(m: Metric): (k: string)
    ensures k != ""
  {
    match m
    case Revenue => "REVENUE"
    case Quantity => "QUANTITY"
    case Orders => "ORDERS"
  }

  /** Distinct rankings have distinct keys. */
  lemma KeyInjective(a: Metric, b: Metric)
    ensures Key(a) == Key(b) ==> a == b
  {
  }

  /** `ORDER_FILTERS[key]`: the ranking registered under `key`, if any. */
  function Lookup(key: string): (r: Option<Metric>)
    ensures r.Some? ==> Key(r.value) == key
    ensures r.None? ==> forall m: Metric :: Key(m) != key
  {
    if key == "REVENUE" then Some(Revenue)
    else if key == "QUANTITY" then Some(Quantity)
    else if key == "ORDERS" then Some(Orders)
    else None
  }
}
