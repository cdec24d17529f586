/** The pure rules of the best-selling page: the ranking buttons, the search
    fragment of its request, the choice between the list and the "no results"
    message, and the top and bottom tiers the list highlights. */
module App {
  import opened Outcomes
  import opened OrderFilters
  import Query
  import Report

  /** `useState<Order>('REVENUE')`: the ranking the page opens with. */
  const InitialOrder: Metric := Revenue

  /** The text of a ranking's button in ORDER_LABELS. */
  function Label(m: Metric): string
  {
    match m
    case Revenue => "By revenue"
    case Quantity => "By # bottles sold"
    case Orders => "By # orders"
  }

  /** ORDER_LABELS in declaration order: exactly one button per ranking. */
  function OrderButtons(): (r: seq<(Metric, string)>)
    ensures forall m: Metric :: (m, Label(m)) in r
    ensures forall i, j :: 0 <= i < j < |r| ==> r[i].0 != r[j].0
    ensures forall i :: 0 <= i < |r| ==> r[i].1 == Label(r[i].0)
  {
    [(Revenue, Label(Revenue)), (Quantity, Label(Quantity)), (Orders, Label(Orders))]
  }

  /** The query fragment `search ? '&search=' + search : ''` appended after
      `orderBy`: present exactly when the term is defined and non-empty. */
  function SearchQuery(search: Option<string>): (q: string)
    ensures q == "" <==> !Query.SearchActive(search)
    ensures Query.SearchActive(search) ==> q == "&search=" + search.value
  {
    if Query.SearchActive(search) then "&search=" + search.value else ""
  }

  /** `${API_URL}/best_selling_wines?orderBy=`. */
  const BestSellingPrefix: string := "http://localhost:3000/best_selling_wines?orderBy="

  /** The URL the page fetches: the selected ranking's key as `orderBy`,
      then the search fragment. */
  function RequestUrl(order: Metric, search: Option<string>): (u: string)
    ensures |u| == |BestSellingPrefix| + |Key(order)| + |SearchQuery(search)|
    ensures u[..|BestSellingPrefix|] == BestSellingPrefix
    ensures Report.ResolveMetric(Some(u[|BestSellingPrefix|..|BestSellingPrefix| + |Key(order)|])) == order
    ensures u[|BestSellingPrefix| + |Key(order)|..] == SearchQuery(search)
  {
    Report.KeyResolvesToItself(order);
    var u := BestSellingPrefix + Key(order) + SearchQuery(search);
    assert u[|BestSellingPrefix|..|BestSellingPrefix| + |Key(order)|] == Key(order);
    u
  }

  /** The page opens on the ranking the server also falls back to. */
  lemma InitialOrderIsServerDefault()
    ensures InitialOrder == Report.ResolveMetric(None)
  {
  }

  // ---------------------------------------------------------------------
  // Tiers
  // ---------------------------------------------------------------------

  /** `Math.ceil(listLength / 10)`. */
  function TenPercent(n: nat): (t: nat)
    ensures n <= 10 * t < n + 10
    ensures n >= 1 ==> 1 <= t <= n
  {
    (n + 9) / 10
  }

  /** The two highlight classes of a list item. */
  datatype Tier = Tier(topHigher: bool, topLower: bool)

  /** `'top-higher': index < tenPercent` and
      `'top-lower': tenPercent > listLength - (index + 1)`. */
  function TierOf(index: int, n: nat): (t: Tier)
    ensures t.topHigher <==> 10 * index < n
    ensures t.topLower <==> 10 * (n - 1 - index) < n
  {
    var t := TenPercent(n);
    Tier(index < t, t > n - (index + 1))
  }

  // ---------------------------------------------------------------------
  // Rendering
  // ---------------------------------------------------------------------

  /** One `<li>`: its key, its text parts and its classes. */
  datatype Entry = Entry(key: int, fullName: string, revenue: int, tier: Tier)

  /** The ordered list, or the "No results for the given search" message. */
  datatype View = NoResults | WineList(entries: seq<Entry>)

  /** `listLength > 0 ? <ol>…</ol> : <p>No results…</p>`. */
  function Render(wines: seq<Report.WineStat>): (v: View)
    ensures v.NoResults? <==> wines == []
    ensures v.WineList? ==> |v.entries| == |wines|
    ensures v.WineList? ==> forall i :: 0 <= i < |wines| ==>
      v.entries[i] == Entry(wines[i].id, wines[i].fullName, wines[i].revenue, TierOf(i, |wines|))
  {
    if |wines| > 0 then
      WineList(seq(|wines|, i requires 0 <= i < |wines| =>
        Entry(wines[i].id, wines[i].fullName, wines[i].revenue, TierOf(i, |wines|))))
    else NoResults
  }

  function Min(a: int, b: int): int
  {
    if a <= b then a else b
  }

  function Max(a: int, b: int): int
  {
    if a >= b then a else b
  }

  /** How many entries carry `top-higher`. */
  function CountHigher(es: seq<Entry>): nat
  {
    if es == [] then 0
    else CountHigher(es[..|es| - 1]) + if es[|es| - 1].tier.topHigher then 1 else 0
  }

  /** How many entries carry `top-lower`. */
  function CountLower(es: seq<Entry>): nat
  {
    if es == [] then 0
    else CountLower(es[..|es| - 1]) + if es[|es| - 1].tier.topLower then 1 else 0
  }

  /** Among the first k entries, the top-higher ones are those below
      ceil(n/10), and the top-lower ones those from n - ceil(n/10) on. */
  lemma {:induction false} CountPrefix(wines: seq<Report.WineStat>, k: nat)
    requires 0 < |wines| && k <= |wines|
    ensures CountHigher(Render(wines).entries[..k]) == Min(k, TenPercent(|wines|))
    ensures CountLower(Render(wines).entries[..k]) == Max(0, k - (|wines| - TenPercent(|wines|)))
  {
    if k > 0 {
      var es := Render(wines).entries;
      CountPrefix(wines, k - 1);
      assert es[..k][..k - 1] == es[..k - 1];
      assert es[..k][k - 1] == es[k - 1];
    }
  }

  /** A non-empty list highlights its first ceil(n/10) items as top-higher
      and its last ceil(n/10) items as top-lower; so the first item is always
      top-higher, the last always top-lower, and a single item is both. */
  lemma RenderTiers(wines: seq<Report.WineStat>)
    requires wines != []
    ensures Render(wines).WineList?
    ensures var es, n, t := Render(wines).entries, |wines|, TenPercent(|wines|);
      && (forall i :: 0 <= i < n ==> (es[i].tier.topHigher <==> i < t))
      && (forall i :: 0 <= i < n ==> (es[i].tier.topLower <==> n - t <= i))
      && CountHigher(es) == Min(n, t)
      && CountLower(es) == Min(n, t)
      && es[0].tier.topHigher && es[n - 1].tier.topLower
      && (n == 1 ==> es[0].tier == Tier(true, true))
  {
    var es := Render(wines).entries;
    CountPrefix(wines, |wines|);
    assert es[..|wines|] == es;
  }
}
