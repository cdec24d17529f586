/** The `/best_selling_wines` report: the GROUP BY and ORDER BY of its SELECT,
    the choice of ranking, the `{items, total, err}` envelope it answers with,
    and `/valid_orders`, which shares the status filter and the envelope. */
module Report {
  import opened Outcomes
  import opened OrderFilters
  import opened Query

  /** One row of the report: `{ id, full_name, revenue, sold_bottles, order_count }`. */
  datatype WineStat = WineStat(id: int, fullName: string, revenue: int, soldBottles: int, orderCount: int)

  // ---------------------------------------------------------------------
  // Ranking
  // ---------------------------------------------------------------------

  /** `ORDER_FILTERS[orderBy] || ORDER_FILTERS.REVENUE`: the ranking requested,
      or revenue when the key is absent or unknown. */
  function ResolveMetric(orderBy: Option<string>): (m: Metric)
    ensures (orderBy.Some? && Key(m) == orderBy.value)
         || (m == Revenue && forall k: Metric :: orderBy != Some(Key(k)))
  {
    if orderBy.None? then Revenue
    else
      match Lookup(orderBy.value)
      case Some(m) => m
      case None => Revenue
  }

  /** The key of a ranking selects that ranking. */
  lemma KeyResolvesToItself(m: Metric)
    ensures ResolveMetric(Some(Key(m))) == m
  {
    KeyInjective(m, ResolveMetric(Some(Key(m))));
  }

  /** The value of the column a ranking orders by. */
  function Measure(x: WineStat, m: Metric): int
  {
    match m
    case Revenue => x.revenue
    case Quantity => x.soldBottles
    case Orders => x.orderCount
  }

  predicate NonIncreasing(rows: seq<WineStat>, m: Metric)
  {
    forall i, j :: 0 <= i < j < |rows| ==> Measure(rows[i], m) >= Measure(rows[j], m)
  }

  predicate DistinctIds(rows: seq<WineStat>)
  {
    forall i, j :: 0 <= i < j < |rows| ==> rows[i].id != rows[j].id
  }

  /** The first row of a non-increasing sequence ranks highest. */
  lemma HeadRanksHighest(rows: seq<WineStat>, m: Metric)
    requires NonIncreasing(rows, m) && rows != []
    ensures forall z :: z in rows ==> Measure(z, m) <= Measure(rows[0], m)
  {
    forall z | z in rows
      ensures Measure(z, m) <= Measure(rows[0], m)
    {
      var k :| 0 <= k < |rows| && rows[k] == z;
    }
  }

  /** A row ranking at least as high as all rows of a non-increasing
      sequence may go in front of it. */
  lemma PrependKeepsOrder(y: WineStat, rows: seq<WineStat>, m: Metric)
    requires NonIncreasing(rows, m)
    requires forall z :: z in rows ==> Measure(z, m) <= Measure(y, m)
    ensures NonIncreasing([y] + rows, m)
  {
    var r := [y] + rows;
    forall i, j | 0 <= i < j < |r|
      ensures Measure(r[i], m) >= Measure(r[j], m)
    {
      assert r[j] == rows[j - 1];
      if i == 0 {
        assert rows[j - 1] in rows;
      } else {
        assert r[i] == rows[i - 1];
      }
    }
  }

  /** Places x before the first row it does not rank below. */
  function Insert(x: WineStat, rows: seq<WineStat>, m: Metric): (r: seq<WineStat>)
    requires NonIncreasing(rows, m)
    ensures NonIncreasing(r, m)
    ensures multiset(r) == multiset(rows) + multiset{x}
  {
    if rows == [] || Measure(x, m) >= Measure(rows[0], m) then
      if rows != [] then HeadRanksHighest(rows, m); PrependKeepsOrder(x, rows, m); [x] + rows
      else [x]
    else
      var rest := Insert(x, rows[1..], m);
      assert rows == [rows[0]] + rows[1..];
      assert forall y :: y in rest ==> Measure(y, m) <= Measure(rows[0], m) by {
        HeadRanksHighest(rows, m);
        forall y | y in rest
          ensures Measure(y, m) <= Measure(rows[0], m)
        {
          assert y in multiset(rest);
          if y != x {
            assert y in multiset(rows[1..]);
            assert y in rows;
          }
        }
      }
      PrependKeepsOrder(rows[0], rest, m);
      [rows[0]] + rest
  }

  /** `ORDER BY <metric> DESC`. SQLite leaves the order of equal values open;
      this one keeps them in group order. */
  function SortDesc(rows: seq<WineStat>, m: Metric): (r: seq<WineStat>)
    ensures NonIncreasing(r, m)
    ensures multiset(r) == multiset(rows)
  {
    if rows == [] then []
    else
      assert rows == [rows[0]] + rows[1..];
      Insert(rows[0], SortDesc(rows[1..], m), m)
  }

  lemma {:induction false} InsertKeepsIdsDistinct(x: WineStat, rows: seq<WineStat>, m: Metric)
    requires NonIncreasing(rows, m) && DistinctIds(rows)
    requires forall y :: y in rows ==> y.id != x.id
    ensures DistinctIds(Insert(x, rows, m))
  {
    if rows != [] && Measure(x, m) < Measure(rows[0], m) {
      InsertKeepsIdsDistinct(x, rows[1..], m);
      var r := Insert(x, rows, m);
      forall j | 0 < j < |r|
        ensures r[0].id != r[j].id
      {
        assert r[j] in multiset(Insert(x, rows[1..], m));
      }
    }
  }

  lemma {:induction false} SortKeepsIdsDistinct(rows: seq<WineStat>, m: Metric)
    requires DistinctIds(rows)
    ensures DistinctIds(SortDesc(rows, m))
  {
    if rows != [] {
      var rest := SortDesc(rows[1..], m);
      SortKeepsIdsDistinct(rows[1..], m);
      forall y | y in rest
        ensures y.id != rows[0].id
      {
        assert y in multiset(rows[1..]);
      }
      InsertKeepsIdsDistinct(rows[0], rest, m);
    }
  }

  // ---------------------------------------------------------------------
  // GROUP BY mw.id
  // ---------------------------------------------------------------------

  /** The rows of one group. */
  function RowsOf(id: int, rows: seq<JoinRow>): (r: seq<JoinRow>)
    ensures forall row :: row in r <==> row in rows && row.wine.id == id
  {
    if rows == [] then []
    else
      var rest := RowsOf(id, rows[1..]);
      if rows[0].wine.id == id then [rows[0]] + rest else rest
  }

  lemma {:induction false} RowsOfConcat(id: int, a: seq<JoinRow>, b: seq<JoinRow>)
    ensures RowsOf(id, a + b) == RowsOf(id, a) + RowsOf(id, b)
  {
    if a != [] {
      assert (a + b)[0] == a[0];
      assert (a + b)[1..] == a[1..] + b;
      RowsOfConcat(id, a[1..], b);
    } else {
      assert a + b == b;
    }
  }

  /** Rows that all belong to one wine form its whole group or none of another's. */
  lemma {:induction false} RowsOfOneWine(id: int, rows: seq<JoinRow>, w: MasterWine)
    requires forall row :: row in rows ==> row.wine == w
    ensures RowsOf(id, rows) == if w.id == id then rows else []
  {
    if rows != [] {
      RowsOfOneWine(id, rows[1..], w);
      assert rows[0] in rows;
      assert rows == [rows[0]] + rows[1..];
    }
  }

  /** The distinct wine ids of the rows. */
  function GroupIds(rows: seq<JoinRow>): (r: seq<int>)
    ensures forall id :: id in r <==> exists row :: row in rows && row.wine.id == id
    ensures forall i, j :: 0 <= i < j < |r| ==> r[i] != r[j]
  {
    if rows == [] then []
    else
      var rest := GroupIds(rows[1..]);
      if rows[0].wine.id in rest then rest else [rows[0].wine.id] + rest
  }

  /** `SUM(co.total_amount)` over the non-NULL order columns. */
  function SumAmount(os: seq<CustomerOrder>): int
  {
    if os == [] then 0 else os[0].totalAmount + SumAmount(os[1..])
  }

  /** `SUM(co.quantity)` over the non-NULL order columns. */
  function SumQuantity(os: seq<CustomerOrder>): int
  {
    if os == [] then 0 else os[0].quantity + SumQuantity(os[1..])
  }

  /** SUM distributes over a split of the summed orders. */
  lemma {:induction false} SumAmountConcat(a: seq<CustomerOrder>, b: seq<CustomerOrder>)
    ensures SumAmount(a + b) == SumAmount(a) + SumAmount(b)
  {
    if a != [] {
      assert (a + b)[1..] == a[1..] + b;
      SumAmountConcat(a[1..], b);
    } else {
      assert a + b == b;
    }
  }

  lemma {:induction false} SumQuantityConcat(a: seq<CustomerOrder>, b: seq<CustomerOrder>)
    ensures SumQuantity(a + b) == SumQuantity(a) + SumQuantity(b)
  {
    if a != [] {
      assert (a + b)[1..] == a[1..] + b;
      SumQuantityConcat(a[1..], b);
    } else {
      assert a + b == b;
    }
  }

  /** The select list over one group: full_name from a row of the group,
      SUM(co.total_amount), SUM(co.quantity), COUNT(co.id). */
  function Aggregate(id: int, group: seq<JoinRow>): (r: WineStat)
    requires group != []
    ensures r.id == id && r.fullName == FullName(group[0].wine)
    ensures r.orderCount <= |group|
    ensures (forall row :: row in group ==> row.order.Some?) ==> r.orderCount == |group|
  {
    var os := JoinedOrders(group);
    WineStat(id, FullName(group[0].wine), SumAmount(os), SumQuantity(os), |os|)
  }

  function Groups(ids: seq<int>, rows: seq<JoinRow>): (r: seq<WineStat>)
    requires forall id :: id in ids ==> RowsOf(id, rows) != []
    ensures |r| == |ids|
    ensures forall i :: 0 <= i < |ids| ==> r[i] == Aggregate(ids[i], RowsOf(ids[i], rows))
  {
    if ids == [] then [] else [Aggregate(ids[0], RowsOf(ids[0], rows))] + Groups(ids[1..], rows)
  }

  /** One aggregated row per wine id occurring in the rows. */
  function GroupBy(rows: seq<JoinRow>): (r: seq<WineStat>)
    ensures DistinctIds(r)
    ensures forall x :: x in r ==> RowsOf(x.id, rows) != [] && x == Aggregate(x.id, RowsOf(x.id, rows))
  {
    var ids := GroupIds(rows);
    assert forall id :: id in ids ==> RowsOf(id, rows) != [] by {
      forall id | id in ids
        ensures RowsOf(id, rows) != []
      {
        var row :| row in rows && row.wine.id == id;
        assert row in RowsOf(id, rows);
      }
    }
    Groups(ids, rows)
  }

  /** Every wine id occurring in the rows has its group. */
  lemma GroupByHasId(rows: seq<JoinRow>, row: JoinRow)
    requires row in rows
    ensures exists x :: x in GroupBy(rows) && x.id == row.wine.id
  {
    var ids := GroupIds(rows);
    assert row.wine.id in ids;
    var i :| 0 <= i < |ids| && ids[i] == row.wine.id;
    assert GroupBy(rows)[i].id == row.wine.id;
  }

  /** Under a keyed master_wine, the group of a wine that matches the search
      holds exactly that wine's orders, across all its products. */
  lemma {:induction false} GroupOrders(wines: seq<MasterWine>, products: seq<WineProduct>, orders: seq<CustomerOrder>,
                                       search: Option<string>, w: MasterWine)
    requires UniqueWineIds(wines) && w in wines && MatchesSearch(w, search)
    ensures JoinedOrders(RowsOf(w.id, InnerJoin(wines, products, orders, search))) == ProductOrders(w.id, products, orders)
  {
    var head := if MatchesSearch(wines[0], search) then InnerRows(wines[0], products, orders) else [];
    var tail := InnerJoin(wines[1..], products, orders, search);
    RowsOfConcat(w.id, head, tail);
    JoinedOrdersConcat(RowsOf(w.id, head), RowsOf(w.id, tail));
    RowsOfOneWine(w.id, head, wines[0]);
    if wines[0] == w {
      JoinedOrdersOfInnerRows(w, products, orders);
      forall row | row in tail
        ensures row.wine.id != w.id
      {
        var j :| 0 <= j < |wines[1..]| && wines[1..][j] == row.wine;
        assert wines[j + 1] == row.wine;
      }
      assert RowsOf(w.id, tail) == [];
    } else {
      var j :| 0 <= j < |wines| && wines[j] == w;
      assert j != 0;
      assert wines[0].id != w.id;
      assert w in wines[1..] by {
        assert wines[1..][j - 1] == w;
      }
      assert UniqueWineIds(wines[1..]) by {
        forall a, b | 0 <= a < b < |wines[1..]|
          ensures wines[1..][a].id != wines[1..][b].id
        {
          assert wines[1..][a] == wines[a + 1] && wines[1..][b] == wines[b + 1];
        }
      }
      GroupOrders(wines[1..], products, orders, search, w);
    }
  }

  // ---------------------------------------------------------------------
  // The report
  // ---------------------------------------------------------------------

  /** The rows the WHERE clause keeps. */
  function Selected(s: Store, search: Option<string>): seq<JoinRow>
  {
    Where(LeftJoin(s), search)
  }

  /** The result rows of the best-selling SELECT for the given request. */
  function BestSellingWines(s: Store, orderBy: Option<string>, search: Option<string>): (r: seq<WineStat>)
    ensures NonIncreasing(r, ResolveMetric(orderBy))
    ensures DistinctIds(r)
    ensures forall x :: x in r <==> x in GroupBy(Selected(s, search))
  {
    var groups := GroupBy(Selected(s, search));
    SortKeepsIdsDistinct(groups, ResolveMetric(orderBy));
    var r := SortDesc(groups, ResolveMetric(orderBy));
    assert forall x :: x in r <==> x in multiset(groups);
    r
  }

  /** Every row of the report is its wine's aggregate over exactly the
      qualifying orders of all that wine's products, and has at least one. */
  lemma ReportRowIsAggregate(s: Store, orderBy: Option<string>, search: Option<string>)
    requires UniqueWineIds(s.wines)
    ensures forall x :: x in BestSellingWines(s, orderBy, search) ==>
      && (exists w :: w in s.wines && w.id == x.id && MatchesSearch(w, search) && x.fullName == FullName(w))
      && x.revenue == SumAmount(WineOrders(s, x.id))
      && x.soldBottles == SumQuantity(WineOrders(s, x.id))
      && x.orderCount == |WineOrders(s, x.id)| >= 1
  {
    var rows := Selected(s, search);
    WhereLeftJoinIsInnerJoin(s, search);
    forall x | x in BestSellingWines(s, orderBy, search)
      ensures exists w :: w in s.wines && w.id == x.id && MatchesSearch(w, search) && x.fullName == FullName(w)
      ensures x.revenue == SumAmount(WineOrders(s, x.id))
      ensures x.soldBottles == SumQuantity(WineOrders(s, x.id))
      ensures x.orderCount == |WineOrders(s, x.id)| >= 1
    {
      var group := RowsOf(x.id, rows);
      assert group[0] in group;
      var w := group[0].wine;
      assert w in s.wines && w.id == x.id && MatchesSearch(w, search);
      GroupOrders(s.wines, s.products, ValidOrders(s.orders), search, w);
    }
  }

  /** A wine with no qualifying order, or with no product, is absent. */
  lemma UnsoldWineIsAbsent(s: Store, orderBy: Option<string>, search: Option<string>, id: int)
    requires WineOrders(s, id) == []
    ensures forall x :: x in BestSellingWines(s, orderBy, search) ==> x.id != id
  {
    forall x | x in BestSellingWines(s, orderBy, search)
      ensures WineOrders(s, x.id) != []
    {
      var group := RowsOf(x.id, Selected(s, search));
      var row := group[0];
      assert row in group;
      var o := row.order.value;
      assert o in ValidOrders(s.orders);
      OrderInProductOrders(x.id, s.products, ValidOrders(s.orders), row.product, o);
    }
  }

  /** Every wine that matches the search and has a qualifying order is reported. */
  lemma ReportIsComplete(s: Store, orderBy: Option<string>, search: Option<string>, w: MasterWine)
    requires w in s.wines && MatchesSearch(w, search)
    requires WineOrders(s, w.id) != []
    ensures exists x :: x in BestSellingWines(s, orderBy, search) && x.id == w.id
  {
    var valid := ValidOrders(s.orders);
    JoinedOrdersOfInnerRows(w, s.products, valid);
    var own := InnerRows(w, s.products, valid);
    assert own[0] in own;
    InnerJoinHasRow(s.wines, s.products, valid, search, w, own[0]);
    WhereLeftJoinIsInnerJoin(s, search);
    GroupByHasId(Selected(s, search), own[0]);
  }

  /** With a search term, every reported full name contains it. */
  lemma ReportRowsMatchSearch(s: Store, orderBy: Option<string>, search: Option<string>)
    requires SearchActive(search)
    ensures forall x :: x in BestSellingWines(s, orderBy, search) ==> Contains(x.fullName, search.value)
  {
    forall x | x in BestSellingWines(s, orderBy, search)
      ensures Contains(x.fullName, search.value)
    {
      var group := RowsOf(x.id, Selected(s, search));
      assert group[0] in group;
    }
  }

  /** A search term no wine matches yields an empty report. */
  lemma UnmatchedSearchIsEmpty(s: Store, orderBy: Option<string>, search: Option<string>)
    requires forall w :: w in s.wines ==> !MatchesSearch(w, search)
    ensures BestSellingWines(s, orderBy, search) == []
  {
    WhereLeftJoinIsInnerJoin(s, search);
    InnerJoinNoMatch(s.wines, s.products, ValidOrders(s.orders), search);
    assert GroupBy([]) == [];
  }

  /** An empty search term excludes nothing: it reports as an absent one. */
  lemma EmptySearchIsNoSearch(s: Store, orderBy: Option<string>)
    ensures BestSellingWines(s, orderBy, Some("")) == BestSellingWines(s, orderBy, None)
  {
    WhereEmptySearch(LeftJoin(s));
  }

  /** An order whose status does not qualify, added anywhere to customer_order,
      changes nothing in the report. */
  lemma NonQualifyingOrderIgnored(s: Store, orderBy: Option<string>, search: Option<string>,
                                  k: nat, o: CustomerOrder)
    requires k <= |s.orders| && !Qualifies(o)
    ensures BestSellingWines(Store(s.wines, s.products, s.orders[..k] + [o] + s.orders[k..]), orderBy, search)
         == BestSellingWines(s, orderBy, search)
  {
    var s' := Store(s.wines, s.products, s.orders[..k] + [o] + s.orders[k..]);
    ValidOrdersConcat(s.orders[..k] + [o], s.orders[k..]);
    ValidOrdersConcat(s.orders[..k], [o]);
    ValidOrdersConcat(s.orders[..k], s.orders[k..]);
    assert s.orders[..k] + s.orders[k..] == s.orders;
    assert ValidOrders(s'.orders) == ValidOrders(s.orders);
    WhereLeftJoinIsInnerJoin(s, search);
    WhereLeftJoinIsInnerJoin(s', search);
  }

  // ---------------------------------------------------------------------
  // The response envelope
  // ---------------------------------------------------------------------

  /** The error object the sqlite driver reports. */
  datatype DbError = DbError(message: string)

  /** `{ items, total, err }`. */
  datatype Envelope<T> = Envelope(items: seq<T>, total: int, err: Option<DbError>)

  /** The envelope for the outcome of a statement: its rows, or no rows and
      the error carried along. */
  function Respond<T>(outcome: Result<seq<T>, DbError>): (e: Envelope<T>)
    ensures e.total == |e.items|
    ensures outcome.Success? ==> e.items == outcome.value && e.err == None
    ensures outcome.Failure? ==> e.items == [] && e.err == Some(outcome.error)
  {
    match outcome
    case Success(rows) => Envelope(rows, |rows|, None)
    case Failure(err) => Envelope([], 0, Some(err))
  }

  /** `{ items: rows || [], total: rows.length, err }` as written: on a failed
      statement the driver leaves `rows` undefined and reading its length
      throws, so no envelope is produced (None). */
  function RespondAsWritten<T>(outcome: Result<seq<T>, DbError>): (r: Option<Envelope<T>>)
    ensures r.Some? <==> outcome.Success?
    ensures r.Some? ==> r.value.items == outcome.value && r.value.total == |outcome.value| && r.value.err == None
  {
    match outcome
    case Success(rows) => Some(Envelope(rows, |rows|, None))
    case Failure(_) => None
  }

  /** A failed statement yields no response as written, where Respond yields
      an empty, error-carrying envelope. */
  lemma AsWrittenLosesStorageError<T>(err: DbError)
    ensures RespondAsWritten<T>(Failure(err)) == None
    ensures Respond<T>(Failure(err)) == Envelope([], 0, Some(err))
  {
  }

  /** On success the written envelope and the corrected one agree. */
  lemma AsWrittenAgreesOnSuccess<T>(rows: seq<T>)
    ensures RespondAsWritten(Success(rows)) == Some(Respond(Success(rows)))
  {
  }

  // ---------------------------------------------------------------------
  // Endpoints
  // ---------------------------------------------------------------------

  /** `/best_selling_wines?orderBy=…&search=…` against a store, or against a
      driver that fails the statement. */
  function BestSellingWinesEndpoint(db: Result<Store, DbError>, orderBy: Option<string>, search: Option<string>)
    : (e: Envelope<WineStat>)
    ensures e.total == |e.items|
    ensures db.Failure? ==> e.items == [] && e.err == Some(db.error)
    ensures db.Success? ==> e.err == None && e.items == BestSellingWines(db.value, orderBy, search)
    ensures NonIncreasing(e.items, ResolveMetric(orderBy))
  {
    match db
    case Success(s) => Respond(Success(BestSellingWines(s, orderBy, search)))
    case Failure(err) => Respond(Failure(err))
  }

  /** `/valid_orders`: every order with a qualifying status, and no other. */
  function ValidOrdersEndpoint(db: Result<Store, DbError>): (e: Envelope<CustomerOrder>)
    ensures e.total == |e.items|
    ensures forall o :: o in e.items ==> Qualifies(o)
    ensures db.Success? ==> forall o :: o in db.value.orders && Qualifies(o) ==> o in e.items
    ensures db.Success? ==> forall o :: o in e.items ==> o in db.value.orders
    ensures db.Success? ==> e.err == None && e.items == ValidOrders(db.value.orders)
    ensures db.Failure? ==> e.items == [] && e.err == Some(db.error)
  {
    match db
    case Success(s) => Respond(Success(ValidOrders(s.orders)))
    case Failure(err) => Respond(Failure(err))
  }
}
