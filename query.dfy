/** The relations the best-selling report reads, and the FROM/JOIN/WHERE part
    of its SELECT: master_wine joined to wine_product, left-joined to
    customer_order, filtered by order status and by the optional search term. */
module Query {
  import opened Outcomes

  /** A row of master_wine. The vintage is kept in the text form that SQL's
      `||` concatenation produces. */
  datatype MasterWine = MasterWine(id: int, name: string, vintage: string)

  /** A row of wine_product: one listing of a master wine. */
  datatype WineProduct = WineProduct(id: int, masterWineId: int)

  /** A row of customer_order. Amounts are whole minor currency units. */
  datatype CustomerOrder = CustomerOrder(
    id: int, wineProductId: int, status: string, totalAmount: int, quantity: int)

  /** The three tables, each in scan order. */
  datatype Store = Store(
    wines: seq<MasterWine>, products: seq<WineProduct>, orders: seq<CustomerOrder>)

  /** One row of the joined relation; `order` is None where the LEFT JOIN
      found no order for the product (all co.* columns NULL). */
  datatype JoinRow = JoinRow(wine: MasterWine, product: WineProduct, order: Option<CustomerOrder>)

  /** master_wine.id is the table's key. */
  predicate UniqueWineIds(wines: seq<MasterWine>)
  {
    forall i, j :: 0 <= i < j < |wines| ==> wines[i].id != wines[j].id
  }

  // ---------------------------------------------------------------------
  // Qualifying orders
  // ---------------------------------------------------------------------

  /** `status IN ('paid', 'dispatched')`. */
  predicate Qualifies(o: CustomerOrder)
  {
    o.status == "paid" || o.status == "dispatched"
  }

  /** The orders with a qualifying status; what `/valid_orders` selects. */
  function ValidOrders(orders: seq<CustomerOrder>): (r: seq<CustomerOrder>)
    ensures forall o :: o in r <==> o in orders && Qualifies(o)
  {
    if orders == [] then []
    else
      var rest := ValidOrders(orders[1..]);
      if Qualifies(orders[0]) then [orders[0]] + rest else rest
  }

  /** Each qualifying order is selected as often as the table holds it, and
      no other order is. */
  lemma {:induction false} ValidOrdersCount(orders: seq<CustomerOrder>, o: CustomerOrder)
    ensures multiset(ValidOrders(orders))[o] == if Qualifies(o) then multiset(orders)[o] else 0
  {
    if orders != [] {
      ValidOrdersCount(orders[1..], o);
      assert orders == [orders[0]] + orders[1..];
    }
  }

  lemma {:induction false} ValidOrdersConcat(a: seq<CustomerOrder>, b: seq<CustomerOrder>)
    ensures ValidOrders(a + b) == ValidOrders(a) + ValidOrders(b)
  {
    if a != [] {
      assert (a + b)[0] == a[0];
      assert (a + b)[1..] == a[1..] + b;
      ValidOrdersConcat(a[1..], b);
    } else {
      assert a + b == b;
    }
  }

  /** The orders of one product: `ON wp.id = co.wine_product_id`. */
  function OrdersOf(productId: int, orders: seq<CustomerOrder>): (r: seq<CustomerOrder>)
    ensures forall o :: o in r <==> o in orders && o.wineProductId == productId
  {
    if orders == [] then []
    else
      var rest := OrdersOf(productId, orders[1..]);
      if orders[0].wineProductId == productId then [orders[0]] + rest else rest
  }

  /** Restricting to one product and restricting to qualifying orders commute. */
  lemma {:induction false} OrdersOfValid(productId: int, orders: seq<CustomerOrder>)
    ensures OrdersOf(productId, ValidOrders(orders)) == ValidOrders(OrdersOf(productId, orders))
  {
    if orders != [] {
      OrdersOfValid(productId, orders[1..]);
      var head := if Qualifies(orders[0]) then [orders[0]] else [];
      OrdersOfConcat(productId, head, ValidOrders(orders[1..]));
      var mine := if orders[0].wineProductId == productId then [orders[0]] else [];
      ValidOrdersConcat(mine, OrdersOf(productId, orders[1..]));
      if Qualifies(orders[0]) {
        assert head[1..] == [];
      }
      if orders[0].wineProductId == productId {
        assert mine[1..] == [];
      }
    }
  }

  lemma {:induction false} OrdersOfConcat(productId: int, a: seq<CustomerOrder>, b: seq<CustomerOrder>)
    ensures OrdersOf(productId, a + b) == OrdersOf(productId, a) + OrdersOf(productId, b)
  {
    if a != [] {
      assert (a + b)[0] == a[0];
      assert (a + b)[1..] == a[1..] + b;
      OrdersOfConcat(productId, a[1..], b);
    } else {
      assert a + b == b;
    }
  }

  // ---------------------------------------------------------------------
  // Search
  // ---------------------------------------------------------------------

  /** `mw.name || ' ' || mw.vintage`, the display name of a wine. */
  function FullName(w: MasterWine): string
  {
    w.name + " " + w.vintage
  }

  predicate IsPrefix(pattern: string, text: string)
  {
    |pattern| <= |text| && text[..|pattern|] == pattern
  }

  /** `text LIKE '%pattern%'`, read as a literal substring test. */
  predicate Contains(text: string, pattern: string)
    decreases |text|
  {
    IsPrefix(pattern, text) || (|text| > 0 && Contains(text[1..], pattern))
  }

  /** The pattern occurs in the text starting at offset i. */
  predicate OccursAt(text: string, pattern: string, i: int)
  {
    0 <= i <= |text| - |pattern| && text[i..i + |pattern|] == pattern
  }

  /** Contains holds exactly when the pattern occurs at some offset. */
  lemma {:induction false} ContainsAt(text: string, pattern: string)
    ensures Contains(text, pattern) <==> exists i :: OccursAt(text, pattern, i)
    decreases |text|
  {
    if IsPrefix(pattern, text) {
      assert OccursAt(text, pattern, 0);
    } else if |text| > 0 {
      ContainsAt(text[1..], pattern);
      if Contains(text[1..], pattern) {
        var i :| OccursAt(text[1..], pattern, i);
        assert text[i + 1..i + 1 + |pattern|] == text[1..][i..i + |pattern|];
        assert OccursAt(text, pattern, i + 1);
      }
      if exists i :: OccursAt(text, pattern, i) {
        var i :| OccursAt(text, pattern, i);
        assert i != 0;
        assert text[1..][i - 1..i - 1 + |pattern|] == text[i..i + |pattern|];
        assert OccursAt(text[1..], pattern, i - 1);
      }
    }
  }

  /** A text shorter than the pattern cannot contain it. */
  lemma {:induction false} ShortTextLacksPattern(text: string, pattern: string)
    requires |text| < |pattern|
    ensures !Contains(text, pattern)
    decreases |text|
  {
    if |text| > 0 {
      ShortTextLacksPattern(text[1..], pattern);
    }
  }

  /** The JavaScript test `search ? … : ''`: only a present, non-empty term
      adds a predicate. */
  predicate SearchActive(search: Option<string>)
  {
    search.Some? && search.value != ""
  }

  /** The search predicate of the WHERE clause, or true when none is added. */
  predicate MatchesSearch(w: MasterWine, search: Option<string>)
  {
    !SearchActive(search) || Contains(FullName(w), search.value)
  }

  // ---------------------------------------------------------------------
  // FROM master_wine INNER JOIN wine_product LEFT JOIN customer_order
  // ---------------------------------------------------------------------

  /** Joined rows carrying the given orders of one product. */
  function SomeRows(w: MasterWine, p: WineProduct, os: seq<CustomerOrder>): (r: seq<JoinRow>)
    ensures |r| == |os|
    ensures forall i :: 0 <= i < |r| ==> r[i] == JoinRow(w, p, Some(os[i]))
  {
    if os == [] then [] else [JoinRow(w, p, Some(os[0]))] + SomeRows(w, p, os[1..])
  }

  /** The LEFT JOIN of one product with customer_order: its orders, or a
      single row with NULL order columns when it has none. */
  function LeftRows(w: MasterWine, p: WineProduct, orders: seq<CustomerOrder>): (r: seq<JoinRow>)
    ensures r != []
    ensures forall row :: row in r ==> row.wine == w && row.product == p
    ensures forall row :: row in r && row.order.Some? ==>
      row.order.value in orders && row.order.value.wineProductId == p.id
    ensures forall o :: o in orders && o.wineProductId == p.id ==> JoinRow(w, p, Some(o)) in r
    ensures OrdersOf(p.id, orders) == [] <==> r == [JoinRow(w, p, None)]
    ensures forall row :: row in r && row.order.None? ==> OrdersOf(p.id, orders) == []
    ensures OrdersOf(p.id, orders) != [] ==> JoinedOrders(r) == OrdersOf(p.id, orders)
  {
    var matching := OrdersOf(p.id, orders);
    if matching == [] then [JoinRow(w, p, None)]
    else
      JoinedOrdersOfSomeRows(w, p, matching);
      var r := SomeRows(w, p, matching);
      assert forall o :: o in orders && o.wineProductId == p.id ==> JoinRow(w, p, Some(o)) in r by {
        forall o | o in orders && o.wineProductId == p.id
          ensures JoinRow(w, p, Some(o)) in r
        {
          var i :| 0 <= i < |matching| && matching[i] == o;
          assert r[i] == JoinRow(w, p, Some(o));
        }
      }
      assert r[0].order.Some?;
      r
  }

  /** All joined rows of one wine: `INNER JOIN wine_product ON mw.id = wp.master_wine_id`. */
  function ProductRows(w: MasterWine, products: seq<WineProduct>, orders: seq<CustomerOrder>): (r: seq<JoinRow>)
    ensures forall row :: row in r ==>
      row.wine == w && row.product in products && row.product.masterWineId == w.id
    ensures forall row :: row in r && row.order.Some? ==>
      row.order.value in orders && row.order.value.wineProductId == row.product.id
    ensures forall row :: row in r && row.order.None? ==> OrdersOf(row.product.id, orders) == []
    ensures forall p, o :: p in products && p.masterWineId == w.id && o in orders && o.wineProductId == p.id ==>
      JoinRow(w, p, Some(o)) in r
    ensures forall p :: p in products && p.masterWineId == w.id && OrdersOf(p.id, orders) == [] ==>
      JoinRow(w, p, None) in r
  {
    if products == [] then []
    else
      var rest := ProductRows(w, products[1..], orders);
      if products[0].masterWineId == w.id then LeftRows(w, products[0], orders) + rest else rest
  }

  /** The whole joined relation, wine by wine. */
  function JoinWines(wines: seq<MasterWine>, products: seq<WineProduct>, orders: seq<CustomerOrder>): (r: seq<JoinRow>)
    ensures forall row :: row in r ==>
      row.wine in wines && row.product in products && row.product.masterWineId == row.wine.id
    ensures forall row :: row in r && row.order.Some? ==>
      row.order.value in orders && row.order.value.wineProductId == row.product.id
    ensures forall row :: row in r && row.order.None? ==> OrdersOf(row.product.id, orders) == []
    ensures forall w, p, o :: w in wines && p in products && p.masterWineId == w.id && o in orders && o.wineProductId == p.id ==>
      JoinRow(w, p, Some(o)) in r
    ensures forall w, p :: w in wines && p in products && p.masterWineId == w.id && OrdersOf(p.id, orders) == [] ==>
      JoinRow(w, p, None) in r
  {
    if wines == [] then []
    else ProductRows(wines[0], products, orders) + JoinWines(wines[1..], products, orders)
  }

  function LeftJoin(s: Store): seq<JoinRow>
  {
    JoinWines(s.wines, s.products, s.orders)
  }

  // ---------------------------------------------------------------------
  // WHERE
  // ---------------------------------------------------------------------

  /** `co.status IN ('paid', 'dispatched') [AND fullname LIKE '%search%']`.
      A NULL status (no order) makes the condition false. */
  predicate Passes(row: JoinRow, search: Option<string>)
  {
    row.order.Some? && Qualifies(row.order.value) && MatchesSearch(row.wine, search)
  }

  function Where(rows: seq<JoinRow>, search: Option<string>): (r: seq<JoinRow>)
    ensures forall row :: row in r <==> row in rows && Passes(row, search)
  {
    if rows == [] then []
    else
      var rest := Where(rows[1..], search);
      if Passes(rows[0], search) then [rows[0]] + rest else rest
  }

  lemma {:induction false} WhereConcat(a: seq<JoinRow>, b: seq<JoinRow>, search: Option<string>)
    ensures Where(a + b, search) == Where(a, search) + Where(b, search)
  {
    if a != [] {
      assert (a + b)[0] == a[0];
      assert (a + b)[1..] == a[1..] + b;
      WhereConcat(a[1..], b, search);
    } else {
      assert a + b == b;
    }
  }

  /** An empty search term filters exactly as an absent one. */
  lemma {:induction false} WhereEmptySearch(rows: seq<JoinRow>)
    ensures Where(rows, Some("")) == Where(rows, None)
  {
    if rows != [] {
      WhereEmptySearch(rows[1..]);
    }
  }

  // ---------------------------------------------------------------------
  // The inner join the filtered LEFT JOIN amounts to
  // ---------------------------------------------------------------------

  /** Rows of one wine joined only to the given orders, with no NULL rows. */
  function InnerRows(w: MasterWine, products: seq<WineProduct>, orders: seq<CustomerOrder>): (r: seq<JoinRow>)
    ensures forall row :: row in r ==> row.wine == w && row.order.Some?
  {
    if products == [] then []
    else
      var rest := InnerRows(w, products[1..], orders);
      if products[0].masterWineId == w.id then SomeRows(w, products[0], OrdersOf(products[0].id, orders)) + rest
      else rest
  }

  /** The inner join of the wines matching the search with their products and
      the given orders. */
  function InnerJoin(wines: seq<MasterWine>, products: seq<WineProduct>, orders: seq<CustomerOrder>,
                     search: Option<string>): (r: seq<JoinRow>)
    ensures forall row :: row in r ==> row.wine in wines && MatchesSearch(row.wine, search) && row.order.Some?
  {
    if wines == [] then []
    else
      var rest := InnerJoin(wines[1..], products, orders, search);
      if MatchesSearch(wines[0], search) then InnerRows(wines[0], products, orders) + rest else rest
  }

  /** When no wine matches the search, the join is empty. */
  lemma {:induction false} InnerJoinNoMatch(wines: seq<MasterWine>, products: seq<WineProduct>,
                                            orders: seq<CustomerOrder>, search: Option<string>)
    requires forall w :: w in wines ==> !MatchesSearch(w, search)
    ensures InnerJoin(wines, products, orders, search) == []
  {
    if wines != [] {
      assert wines[0] in wines;
      InnerJoinNoMatch(wines[1..], products, orders, search);
    }
  }

  lemma {:induction false} WhereSomeRows(w: MasterWine, p: WineProduct, os: seq<CustomerOrder>, search: Option<string>)
    ensures Where(SomeRows(w, p, os), search) ==
      if MatchesSearch(w, search) then SomeRows(w, p, ValidOrders(os)) else []
  {
    if os != [] {
      WhereSomeRows(w, p, os[1..], search);
      assert SomeRows(w, p, os)[1..] == SomeRows(w, p, os[1..]);
    }
  }

  lemma WhereLeftRows(w: MasterWine, p: WineProduct, orders: seq<CustomerOrder>, search: Option<string>)
    ensures Where(LeftRows(w, p, orders), search) ==
      if MatchesSearch(w, search) then SomeRows(w, p, OrdersOf(p.id, ValidOrders(orders))) else []
  {
    OrdersOfValid(p.id, orders);
    var matching := OrdersOf(p.id, orders);
    if matching == [] {
      assert ValidOrders(matching) == [];
      assert Where([JoinRow(w, p, None)], search) == [];
    } else {
      WhereSomeRows(w, p, matching, search);
    }
  }

  lemma {:induction false} WhereProductRows(w: MasterWine, products: seq<WineProduct>, orders: seq<CustomerOrder>,
                                            search: Option<string>)
    ensures Where(ProductRows(w, products, orders), search) ==
      if MatchesSearch(w, search) then InnerRows(w, products, ValidOrders(orders)) else []
  {
    if products != [] {
      var head := if products[0].masterWineId == w.id then LeftRows(w, products[0], orders) else [];
      WhereConcat(head, ProductRows(w, products[1..], orders), search);
      WhereProductRows(w, products[1..], orders, search);
      if products[0].masterWineId == w.id {
        WhereLeftRows(w, products[0], orders, search);
      }
    }
  }

  /** The WHERE clause tests a column of the LEFT-JOINed customer_order, so a
      product without orders contributes nothing: the filtered LEFT JOIN is
      the inner join with the qualifying orders only. */
  lemma {:induction false} WhereJoinWines(wines: seq<MasterWine>, products: seq<WineProduct>, orders: seq<CustomerOrder>,
                                          search: Option<string>)
    ensures Where(JoinWines(wines, products, orders), search) ==
      InnerJoin(wines, products, ValidOrders(orders), search)
  {
    if wines != [] {
      WhereConcat(ProductRows(wines[0], products, orders), JoinWines(wines[1..], products, orders), search);
      WhereProductRows(wines[0], products, orders, search);
      WhereJoinWines(wines[1..], products, orders, search);
    }
  }

  // ---------------------------------------------------------------------
  // The orders a wine's aggregates are taken over
  // ---------------------------------------------------------------------

  /** The order columns of joined rows, skipping NULLs: what SUM and COUNT see. */
  function JoinedOrders(rows: seq<JoinRow>): (r: seq<CustomerOrder>)
    ensures |r| <= |rows|
    ensures forall row :: row in rows && row.order.Some? ==> row.order.value in r
    ensures (forall row :: row in rows ==> row.order.Some?) ==> |r| == |rows|
  {
    if rows == [] then []
    else
      var rest := JoinedOrders(rows[1..]);
      if rows[0].order.Some? then [rows[0].order.value] + rest else rest
  }

  lemma {:induction false} JoinedOrdersConcat(a: seq<JoinRow>, b: seq<JoinRow>)
    ensures JoinedOrders(a + b) == JoinedOrders(a) + JoinedOrders(b)
  {
    if a != [] {
      assert (a + b)[0] == a[0];
      assert (a + b)[1..] == a[1..] + b;
      JoinedOrdersConcat(a[1..], b);
    } else {
      assert a + b == b;
    }
  }

  lemma {:induction false} JoinedOrdersOfSomeRows(w: MasterWine, p: WineProduct, os: seq<CustomerOrder>)
    ensures JoinedOrders(SomeRows(w, p, os)) == os
  {
    if os != [] {
      assert SomeRows(w, p, os)[1..] == SomeRows(w, p, os[1..]);
      JoinedOrdersOfSomeRows(w, p, os[1..]);
    }
  }

  /** The given orders of every product of master wine `id`, product by product. */
  function ProductOrders(id: int, products: seq<WineProduct>, orders: seq<CustomerOrder>): seq<CustomerOrder>
  {
    if products == [] then []
    else
      var rest := ProductOrders(id, products[1..], orders);
      if products[0].masterWineId == id then OrdersOf(products[0].id, orders) + rest else rest
  }

  /** An order of any product of master wine `id` is among its orders. */
  lemma {:induction false} OrderInProductOrders(id: int, products: seq<WineProduct>, orders: seq<CustomerOrder>,
                                                p: WineProduct, o: CustomerOrder)
    requires p in products && p.masterWineId == id
    requires o in orders && o.wineProductId == p.id
    ensures o in ProductOrders(id, products, orders)
  {
    if products[0] != p {
      OrderInProductOrders(id, products[1..], orders, p, o);
    }
  }

  /** The qualifying orders of all products of master wine `id`: the orders
      its revenue, bottle count and order count are taken over. */
  function WineOrders(s: Store, id: int): seq<CustomerOrder>
  {
    ProductOrders(id, s.products, ValidOrders(s.orders))
  }

  /** The inner-joined rows of a wine carry exactly that wine's orders. */
  lemma {:induction false} JoinedOrdersOfInnerRows(w: MasterWine, products: seq<WineProduct>, orders: seq<CustomerOrder>)
    ensures JoinedOrders(InnerRows(w, products, orders)) == ProductOrders(w.id, products, orders)
  {
    if products != [] {
      JoinedOrdersOfInnerRows(w, products[1..], orders);
      if products[0].masterWineId == w.id {
        var p := products[0];
        JoinedOrdersConcat(SomeRows(w, p, OrdersOf(p.id, orders)), InnerRows(w, products[1..], orders));
        JoinedOrdersOfSomeRows(w, p, OrdersOf(p.id, orders));
      }
    }
  }

  /** A row of a wine that matches the search is a row of the inner join. */
  lemma {:induction false} InnerJoinHasRow(wines: seq<MasterWine>, products: seq<WineProduct>,
                                           orders: seq<CustomerOrder>, search: Option<string>,
                                           w: MasterWine, row: JoinRow)
    requires w in wines && MatchesSearch(w, search)
    requires row in InnerRows(w, products, orders)
    ensures row in InnerJoin(wines, products, orders, search)
  {
    if wines[0] != w {
      InnerJoinHasRow(wines[1..], products, orders, search, w, row);
    }
  }

  lemma WhereLeftJoinIsInnerJoin(s: Store, search: Option<string>)
    ensures Where(LeftJoin(s), search) == InnerJoin(s.wines, s.products, ValidOrders(s.orders), search)
  {
    WhereJoinWines(s.wines, s.products, s.orders, search);
  }
}
