/** The report worked out on a small store: Alpha has two qualifying orders
    (30 and 20, three and two bottles), Beta one (100, one bottle), and Gamma
    only a cancelled one. */
module Scenarios {
  import opened Outcomes
  import opened OrderFilters
  import opened Query
  import opened Report

  function Shop(): Store
  {
    Store(
      [MasterWine(1, "Alpha", "2019"), MasterWine(2, "Beta", "2020"), MasterWine(3, "Gamma", "2021")],
      [WineProduct(10, 1), WineProduct(20, 2), WineProduct(30, 3)],
      [CustomerOrder(100, 10, "paid", 30, 3), CustomerOrder(101, 10, "dispatched", 20, 2),
       CustomerOrder(102, 20, "paid", 100, 1), CustomerOrder(103, 30, "cancelled", 500, 9)])
  }

  function AlphaStat(): WineStat { WineStat(1, "Alpha 2019", 50, 5, 2) }

  function BetaStat(): WineStat { WineStat(2, "Beta 2020", 100, 1, 1) }

  function Qualifying(): seq<CustomerOrder>
  {
    [Shop().orders[0], Shop().orders[1], Shop().orders[2]]
  }

  function AlphaRows(): seq<JoinRow>
  {
    [JoinRow(Shop().wines[0], Shop().products[0], Some(Shop().orders[0])),
     JoinRow(Shop().wines[0], Shop().products[0], Some(Shop().orders[1]))]
  }

  function BetaRows(): seq<JoinRow>
  {
    [JoinRow(Shop().wines[1], Shop().products[1], Some(Shop().orders[2]))]
  }

  function ShopRows(): seq<JoinRow>
  {
    AlphaRows() + BetaRows()
  }

  lemma QualifyingShopOrders()
    ensures ValidOrders(Shop().orders) == Qualifying()
  {
    var os := Shop().orders;
    assert ValidOrders(os[3..]) == [];
    assert ValidOrders(os[2..]) == [os[2]];
    assert ValidOrders(os[1..]) == [os[1], os[2]];
  }

  lemma QualifyingOrdersByProduct()
    ensures OrdersOf(10, Qualifying()) == [Shop().orders[0], Shop().orders[1]]
    ensures OrdersOf(20, Qualifying()) == [Shop().orders[2]]
    ensures OrdersOf(30, Qualifying()) == []
  {
    var q := Qualifying();
    assert OrdersOf(10, q[2..]) == [] && OrdersOf(20, q[2..]) == [q[2]] && OrdersOf(30, q[2..]) == [];
    assert OrdersOf(10, q[1..]) == [q[1]] && OrdersOf(20, q[1..]) == [q[2]] && OrdersOf(30, q[1..]) == [];
  }

  lemma ShopInnerRows()
    ensures InnerRows(Shop().wines[0], Shop().products, Qualifying()) == AlphaRows()
    ensures InnerRows(Shop().wines[1], Shop().products, Qualifying()) == BetaRows()
    ensures InnerRows(Shop().wines[2], Shop().products, Qualifying()) == []
  {
    QualifyingOrdersByProduct();
  }

  lemma ShopInnerJoin()
    ensures InnerJoin(Shop().wines, Shop().products, Qualifying(), None) == ShopRows()
  {
    var s := Shop();
    ShopInnerRows();
    assert InnerJoin(s.wines[2..], s.products, Qualifying(), None) == [];
    assert InnerJoin(s.wines[1..], s.products, Qualifying(), None) == BetaRows();
  }

  lemma ShopSelected()
    ensures Selected(Shop(), None) == ShopRows()
  {
    QualifyingShopOrders();
    ShopInnerJoin();
    WhereLeftJoinIsInnerJoin(Shop(), None);
  }

  lemma ShopGroupIds()
    ensures GroupIds(ShopRows()) == [1, 2]
  {
  }

  lemma ShopGroupRows()
    ensures RowsOf(1, ShopRows()) == AlphaRows()
    ensures RowsOf(2, ShopRows()) == BetaRows()
  {
    RowsOfConcat(1, AlphaRows(), BetaRows());
    RowsOfConcat(2, AlphaRows(), BetaRows());
    RowsOfOneWine(1, AlphaRows(), Shop().wines[0]);
    RowsOfOneWine(2, AlphaRows(), Shop().wines[0]);
    RowsOfOneWine(1, BetaRows(), Shop().wines[1]);
    RowsOfOneWine(2, BetaRows(), Shop().wines[1]);
  }

  lemma ShopAggregates()
    ensures Aggregate(1, AlphaRows()) == AlphaStat()
    ensures Aggregate(2, BetaRows()) == BetaStat()
  {
    assert JoinedOrders(AlphaRows()) == [Shop().orders[0], Shop().orders[1]];
    assert JoinedOrders(BetaRows()) == [Shop().orders[2]];
  }

  lemma ShopGroups()
    ensures GroupBy(ShopRows()) == [AlphaStat(), BetaStat()]
  {
    ShopGroupIds();
    ShopGroupRows();
    ShopAggregates();
    assert |GroupBy(ShopRows())| == 2;
  }

  lemma ShopReport(orderBy: Option<string>)
    ensures BestSellingWines(Shop(), orderBy, None) == SortDesc([AlphaStat(), BetaStat()], ResolveMetric(orderBy))
  {
    ShopSelected();
    ShopGroups();
  }

  /** By revenue, Beta (100) ranks above Alpha (50). */
  lemma ShopByRevenue()
    ensures BestSellingWines(Shop(), Some("REVENUE"), None) == [BetaStat(), AlphaStat()]
  {
    ShopReport(Some("REVENUE"));
    KeyResolvesToItself(Revenue);
    ShopSortByRevenue();
  }

  lemma ShopSortByRevenue()
    ensures SortDesc([AlphaStat(), BetaStat()], Revenue) == [BetaStat(), AlphaStat()]
  {
    assert SortDesc([BetaStat()], Revenue) == [BetaStat()];
  }

  /** By bottles sold, Alpha (5) ranks above Beta (1). */
  lemma ShopByQuantity()
    ensures BestSellingWines(Shop(), Some("QUANTITY"), None) == [AlphaStat(), BetaStat()]
  {
    ShopReport(Some("QUANTITY"));
    KeyResolvesToItself(Quantity);
    ShopSortByQuantity();
  }

  lemma ShopSortByQuantity()
    ensures SortDesc([AlphaStat(), BetaStat()], Quantity) == [AlphaStat(), BetaStat()]
  {
    assert SortDesc([BetaStat()], Quantity) == [BetaStat()];
  }

  lemma ShopNamesLackTerm()
    ensures forall w :: w in Shop().wines ==> !MatchesSearch(w, Some("nonexistent"))
  {
    forall w | w in Shop().wines
      ensures !MatchesSearch(w, Some("nonexistent"))
    {
      ShortTextLacksPattern(FullName(w), "nonexistent");
    }
  }

  /** A search no wine matches yields an empty envelope without error. */
  lemma ShopNothingFound()
    ensures BestSellingWinesEndpoint(Success(Shop()), None, Some("nonexistent")) == Envelope([], 0, None)
  {
    ShopNamesLackTerm();
    UnmatchedSearchIsEmpty(Shop(), None, Some("nonexistent"));
  }

  /** Gamma, whose only order is cancelled, is never reported. */
  lemma ShopCancelledWineAbsent(orderBy: Option<string>, search: Option<string>)
    ensures forall x :: x in BestSellingWines(Shop(), orderBy, search) ==> x.id != 3
  {
    QualifyingShopOrders();
    QualifyingOrdersByProduct();
    assert WineOrders(Shop(), 3) == [];
    UnsoldWineIsAbsent(Shop(), orderBy, search, 3);
  }
}
