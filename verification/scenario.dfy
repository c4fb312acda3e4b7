/**
 The order book the service's tests start from: eleven orders registered in
 order, six SELL and five BUY, with two pairs of value-equal duplicates.
 Identifiers and time stamps, generated at construction in the system, are
 fixed here to distinct values.
 */
module Scenario {
  import opened Orders
  import opened DisplayOrders
  import opened Marketplace
  import opened SortedKeys

  /** The eleven test orders in registration order. */
  function TestOrders(): seq<Order>
  {
    [ NewOrder("1", 3.5, 306.0, Sell, "id-1", 0),
      NewOrder("5", 3.5, 306.0, Buy, "id-2", 0),
      NewOrder("5", 3.5, 306.0, Buy, "id-3", 0),
      NewOrder("3", 1.5, 307.0, Sell, "id-4", 0),
      NewOrder("3", 1.5, 307.0, Sell, "id-5", 0),
      NewOrder("6", 1.5, 307.0, Buy, "id-6", 0),
      NewOrder("4", 2.0, 306.0, Sell, "id-7", 0),
      NewOrder("2", 1.2, 310.0, Sell, "id-8", 0),
      NewOrder("7", 2.0, 306.0, Buy, "id-9", 0),
      NewOrder("8", 1.2, 310.0, Buy, "id-10", 0),
      NewOrder("1", 3.5, 306.0, Sell, "id-11", 0) ]
  }

  /** The SELL orders among them, in registration order. */
  function TestSells(): seq<Order>
  {
    [ NewOrder("1", 3.5, 306.0, Sell, "id-1", 0),
      NewOrder("3", 1.5, 307.0, Sell, "id-4", 0),
      NewOrder("3", 1.5, 307.0, Sell, "id-5", 0),
      NewOrder("4", 2.0, 306.0, Sell, "id-7", 0),
      NewOrder("2", 1.2, 310.0, Sell, "id-8", 0),
      NewOrder("1", 3.5, 306.0, Sell, "id-11", 0) ]
  }

  /** The BUY orders among them, in registration order. */
  function TestBuys(): seq<Order>
  {
    [ NewOrder("5", 3.5, 306.0, Buy, "id-2", 0),
      NewOrder("5", 3.5, 306.0, Buy, "id-3", 0),
      NewOrder("6", 1.5, 307.0, Buy, "id-6", 0),
      NewOrder("7", 2.0, 306.0, Buy, "id-9", 0),
      NewOrder("8", 1.2, 310.0, Buy, "id-10", 0) ]
  }

  /** Registers each order of `os` in turn, starting from `s`. */
  function RegisterAll(s: Store, os: seq<Order>): (r: Store)
    ensures |r| == |s| + |os|
    decreases |os|
  {
    if os == [] then s else RegisterAll(Register(s, os[0]), os[1..])
  }

  /** Registering in turn appends in turn. */
  lemma {:induction false} RegisterAllAppends(s: Store, os: seq<Order>)
    ensures RegisterAll(s, os) == s + os
    decreases |os|
  {
    if os != [] {
      RegisterAllAppends(s + [os[0]], os[1..]);
      assert s + [os[0]] + os[1..] == s + os;
    }
  }

  /** The test set-up registers the eleven orders in turn, which leaves
      exactly them in the store, in order. */
  lemma TestStore()
    ensures RegisterAll(Empty, TestOrders()) == TestOrders()
  {
    RegisterAllAppends(Empty, TestOrders());
    assert Empty + TestOrders() == TestOrders();
  }

  /** The live lists after the test set-up keep the orders of each side in
      registration order: six SELL orders and five BUY orders. */
  lemma TestLiveSells()
    ensures LiveOrders(TestOrders(), Sell) == TestSells()
  {
  }

  lemma TestLiveBuys()
    ensures LiveOrders(TestOrders(), Buy) == TestBuys()
  {
  }

  /** Both sides of the test data use the quantities 306, 307 and 310. */
  lemma TestQuantities()
    ensures QuantitySet(TestSells()) == {306.0, 307.0, 310.0}
    ensures QuantitySet(TestBuys()) == {306.0, 307.0, 310.0}
  {
  }

  /** A store whose live orders on side `t` use three quantities has a
      three-row summary for `t`. */
  lemma ThreeQuantitiesThreeRows(s: Store, t: OrderType)
    requires QuantitySet(LiveOrders(s, t)) == {306.0, 307.0, 310.0}
    ensures |Summary(s, t)| == 3
  {
  }

  /** After the test set-up each side's summary has three rows, one per
      quantity 306, 307 and 310. */
  lemma TestSummarySizes()
    ensures |Summary(TestOrders(), Sell)| == 3
    ensures |Summary(TestOrders(), Buy)| == 3
  {
    TestLiveSells();
    TestLiveBuys();
    TestQuantities();
    ThreeQuantitiesThreeRows(TestOrders(), Sell);
    ThreeQuantitiesThreeRows(TestOrders(), Buy);
  }

  /** The SELL rows of a store whose live SELL orders have the quantities
      and price sums of the test data: one row per quantity, in increasing
      order, each carrying the sum of the prices per kilogram of the SELL
      orders of that quantity. */
  lemma SellRowsOfTestData(s: Store)
    requires QuantitySet(LiveOrders(s, Sell)) == {306.0, 307.0, 310.0}
    requires SumPrices(WithQuantity(LiveOrders(s, Sell), 306.0)) == 9.0
    requires SumPrices(WithQuantity(LiveOrders(s, Sell), 307.0)) == 3.0
    requires SumPrices(WithQuantity(LiveOrders(s, Sell), 310.0)) == 1.2
    ensures Summary(s, Sell)
         == [ DisplayOrder(306.0, 9.0, Sell),
              DisplayOrder(307.0, 3.0, Sell),
              DisplayOrder(310.0, 1.2, Sell) ]
  {
    var rows := Summary(s, Sell);
    var live := LiveOrders(s, Sell);
    assert |rows| == 3 by {
      assert |{306.0, 307.0, 310.0}| == 3;
    }
    SortedKeysOfThree(KeyColumn(rows));
    RowsFromKeys(rows, live);
  }

  /** Rows whose key column is 306, 307, 310 and whose totals are those of
      the test data are the expected SELL rows. */
  lemma RowsFromKeys(rows: seq<DisplayOrder>, live: seq<Order>)
    requires KeyColumn(rows) == [306.0, 307.0, 310.0]
    requires forall i :: 0 <= i < |rows| ==>
               && rows[i].orderType == Sell
               && rows[i].quantity == SumPrices(WithQuantity(live, rows[i].pricePerKg))
    requires SumPrices(WithQuantity(live, 306.0)) == 9.0
    requires SumPrices(WithQuantity(live, 307.0)) == 3.0
    requires SumPrices(WithQuantity(live, 310.0)) == 1.2
    ensures rows == [ DisplayOrder(306.0, 9.0, Sell),
                      DisplayOrder(307.0, 3.0, Sell),
                      DisplayOrder(310.0, 1.2, Sell) ]
  {
    assert rows[0].pricePerKg == 306.0 && rows[1].pricePerKg == 307.0 && rows[2].pricePerKg == 310.0;
  }

  /** The SELL orders of the test data, grouped by quantity, and the sums
      of their prices per kilogram. */
  lemma TestSellTotals()
    ensures SumPrices(WithQuantity(TestSells(), 306.0)) == 9.0
    ensures SumPrices(WithQuantity(TestSells(), 307.0)) == 3.0
    ensures SumPrices(WithQuantity(TestSells(), 310.0)) == 1.2
  {
    var sells := TestSells();
    assert WithQuantity(sells, 306.0) == [sells[0], sells[3], sells[5]];
    assert WithQuantity(sells, 307.0) == [sells[1], sells[2]];
    assert WithQuantity(sells, 310.0) == [sells[4]];
  }

  /** The SELL summary after the test set-up. */
  lemma TestSellSummary()
    ensures Summary(TestOrders(), Sell)
         == [ DisplayOrder(306.0, 9.0, Sell),
              DisplayOrder(307.0, 3.0, Sell),
              DisplayOrder(310.0, 1.2, Sell) ]
  {
    TestLiveSells();
    TestQuantities();
    TestSellTotals();
    SellRowsOfTestData(TestOrders());
  }

  /** The only increasing listing of the keys 306, 307 and 310. */
  lemma SortedKeysOfThree(ks: seq<real>)
    requires StrictlyIncreasing(ks)
    requires Elements(ks) == {306.0, 307.0, 310.0}
    requires |ks| == 3
    ensures ks == [306.0, 307.0, 310.0]
  {
    assert ks[0] in Elements(ks) && ks[1] in Elements(ks) && ks[2] in Elements(ks);
  }

  /** Cancellation is by value and removes one entry per call: cancelling
      the BUY order of user "5" removes one of its two value-equal entries,
      and cancelling it again removes the other, so a second cancel is not
      a no-op here. */
  lemma CancelTwiceRemovesBothDuplicates()
    ensures var s := TestOrders();
            var buys := TestBuys();
            && LiveOrders(Cancel(s, buys[0]), Buy) == buys[1..]
            && LiveOrders(Cancel(Cancel(s, buys[0]), buys[0]), Buy) == buys[2..]
  {
    var s := TestOrders();
    var buys := TestBuys();
    TestLiveBuys();
    CancelLiveOrders(s, buys[0], Buy);
    CancelLiveOrders(Cancel(s, buys[0]), buys[0], Buy);
    assert Cancel(buys, buys[0]) == buys[1..];
    assert Cancel(buys[1..], buys[0]) == buys[2..];
  }
}
