# Silver bars market place: order book model

A Dafny model of the in-memory order book of the silver bars market place
service. Users register BUY and SELL orders for silver, cancel them, list
the live orders of one side, and ask for a summary of one side.

The model follows the Java implementation, not the names it uses:

- The store is a queue of `Order` values. In the model it is a `seq<Order>`
  in queue order. Registering appends to it.
- Cancelling removes the first queued order that is value-equal to the
  argument. `Order.equals` compares user id, price per kg, quantity and side.
  It ignores the generated identifier and the time stamp, so cancellation
  does not depend on object identity.
- The live list of a side is the queue filtered by side, in queue order.
- The summary of a side groups that side's live orders by QUANTITY. It emits
  one `DisplayOrder` row per distinct quantity. The row's `pricePerKg` slot
  holds the quantity. Its `quantity` slot holds the sum of the prices per kg
  of the group, starting from zero. SELL rows go through a `TreeSet`, so they
  come out in increasing key order. BUY rows come out in the key order of a
  `HashMap`, which is unspecified.

Modules:

- `Orders` (`orders.dfy`): the `Order` datatype, its constructor and
  value equality.
- `DisplayOrders` (`display_order.dfy`): the three-slot summary row.
- `SortedKeys` (`sorted_keys.dfy`): duplicate-free key lists and the sorted
  order a tree set yields.
- `Marketplace` (`marketplace.dfy`): the service operations over the store.
- `Scenario` (`scenario.dfy`): the order book the service's tests start from,
  and what the tests observe of it.

Modelling choices:

- `BigDecimal` is modelled as `real`, one representation per number.
- The random identifier and the wall-clock stamp of an order are parameters
  of `NewOrder`. They play no part in equality.
- The summary's sum is a right fold in the model and a left fold from zero
  in the source. Real addition is associative, so the two are equal.
- For BUY, the model fixes one key order: each distinct quantity once,
  ordered by its last occurrence. No property of BUY rows depends on it
  beyond "each distinct quantity exactly once".

Behaviour worth noting:

- Cancellation is by value, not by identifier. Cancelling the same order
  twice is not a no-op when the store holds two equal entries: each call
  removes one (`Scenario.CancelTwiceRemovesBothDuplicates`).
- Grouping is by quantity, not by price. The key lands in the `pricePerKg`
  slot and the price sum in the `quantity` slot.
- BUY rows are not sorted. The descending-order check in the service's tests
  is not backed by the code, so the model does not claim it.

## Model

| member | source | states |
|---|---|---|
| `Orders.NewOrder` | src/main/java/com/silverbars/marketplace/domain/Order.java:46-57 | the constructed order's getters return the four arguments unchanged, plus the identifier and stamp it was given |
| `Orders.Equals` | src/main/java/com/silverbars/marketplace/domain/Order.java:84-92 | two orders are equal exactly when user id, price per kg, quantity and side all match; the identity short cut adds no other equal pairs, and equal orders are on the same side |
| `Orders.EqualsReflexive` | src/main/java/com/silverbars/marketplace/domain/Order.java:85 | every order equals itself |
| `Orders.EqualsSymmetric` | src/main/java/com/silverbars/marketplace/domain/Order.java:88-91 | equality does not depend on argument order |
| `Orders.EqualsTransitive` | src/main/java/com/silverbars/marketplace/domain/Order.java:88-91 | equality is transitive |
| `Orders.EqualsIgnoresIdentity` | src/main/java/com/silverbars/marketplace/domain/Order.java:84-92 | two orders built from the same four arguments are equal whatever identifiers and time stamps they got |
| `Marketplace.LiveOrders` | src/main/java/com/silverbars/marketplace/SilverBarsMarketPlaceServiceImpl.java:82-86 | the live list of side t holds only side-t orders and is no longer than the store |
| `Marketplace.LiveOrdersContents` | src/main/java/com/silverbars/marketplace/SilverBarsMarketPlaceServiceImpl.java:83 | the live list of side t holds every stored side-t order exactly as many times as the store does, and nothing else |
| `Marketplace.LiveOrdersAppend` | src/main/java/com/silverbars/marketplace/SilverBarsMarketPlaceServiceImpl.java:83 | filtering distributes over concatenation, so the live list keeps queue order |
| `Marketplace.LiveOrdersPartition` | src/main/java/com/silverbars/marketplace/SilverBarsMarketPlaceServiceImpl.java:83 | the BUY and SELL live lists together are exactly as long as the store |
| `Marketplace.Register` | src/main/java/com/silverbars/marketplace/SilverBarsMarketPlaceServiceImpl.java:41-44 | after registering, the order's side has the old live list plus the new order at its end; the other side's list is unchanged |
| `Marketplace.Cancel` | src/main/java/com/silverbars/marketplace/SilverBarsMarketPlaceServiceImpl.java:52-55 | cancelling removes exactly the first entry value-equal to the argument and keeps the rest in order; with no equal entry the store is unchanged |
| `Marketplace.FirstEqualExists` | src/main/java/com/silverbars/marketplace/SilverBarsMarketPlaceServiceImpl.java:54 | when some entry is equal to the argument there is a first one, so a matching cancel always removes an entry |
| `Marketplace.CancelLiveOrders` | src/main/java/com/silverbars/marketplace/SilverBarsMarketPlaceServiceImpl.java:52-55 | cancelling acts on the cancelled order's side list as on the whole store and leaves the other side's list alone |
| `Marketplace.HasEqualLiveOrders` | src/main/java/com/silverbars/marketplace/SilverBarsMarketPlaceServiceImpl.java:54 | an entry equal to the argument is found in the live list of the argument's side |
| `Marketplace.CancelCounts` | src/main/java/com/silverbars/marketplace/SilverBarsMarketPlaceServiceImpl.java:52-55 | a matching cancel shortens its side's live list by exactly one; a cancel without a match changes nothing; the other side is never touched |
| `Marketplace.CancelAllOfItself` | src/test/java/com/silverbars/marketplace/SilverBarsMarketPlaceServiceTest.java:56-59 | cancelling every entry of a list, front to back, empties it |
| `Marketplace.CancelAllLiveOrders` | src/test/java/com/silverbars/marketplace/SilverBarsMarketPlaceServiceTest.java:56-59 | cancelling a list of side-t orders acts on the side-t live list as on the store and leaves the other side alone |
| `Marketplace.CancelEverything` | src/test/java/com/silverbars/marketplace/SilverBarsMarketPlaceServiceTest.java:148-170 | cancelling every live SELL order and then every live BUY order empties the store, both live lists and both summaries |
| `Marketplace.QuantitySetMeaning` | src/main/java/com/silverbars/marketplace/SilverBarsMarketPlaceServiceImpl.java:65 | a quantity is a grouping key exactly when some order has it |
| `Marketplace.WithQuantity` | src/main/java/com/silverbars/marketplace/SilverBarsMarketPlaceServiceImpl.java:65 | a group holds only orders of its quantity and is empty exactly when no order has that quantity |
| `Marketplace.GroupByQuantity` | src/main/java/com/silverbars/marketplace/SilverBarsMarketPlaceServiceImpl.java:65 | the grouping map's keys are exactly the distinct quantities, and each key maps to the orders of that quantity in encounter order |
| `Marketplace.SumOfEqualPrices` | src/main/java/com/silverbars/marketplace/SilverBarsMarketPlaceServiceImpl.java:70-71 | the group total adds the price once per order: n orders of price p total n times p, whatever their quantities |
| `Marketplace.DistinctQuantities` | src/main/java/com/silverbars/marketplace/SilverBarsMarketPlaceServiceImpl.java:67 | the BUY key enumeration lists each distinct quantity exactly once |
| `Marketplace.SummaryKeys` | src/main/java/com/silverbars/marketplace/SilverBarsMarketPlaceServiceImpl.java:67 | the keys iterated for a summary are the distinct quantities, each once, strictly increasing for SELL |
| `Marketplace.Summary` | src/main/java/com/silverbars/marketplace/SilverBarsMarketPlaceServiceImpl.java:63-73 | one row per distinct quantity among live side-t orders, keys distinct; each row carries the side and the sum of prices of the live side-t orders with its quantity; SELL keys strictly increase |
| `Marketplace.SummaryEmptyIffNoLiveOrders` | src/main/java/com/silverbars/marketplace/SilverBarsMarketPlaceServiceImpl.java:63-73 | a side's summary is empty exactly when the side has no live orders |
| `SortedKeys.Insert` | src/main/java/com/silverbars/marketplace/SilverBarsMarketPlaceServiceImpl.java:67 | adding a key to a strictly increasing list keeps it strictly increasing and adds exactly that key, once |
| `SortedKeys.Sort` | src/main/java/com/silverbars/marketplace/SilverBarsMarketPlaceServiceImpl.java:67 | the tree set's iteration is strictly increasing and holds exactly the keys put in |
| `SortedKeys.SortKeepsDistinctKeys` | src/main/java/com/silverbars/marketplace/SilverBarsMarketPlaceServiceImpl.java:67 | a tree set built from a duplicate-free key list has as many keys as the list |
| `Scenario.RegisterAllAppends` | src/test/java/com/silverbars/marketplace/SilverBarsMarketPlaceServiceTest.java:46 | registering orders one after another appends them in that order |
| `Scenario.TestStore` | src/test/java/com/silverbars/marketplace/SilverBarsMarketPlaceServiceTest.java:44-49 | the test set-up leaves exactly the eleven test orders in the store, in order |
| `Scenario.TestLiveSells` | src/test/java/com/silverbars/marketplace/SilverBarsMarketPlaceServiceTest.java:61-64 | after set-up the SELL live list is the six SELL test orders in registration order |
| `Scenario.TestLiveBuys` | src/test/java/com/silverbars/marketplace/SilverBarsMarketPlaceServiceTest.java:66-69 | after set-up the BUY live list is the five BUY test orders in registration order |
| `Scenario.TestSummarySizes` | src/test/java/com/silverbars/marketplace/SilverBarsMarketPlaceServiceTest.java:71-79 | after set-up both summaries have three rows |
| `Scenario.TestSellSummary` | src/test/java/com/silverbars/marketplace/SilverBarsMarketPlaceServiceTest.java:104-111 | after set-up the SELL summary is the rows (306, 9.0), (307, 3.0), (310, 1.2), in that order |
| `Scenario.CancelTwiceRemovesBothDuplicates` | src/test/java/com/silverbars/marketplace/SilverBarsMarketPlaceServiceTest.java:33-34 | cancelling the duplicated BUY order once leaves its twin live; cancelling it again removes the twin too |

## Left out

- Concurrency: the concurrent queue and the parallel streams become a
  sequence and sequential functions. Thread safety is the container's job.
- Logging, and `toString` of `Order` and `DisplayOrder`: output only.
- UUID and time stamp generation: randomness and the clock. They are
  parameters of `NewOrder`.
- `hashCode`: the store is a queue, so hashing plays no part. It also
  includes the identifier and stamp, so it is inconsistent with `equals`.
- `BigDecimal` scale: `equals` is scale-sensitive but the tree set compares
  by value. The model has one representation per number, so three source
  behaviours cannot arise in it. `306` and `306.0` would be two map keys
  but one tree-set key, so a SELL summary would silently lose a group.
  A BUY summary would give two rows for `306` and `306.0` where the model
  gives one. Orders whose prices are `3.5` and `3.50` are not `equals`, so
  the source does not cancel one with the other where the model's `Cancel`
  does.
- Null arguments and null fields are not modelled; every Dafny value is a
  complete order. In the source `registerAnOrder(null)` throws a
  NullPointerException from the queue. An order with a null side makes every
  later live-list and summary call throw when the side is compared. A null
  quantity makes the grouping throw, and a null price makes the summing throw.
  `getSummaryInformationForLiveOrders(null)` throws, while
  `getAllLiveOrders(null)` returns an empty list.
- `Orders.Equals`: the `null` and class checks are not modelled. Every Dafny
  value is an `Order`. Cancelling `null`, which the queue ignores, is not
  modelled either.
- The order of BUY summary rows: a hash map's key order, unspecified. The
  model fixes one order and proves only that each key appears once.
- The service interface file declares signatures only. The contracts come
  from the implementation.
- `DisplayOrder` is kept to its three slots. The getter and `toString` are
  left out.
