/**
 This module models the `Order` domain value: an immutable record of who
 offers to buy or sell, at what price per kilogram and for what quantity,
 together with the identifier and creation time the order is stamped with.

 Prices and quantities are `BigDecimal`s in the system; they are modelled as
 `real`, so that every number has exactly one representation.
 */
module Orders {

  /** The side of an order. */
  datatype OrderType = Buy | Sell

  /** The other side. */
  function Opposite(t: OrderType): (r: OrderType)
    ensures r != t
  {
    match t
    case Buy => Sell
    case Sell => Buy
  }

  /** An order as stored in the market place. Every field is fixed at
      construction; there are no mutators. The identifier and the time stamp
      are generated at construction from a random source and the wall clock,
      so the model receives them from the caller. */
  datatype Order = Order(
    userId: string,
    pricePerKg: real,
    quantity: real,
    orderType: OrderType,
    uniqueId: string,
    timeStamp: int)

  /** Builds an order from the four business arguments. `id` and `stamp`
      stand for the freshly generated identifier and the current time. */
  function NewOrder(userId: string, pricePerKg: real, quantity: real, orderType: OrderType,
                    id: string, stamp: int): (o: Order)
    ensures o.userId == userId && o.pricePerKg == pricePerKg
    ensures o.quantity == quantity && o.orderType == orderType
    ensures o.uniqueId == id && o.timeStamp == stamp
  {
    Order(userId, pricePerKg, quantity, orderType, id, stamp)
  }

  /** The four fields that take part in value equality. */
  predicate SameTerms(a: Order, b: Order)
  {
    && a.userId == b.userId
    && a.pricePerKg == b.pricePerKg
    && a.quantity == b.quantity
    && a.orderType == b.orderType
  }

  /** Value equality of orders, the relation the store uses to find the entry
      to cancel. The first disjunct is the reference-identity short cut; a
      reference is identified here with the whole value, identifier and time
      stamp included. The result depends on the four business fields only. */
  function Equals(a: Order, b: Order): (r: bool)
    ensures r <==> SameTerms(a, b)
    ensures r ==> a.orderType == b.orderType
  {
    a == b || SameTerms(a, b)
  }

  /** `Equals` is an equivalence relation. */
  lemma EqualsReflexive(a: Order)
    ensures Equals(a, a)
  {
  }

  lemma EqualsSymmetric(a: Order, b: Order)
    ensures Equals(a, b) <==> Equals(b, a)
  {
  }

  lemma EqualsTransitive(a: Order, b: Order, c: Order)
    requires Equals(a, b) && Equals(b, c)
    ensures Equals(a, c)
  {
  }

  /** Two orders built from the same four arguments are equal, whatever
      identifiers and time stamps they were given. */
  lemma EqualsIgnoresIdentity(userId: string, pricePerKg: real, quantity: real, orderType: OrderType,
                              id1: string, stamp1: int, id2: string, stamp2: int)
    ensures Equals(NewOrder(userId, pricePerKg, quantity, orderType, id1, stamp1),
                   NewOrder(userId, pricePerKg, quantity, orderType, id2, stamp2))
  {
  }
}
