/**
 The in-memory market place service: a queue of live orders, registration,
 cancellation by value, the live orders of one side, and the summary of one
 side's live orders.

 The queue is a concurrent container in the system; here it is a sequence in
 queue order, and every operation is a function from the queue before the
 call to the queue after it or to the query's answer.
 */
module Marketplace {
  import opened Orders
  import opened DisplayOrders
  import opened SortedKeys

  /** The live orders, oldest first. */
  type Store = seq<Order>

  /** The empty store a new service starts with. */
  const Empty: Store := []

  // ---------------------------------------------------------------------
  // Live orders of one side
  // ---------------------------------------------------------------------

  /** The stored orders whose side is `t`, in queue order, duplicates kept. */
  function LiveOrders(s: Store, t: OrderType): (r: seq<Order>)
    ensures |r| <= |s|
    ensures forall i :: 0 <= i < |r| ==> r[i].orderType == t
  {
    if s == [] then []
    else
      var rest := LiveOrders(s[1..], t);
      if s[0].orderType == t then [s[0]] + rest else rest
  }

  /** The live list holds every stored side-`t` order as often as the store
      does, and nothing else. */
  lemma {:induction false} LiveOrdersContents(s: Store, t: OrderType)
    ensures forall o: Order :: o.orderType == t ==> multiset(LiveOrders(s, t))[o] == multiset(s)[o]
    ensures forall o: Order :: o in LiveOrders(s, t) <==> o in s && o.orderType == t
  {
    if s != [] {
      LiveOrdersContents(s[1..], t);
      assert s == [s[0]] + s[1..];
    }
  }

  /** Filtering distributes over concatenation, so the live list keeps the
      relative order in which orders were queued. */
  lemma {:induction false} LiveOrdersAppend(a: Store, b: Store, t: OrderType)
    ensures LiveOrders(a + b, t) == LiveOrders(a, t) + LiveOrders(b, t)
  {
    if a == [] {
      assert a + b == b;
    } else {
      assert (a + b)[1..] == a[1..] + b;
      LiveOrdersAppend(a[1..], b, t);
    }
  }

  /** Every order is on exactly one side: the two live lists together are
      as long as the store. */
  lemma {:induction false} LiveOrdersPartition(s: Store)
    ensures |LiveOrders(s, Buy)| + |LiveOrders(s, Sell)| == |s|
  {
    if s != [] {
      LiveOrdersPartition(s[1..]);
    }
  }

  // ---------------------------------------------------------------------
  // Registration
  // ---------------------------------------------------------------------

  /** Registering appends the order to the queue: the live list of its side
      gains it at the end, the other side's list does not change. */
  function Register(s: Store, o: Order): (r: Store)
    ensures LiveOrders(r, o.orderType) == LiveOrders(s, o.orderType) + [o]
    ensures LiveOrders(r, Opposite(o.orderType)) == LiveOrders(s, Opposite(o.orderType))
  {
    LiveOrdersAppend(s, [o], o.orderType);
    LiveOrdersAppend(s, [o], Opposite(o.orderType));
    s + [o]
  }

  // ---------------------------------------------------------------------
  // Cancellation
  // ---------------------------------------------------------------------

  /** Some stored order is value-equal to `o`. */
  ghost predicate HasEqual(s: Store, o: Order)
  {
    exists i :: 0 <= i < |s| && Equals(o, s[i])
  }

  /** `i` is the position of the first stored order value-equal to `o`. */
  ghost predicate IsFirstEqual(s: Store, o: Order, i: int)
  {
    && 0 <= i < |s|
    && Equals(o, s[i])
    && forall j :: 0 <= j < i ==> !Equals(o, s[j])
  }

  /** Cancelling removes the first stored order that is value-equal to `o`,
      keeping the others in order, and does nothing when no stored order is. */
  function Cancel(s: Store, o: Order): (r: Store)
    ensures !HasEqual(s, o) ==> r == s
    ensures HasEqual(s, o) ==> |r| == |s| - 1
    ensures forall i :: IsFirstEqual(s, o, i) ==> r == s[..i] + s[i + 1..]
  {
    if s == [] then []
    else if Equals(o, s[0]) then
      assert IsFirstEqual(s, o, 0);
      FirstEqualUnique(s, o);
      s[1..]
    else
      var rest := Cancel(s[1..], o);
      CancelStep(s, o, rest);
      [s[0]] + rest
  }

  /** The first equal position is unique. */
  lemma FirstEqualUnique(s: Store, o: Order)
    ensures forall i, k :: IsFirstEqual(s, o, i) && IsFirstEqual(s, o, k) ==> i == k
  {
  }

  /** The inductive step of `Cancel` when the head does not match. */
  lemma CancelStep(s: Store, o: Order, rest: Store)
    requires s != [] && !Equals(o, s[0])
    requires !HasEqual(s[1..], o) ==> rest == s[1..]
    requires HasEqual(s[1..], o) ==> |rest| == |s| - 2
    requires forall i :: IsFirstEqual(s[1..], o, i) ==> rest == s[1..][..i] + s[1..][i + 1..]
    ensures !HasEqual(s, o) ==> [s[0]] + rest == s
    ensures HasEqual(s, o) ==> |[s[0]] + rest| == |s| - 1
    ensures forall i :: IsFirstEqual(s, o, i) ==> [s[0]] + rest == s[..i] + s[i + 1..]
  {
    if HasEqual(s, o) {
      var i :| 0 <= i < |s| && Equals(o, s[i]);
      assert s[1..][i - 1] == s[i];
    } else {
      assert s == [s[0]] + s[1..];
    }
    forall i | IsFirstEqual(s, o, i) ensures [s[0]] + rest == s[..i] + s[i + 1..] {
      assert IsFirstEqual(s[1..], o, i - 1) by {
        forall j | 0 <= j < i - 1 ensures !Equals(o, s[1..][j]) {
          assert s[1..][j] == s[j + 1];
        }
      }
      assert s[..i] == [s[0]] + s[1..][..i - 1];
      assert s[i + 1..] == s[1..][i..];
    }
  }

  /** Whenever some stored order is value-equal to `o`, there is a first one. */
  lemma {:induction false} FirstEqualExists(s: Store, o: Order)
    requires HasEqual(s, o)
    ensures exists i :: IsFirstEqual(s, o, i)
  {
    if Equals(o, s[0]) {
      assert IsFirstEqual(s, o, 0);
    } else {
      var k :| 0 <= k < |s| && Equals(o, s[k]);
      assert Equals(o, s[1..][k - 1]);
      FirstEqualExists(s[1..], o);
      var i :| IsFirstEqual(s[1..], o, i);
      assert IsFirstEqual(s, o, i + 1);
    }
  }

  /** Cancelling acts on the live list of the cancelled order's side exactly
      as on the whole store, and leaves the other side's list alone. */
  lemma {:induction false} CancelLiveOrders(s: Store, o: Order, t: OrderType)
    ensures LiveOrders(Cancel(s, o), t)
         == if o.orderType == t then Cancel(LiveOrders(s, t), o) else LiveOrders(s, t)
  {
    if s != [] {
      CancelLiveOrders(s[1..], o, t);
    }
  }

  /** Cancelling an order that has an equal entry shortens its side's live
      list by exactly one; an order with no equal entry changes nothing. */
  lemma CancelCounts(s: Store, o: Order)
    ensures HasEqual(s, o) ==> |LiveOrders(Cancel(s, o), o.orderType)| == |LiveOrders(s, o.orderType)| - 1
    ensures !HasEqual(s, o) ==> Cancel(s, o) == s
    ensures LiveOrders(Cancel(s, o), Opposite(o.orderType)) == LiveOrders(s, Opposite(o.orderType))
  {
    CancelLiveOrders(s, o, o.orderType);
    CancelLiveOrders(s, o, Opposite(o.orderType));
    if HasEqual(s, o) {
      HasEqualLiveOrders(s, o);
    }
  }

  /** An entry equal to `o` is on `o`'s side, so it is in that side's live list. */
  lemma {:induction false} HasEqualLiveOrders(s: Store, o: Order)
    requires HasEqual(s, o)
    ensures HasEqual(LiveOrders(s, o.orderType), o)
  {
    var live := LiveOrders(s, o.orderType);
    if Equals(o, s[0]) {
      assert live[0] == s[0];
    } else {
      var i :| 0 <= i < |s| && Equals(o, s[i]);
      assert Equals(o, s[1..][i - 1]);
      HasEqualLiveOrders(s[1..], o);
      var k :| 0 <= k < |LiveOrders(s[1..], o.orderType)| && Equals(o, LiveOrders(s[1..], o.orderType)[k]);
      if s[0].orderType == o.orderType {
        assert live[k + 1] == LiveOrders(s[1..], o.orderType)[k];
      } else {
        assert live[k] == LiveOrders(s[1..], o.orderType)[k];
      }
    }
  }

  /** Cancels each order of `xs` in turn, as iterating over a list of orders
      and cancelling every one does. */
  function CancelAll(s: Store, xs: seq<Order>): (r: Store)
    ensures |r| <= |s|
    decreases |xs|
  {
    if xs == [] then s else CancelAll(Cancel(s, xs[0]), xs[1..])
  }

  /** Cancelling every entry of a list, front to back, empties it. */
  lemma {:induction false} CancelAllOfItself(s: Store)
    ensures CancelAll(s, s) == []
  {
    if s != [] {
      EqualsReflexive(s[0]);
      assert Cancel(s, s[0]) == s[1..];
      CancelAllOfItself(s[1..]);
    }
  }

  /** Cancelling a list of side-`t` orders acts on the side-`t` live list as
      on the store, and leaves the other side's live list alone. */
  lemma {:induction false} CancelAllLiveOrders(s: Store, xs: seq<Order>, t: OrderType)
    requires forall i :: 0 <= i < |xs| ==> xs[i].orderType == t
    ensures LiveOrders(CancelAll(s, xs), t) == CancelAll(LiveOrders(s, t), xs)
    ensures LiveOrders(CancelAll(s, xs), Opposite(t)) == LiveOrders(s, Opposite(t))
    decreases |xs|
  {
    if xs != [] {
      CancelLiveOrders(s, xs[0], t);
      CancelLiveOrders(s, xs[0], Opposite(t));
      CancelAllLiveOrders(Cancel(s, xs[0]), xs[1..], t);
    }
  }

  /** Cancelling every live SELL order and then every live BUY order empties
      the store: both live lists and both summaries are empty. */
  lemma CancelEverything(s: Store)
    ensures var s1 := CancelAll(s, LiveOrders(s, Sell));
            var s2 := CancelAll(s1, LiveOrders(s1, Buy));
            && s2 == Empty
            && LiveOrders(s2, Sell) == [] && LiveOrders(s2, Buy) == []
            && Summary(s2, Sell) == [] && Summary(s2, Buy) == []
  {
    var s1 := CancelAll(s, LiveOrders(s, Sell));
    CancelAllLiveOrders(s, LiveOrders(s, Sell), Sell);
    CancelAllOfItself(LiveOrders(s, Sell));
    var s2 := CancelAll(s1, LiveOrders(s1, Buy));
    CancelAllLiveOrders(s1, LiveOrders(s1, Buy), Buy);
    CancelAllOfItself(LiveOrders(s1, Buy));
    LiveOrdersPartition(s2);
  }

  // ---------------------------------------------------------------------
  // Summary
  // ---------------------------------------------------------------------

  /** The distinct quantities among `os`. */
  function QuantitySet(os: seq<Order>): set<real>
  {
    if os == [] then {} else {os[0].quantity} + QuantitySet(os[1..])
  }

  /** A quantity is in the set exactly when some order of `os` has it. */
  lemma {:induction false} QuantitySetMeaning(os: seq<Order>, q: real)
    ensures q in QuantitySet(os) <==> exists i :: 0 <= i < |os| && os[i].quantity == q
  {
    if os != [] {
      QuantitySetMeaning(os[1..], q);
      if exists i :: 0 <= i < |os[1..]| && os[1..][i].quantity == q {
        var i :| 0 <= i < |os[1..]| && os[1..][i].quantity == q;
        assert os[i + 1].quantity == q;
      }
      if exists i :: 0 <= i < |os| && os[i].quantity == q {
        var i :| 0 <= i < |os| && os[i].quantity == q;
        if i > 0 {
          assert os[1..][i - 1].quantity == q;
        }
      }
    }
  }

  /** The orders of `os` whose quantity is `q`, in order. */
  function WithQuantity(os: seq<Order>, q: real): (r: seq<Order>)
    ensures forall i :: 0 <= i < |r| ==> r[i].quantity == q
    ensures r == [] <==> q !in QuantitySet(os)
  {
    if os == [] then []
    else if os[0].quantity == q then [os[0]] + WithQuantity(os[1..], q)
    else WithQuantity(os[1..], q)
  }

  /** Groups orders by quantity: each distinct quantity maps to the orders
      that have it, in encounter order. */
  function GroupByQuantity(os: seq<Order>): (m: map<real, seq<Order>>)
    ensures m.Keys == QuantitySet(os)
    ensures forall q :: q in m ==> m[q] == WithQuantity(os, q)
  {
    if os == [] then map[]
    else
      var m := GroupByQuantity(os[1..]);
      var q := os[0].quantity;
      GroupStep(os, m);
      m[q := [os[0]] + (if q in m then m[q] else [])]
  }

  /** The inductive step of `GroupByQuantity`: adding the head order to the
      group of its quantity yields the groups of the whole sequence. */
  lemma GroupStep(os: seq<Order>, m: map<real, seq<Order>>)
    requires os != []
    requires m.Keys == QuantitySet(os[1..])
    requires forall q :: q in m ==> m[q] == WithQuantity(os[1..], q)
    ensures var q := os[0].quantity;
            var m' := m[q := [os[0]] + (if q in m then m[q] else [])];
            && m'.Keys == QuantitySet(os)
            && forall k :: k in m' ==> m'[k] == WithQuantity(os, k)
  {
    var q := os[0].quantity;
    var m' := m[q := [os[0]] + (if q in m then m[q] else [])];
    forall k | k in m' ensures m'[k] == WithQuantity(os, k) {
      if k == q {
        if q !in m {
          assert WithQuantity(os[1..], q) == [];
        }
      } else {
        assert m'[k] == m[k];
      }
    }
  }

  /** Adds up the prices per kilogram of `os`, starting from zero. */
  function SumPrices(os: seq<Order>): real
  {
    if os == [] then 0.0 else os[0].pricePerKg + SumPrices(os[1..])
  }

  /** The total of a group is the price added once per order: `n` orders of
      the same price `p` total `n * p`, whatever their quantities. */
  lemma {:induction false} SumOfEqualPrices(os: seq<Order>, p: real)
    requires forall i :: 0 <= i < |os| ==> os[i].pricePerKg == p
    ensures SumPrices(os) == |os| as real * p
  {
    if os != [] {
      SumOfEqualPrices(os[1..], p);
    }
  }

  /** The distinct quantities of `os`, each once, ordered by last occurrence.
      This stands for the iteration order of a hash map's key set, which the
      system leaves unspecified. */
  function DistinctQuantities(os: seq<Order>): (ks: seq<real>)
    ensures Distinct(ks)
    ensures Elements(ks) == QuantitySet(os)
  {
    if os == [] then []
    else
      var rest := DistinctQuantities(os[1..]);
      if os[0].quantity in rest then rest
      else
        assert forall k :: 0 <= k < |rest| ==> rest[k] in Elements(rest);
        [os[0].quantity] + rest
  }

  /** The keys the summary of side `t` iterates over: a tree set of the
      quantities for SELL, the hash map's own key order for BUY. */
  function SummaryKeys(live: seq<Order>, t: OrderType): (ks: seq<real>)
    ensures Distinct(ks)
    ensures Elements(ks) == QuantitySet(live)
    ensures |ks| == |QuantitySet(live)|
    ensures t == Sell ==> StrictlyIncreasing(ks)
  {
    var keys := DistinctQuantities(live);
    DistinctCardinality(keys);
    if t == Buy then keys
    else
      SortKeepsDistinctKeys(keys);
      Sort(keys)
  }

  /** The summary of the live orders of side `t`: the orders are grouped by
      quantity, and each group gives one row whose first slot holds the
      quantity and whose second slot holds the sum of the group's prices per
      kilogram. SELL rows come in increasing order of their key. */
  function Summary(s: Store, t: OrderType): (rows: seq<DisplayOrder>)
    ensures |rows| == |QuantitySet(LiveOrders(s, t))|
    ensures Distinct(KeyColumn(rows))
    ensures Elements(KeyColumn(rows)) == QuantitySet(LiveOrders(s, t))
    ensures forall i :: 0 <= i < |rows| ==>
              && rows[i].orderType == t
              && rows[i].quantity == SumPrices(WithQuantity(LiveOrders(s, t), rows[i].pricePerKg))
    ensures t == Sell ==> StrictlyIncreasing(KeyColumn(rows))
  {
    var live := LiveOrders(s, t);
    var groups := GroupByQuantity(live);
    var keys := SummaryKeys(live, t);
    assert forall i :: 0 <= i < |keys| ==> keys[i] in groups by {
      forall i | 0 <= i < |keys| ensures keys[i] in groups {
        assert keys[i] in Elements(keys);
      }
    }
    var rows := Rows(groups, keys, t);
    assert forall i :: 0 <= i < |rows| ==> rows[i].pricePerKg == keys[i] by {
      forall i | 0 <= i < |rows| ensures rows[i].pricePerKg == keys[i] {
        assert KeyColumn(rows)[i] == keys[i];
      }
    }
    assert forall i :: 0 <= i < |rows| ==>
             rows[i].quantity == SumPrices(WithQuantity(live, rows[i].pricePerKg)) by {
      forall i | 0 <= i < |rows|
        ensures rows[i].quantity == SumPrices(WithQuantity(live, rows[i].pricePerKg))
      {
        assert groups[keys[i]] == WithQuantity(live, keys[i]);
      }
    }
    rows
  }

  /** One row per key, in key order: the key, the sum of the prices of the
      key's group, and the side. */
  function Rows(groups: map<real, seq<Order>>, keys: seq<real>, t: OrderType): (rows: seq<DisplayOrder>)
    requires forall i :: 0 <= i < |keys| ==> keys[i] in groups
    ensures KeyColumn(rows) == keys
    ensures forall i :: 0 <= i < |rows| ==>
              rows[i].orderType == t && rows[i].quantity == SumPrices(groups[keys[i]])
  {
    var rows := seq(|keys|, i requires 0 <= i < |keys| =>
                  DisplayOrder(keys[i], SumPrices(groups[keys[i]]), t));
    assert KeyColumn(rows) == keys;
    rows
  }

  /** A side has an empty summary exactly when it has no live orders. */
  lemma SummaryEmptyIffNoLiveOrders(s: Store, t: OrderType)
    ensures Summary(s, t) == [] <==> LiveOrders(s, t) == []
  {
    var live := LiveOrders(s, t);
    if live != [] {
      assert live[0].quantity in QuantitySet(live);
    }
  }
}
