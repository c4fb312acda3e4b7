/**
 One row of the market summary. The three slots keep the names the system
 gives them; which values end up in them is decided by the summary itself.
 */
module DisplayOrders {
  import opened Orders

  datatype DisplayOrder = DisplayOrder(pricePerKg: real, quantity: real, orderType: OrderType)

  /** The first slot of every row, in row order. */
  function KeyColumn(rows: seq<DisplayOrder>): (ks: seq<real>)
    ensures |ks| == |rows|
    ensures forall i :: 0 <= i < |rows| ==> ks[i] == rows[i].pricePerKg
  {
    seq(|rows|, i requires 0 <= i < |rows| => rows[i].pricePerKg)
  }
}
