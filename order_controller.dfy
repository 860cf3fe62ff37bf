/** The in-memory logic of `controllers/orderController.js`: the `newOrder`
    required-field check, its per-item stock decrement (`updateStock`), and
    the status rules of `updateOrder` and `cancelOrder`.

    `updateOrder` and `cancelOrder` change only the order they loaded, so they
    return the order they save. The stock decrements write to the shared
    products collection, which `ProductStore` holds as mutable state. */
module OrderController {
  import opened Common
  import opened ProductModel

  /** An order line, limited to the two paths the stock update reads. */
  datatype OrderItem = OrderItem(product: ObjectId, quantity: int)

  /** The order document, limited to the paths these handlers read or write. */
  datatype Order = Order(
    id: ObjectId,
    orderItems: seq<OrderItem>,
    orderStatus: Option<string>,
    deliveredAt: Option<int>)

  /** A JSON object from the request body, such as the shipping details. */
  type JsonObject = map<string, string>

  // ---------------------------------------------------------------------------
  // newOrder: required-field check

  datatype NewOrderBody = NewOrderBody(
    shippingInfo: Option<JsonObject>,
    orderItems: Option<seq<OrderItem>>,
    paymentInfo: Option<JsonObject>,
    itemsPrice: Option<int>,
    taxPrice: Option<int>,
    shippingPrice: Option<int>,
    totalPrice: Option<int>,
    discount: Option<int>)

  const MissingOrderDetails := Failure(Some(400), "please enter all details")

  /** Objects and arrays are truthy whenever present, even when empty; the
      five amounts are falsy when absent or zero. */
  function CheckNewOrder(b: NewOrderBody): (r: Outcome)
    ensures r.Pass? <==>
      && b.shippingInfo.Some? && b.orderItems.Some? && b.paymentInfo.Some?
      && NonZero(b.itemsPrice) && NonZero(b.taxPrice) && NonZero(b.shippingPrice)
      && NonZero(b.totalPrice) && NonZero(b.discount)
    ensures r.Fail? ==> r.failure == MissingOrderDetails
  {
    if b.shippingInfo.None? || b.orderItems.None? || b.paymentInfo.None? ||
       !NonZero(b.itemsPrice) || !NonZero(b.taxPrice) || !NonZero(b.shippingPrice) ||
       !NonZero(b.totalPrice) || !NonZero(b.discount)
    then Fail(MissingOrderDetails)
    else Pass
  }

  /** An order without a discount (discount 0) is refused, while an order with
      an empty item list passes the check. */
  lemma NewOrderCheckEdges(b: NewOrderBody)
    ensures b.discount == Some(0) ==> CheckNewOrder(b) == Fail(MissingOrderDetails)
    ensures (&& b.orderItems == Some([]) && b.shippingInfo.Some? && b.paymentInfo.Some?
             && NonZero(b.itemsPrice) && NonZero(b.taxPrice) && NonZero(b.shippingPrice)
             && NonZero(b.totalPrice) && NonZero(b.discount))
            ==> CheckNewOrder(b) == Pass
  {
  }

  // ---------------------------------------------------------------------------
  // updateStock and the per-item loop

  /** `updateStock(id, quantity)`: `stock -= quantity`, with no lower bound. A
      missing product throws inside the detached callback and changes nothing. */
  function DecrementStock(ps: map<ObjectId, Product>, id: ObjectId, quantity: int): map<ObjectId, Product>
  {
    if id in ps then ps[id := ps[id].(stock := ps[id].stock - quantity)] else ps
  }

  /** The products after `updateStock` has run for each item, in order. */
  function StockAfterItems(ps: map<ObjectId, Product>, items: seq<OrderItem>): map<ObjectId, Product>
  {
    if items == [] then ps
    else StockAfterItems(DecrementStock(ps, items[0].product, items[0].quantity), items[1..])
  }

  /** The total quantity ordered of one product. */
  function QuantityFor(items: seq<OrderItem>, id: ObjectId): int
  {
    if items == [] then 0
    else (if items[0].product == id then items[0].quantity else 0) + QuantityFor(items[1..], id)
  }

  /** Running every item lowers each product's stock by the sum of the
      quantities ordered of it, touches nothing else, and adds no product. */
  lemma {:induction false} StockAfterItemsSubtractsTotals(ps: map<ObjectId, Product>, items: seq<OrderItem>)
    ensures StockAfterItems(ps, items).Keys == ps.Keys
    ensures forall id :: id in ps ==>
      StockAfterItems(ps, items)[id] == ps[id].(stock := ps[id].stock - QuantityFor(items, id))
  {
    if items != [] {
      var ps' := DecrementStock(ps, items[0].product, items[0].quantity);
      StockAfterItemsSubtractsTotals(ps', items[1..]);
    }
  }

  /** Nothing stops the stock from going below zero. */
  lemma StockHasNoLowerBound(ps: map<ObjectId, Product>, id: ObjectId, quantity: int)
    requires id in ps && quantity > ps[id].stock
    ensures DecrementStock(ps, id, quantity)[id].stock < 0
  {
  }

  /** The products collection that `newOrder` writes to. */
  class ProductStore {
    var products: map<ObjectId, Product>

    constructor (initial: map<ObjectId, Product>)
      ensures products == initial
    {
      products := initial;
    }

    method UpdateStock(id: ObjectId, quantity: int)
      modifies this
      ensures products == DecrementStock(old(products), id, quantity)
    {
      if id in products {
        var product := products[id];
        product := product.(stock := product.stock - quantity);
        products := products[id := product];
      }
    }

    /** `newOrder`: check the body, then call `updateStock` for every item. */
    method NewOrder(b: NewOrderBody) returns (r: Outcome)
      modifies this
      ensures r == CheckNewOrder(b)
      ensures r.Fail? ==> products == old(products)
      ensures r.Pass? ==> products == StockAfterItems(old(products), b.orderItems.value)
    {
      r := CheckNewOrder(b);
      if r.Fail? {
        return;
      }
      var items := b.orderItems.value;
      var i := 0;
      while i < |items|
        invariant 0 <= i <= |items|
        invariant StockAfterItems(products, items[i..]) == StockAfterItems(old(products), items)
      {
        assert items[i..][1..] == items[i + 1..];
        UpdateStock(items[i].product, items[i].quantity);
        i := i + 1;
      }
    }
  }

  // ---------------------------------------------------------------------------
  // updateOrder and cancelOrder

  const Delivered := "Delivered"
  const Cancelled := "cancelled"
  const OrderNotFound := Failure(Some(404), "Order not found with this Id")
  const AlreadyDelivered := Failure(Some(400), "You have already delivered this order")

  /** `updateOrder`: a delivered order is refused; otherwise the status becomes
      the requested one (even an absent one), and `deliveredAt` is stamped only
      when that status is "Delivered". */
  function UpdateOrder(found: Option<Order>, status: Option<string>, now: int): (r: Result<Order>)
    ensures found.None? ==> r == Err(OrderNotFound)
    ensures found.Some? && found.value.orderStatus == Some(Delivered) ==> r == Err(AlreadyDelivered)
    ensures r.Ok? <==> found.Some? && found.value.orderStatus != Some(Delivered)
    ensures r.Ok? ==> r.value.orderStatus == status
    ensures r.Ok? ==> r.value.deliveredAt == (if status == Some(Delivered) then Some(now) else found.value.deliveredAt)
    ensures r.Ok? ==> r.value == found.value.(orderStatus := r.value.orderStatus, deliveredAt := r.value.deliveredAt)
  {
    if found.None? then Err(OrderNotFound)
    else if found.value.orderStatus == Some(Delivered) then Err(AlreadyDelivered)
    else
      var o := found.value.(orderStatus := status);
      Ok(if status == Some(Delivered) then o.(deliveredAt := Some(now)) else o)
  }

  /** `cancelOrder`: no guard on the current status, not even "Delivered". */
  function CancelOrder(found: Option<Order>): (r: Result<Order>)
    ensures found.None? ==> r == Err(OrderNotFound)
    ensures found.Some? ==> r.Ok? && r.value.orderStatus == Some(Cancelled)
    ensures r.Ok? ==> r.value == found.value.(orderStatus := r.value.orderStatus)
  {
    if found.None? then Err(OrderNotFound)
    else Ok(found.value.(orderStatus := Some(Cancelled)))
  }

  /** An admin request against one stored order. */
  datatype OrderRequest = Update(status: Option<string>, at: int) | Cancel

  /** The stored order after a run of requests; a refused one leaves it as it is. */
  function Replay(o: Order, reqs: seq<OrderRequest>): Order
    decreases |reqs|
  {
    if reqs == [] then o
    else
      var r := match reqs[0]
        case Update(status, at) => UpdateOrder(Some(o), status, at)
        case Cancel => CancelOrder(Some(o));
      Replay(if r.Ok? then r.value else o, reqs[1..])
  }

  /** "Delivered" is terminal for `updateOrder`: no run of updates changes a
      delivered order at all. */
  lemma {:induction false} DeliveredIsFinalForUpdates(o: Order, reqs: seq<OrderRequest>)
    requires o.orderStatus == Some(Delivered)
    requires forall i :: 0 <= i < |reqs| ==> reqs[i].Update?
    ensures Replay(o, reqs) == o
  {
    if reqs != [] {
      DeliveredIsFinalForUpdates(o, reqs[1..]);
    }
  }

  /** `req` is an update to "Delivered" whose time is `d`. */
  predicate IsDeliveryAt(req: OrderRequest, d: Option<int>)
  {
    req.Update? && req.status == Some(Delivered) && d == Some(req.at)
  }

  /** Over any run of requests, the delivery time is the one the order started
      with or the time carried by one of the run's updates to "Delivered". */
  lemma {:induction false} DeliveredAtComesFromDelivery(o: Order, reqs: seq<OrderRequest>)
    decreases |reqs|
    ensures var d := Replay(o, reqs).deliveredAt;
      d == o.deliveredAt || exists i :: 0 <= i < |reqs| && IsDeliveryAt(reqs[i], d)
  {
    if reqs != [] {
      var r := match reqs[0]
        case Update(status, at) => UpdateOrder(Some(o), status, at)
        case Cancel => CancelOrder(Some(o));
      var o' := if r.Ok? then r.value else o;
      DeliveredAtComesFromDelivery(o', reqs[1..]);
      var d := Replay(o, reqs).deliveredAt;
      assert d == Replay(o', reqs[1..]).deliveredAt;
      if d != o'.deliveredAt {
        var i :| 0 <= i < |reqs[1..]| && IsDeliveryAt(reqs[1..][i], d);
        assert reqs[i + 1] == reqs[1..][i];
      } else if d != o.deliveredAt {
        assert IsDeliveryAt(reqs[0], d);
      }
    }
  }

  /** Because `cancelOrder` is unguarded, a delivered order can be cancelled,
      and after that `updateOrder` accepts a new status for it. */
  lemma CancelReopensDeliveredOrder(o: Order, status: Option<string>, at: int)
    requires o.orderStatus == Some(Delivered)
    ensures Replay(o, [Cancel]).orderStatus == Some(Cancelled)
    ensures Replay(o, [Cancel, Update(status, at)]).orderStatus == status
  {
    var cancelled := o.(orderStatus := Some(Cancelled));
    assert Cancelled[0] != Delivered[0];
    assert Replay(o, [Cancel]) == Replay(cancelled, []);
    assert [Cancel, Update(status, at)][1..] == [Update(status, at)];
    assert Replay(o, [Cancel, Update(status, at)]) == Replay(cancelled, [Update(status, at)]);
    assert [Update(status, at)][1..] == [];
  }
}
