/** Checkout and order history: a cart document becomes one order row and
    one item row per cart line inside a database transaction
    (backend/src/controllers/orderController.js). */
module Orders {
  import opened Wrappers
  import Seqs
  import Cart

  datatype Status = Pending | Completed | Cancelled

  function StatusName(s: Status): string {
    match s
    case Pending => "pending"
    case Completed => "completed"
    case Cancelled => "cancelled"
  }

  /** The status check of `updateOrderStatus`: exactly the three names are
      accepted, each meaning its own status. */
  function ParseStatus(text: string): (r: Option<Status>)
    ensures r.Some? <==> text == "pending" || text == "completed" || text == "cancelled"
    ensures r.Some? ==> StatusName(r.value) == text
  {
    if text == "pending" then Some(Pending)
    else if text == "completed" then Some(Completed)
    else if text == "cancelled" then Some(Cancelled)
    else None
  }

  /** A row of `orders`. Rows are kept in insertion order, so a later row is
      a newer one (`created_at` is not modelled otherwise). */
  datatype Order = Order(id: nat, userId: int, totalAmount: int, status: Status)

  /** A row of `order_items`: a copy of a cart line taken at checkout. */
  datatype OrderItem = OrderItem(orderId: nat, productId: int, productName: string, price: int, quantity: int)

  function Snapshot(orderId: nat, line: Cart.Line): OrderItem {
    OrderItem(orderId, line.productId, line.productName, line.price, line.quantity)
  }

  /** The item rows the checkout loop inserts, one per cart line, in cart order. */
  function Snapshots(orderId: nat, lines: seq<Cart.Line>): (r: seq<OrderItem>)
    ensures |r| == |lines|
    ensures forall k :: 0 <= k < |lines| ==>
      && r[k].orderId == orderId
      && r[k].productId == lines[k].productId && r[k].productName == lines[k].productName
      && r[k].price == lines[k].price && r[k].quantity == lines[k].quantity
  {
    if lines == [] then []
    else Snapshots(orderId, lines[..|lines| - 1]) + [Snapshot(orderId, lines[|lines| - 1])]
  }

  /** Order ids grow with insertion, as a serial column does. */
  predicate IdsAscending(orders: seq<Order>) {
    forall i, j :: 0 <= i < j < |orders| ==> orders[i].id < orders[j].id
  }

  predicate HasOrder(orders: seq<Order>, id: int) {
    exists i :: 0 <= i < |orders| && orders[i].id == id
  }

  /** The row `WHERE id = $1` selects. */
  function OrderIndex(orders: seq<Order>, id: int): (r: Option<nat>)
    ensures r.Some? ==> r.value < |orders| && orders[r.value].id == id
    ensures r.None? <==> !HasOrder(orders, id)
  {
    Seqs.IndexWhere(orders, (o: Order) => o.id == id)
  }

  /** The answer of `createOrder`: the new order with the cart's lines, the
      400 "cart empty" answer, or the 500 answer after a rollback. */
  datatype Checkout = Placed(order: Order, items: seq<Cart.Line>) | CartEmpty | ServerError

  datatype StatusReply = Updated(order: Order) | BadStatus | NotFound

  class OrderDb {
    var orders: seq<Order>
    var orderItems: seq<OrderItem>
    /** The next value of the `orders.id` sequence. */
    var nextId: nat

    ghost predicate Valid()
      reads this
    {
      TablesValid(orders, orderItems, nextId)
    }

    constructor ()
      ensures Valid() && orders == [] && orderItems == []
    {
      orders, orderItems, nextId := [], [], 1;
    }

    /** `createOrder`. `failAt` stands for the statement of the transaction
        that throws: 0 the order insert, k in 1..n the insert of the k-th of
        the n cart lines, n + 1 the deletion of the cart, n + 2 the COMMIT;
        any larger value, or none, lets the checkout succeed. Every failure
        rolls the tables back; the id the order insert drew stays drawn, as
        a database sequence is not transactional, and a failing COMMIT comes
        after the cart was already deleted. */
    method CreateOrder(userId: int, carts: Cart.CartStore, failAt: Option<nat>) returns (r: Checkout)
      requires Valid()
      modifies this, carts
      ensures Valid()
      ensures old(carts.Valid()) ==> carts.Valid()
      ensures userId !in old(carts.entries) || old(carts.entries)[userId].cart.items == [] ==>
        && r == CartEmpty
        && orders == old(orders) && orderItems == old(orderItems) && nextId == old(nextId)
        && carts.entries == old(carts.entries)
      ensures userId in old(carts.entries) && old(carts.entries)[userId].cart.items != [] ==>
        var cart := old(carts.entries)[userId].cart;
        var n := |cart.items|;
        if failAt.Some? && failAt.value <= n + 2 then
          && r == ServerError
          && orders == old(orders) && orderItems == old(orderItems)
          && nextId == (if failAt.value == 0 then old(nextId) else old(nextId) + 1)
          && carts.entries == (if failAt.value == n + 2 then old(carts.entries) - {userId} else old(carts.entries))
        else
          var order := Order(old(nextId), userId, cart.total, Completed);
          && r == Placed(order, cart.items)
          && orders == old(orders) + [order]
          && orderItems == old(orderItems) + Snapshots(order.id, cart.items)
          && nextId == old(nextId) + 1
          && carts.entries == old(carts.entries) - {userId}
    {
      // BEGIN
      if userId !in carts.entries {
        return CartEmpty;  // ROLLBACK
      }
      var cart := carts.entries[userId].cart;
      var n := |cart.items|;
      if n == 0 {
        return CartEmpty;  // ROLLBACK
      }
      if failAt == Some(0) {
        return ServerError;  // ROLLBACK
      }
      var order := Order(nextId, userId, cart.total, Completed);
      nextId := nextId + 1;
      var stagedOrders := orders + [order];
      var stagedItems := orderItems;
      var k := 0;
      while k < n
        invariant 0 <= k <= n
        invariant stagedItems == orderItems + Snapshots(order.id, cart.items[..k])
        invariant failAt.Some? ==> failAt.value == 0 || failAt.value > k
      {
        if failAt == Some(k + 1) {
          return ServerError;  // ROLLBACK
        }
        assert cart.items[..k + 1][..k] == cart.items[..k];
        stagedItems := stagedItems + [Snapshot(order.id, cart.items[k])];
        k := k + 1;
      }
      assert cart.items[..k] == cart.items;
      if failAt == Some(n + 1) {
        return ServerError;  // ROLLBACK
      }
      carts.entries := carts.entries - {userId};
      if failAt == Some(n + 2) {
        return ServerError;  // ROLLBACK
      }
      CommitKeepsValid(orders, orderItems, order, cart.items);
      // COMMIT
      orders, orderItems := stagedOrders, stagedItems;
      r := Placed(order, cart.items);
    }

    /** `updateOrderStatus`: an unknown status is refused before anything
        is read, an unknown id gets 404, and otherwise only that order's
        status changes. */
    method UpdateOrderStatus(id: int, statusText: string) returns (r: StatusReply)
      requires Valid()
      modifies this
      ensures Valid()
      ensures orderItems == old(orderItems) && nextId == old(nextId)
      ensures ParseStatus(statusText).None? ==> r == BadStatus && orders == old(orders)
      ensures ParseStatus(statusText).Some? && !HasOrder(old(orders), id) ==>
        r == NotFound && orders == old(orders)
      ensures ParseStatus(statusText).Some? && HasOrder(old(orders), id) ==>
        var k := OrderIndex(old(orders), id).value;
        && orders == old(orders)[k := old(orders)[k].(status := ParseStatus(statusText).value)]
        && r == Updated(orders[k])
    {
      var status := ParseStatus(statusText);
      if status.None? {
        return BadStatus;
      }
      var k := OrderIndex(orders, id);
      if k.None? {
        return NotFound;
      }
      var updated := orders[k.value := orders[k.value].(status := status.value)];
      assert TablesValid(updated, orderItems, nextId) by {
        forall q | 0 <= q < |orderItems| ensures HasOrder(updated, orderItems[q].orderId) {
          var i :| 0 <= i < |orders| && orders[i].id == orderItems[q].orderId;
          assert updated[i].id == orders[i].id;
        }
      }
      orders := updated;
      r := Updated(orders[k.value]);
    }
  }

  /** The database invariant over these rows: ids ascend and stay below
      the sequence, and every order item belongs to an order. */
  ghost predicate TablesValid(orders: seq<Order>, orderItems: seq<OrderItem>, nextId: nat) {
    && IdsAscending(orders)
    && (forall i :: 0 <= i < |orders| ==> orders[i].id < nextId)
    && (forall k :: 0 <= k < |orderItems| ==> HasOrder(orders, orderItems[k].orderId))
  }

  /** A committed checkout keeps the tables valid. */
  lemma CommitKeepsValid(orders: seq<Order>, orderItems: seq<OrderItem>, order: Order, lines: seq<Cart.Line>)
    requires TablesValid(orders, orderItems, order.id)
    ensures TablesValid(orders + [order], orderItems + Snapshots(order.id, lines), order.id + 1)
  {
    var stagedOrders, stagedItems := orders + [order], orderItems + Snapshots(order.id, lines);
    forall q | 0 <= q < |stagedItems| ensures HasOrder(stagedOrders, stagedItems[q].orderId) {
      if q < |orderItems| {
        var i :| 0 <= i < |orders| && orders[i].id == orderItems[q].orderId;
        assert stagedOrders[i] == orders[i];
      } else {
        assert stagedOrders[|orders|].id == stagedItems[q].orderId;
      }
    }
  }

  /** The orders `getOrders` lists for a user: exactly that user's orders,
      newest first. */
  function OrdersOf(orders: seq<Order>, userId: int): (r: seq<Order>)
    ensures forall o :: o in r <==> o in orders && o.userId == userId
    ensures IdsAscending(orders) ==> forall i, j :: 0 <= i < j < |r| ==> r[i].id > r[j].id
  {
    var mine := Seqs.Keep(orders, (o: Order) => o.userId == userId);
    assert IdsAscending(orders) ==> IdsAscending(mine) by {
      if IdsAscending(orders) {
        Seqs.SubsequenceIncreasing(mine, orders, (o: Order) => o.id);
      }
    }
    var r := Seqs.Reverse(mine);
    assert forall o :: o in r <==> o in mine by {
      forall o | o in mine ensures o in r {
        var i :| 0 <= i < |mine| && mine[i] == o;
        assert r[|mine| - 1 - i] == o;
      }
    }
    r
  }

  /** The rows `SELECT * FROM order_items WHERE order_id = $1` returns, in
      table order. */
  function ItemsOf(orderItems: seq<OrderItem>, orderId: nat): (r: seq<OrderItem>)
    ensures Seqs.IsSubsequence(r, orderItems)
    ensures forall it :: it in r <==> it in orderItems && it.orderId == orderId
    ensures forall it :: it in orderItems ==>
      multiset(r)[it] == if it.orderId == orderId then multiset(orderItems)[it] else 0
  {
    Seqs.Keep(orderItems, (it: OrderItem) => it.orderId == orderId)
  }

  /** An order as the history answers it: the row with its items attached. */
  datatype OrderView = OrderView(order: Order, items: seq<OrderItem>)

  /** `getOrders`: the caller's orders, newest first, each with its items. */
  function GetOrders(orders: seq<Order>, orderItems: seq<OrderItem>, userId: int): (r: seq<OrderView>)
    ensures |r| == |OrdersOf(orders, userId)|
    ensures forall i :: 0 <= i < |r| ==> r[i].order == OrdersOf(orders, userId)[i]
    ensures forall i :: 0 <= i < |r| ==> r[i].order.userId == userId && r[i].order in orders
    ensures IdsAscending(orders) ==> forall i, j :: 0 <= i < j < |r| ==> r[i].order.id > r[j].order.id
    ensures forall i :: 0 <= i < |r| ==> r[i].items == ItemsOf(orderItems, r[i].order.id)
  {
    var mine := OrdersOf(orders, userId);
    var r := seq(|mine|, i requires 0 <= i < |mine| => OrderView(mine[i], ItemsOf(orderItems, mine[i].id)));
    forall i | 0 <= i < |r|
      ensures r[i].order == mine[i] && r[i].items == ItemsOf(orderItems, mine[i].id)
      ensures mine[i].userId == userId && mine[i] in orders
    {
      assert mine[i] in mine;
    }
    r
  }

  /** `getOrderById`: found only when the order exists AND belongs to the
      caller; `None` is the 404 answer. */
  function GetOrderById(orders: seq<Order>, orderItems: seq<OrderItem>, id: int, userId: int): (r: Option<OrderView>)
    ensures r.None? <==> !exists o :: o in orders && o.id == id && o.userId == userId
    ensures r.Some? ==> r.value.order in orders && r.value.order.id == id && r.value.order.userId == userId
    ensures r.Some? ==> r.value.items == ItemsOf(orderItems, r.value.order.id)
  {
    var found := Seqs.Keep(orders, (o: Order) => o.id == id && o.userId == userId);
    if found == [] then
      None
    else
      assert found[0] in found;
      Some(OrderView(found[0], ItemsOf(orderItems, found[0].id)))
  }

  /** Another user's order is never shown, not even by its exact id. */
  lemma OtherUsersOrderNotFound(orders: seq<Order>, orderItems: seq<OrderItem>, k: nat, userId: int)
    requires IdsAscending(orders)
    requires k < |orders| && orders[k].userId != userId
    ensures GetOrderById(orders, orderItems, orders[k].id, userId) == None
  {
    if GetOrderById(orders, orderItems, orders[k].id, userId).Some? {
      var o :| o in orders && o.id == orders[k].id && o.userId == userId;
      assert false;
    }
  }

  /** An order in the administrators' list, with the owner's user name when
      the left join finds one. */
  datatype AdminView = AdminView(order: Order, username: Option<string>, items: seq<OrderItem>)

  /** `getAllOrders`: every order, newest first, joined with its owner's
      user name. */
  function GetAllOrders(orders: seq<Order>, orderItems: seq<OrderItem>, usernames: map<int, string>): (r: seq<AdminView>)
    ensures |r| == |orders|
    ensures forall i :: 0 <= i < |r| ==>
      && r[i].order == orders[|orders| - 1 - i]
      && r[i].username == (if r[i].order.userId in usernames then Some(usernames[r[i].order.userId]) else None)
      && r[i].items == ItemsOf(orderItems, r[i].order.id)
  {
    var newest := Seqs.Reverse(orders);
    seq(|newest|, i requires 0 <= i < |newest| =>
      var o := newest[i];
      AdminView(o, if o.userId in usernames then Some(usernames[o.userId]) else None, ItemsOf(orderItems, o.id)))
  }

  /** Checking out the example cart of three CBR at 500000 records an order
      of 1500000 with one item of quantity 3. */
  lemma ScenarioCheckout(orderId: nat)
    ensures var lines := [Cart.Line(5, "CBR", 500000, 3)];
      Snapshots(orderId, lines) == [OrderItem(orderId, 5, "CBR", 500000, 3)]
  {
    var lines := [Cart.Line(5, "CBR", 500000, 3)];
    assert lines[..0] == [];
  }
}
