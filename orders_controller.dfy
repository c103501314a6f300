/** Controllers/OrdersController.cs: the order-status state machine and the admin actions
    that create, update, cancel and delete orders. */
module OrdersController {
  import opened Common
  import opened Items
  import opened Orders
  import opened Entities
  import opened Data

  // ---------------------------------------------------------------------------
  // The status guard
  // ---------------------------------------------------------------------------

  /** `IsValidStatusTransition`: the moves an admin may make. */
  predicate IsValidStatusTransition(current: OrderStatus, next: OrderStatus)
  {
    match current
    case Pending => next == Processing || next == Cancelled
    case Processing => next == Shipped || next == Cancelled
    case Shipped => next == Delivered
    case Delivered => false
    case Cancelled => false
    case _ => false
  }

  /** The allowed moves, listed as pairs. */
  const AllowedMoves: set<(OrderStatus, OrderStatus)> :=
    {(Pending, Processing), (Pending, Cancelled), (Processing, Shipped),
     (Processing, Cancelled), (Shipped, Delivered)}

  /** The guard admits exactly the listed moves. */
  lemma GuardIsAllowedMoves(current: OrderStatus, next: OrderStatus)
    ensures IsValidStatusTransition(current, next) <==> (current, next) in AllowedMoves
  {
  }

  /** Delivered, Cancelled, Ordered, OutForDelivery and Returned have no successor. */
  lemma TerminalStatuses(current: OrderStatus, next: OrderStatus)
    requires current in {Delivered, Cancelled, Ordered, OutForDelivery, Returned}
    ensures !IsValidStatusTransition(current, next)
  {
  }

  /** How many more moves the guard can still allow from a status. */
  function StepsLeft(s: OrderStatus): (r: nat)
    ensures r <= 3
  {
    match s
    case Pending => 3
    case Processing => 2
    case Shipped => 1
    case _ => 0
  }

  /** Every allowed move goes somewhere with fewer moves left; in particular no status may
      move to itself. */
  lemma MoveMakesProgress(current: OrderStatus, next: OrderStatus)
    requires IsValidStatusTransition(current, next)
    ensures StepsLeft(next) < StepsLeft(current)
    ensures next != current
  {
  }

  /** `CanOrderBeCancelled`. */
  predicate CanOrderBeCancelled(s: OrderStatus)
  {
    s == Pending || s == Processing
  }

  /** An order can be cancelled exactly when the guard allows the move to Cancelled. */
  lemma CancelAgreesWithGuard(s: OrderStatus)
    ensures CanOrderBeCancelled(s) <==> IsValidStatusTransition(s, Cancelled)
  {
  }

  /** A run of statuses each reached from the previous by an allowed move. */
  predicate IsChain(c: seq<OrderStatus>)
  {
    forall i :: 0 <= i < |c| - 1 ==> IsValidStatusTransition(c[i], c[i + 1])
  }

  /** A chain of allowed moves is never longer than the moves left at its start: at most
      three moves in all. */
  lemma {:induction false} ChainBound(c: seq<OrderStatus>)
    requires |c| > 0 && IsChain(c)
    ensures |c| - 1 <= StepsLeft(c[0]) <= 3
  {
    if |c| > 1 {
      assert IsValidStatusTransition(c[0], c[1]);
      MoveMakesProgress(c[0], c[1]);
      assert IsChain(c[1..]) by {
        forall i | 0 <= i < |c[1..]| - 1
          ensures IsValidStatusTransition(c[1..][i], c[1..][i + 1])
        {
          assert c[1..][i] == c[i + 1] && c[1..][i + 1] == c[i + 2];
        }
      }
      ChainBound(c[1..]);
    }
  }

  /** The status an order holds after an `UpdateStatus` request for `next`. */
  function StatusAfter(current: OrderStatus, next: OrderStatus): (r: OrderStatus)
    ensures r == next || r == current
    ensures r != current ==> IsValidStatusTransition(current, r)
  {
    if IsValidStatusTransition(current, next) then next else current
  }

  /** The status after a series of `UpdateStatus` requests, and how many of them took effect. */
  function StatusAfterAll(current: OrderStatus, requests: seq<OrderStatus>): OrderStatus
    decreases |requests|
  {
    if |requests| == 0 then current
    else StatusAfterAll(StatusAfter(current, requests[0]), requests[1..])
  }

  function ChangesMade(current: OrderStatus, requests: seq<OrderStatus>): nat
    decreases |requests|
  {
    if |requests| == 0 then 0
    else
      var s := StatusAfter(current, requests[0]);
      (if s != current then 1 else 0) + ChangesMade(s, requests[1..])
  }

  /** However many requests arrive, at most `StepsLeft` (so at most three) of them change
      the order's status, and a final status other than the start was reached by moves the
      guard allows. */
  lemma {:induction false} UpdatesBounded(current: OrderStatus, requests: seq<OrderStatus>)
    ensures ChangesMade(current, requests) <= StepsLeft(current) <= 3
    ensures ChangesMade(current, requests) == 0 ==> StatusAfterAll(current, requests) == current
    decreases |requests|
  {
    if |requests| > 0 {
      var s := StatusAfter(current, requests[0]);
      if s != current {
        MoveMakesProgress(current, s);
      }
      UpdatesBounded(s, requests[1..]);
    }
  }

  // ---------------------------------------------------------------------------
  // Actions
  // ---------------------------------------------------------------------------

  /** `UpdateStatus`: an unknown id is NotFound; a move the guard rejects is reported and
      changes nothing; otherwise the order's `Status`, and nothing else, becomes `newStatus`. */
  method UpdateStatus(db: ShopDb, id: int, newStatus: OrderStatus) returns (resp: Response)
    modifies db`orders
    ensures FindOrder(old(db.orders), id).None? ==> resp == NotFound && db.orders == old(db.orders)
    ensures FindOrder(old(db.orders), id).Some? ==>
      var k := FindOrder(old(db.orders), id).value;
      var o := old(db.orders)[k];
      if IsValidStatusTransition(o.status, newStatus)
      then resp == Done && db.orders == old(db.orders)[k := o.(status := newStatus)]
      else resp == Declined(InvalidStatusTransition) && db.orders == old(db.orders)
    ensures FindOrder(old(db.orders), id).Some? ==>
      var k := FindOrder(old(db.orders), id).value;
      |db.orders| == |old(db.orders)|
      && db.orders[k].status == StatusAfter(old(db.orders)[k].status, newStatus)
  {
    var found := FindOrder(db.orders, id);
    if found.None? {
      return NotFound;
    }
    var k := found.value;
    var order := db.orders[k];
    if !IsValidStatusTransition(order.status, newStatus) {
      return Declined(InvalidStatusTransition);
    }
    db.orders := db.orders[k := order.(status := newStatus)];
    resp := Done;
  }

  /** `Cancel`: an unknown id is NotFound; a Pending or Processing order becomes Cancelled;
      any other order is reported as not cancellable and left as it was. */
  method Cancel(db: ShopDb, id: int) returns (resp: Response)
    modifies db`orders
    ensures FindOrder(old(db.orders), id).None? ==> resp == NotFound && db.orders == old(db.orders)
    ensures FindOrder(old(db.orders), id).Some? ==>
      var k := FindOrder(old(db.orders), id).value;
      var o := old(db.orders)[k];
      if CanOrderBeCancelled(o.status)
      then resp == Done && db.orders == old(db.orders)[k := o.(status := Cancelled)]
      else resp == Declined(NotCancellable) && db.orders == old(db.orders)
  {
    var found := FindOrder(db.orders, id);
    if found.None? {
      return NotFound;
    }
    var k := found.value;
    var order := db.orders[k];
    if !CanOrderBeCancelled(order.status) {
      return Declined(NotCancellable);
    }
    db.orders := db.orders[k := order.(status := Cancelled)];
    resp := Done;
  }

  /** The lines the item-building loop of `Create` adds for the first `n` entries of the two
      lists: an entry with a positive quantity and a known product becomes a line of order
      `orderId` at the product's current price; the others are skipped. Identity values are
      handed out in order from `start`. */
  function AdminLines(products: seq<Product>, productIds: seq<int>, quantities: seq<int>,
                      orderId: int, start: int, n: nat): (r: seq<Item>)
    requires n <= |productIds| == |quantities|
    ensures |r| <= n
    decreases n
  {
    if n == 0 then []
    else
      var before := AdminLines(products, productIds, quantities, orderId, start, n - 1);
      var q := quantities[n - 1];
      var found := FindProduct(products, productIds[n - 1]);
      if q <= 0 || found.None? then before
      else
        var p := products[found.value];
        before + [Item(start + |before|, Some(orderId), None, p.id, q, p.price)]
  }

  /** The j-th line added by the loop: it belongs to order `orderId` and to no cart, has
      identity `start + j` and a positive quantity, and names an existing product at that
      product's current price. */
  predicate AddedLine(products: seq<Product>, orderId: int, start: int, j: int, line: Item)
  {
    line.id == start + j && line.orderId == Some(orderId) && line.cartId == None
    && line.quantity > 0
    && FindProduct(products, line.productId).Some?
    && products[FindProduct(products, line.productId).value].price == line.unitPrice
  }

  /** Every line the loop adds is an `AddedLine`. */
  lemma {:induction false} AdminLinesSound(products: seq<Product>, productIds: seq<int>,
                                           quantities: seq<int>, orderId: int, start: int, n: nat)
    requires n <= |productIds| == |quantities|
    ensures forall j :: 0 <= j < |AdminLines(products, productIds, quantities, orderId, start, n)| ==>
      AddedLine(products, orderId, start, j, AdminLines(products, productIds, quantities, orderId, start, n)[j])
    decreases n
  {
    if n > 0 {
      AdminLinesSound(products, productIds, quantities, orderId, start, n - 1);
      var before := AdminLines(products, productIds, quantities, orderId, start, n - 1);
      var found := FindProduct(products, productIds[n - 1]);
      if quantities[n - 1] > 0 && found.Some? {
        var p := products[found.value];
        var line := Item(start + |before|, Some(orderId), None, p.id, quantities[n - 1], p.price);
        var r := AdminLines(products, productIds, quantities, orderId, start, n);
        assert r == before + [line];
        assert FindProduct(products, line.productId) == found;
        assert AddedLine(products, orderId, start, |before|, line);
        forall j | 0 <= j < |r|
          ensures AddedLine(products, orderId, start, j, r[j])
        {
          if j < |before| {
            assert r[j] == before[j];
          }
        }
      }
    }
  }

  /** When every quantity is positive and every product exists, each entry becomes a line. */
  lemma {:induction false} AdminLinesComplete(products: seq<Product>, productIds: seq<int>,
                                              quantities: seq<int>, orderId: int, start: int, n: nat)
    requires n <= |productIds| == |quantities|
    requires forall i :: 0 <= i < n ==> quantities[i] > 0
    requires forall i :: 0 <= i < n ==> FindProduct(products, productIds[i]).Some?
    ensures |AdminLines(products, productIds, quantities, orderId, start, n)| == n
    decreases n
  {
    if n > 0 {
      AdminLinesComplete(products, productIds, quantities, orderId, start, n - 1);
    }
  }

  /** `Create` (POST): an invalid form is shown again and nothing changes. Otherwise the
      order is stored under a fresh identity value; then, when both lists are present and
      of equal length, the loop adds `AdminLines` for them. The order is saved before its
      lines, in two steps. */
  method Create(db: ShopDb, order: Order, formValid: bool,
                productIds: Option<seq<int>>, quantities: Option<seq<int>>)
    returns (resp: Response, orderId: int)
    modifies db`orders, db`items
    ensures !formValid ==> resp == ShowForm && db.orders == old(db.orders) && db.items == old(db.items)
    ensures formValid ==>
      resp == Done
      && orderId == NewOrderId(old(db.orders), old(db.items))
      && db.orders == old(db.orders) + [order.(id := orderId)]
    ensures formValid && productIds.Some? && quantities.Some? && |productIds.value| == |quantities.value| ==>
      db.items == old(db.items) + AdminLines(db.products, productIds.value, quantities.value,
                                             orderId, NewItemId(old(db.items)), |productIds.value|)
    ensures formValid && !(productIds.Some? && quantities.Some? && |productIds.value| == |quantities.value|) ==>
      db.items == old(db.items)
  {
    orderId := 0;
    if !formValid {
      return ShowForm, orderId;
    }
    orderId := NewOrderId(db.orders, db.items);
    db.orders := db.orders + [order.(id := orderId)];
    if productIds.Some? && quantities.Some? && |productIds.value| == |quantities.value| {
      var ids := productIds.value;
      var qs := quantities.value;
      var start := NewItemId(db.items);
      var added: seq<Item> := [];
      var i := 0;
      while i < |ids|
        invariant 0 <= i <= |ids|
        invariant added == AdminLines(db.products, ids, qs, orderId, start, i)
      {
        if qs[i] > 0 {
          var found := FindProduct(db.products, ids[i]);
          if found.Some? {
            var product := db.products[found.value];
            added := added + [Item(start + |added|, Some(orderId), None, product.id, qs[i], product.price)];
          }
        }
        i := i + 1;
      }
      db.items := db.items + added;
    }
    resp := Done;
  }

  predicate NotInOrder(orderId: int, line: Item)
  {
    line.orderId != Some(orderId)
  }

  /** `DeleteConfirmed`: removes the order found under `id` together with every line of it;
      an unknown id changes nothing. */
  method DeleteConfirmed(db: ShopDb, id: int) returns (resp: Response)
    modifies db`orders, db`items
    ensures resp == Done
    ensures FindOrder(old(db.orders), id).None? ==>
      db.orders == old(db.orders) && db.items == old(db.items)
    ensures FindOrder(old(db.orders), id).Some? ==>
      db.orders == RemoveAt(old(db.orders), FindOrder(old(db.orders), id).value)
      && db.items == Filter(old(db.items), (line: Item) => NotInOrder(id, line))
  {
    var found := FindOrder(db.orders, id);
    if found.Some? {
      db.items := Filter(db.items, (line: Item) => NotInOrder(id, line));
      db.orders := RemoveAt(db.orders, found.value);
    }
    resp := Done;
  }

  /** After the delete no line refers to the order, and every line of another order (or of a
      cart) is kept. */
  lemma DeleteKeepsOthers(items: seq<Item>, id: int)
    ensures var r := Filter(items, (line: Item) => NotInOrder(id, line));
      (forall j :: 0 <= j < |r| ==> r[j].orderId != Some(id))
      && (forall j :: 0 <= j < |items| && items[j].orderId != Some(id) ==> items[j] in r)
  {
  }
}
