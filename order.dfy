/** Models/Order.cs and Models/OrderStatus.cs: an order record, its aggregate status and its
    total. The `Items` of an order are the item rows whose OrderId is the order's id. */
module Orders {
  import opened Common
  import opened Items

  /** Models/OrderStatus.cs, in declaration order. */
  datatype OrderStatus =
    | Pending
    | Processing
    | Ordered
    | Shipped
    | OutForDelivery
    | Delivered
    | Cancelled
    | Returned

  /** The payment choice of an order: cash on delivery (the default) or a credit card. */
  datatype PaymentMethod = CashOnDelivery | CreditCardPayment

  /** One order row. `sellers` holds the ids of the related sellers and `statuses` the
      per-seller status list; the shown code declares both and never writes either.
      `orderDate` is an opaque timestamp. */
  datatype Order = Order(
    id: int,
    customerId: int,
    orderDate: int,
    paymentMethod: PaymentMethod,
    sellers: seq<int>,
    statuses: seq<OrderStatus>,
    status: OrderStatus)

  /** Every entry of `statuses` is `v`, and there is at least one. */
  predicate UniformAt(statuses: seq<OrderStatus>, v: OrderStatus)
  {
    |statuses| > 0 && forall i :: 0 <= i < |statuses| ==> statuses[i] == v
  }

  /** The getter of `CurrentStatus`: the common value of `statuses` when they agree,
      otherwise the stored `status`. */
  function CurrentStatus(o: Order): (r: OrderStatus)
    ensures r == o.status || r in o.statuses
    ensures |o.statuses| == 0 ==> r == o.status
  {
    if |o.statuses| > 0 && forall i :: 0 <= i < |o.statuses| ==> o.statuses[i] == o.statuses[0]
    then o.statuses[0]
    else o.status
  }

  /** Uniform statuses decide the aggregate, whatever `status` holds. */
  lemma CurrentStatusUniform(o: Order, v: OrderStatus)
    requires UniformAt(o.statuses, v)
    ensures CurrentStatus(o) == v
  {
    assert o.statuses[0] == v;
  }

  /** Two disagreeing entries (or none at all) leave the stored `status` in charge. */
  lemma CurrentStatusMixed(o: Order, i: nat, j: nat)
    requires i < |o.statuses| && j < |o.statuses| && o.statuses[i] != o.statuses[j]
    ensures CurrentStatus(o) == o.status
  {
    assert o.statuses[i] != o.statuses[0] || o.statuses[j] != o.statuses[0];
  }

  /** The setter of `CurrentStatus`: it writes `status` and nothing else. */
  function SetCurrentStatus(o: Order, v: OrderStatus): (r: Order)
    ensures r.status == v
    ensures r.(status := o.status) == o
  {
    o.(status := v)
  }

  /** When `statuses` agree, setting `CurrentStatus` does not change what the getter reads. */
  lemma SetCurrentStatusUniform(o: Order, v: OrderStatus, w: OrderStatus)
    requires UniformAt(o.statuses, w)
    ensures CurrentStatus(SetCurrentStatus(o, v)) == CurrentStatus(o) == w
  {
    CurrentStatusUniform(o, w);
    CurrentStatusUniform(SetCurrentStatus(o, v), w);
  }

  /** When `statuses` are empty or disagree, the getter reads back what was set. */
  lemma SetCurrentStatusMixed(o: Order, v: OrderStatus)
    requires forall w :: !UniformAt(o.statuses, w)
    ensures CurrentStatus(SetCurrentStatus(o, v)) == v
  {
    var r := SetCurrentStatus(o, v);
    if |r.statuses| > 0 && forall i :: 0 <= i < |r.statuses| ==> r.statuses[i] == r.statuses[0] {
      assert UniformAt(o.statuses, o.statuses[0]);
    }
  }

  predicate InOrder(orderId: int, line: Item)
  {
    line.orderId == Some(orderId)
  }

  /** The order's `Items`: the rows of the item table that belong to it, in table order. */
  function Lines(o: Order, items: seq<Item>): (r: seq<Item>)
    ensures forall j :: 0 <= j < |r| ==> r[j] in items && InOrder(o.id, r[j])
    ensures forall j :: 0 <= j < |items| && InOrder(o.id, items[j]) ==> items[j] in r
  {
    Filter(items, (line: Item) => InOrder(o.id, line))
  }

  /** `TotalAmount`. */
  function TotalAmount(o: Order, items: seq<Item>): int
  {
    Sum(Lines(o, items))
  }

  /** An order no row belongs to totals 0. */
  lemma NoLinesTotalZero(o: Order, items: seq<Item>)
    requires forall j :: 0 <= j < |items| ==> items[j].orderId != Some(o.id)
    ensures Lines(o, items) == [] && TotalAmount(o, items) == 0
  {
    FilterDropsAll(items, (line: Item) => InOrder(o.id, line));
  }

  /** Appending rows that all belong to the order adds their sum; appending rows that all
      belong elsewhere leaves the total unchanged. */
  lemma TotalAmountExtend(o: Order, items: seq<Item>, more: seq<Item>)
    ensures (forall j :: 0 <= j < |more| ==> InOrder(o.id, more[j])) ==>
      TotalAmount(o, items + more) == TotalAmount(o, items) + Sum(more)
    ensures (forall j :: 0 <= j < |more| ==> !InOrder(o.id, more[j])) ==>
      TotalAmount(o, items + more) == TotalAmount(o, items)
  {
    var p := (line: Item) => InOrder(o.id, line);
    FilterConcat(items, more, p);
    SumConcat(Filter(items, p), Filter(more, p));
    if forall j :: 0 <= j < |more| ==> p(more[j]) {
      FilterKeepsAll(more, p);
    }
    if forall j :: 0 <= j < |more| ==> !p(more[j]) {
      FilterDropsAll(more, p);
    }
  }

  /** The total does not depend on the order of the rows. */
  lemma TotalAmountReorder(o: Order, a: seq<Item>, b: seq<Item>)
    requires multiset(a) == multiset(b)
    ensures TotalAmount(o, a) == TotalAmount(o, b)
  {
    var p := (line: Item) => InOrder(o.id, line);
    FilterPermutation(a, b, p);
    SumPermutation(Filter(a, p), Filter(b, p));
  }

  /** `new Order { ... }` with the declared defaults: cash on delivery, no sellers, no
      per-seller statuses, status Pending. */
  function NewOrder(id: int, customerId: int, orderDate: int): Order
  {
    Order(id, customerId, orderDate, CashOnDelivery, [], [], Pending)
  }

  /** A new order reads as Pending, pays cash on delivery, and totals 0 until a line names it. */
  lemma NewOrderDefaults(id: int, customerId: int, orderDate: int, items: seq<Item>)
    requires forall j :: 0 <= j < |items| ==> items[j].orderId != Some(id)
    ensures CurrentStatus(NewOrder(id, customerId, orderDate)) == Pending
    ensures NewOrder(id, customerId, orderDate).paymentMethod == CashOnDelivery
    ensures NewOrder(id, customerId, orderDate).sellers == []
    ensures TotalAmount(NewOrder(id, customerId, orderDate), items) == 0
  {
    NoLinesTotalZero(NewOrder(id, customerId, orderDate), items);
  }
}
