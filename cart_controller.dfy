/** Controllers/CartController.cs: adding to and editing the signed-in customer's cart, and
    turning the cart (or a single product) into an order. The caller's `CustomerId` is a
    parameter (`None` when nobody is signed in or the user has no customer profile). */
module CartController {
  import opened Common
  import opened Items
  import Carts
  import opened Orders
  import opened CreditCards
  import opened Entities
  import opened Data

  // ---------------------------------------------------------------------------
  // AddToCart
  // ---------------------------------------------------------------------------

  /** The customer's cart, or the empty cart `AddToCart` creates when there is none. */
  function CartFor(carts: seq<Carts.Cart>, items: seq<Item>, customerId: int): (r: Carts.Cart)
    ensures r.customerId == customerId
    ensures FindCartOf(carts, customerId).None? ==>
      forall j :: 0 <= j < |items| ==> items[j].cartId != Some(r.id)
  {
    match FindCartOf(carts, customerId)
    case Some(k) => carts[k]
    case None => Carts.Cart(NewCartId(carts, items), customerId)
  }

  predicate IsLineFor(cartId: int, productId: int, line: Item)
  {
    line.cartId == Some(cartId) && line.productId == productId
  }

  /** The cart's line for the product (`cart.Items.FirstOrDefault(i => i.ProductId == productId)`). */
  function LineFor(items: seq<Item>, cartId: int, productId: int): (r: Option<nat>)
    ensures r.Some? ==> r.value < |items| && IsLineFor(cartId, productId, items[r.value])
    ensures r.None? ==> forall j :: 0 <= j < |items| ==> !IsLineFor(cartId, productId, items[j])
  {
    IndexWhere(items, (line: Item) => IsLineFor(cartId, productId, line))
  }

  /** The item table after adding `quantity` of a product to cart `cartId`: an existing line
      grows by `quantity` (32-bit, keeping its old unit price); otherwise a known product
      gets a new line `newId` at its current price; an unknown product changes nothing. */
  function AddedToCart(items: seq<Item>, products: seq<Product>, cartId: int, productId: int,
                       quantity: int, newId: int): seq<Item>
  {
    match LineFor(items, cartId, productId)
    case Some(k) => items[k := items[k].(quantity := WrapInt32(items[k].quantity + quantity))]
    case None =>
      match FindProduct(products, productId)
      case None => items
      case Some(p) => items + [Item(newId, None, Some(cartId), productId, quantity, products[p].price)]
  }

  /** No two lines of the cart are for the same product. */
  predicate OneLinePerProduct(items: seq<Item>, cartId: int)
  {
    forall i, j :: 0 <= i < j < |items| && items[i].cartId == Some(cartId) && items[j].cartId == Some(cartId)
      ==> items[i].productId != items[j].productId
  }

  /** Adding keeps at most one line per product, in this cart and in every other one, and
      leaves every row other than the product's line in this cart as it was. */
  lemma AddKeepsOneLinePerProduct(items: seq<Item>, products: seq<Product>, cartId: int,
                                  productId: int, quantity: int, newId: int, c: int)
    requires OneLinePerProduct(items, c)
    ensures OneLinePerProduct(AddedToCart(items, products, cartId, productId, quantity, newId), c)
    ensures |items| <= |AddedToCart(items, products, cartId, productId, quantity, newId)|
    ensures forall j :: 0 <= j < |items| && !IsLineFor(cartId, productId, items[j]) ==>
      AddedToCart(items, products, cartId, productId, quantity, newId)[j] == items[j]
  {
    var r := AddedToCart(items, products, cartId, productId, quantity, newId);
    match LineFor(items, cartId, productId)
    case Some(k) =>
      assert forall j :: 0 <= j < |r| ==> r[j].cartId == items[j].cartId && r[j].productId == items[j].productId;
    case None =>
      if FindProduct(products, productId).Some? {
        forall i, j | 0 <= i < j < |r| && r[i].cartId == Some(c) && r[j].cartId == Some(c)
          ensures r[i].productId != r[j].productId
        {
          if j == |items| {
            assert r[i] == items[i];
            assert !IsLineFor(cartId, productId, items[i]);
          }
        }
      }
  }

  /** Adding changes the cart total by what the touched line gains: `quantity` units at the
      line's old unit price when the line existed (and the sum stays within 32 bits), or a
      whole new line at the product's price. */
  lemma AddToCartTotal(items: seq<Item>, products: seq<Product>, cart: Carts.Cart, productId: int,
                       quantity: int, newId: int)
    ensures LineFor(items, cart.id, productId).Some? ==>
      var k := LineFor(items, cart.id, productId).value;
      Carts.TotalAmount(cart, AddedToCart(items, products, cart.id, productId, quantity, newId))
        == Carts.TotalAmount(cart, items)
           + (WrapInt32(items[k].quantity + quantity) - items[k].quantity) * items[k].unitPrice
    ensures (LineFor(items, cart.id, productId).Some?
             && InInt32(items[LineFor(items, cart.id, productId).value].quantity + quantity)) ==>
      Carts.TotalAmount(cart, AddedToCart(items, products, cart.id, productId, quantity, newId))
        == Carts.TotalAmount(cart, items) + quantity * items[LineFor(items, cart.id, productId).value].unitPrice
    ensures LineFor(items, cart.id, productId).None? && FindProduct(products, productId).Some? ==>
      Carts.TotalAmount(cart, AddedToCart(items, products, cart.id, productId, quantity, newId))
        == Carts.TotalAmount(cart, items) + quantity * products[FindProduct(products, productId).value].price
    ensures LineFor(items, cart.id, productId).None? && FindProduct(products, productId).None? ==>
      Carts.TotalAmount(cart, AddedToCart(items, products, cart.id, productId, quantity, newId))
        == Carts.TotalAmount(cart, items)
  {
    match LineFor(items, cart.id, productId)
    case Some(k) =>
      var before := items[k];
      var after := before.(quantity := WrapInt32(before.quantity + quantity));
      Carts.TotalAmountReplace(cart, items, k, after);
      TotalPriceGrows(before, after.quantity - before.quantity);
      assert after == before.(quantity := before.quantity + (after.quantity - before.quantity));
    case None =>
      match FindProduct(products, productId)
      case None =>
      case Some(j) =>
        Carts.TotalAmountAppend(cart, items, Item(newId, None, Some(cart.id), productId, quantity, products[j].price));
  }

  /** `AddToCart`: nobody signed in is Unauthorized. Otherwise the customer's cart is
      created (saved) when missing, and the item table becomes `AddedToCart` for it. A request
      without a quantity adds 1 (the action's default); the caller passes that 1 here. */
  method AddToCart(db: ShopDb, customerId: Option<int>, productId: int, quantity: int)
    returns (resp: Response)
    modifies db`carts, db`items
    ensures customerId.None? ==>
      resp == Unauthorized && db.carts == old(db.carts) && db.items == old(db.items)
    ensures customerId.Some? ==>
      resp == Done
      && db.carts == old(db.carts)
           + (if FindCartOf(old(db.carts), customerId.value).None?
              then [CartFor(old(db.carts), old(db.items), customerId.value)] else [])
      && db.items == AddedToCart(old(db.items), db.products,
                                 CartFor(old(db.carts), old(db.items), customerId.value).id,
                                 productId, quantity, NewItemId(old(db.items)))
  {
    if customerId.None? {
      return Unauthorized;
    }
    var cart := CartFor(db.carts, db.items, customerId.value);
    if FindCartOf(db.carts, customerId.value).None? {
      db.carts := db.carts + [cart];
    }
    var existing := LineFor(db.items, cart.id, productId);
    if existing.Some? {
      var k := existing.value;
      db.items := db.items[k := db.items[k].(quantity := WrapInt32(db.items[k].quantity + quantity))];
    } else {
      var product := FindProduct(db.products, productId);
      if product.Some? {
        var price := db.products[product.value].price;
        db.items := db.items + [Item(NewItemId(db.items), None, Some(cart.id), productId, quantity, price)];
      }
    }
    resp := Done;
  }

  // ---------------------------------------------------------------------------
  // Remove and UpdateQuantity (any item row, found by id)
  // ---------------------------------------------------------------------------

  /** `Remove`: deletes the item row with that id, if any; nothing else changes. */
  method Remove(db: ShopDb, itemId: int) returns (resp: Response)
    modifies db`items
    ensures resp == Done
    ensures FindItem(old(db.items), itemId).None? ==> db.items == old(db.items)
    ensures FindItem(old(db.items), itemId).Some? ==>
      db.items == RemoveAt(old(db.items), FindItem(old(db.items), itemId).value)
  {
    var found := FindItem(db.items, itemId);
    if found.Some? {
      db.items := RemoveAt(db.items, found.value);
    }
    resp := Done;
  }

  /** `UpdateQuantity`: a positive quantity replaces the row's quantity; a missing row or a
      quantity of zero or less changes nothing. */
  method UpdateQuantity(db: ShopDb, itemId: int, quantity: int) returns (resp: Response)
    modifies db`items
    ensures resp == Done
    ensures FindItem(old(db.items), itemId).None? || quantity <= 0 ==> db.items == old(db.items)
    ensures FindItem(old(db.items), itemId).Some? && quantity > 0 ==>
      var k := FindItem(old(db.items), itemId).value;
      db.items == old(db.items)[k := old(db.items)[k].(quantity := quantity)]
  {
    var found := FindItem(db.items, itemId);
    if found.Some? && quantity > 0 {
      var k := found.value;
      db.items := db.items[k := db.items[k].(quantity := quantity)];
    }
    resp := Done;
  }

  /** Removing a row of the cart lowers its total by that row's total. */
  lemma RemoveTotal(items: seq<Item>, k: nat, cart: Carts.Cart)
    requires k < |items|
    ensures Carts.InCart(cart.id, items[k]) ==>
      Carts.TotalAmount(cart, RemoveAt(items, k)) == Carts.TotalAmount(cart, items) - TotalPrice(items[k])
    ensures !Carts.InCart(cart.id, items[k]) ==>
      Carts.TotalAmount(cart, RemoveAt(items, k)) == Carts.TotalAmount(cart, items)
  {
    var p := (line: Item) => Carts.InCart(cart.id, line);
    assert items == (items[..k] + [items[k]]) + items[k + 1..];
    FilterConcat(items[..k] + [items[k]], items[k + 1..], p);
    FilterConcat(items[..k], [items[k]], p);
    FilterConcat(items[..k], items[k + 1..], p);
    FilterOne(items[k], p);
    SumConcat(Filter(items[..k], p) + Filter([items[k]], p), Filter(items[k + 1..], p));
    SumConcat(Filter(items[..k], p), Filter([items[k]], p));
    SumConcat(Filter(items[..k], p), Filter(items[k + 1..], p));
  }

  /** A positive update of a cart row sets that row's total to `quantity` units of its price. */
  lemma UpdateQuantityTotal(items: seq<Item>, k: nat, cart: Carts.Cart, quantity: int)
    requires k < |items| && Carts.InCart(cart.id, items[k])
    ensures Carts.TotalAmount(cart, items[k := items[k].(quantity := quantity)])
      == Carts.TotalAmount(cart, items) + (quantity - items[k].quantity) * items[k].unitPrice
  {
    var line := items[k].(quantity := quantity);
    Carts.TotalAmountReplace(cart, items, k, line);
    TotalPriceGrows(items[k], quantity - items[k].quantity);
    assert line == items[k].(quantity := items[k].quantity + (quantity - items[k].quantity));
  }

  // ---------------------------------------------------------------------------
  // Checkout
  // ---------------------------------------------------------------------------

  /** What `Checkout` (GET) shows: an unsaved order of the customer, dated `now`, over the
      cart's lines. */
  datatype Preview = Preview(order: Order, lines: seq<Item>)

  /** `Checkout` (GET): nobody signed in is Unauthorized; a missing or empty cart is declined
      as empty; otherwise the preview holds the cart's lines and its total. Nothing is saved. */
  method CheckoutForm(db: ShopDb, customerId: Option<int>, now: int)
    returns (resp: Response, preview: Option<Preview>)
    ensures customerId.None? ==> resp == Unauthorized && preview.None?
    ensures (customerId.Some? && (FindCartOf(db.carts, customerId.value).None?
             || Carts.Lines(db.carts[FindCartOf(db.carts, customerId.value).value], db.items) == [])) ==>
      resp == Declined(EmptyCart) && preview.None?
    ensures resp == ShowForm <==> preview.Some?
    ensures (customerId.Some? && FindCartOf(db.carts, customerId.value).Some?
             && Carts.Lines(db.carts[FindCartOf(db.carts, customerId.value).value], db.items) != []) ==>
      resp == ShowForm
    ensures preview.Some? ==>
      customerId.Some? && FindCartOf(db.carts, customerId.value).Some?
      && var cart := db.carts[FindCartOf(db.carts, customerId.value).value];
      preview.value.lines == Carts.Lines(cart, db.items) && |preview.value.lines| > 0
      && Sum(preview.value.lines) == Carts.TotalAmount(cart, db.items)
      && preview.value.order.customerId == customerId.value
      && preview.value.order.orderDate == now
      && preview.value.order.status == Pending
  {
    if customerId.None? {
      return Unauthorized, None;
    }
    var found := FindCartOf(db.carts, customerId.value);
    if found.None? {
      return Declined(EmptyCart), None;
    }
    var lines := Carts.Lines(db.carts[found.value], db.items);
    if lines == [] {
      return Declined(EmptyCart), None;
    }
    resp := ShowForm;
    preview := Some(Preview(NewOrder(0, customerId.value, now), lines));
  }

  /** The posted order form: the chosen payment method (`None` when the posted value is the
      enum's zero) and the card the form carries under `Customer.CreditCard`, if any. */
  datatype PostedOrder = PostedOrder(paymentMethod: Option<PaymentMethod>, card: Option<CreditCard>)

  /** A zero payment method becomes cash on delivery. */
  function ResolvePayment(posted: Option<PaymentMethod>): (r: PaymentMethod)
    ensures posted.Some? ==> r == posted.value
    ensures posted.None? ==> r == CashOnDelivery
  {
    posted.GetOr(CashOnDelivery)
  }

  /** The card table after storing the posted card as the customer's: a customer without a
      card gets the posted card linked under a fresh id; otherwise the five editable fields
      of the existing card are overwritten. */
  function StoredCard(cards: seq<CreditCard>, customerId: int, form: CreditCard, newId: int)
    : seq<CreditCard>
  {
    match CardOf(cards, customerId)
    case None => cards + [form.(id := newId, customerId := Some(customerId))]
    case Some(k) => cards[k := CopyCardFields(cards[k], form)]
  }

  /** Afterwards the customer has a card, it carries the posted fields (so it is valid exactly
      when the posted card is), and every other card row is unchanged. */
  lemma StoredCardIsCustomers(cards: seq<CreditCard>, customerId: int, form: CreditCard, newId: int)
    ensures var r := StoredCard(cards, customerId, form, newId);
      CardOf(r, customerId).Some?
      && CopyCardFields(r[CardOf(r, customerId).value], form) == r[CardOf(r, customerId).value]
      && (Valid(r[CardOf(r, customerId).value]) <==> Valid(form))
      && |r| >= |cards|
      && forall j :: 0 <= j < |cards| && cards[j].customerId != Some(customerId) ==> r[j] == cards[j]
  {
    var r := StoredCard(cards, customerId, form, newId);
    match CardOf(cards, customerId)
    case None =>
      assert r[|cards|].customerId == Some(customerId);
      CardOfIs(r, customerId, |cards|);
    case Some(k) =>
      assert r[k].customerId == Some(customerId);
      CardOfIs(r, customerId, k);
  }

  /** The card block shared by both checkout actions: when a credit card is chosen and the
      form carries a card, the cart owner's card is stored (a missing cart crashes before
      anything is saved; a cart whose customer row is missing skips the block). */
  method HandleCard(db: ShopDb, cart: Option<Carts.Cart>, method_: PaymentMethod, posted: Option<CreditCard>)
    returns (crashed: bool)
    modifies db`cards
    ensures crashed <==> method_ == CreditCardPayment && posted.Some? && cart.None?
    ensures (method_ == CreditCardPayment && posted.Some? && cart.Some?
             && FindCustomer(db.customers, cart.value.customerId).Some?) ==>
      db.cards == StoredCard(old(db.cards), cart.value.customerId, posted.value, NewCardId(old(db.cards)))
    ensures !(method_ == CreditCardPayment && posted.Some? && cart.Some?
              && FindCustomer(db.customers, cart.value.customerId).Some?) ==>
      db.cards == old(db.cards)
  {
    crashed := false;
    if method_ == CreditCardPayment && posted.Some? {
      if cart.None? {
        return true;
      }
      if FindCustomer(db.customers, cart.value.customerId).Some? {
        db.cards := StoredCard(db.cards, cart.value.customerId, posted.value, NewCardId(db.cards));
      }
    }
  }

  /** The item table after checkout: the cart's lines are gone and fresh copies of them,
      numbered from `start`, belong to order `orderId`. */
  function CheckedOutItems(items: seq<Item>, cart: Carts.Cart, orderId: int, start: int): seq<Item>
  {
    Filter(items, (line: Item) => !Carts.InCart(cart.id, line)) + CopyLines(Carts.Lines(cart, items), orderId, start)
  }

  /** Checkout moves the cart into the order: the new order holds a same-purchase copy of
      every cart line, its total is the old cart total, the cart is left empty, and every row
      that was not in the cart is kept. */
  lemma CheckoutMovesCart(items: seq<Item>, cart: Carts.Cart, order: Order, start: int)
    requires forall j :: 0 <= j < |items| ==> items[j].orderId != Some(order.id)
    ensures Orders.Lines(order, CheckedOutItems(items, cart, order.id, start))
      == CopyLines(Carts.Lines(cart, items), order.id, start)
    ensures Orders.TotalAmount(order, CheckedOutItems(items, cart, order.id, start))
      == Carts.TotalAmount(cart, items)
    ensures Carts.Lines(cart, CheckedOutItems(items, cart, order.id, start)) == []
    ensures forall j :: 0 <= j < |items| && !Carts.InCart(cart.id, items[j]) ==>
      items[j] in CheckedOutItems(items, cart, order.id, start)
  {
    var kept := Filter(items, (line: Item) => !Carts.InCart(cart.id, line));
    var copies := CopyLines(Carts.Lines(cart, items), order.id, start);
    var inOrder := (line: Item) => InOrder(order.id, line);
    var inCart := (line: Item) => Carts.InCart(cart.id, line);
    FilterConcat(kept, copies, inOrder);
    FilterDropsAll(kept, inOrder);
    FilterKeepsAll(copies, inOrder);
    CopyLinesTotal(Carts.Lines(cart, items), order.id, start);
    FilterConcat(kept, copies, inCart);
    FilterDropsAll(kept, inCart);
    FilterDropsAll(copies, inCart);
  }

  /** `Checkout` (POST). Nobody signed in is Unauthorized. A missing cart crashes before
      anything is saved. Otherwise the card block runs (its own save), then one save adds a
      Pending order of the customer with the resolved payment method and removes the cart's
      lines in favour of the order's copies. An empty cart still yields an (empty) order. */
  method Checkout(db: ShopDb, customerId: Option<int>, posted: PostedOrder, now: int)
    returns (resp: Response, orderId: int)
    modifies db`cards, db`orders, db`items
    ensures customerId.None? ==> resp == Unauthorized
    ensures customerId.None? || FindCartOf(old(db.carts), customerId.value).None? ==>
      db.cards == old(db.cards) && db.orders == old(db.orders) && db.items == old(db.items)
    ensures customerId.Some? && FindCartOf(old(db.carts), customerId.value).None? ==> resp == Crash
    ensures customerId.Some? && FindCartOf(old(db.carts), customerId.value).Some? ==>
      var cart := old(db.carts)[FindCartOf(old(db.carts), customerId.value).value];
      var pm := ResolvePayment(posted.paymentMethod);
      resp == Done
      && orderId == NewOrderId(old(db.orders), old(db.items))
      && db.orders == old(db.orders) + [NewOrder(orderId, customerId.value, now).(paymentMethod := pm)]
      && db.items == CheckedOutItems(old(db.items), cart, orderId, NewItemId(old(db.items)))
      && (pm == CreditCardPayment && posted.card.Some? && FindCustomer(db.customers, cart.customerId).Some? ==>
            db.cards == StoredCard(old(db.cards), cart.customerId, posted.card.value, NewCardId(old(db.cards))))
      && (!(pm == CreditCardPayment && posted.card.Some? && FindCustomer(db.customers, cart.customerId).Some?) ==>
            db.cards == old(db.cards))
  {
    orderId := 0;
    if customerId.None? {
      return Unauthorized, orderId;
    }
    var found := FindCartOf(db.carts, customerId.value);
    var cart := if found.Some? then Some(db.carts[found.value]) else None;
    var pm := ResolvePayment(posted.paymentMethod);
    var crashed := HandleCard(db, cart, pm, posted.card);
    if crashed || cart.None? {
      return Crash, orderId;
    }
    orderId := NewOrderId(db.orders, db.items);
    db.orders := db.orders + [NewOrder(orderId, customerId.value, now).(paymentMethod := pm)];
    db.items := CheckedOutItems(db.items, cart.value, orderId, NewItemId(db.items));
    resp := Done;
  }

  /** The item table after "buy now": the cart's lines are gone and one line of `quantity`
      units of the product at `price` belongs to order `orderId`. */
  function BoughtNowItems(items: seq<Item>, cart: Carts.Cart, orderId: int, lineId: int,
                          productId: int, quantity: int, price: int): seq<Item>
  {
    Filter(items, (line: Item) => !Carts.InCart(cart.id, line))
      + [Item(lineId, Some(orderId), None, productId, quantity, price)]
  }

  /** "Buy now" gives the order exactly one line, totalling `quantity` units at the price,
      and still empties the cart. */
  lemma BuyNowSingleLine(items: seq<Item>, cart: Carts.Cart, order: Order, lineId: int,
                         productId: int, quantity: int, price: int)
    requires forall j :: 0 <= j < |items| ==> items[j].orderId != Some(order.id)
    ensures Orders.Lines(order, BoughtNowItems(items, cart, order.id, lineId, productId, quantity, price))
      == [Item(lineId, Some(order.id), None, productId, quantity, price)]
    ensures Orders.TotalAmount(order, BoughtNowItems(items, cart, order.id, lineId, productId, quantity, price))
      == quantity * price
    ensures Carts.Lines(cart, BoughtNowItems(items, cart, order.id, lineId, productId, quantity, price)) == []
  {
    var kept := Filter(items, (line: Item) => !Carts.InCart(cart.id, line));
    var line := Item(lineId, Some(order.id), None, productId, quantity, price);
    var inOrder := (l: Item) => InOrder(order.id, l);
    var inCart := (l: Item) => Carts.InCart(cart.id, l);
    FilterConcat(kept, [line], inOrder);
    FilterDropsAll(kept, inOrder);
    FilterOne(line, inOrder);
    FilterConcat(kept, [line], inCart);
    FilterDropsAll(kept, inCart);
    FilterOne(line, inCart);
    assert Sum([line]) == TotalPrice(line) + Sum([line][1..]);
  }

  /** `BuyNow` (POST). Nobody signed in is Unauthorized. The card block runs first (a missing
      cart crashes there, before any save). An unknown product is NotFound, after the card
      save. A missing cart then crashes before the order is saved. Otherwise one save adds a
      Pending order with a single line at the product's current price and clears the cart.
      As in `AddToCart`, a request without a quantity means a quantity of 1. */
  method BuyNow(db: ShopDb, customerId: Option<int>, posted: PostedOrder, productId: int,
                quantity: int, now: int)
    returns (resp: Response, orderId: int)
    modifies db`cards, db`orders, db`items
    ensures customerId.None? ==>
      resp == Unauthorized && db.cards == old(db.cards) && db.orders == old(db.orders) && db.items == old(db.items)
    ensures customerId.Some? && FindCartOf(old(db.carts), customerId.value).None? ==>
      (resp == Crash || resp == NotFound)
      && db.cards == old(db.cards) && db.orders == old(db.orders) && db.items == old(db.items)
    ensures customerId.Some? && FindProduct(db.products, productId).None? ==>
      (resp == Crash || resp == NotFound) && db.orders == old(db.orders) && db.items == old(db.items)
    ensures (customerId.Some? && FindCartOf(old(db.carts), customerId.value).Some?
             && FindProduct(db.products, productId).Some?) ==>
      var cart := old(db.carts)[FindCartOf(old(db.carts), customerId.value).value];
      var product := db.products[FindProduct(db.products, productId).value];
      var pm := ResolvePayment(posted.paymentMethod);
      resp == Done
      && orderId == NewOrderId(old(db.orders), old(db.items))
      && db.orders == old(db.orders) + [NewOrder(orderId, customerId.value, now).(paymentMethod := pm)]
      && db.items == BoughtNowItems(old(db.items), cart, orderId, NewItemId(old(db.items)),
                                    productId, quantity, product.price)
    ensures (customerId.Some? && FindCartOf(old(db.carts), customerId.value).Some?) ==>
      var cart := old(db.carts)[FindCartOf(old(db.carts), customerId.value).value];
      var pm := ResolvePayment(posted.paymentMethod);
      (pm == CreditCardPayment && posted.card.Some? && FindCustomer(db.customers, cart.customerId).Some? ==>
         db.cards == StoredCard(old(db.cards), cart.customerId, posted.card.value, NewCardId(old(db.cards))))
      && (!(pm == CreditCardPayment && posted.card.Some? && FindCustomer(db.customers, cart.customerId).Some?) ==>
         db.cards == old(db.cards))
  {
    orderId := 0;
    if customerId.None? {
      return Unauthorized, orderId;
    }
    var found := FindCartOf(db.carts, customerId.value);
    var cart := if found.Some? then Some(db.carts[found.value]) else None;
    var pm := ResolvePayment(posted.paymentMethod);
    var crashed := HandleCard(db, cart, pm, posted.card);
    if crashed {
      return Crash, orderId;
    }
    var product := FindProduct(db.products, productId);
    if product.None? {
      return NotFound, orderId;
    }
    if cart.None? {
      return Crash, orderId;
    }
    var price := db.products[product.value].price;
    orderId := NewOrderId(db.orders, db.items);
    db.orders := db.orders + [NewOrder(orderId, customerId.value, now).(paymentMethod := pm)];
    db.items := BoughtNowItems(db.items, cart.value, orderId, NewItemId(db.items), productId, quantity, price);
    resp := Done;
  }
}
