/** The database context (Data/UShopDBContext.cs) as one object holding a sequence of rows
    per table, the keyed lookups the controllers perform on it, and the values identity
    columns hand out. Each `SaveChangesAsync` is one step of a method on this object. */
module Data {
  import opened Common
  import opened Items
  import opened Carts
  import opened Orders
  import opened CreditCards
  import opened Entities

  class ShopDb {
    var products: seq<Product>
    var categories: seq<Category>
    var customers: seq<Customer>
    var carts: seq<Cart>
    var items: seq<Item>
    var orders: seq<Order>
    var cards: seq<CreditCard>
    var addresses: seq<Address>

    /** An empty database. */
    constructor ()
      ensures products == [] && categories == [] && customers == [] && carts == []
      ensures items == [] && orders == [] && cards == [] && addresses == []
    {
      products := [];
      categories := [];
      customers := [];
      carts := [];
      items := [];
      orders := [];
      cards := [];
      addresses := [];
    }
  }

  /** Why an action declined, where the source reports it to the user. */
  datatype Reason =
    | InvalidStatusTransition
    | NotCancellable
    | EmptyCart
    | IncompleteProfile
    | NotACustomer
    | CustomerNotFound
    | CategoryHasProducts

  /** The outcome of a controller action. `Done` is the redirect after a completed action,
      `ShowForm` re-renders the posted form, `LoginRequired` redirects to the login page,
      `Crash` is an unhandled NullReferenceException (the request fails and nothing of it
      is saved). */
  datatype Response =
    | Done
    | ShowForm
    | NotFound
    | Unauthorized
    | LoginRequired
    | Declined(reason: Reason)
    | Crash

  // ---------------------------------------------------------------------------
  // Keyed lookups: the first row with the key, as FindAsync / FirstOrDefault return
  // ---------------------------------------------------------------------------

  function FindOrder(orders: seq<Order>, id: int): (r: Option<nat>)
    ensures r.Some? ==> r.value < |orders| && orders[r.value].id == id
    ensures r.Some? ==> forall j :: 0 <= j < r.value ==> orders[j].id != id
    ensures r.None? ==> forall j :: 0 <= j < |orders| ==> orders[j].id != id
  {
    IndexWhere(orders, (o: Order) => o.id == id)
  }

  function FindProduct(products: seq<Product>, id: int): (r: Option<nat>)
    ensures r.Some? ==> r.value < |products| && products[r.value].id == id
    ensures r.Some? ==> forall j :: 0 <= j < r.value ==> products[j].id != id
    ensures r.None? ==> forall j :: 0 <= j < |products| ==> products[j].id != id
  {
    IndexWhere(products, (p: Product) => p.id == id)
  }

  function FindCategory(categories: seq<Category>, id: int): (r: Option<nat>)
    ensures r.Some? ==> r.value < |categories| && categories[r.value].id == id
    ensures r.Some? ==> forall j :: 0 <= j < r.value ==> categories[j].id != id
    ensures r.None? ==> forall j :: 0 <= j < |categories| ==> categories[j].id != id
  {
    IndexWhere(categories, (c: Category) => c.id == id)
  }

  function FindCustomer(customers: seq<Customer>, id: int): (r: Option<nat>)
    ensures r.Some? ==> r.value < |customers| && customers[r.value].id == id
    ensures r.Some? ==> forall j :: 0 <= j < r.value ==> customers[j].id != id
    ensures r.None? ==> forall j :: 0 <= j < |customers| ==> customers[j].id != id
  {
    IndexWhere(customers, (c: Customer) => c.id == id)
  }

  function FindCustomerByEmail(customers: seq<Customer>, email: Option<string>): (r: Option<nat>)
    ensures r.Some? ==> r.value < |customers| && email == Some(customers[r.value].email)
    ensures r.Some? ==> forall j :: 0 <= j < r.value ==> email != Some(customers[j].email)
    ensures r.None? ==> forall j :: 0 <= j < |customers| ==> email != Some(customers[j].email)
  {
    IndexWhere(customers, (c: Customer) => email == Some(c.email))
  }

  function FindItem(items: seq<Item>, id: int): (r: Option<nat>)
    ensures r.Some? ==> r.value < |items| && items[r.value].id == id
    ensures r.Some? ==> forall j :: 0 <= j < r.value ==> items[j].id != id
    ensures r.None? ==> forall j :: 0 <= j < |items| ==> items[j].id != id
  {
    IndexWhere(items, (line: Item) => line.id == id)
  }

  /** The customer's cart (`Carts.FirstOrDefault(c => c.CustomerId == customerId)`). */
  function FindCartOf(carts: seq<Cart>, customerId: int): (r: Option<nat>)
    ensures r.Some? ==> r.value < |carts| && carts[r.value].customerId == customerId
    ensures r.Some? ==> forall j :: 0 <= j < r.value ==> carts[j].customerId != customerId
    ensures r.None? ==> forall j :: 0 <= j < |carts| ==> carts[j].customerId != customerId
  {
    IndexWhere(carts, (c: Cart) => c.customerId == customerId)
  }

  /** The customer's `CreditCard` navigation: the card row linked to the customer. */
  function CardOf(cards: seq<CreditCard>, customerId: int): (r: Option<nat>)
    ensures r.Some? ==> r.value < |cards| && cards[r.value].customerId == Some(customerId)
    ensures r.Some? ==> forall j :: 0 <= j < r.value ==> cards[j].customerId != Some(customerId)
    ensures r.None? ==> forall j :: 0 <= j < |cards| ==> cards[j].customerId != Some(customerId)
  {
    IndexWhere(cards, (c: CreditCard) => c.customerId == Some(customerId))
  }

  /** The first product with the id is the one `FindProduct` finds. */
  lemma FindProductIs(products: seq<Product>, id: int, k: nat)
    requires k < |products| && products[k].id == id
    requires forall j :: 0 <= j < k ==> products[j].id != id
    ensures FindProduct(products, id) == Some(k)
  {
  }

  /** The first card linked to the customer is the one `CardOf` finds. */
  lemma CardOfIs(cards: seq<CreditCard>, customerId: int, k: nat)
    requires k < |cards| && cards[k].customerId == Some(customerId)
    requires forall j :: 0 <= j < k ==> cards[j].customerId != Some(customerId)
    ensures CardOf(cards, customerId) == Some(k)
  {
  }

  /** The first address of the customer is the one `AddressOf` finds. */
  lemma AddressOfIs(addresses: seq<Address>, customerId: int, k: nat)
    requires k < |addresses| && addresses[k].customerId == customerId
    requires forall j :: 0 <= j < k ==> addresses[j].customerId != customerId
    ensures AddressOf(addresses, customerId) == Some(k)
  {
  }

  /** The customer's address record. */
  function AddressOf(addresses: seq<Address>, customerId: int): (r: Option<nat>)
    ensures r.Some? ==> r.value < |addresses| && addresses[r.value].customerId == customerId
    ensures r.Some? ==> forall j :: 0 <= j < r.value ==> addresses[j].customerId != customerId
    ensures r.None? ==> forall j :: 0 <= j < |addresses| ==> addresses[j].customerId != customerId
  {
    IndexWhere(addresses, (a: Address) => a.customerId == customerId)
  }

  // ---------------------------------------------------------------------------
  // Identity values: above every key and every reference already stored
  // ---------------------------------------------------------------------------

  function NewOrderId(orders: seq<Order>, items: seq<Item>): (r: int)
    ensures r >= 1
    ensures forall j :: 0 <= j < |orders| ==> orders[j].id < r
    ensures forall j :: 0 <= j < |items| ==> items[j].orderId != Some(r)
  {
    var a := FreshId(orders, (o: Order) => o.id);
    var b := FreshId(items, (line: Item) => KeyOr0(line.orderId));
    assert forall j :: 0 <= j < |items| ==> KeyOr0(items[j].orderId) < b;
    Max(a, b)
  }

  function NewCartId(carts: seq<Cart>, items: seq<Item>): (r: int)
    ensures r >= 1
    ensures forall j :: 0 <= j < |carts| ==> carts[j].id < r
    ensures forall j :: 0 <= j < |items| ==> items[j].cartId != Some(r)
  {
    var a := FreshId(carts, (c: Cart) => c.id);
    var b := FreshId(items, (line: Item) => KeyOr0(line.cartId));
    assert forall j :: 0 <= j < |items| ==> KeyOr0(items[j].cartId) < b;
    Max(a, b)
  }

  function NewItemId(items: seq<Item>): (r: int)
    ensures r >= 1
    ensures forall j :: 0 <= j < |items| ==> items[j].id < r
  {
    FreshId(items, (line: Item) => line.id)
  }

  function NewCardId(cards: seq<CreditCard>): (r: int)
    ensures r >= 1
    ensures forall j :: 0 <= j < |cards| ==> cards[j].id < r
  {
    FreshId(cards, (c: CreditCard) => c.id)
  }

  function NewProductId(products: seq<Product>): (r: int)
    ensures r >= 1
    ensures forall j :: 0 <= j < |products| ==> products[j].id < r
  {
    FreshId(products, (p: Product) => p.id)
  }

  function NewCategoryId(categories: seq<Category>): (r: int)
    ensures r >= 1
    ensures forall j :: 0 <= j < |categories| ==> categories[j].id < r
  {
    FreshId(categories, (c: Category) => c.id)
  }

  function NewAddressId(addresses: seq<Address>): (r: int)
    ensures r >= 1
    ensures forall j :: 0 <= j < |addresses| ==> addresses[j].id < r
  {
    FreshId(addresses, (a: Address) => a.id)
  }

  /** A customer id no customer row, card, cart or address refers to yet. */
  function NewCustomerId(customers: seq<Customer>, cards: seq<CreditCard>, carts: seq<Cart>,
                         addresses: seq<Address>): (r: int)
    ensures r >= 1
    ensures forall j :: 0 <= j < |customers| ==> customers[j].id < r
    ensures forall j :: 0 <= j < |cards| ==> cards[j].customerId != Some(r)
    ensures forall j :: 0 <= j < |carts| ==> carts[j].customerId != r
    ensures forall j :: 0 <= j < |addresses| ==> addresses[j].customerId != r
  {
    var a := FreshId(customers, (c: Customer) => c.id);
    var b := FreshId(cards, (c: CreditCard) => KeyOr0(c.customerId));
    assert forall j :: 0 <= j < |cards| ==> KeyOr0(cards[j].customerId) < b;
    var c := FreshId(carts, (c: Cart) => c.customerId);
    var d := FreshId(addresses, (a: Address) => a.customerId);
    Max(Max(a, b), Max(c, d))
  }
}
