/** Models/Cart.cs: a customer's cart. Its `Items` collection is the set of item rows whose
    CartId is the cart's id; `TotalAmount` sums their line totals. */
module Carts {
  import opened Common
  import opened Items

  datatype Cart = Cart(id: int, customerId: int)

  predicate InCart(cartId: int, line: Item)
  {
    line.cartId == Some(cartId)
  }

  /** The cart's `Items`: the rows of the item table that belong to it, in table order. */
  function Lines(cart: Cart, items: seq<Item>): (r: seq<Item>)
    ensures forall j :: 0 <= j < |r| ==> r[j] in items && InCart(cart.id, r[j])
    ensures forall j :: 0 <= j < |items| && InCart(cart.id, items[j]) ==> items[j] in r
  {
    Filter(items, (line: Item) => InCart(cart.id, line))
  }

  /** `TotalAmount`. */
  function TotalAmount(cart: Cart, items: seq<Item>): int
  {
    Sum(Lines(cart, items))
  }

  /** A cart that no row belongs to (a new cart) has no lines and totals 0. */
  lemma NewCartIsEmpty(cart: Cart, items: seq<Item>)
    requires forall j :: 0 <= j < |items| ==> items[j].cartId != Some(cart.id)
    ensures Lines(cart, items) == [] && TotalAmount(cart, items) == 0
  {
    FilterDropsAll(items, (line: Item) => InCart(cart.id, line));
  }

  /** Adding a line to the cart raises the total by that line's total; adding a row of
      another cart or of an order leaves it unchanged. */
  lemma TotalAmountAppend(cart: Cart, items: seq<Item>, line: Item)
    ensures InCart(cart.id, line) ==> TotalAmount(cart, items + [line]) == TotalAmount(cart, items) + TotalPrice(line)
    ensures !InCart(cart.id, line) ==> TotalAmount(cart, items + [line]) == TotalAmount(cart, items)
  {
    var p := (l: Item) => InCart(cart.id, l);
    FilterConcat(items, [line], p);
    assert Filter([line], p) == (if p(line) then [line] else []) + Filter([line][1..], p);
    SumConcat(Filter(items, p), Filter([line], p));
  }

  /** Replacing a line of the cart by another line of the cart changes the total by the
      difference of the two line totals. */
  lemma TotalAmountReplace(cart: Cart, items: seq<Item>, k: nat, line: Item)
    requires k < |items| && InCart(cart.id, items[k]) && InCart(cart.id, line)
    ensures TotalAmount(cart, items[k := line])
      == TotalAmount(cart, items) - TotalPrice(items[k]) + TotalPrice(line)
  {
    var p := (l: Item) => InCart(cart.id, l);
    FilterUpdate(items, k, line, p);
    SumReplace(Filter(items, p), |Filter(items[..k], p)|, line);
  }

  /** The total does not depend on the order of the rows. */
  lemma TotalAmountReorder(cart: Cart, a: seq<Item>, b: seq<Item>)
    requires multiset(a) == multiset(b)
    ensures TotalAmount(cart, a) == TotalAmount(cart, b)
  {
    var p := (l: Item) => InCart(cart.id, l);
    FilterPermutation(a, b, p);
    SumPermutation(Filter(a, p), Filter(b, p));
  }
}
