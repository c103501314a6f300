/** Models/Item.cs: the line record shared by carts and orders, and the sum of line totals
    that Models/Cart.cs and Models/Order.cs both compute. Money is in cents: the column is
    decimal(18,2), so every stored price is a whole number of cents. */
module Items {
  import opened Common

  /** One line. A cart line links to its cart through cartId, an order line to its order
      through orderId; both links are optional. */
  datatype Item = Item(
    id: int,
    orderId: Option<int>,
    cartId: Option<int>,
    productId: int,
    quantity: int,
    unitPrice: int)

  /** `TotalPrice`: the line total. */
  function TotalPrice(line: Item): (r: int)
    ensures line.quantity == 0 ==> r == 0
    ensures line.quantity >= 0 && line.unitPrice >= 0 ==> r >= 0
    ensures line.quantity == 1 ==> r == line.unitPrice
  {
    line.quantity * line.unitPrice
  }

  /** Raising a line's quantity by d raises its total by d units of its price. */
  lemma TotalPriceGrows(line: Item, d: int)
    ensures TotalPrice(line.(quantity := line.quantity + d)) == TotalPrice(line) + d * line.unitPrice
  {
  }

  /** Sum of the line totals (`Items.Sum(item => item.Quantity * item.UnitPrice)`). */
  function Sum(lines: seq<Item>): (r: int)
    ensures (forall j :: 0 <= j < |lines| ==> lines[j].quantity >= 0 && lines[j].unitPrice >= 0) ==> r >= 0
  {
    if |lines| == 0 then 0 else TotalPrice(lines[0]) + Sum(lines[1..])
  }

  lemma {:induction false} SumConcat(a: seq<Item>, b: seq<Item>)
    ensures Sum(a + b) == Sum(a) + Sum(b)
  {
    if |a| == 0 {
      assert a + b == b;
    } else {
      assert (a + b)[1..] == a[1..] + b;
      SumConcat(a[1..], b);
    }
  }

  /** The sum does not depend on the order of the lines. */
  lemma {:induction false} SumPermutation(a: seq<Item>, b: seq<Item>)
    requires multiset(a) == multiset(b)
    ensures Sum(a) == Sum(b)
    decreases |a|
  {
    if |a| == 0 {
      assert |b| == |multiset(b)| == 0;
    } else {
      assert a[0] in multiset(b);
      var k :| 0 <= k < |b| && b[k] == a[0];
      var rest := b[..k] + b[k + 1..];
      assert b == b[..k] + [b[k]] + b[k + 1..];
      assert a == [a[0]] + a[1..];
      assert multiset(a) == multiset{a[0]} + multiset(a[1..]);
      assert multiset(b) == multiset(b[..k]) + multiset{b[k]} + multiset(b[k + 1..]);
      assert multiset(rest) == multiset(b[..k]) + multiset(b[k + 1..]);
      assert multiset(a[1..]) == multiset(a) - multiset{a[0]};
      assert multiset(rest) == multiset(b) - multiset{b[k]};
      assert multiset(a[1..]) == multiset(rest);
      SumPermutation(a[1..], rest);
      SumConcat(b[..k] + [b[k]], b[k + 1..]);
      SumConcat(b[..k], [b[k]]);
      SumConcat(b[..k], b[k + 1..]);
    }
  }

  /** Replacing one line changes the sum by the difference of the two line totals. */
  lemma SumReplace(lines: seq<Item>, k: nat, line: Item)
    requires k < |lines|
    ensures Sum(lines[k := line]) == Sum(lines) - TotalPrice(lines[k]) + TotalPrice(line)
  {
    var updated := lines[k := line];
    assert lines == lines[..k] + [lines[k]] + lines[k + 1..];
    assert updated == lines[..k] + [line] + lines[k + 1..];
    SumConcat(lines[..k] + [lines[k]], lines[k + 1..]);
    SumConcat(lines[..k], [lines[k]]);
    SumConcat(lines[..k] + [line], lines[k + 1..]);
    SumConcat(lines[..k], [line]);
  }

  /** Two lines describe the same purchase: same product, quantity and unit price. */
  predicate SamePurchase(a: Item, b: Item)
  {
    a.productId == b.productId && a.quantity == b.quantity && a.unitPrice == b.unitPrice
  }

  /** Fresh order lines copied from `lines`: the j-th copy has identity `start + j`, belongs
      to order `orderId` and to no cart, and keeps product, quantity and unit price. */
  function CopyLines(lines: seq<Item>, orderId: int, start: int): (r: seq<Item>)
    ensures |r| == |lines|
    ensures forall j :: 0 <= j < |r| ==>
      SamePurchase(r[j], lines[j]) && r[j].id == start + j
      && r[j].orderId == Some(orderId) && r[j].cartId == None
    decreases |lines|
  {
    if |lines| == 0 then []
    else
      [Item(start, Some(orderId), None, lines[0].productId, lines[0].quantity, lines[0].unitPrice)]
      + CopyLines(lines[1..], orderId, start + 1)
  }

  /** Copies total exactly what the originals total. */
  lemma {:induction false} CopyLinesTotal(lines: seq<Item>, orderId: int, start: int)
    ensures Sum(CopyLines(lines, orderId, start)) == Sum(lines)
    decreases |lines|
  {
    if |lines| > 0 {
      CopyLinesTotal(lines[1..], orderId, start + 1);
    }
  }
}
