/** Controllers/ProdectController.cs (class `ProductController`): the public product
    listings and the product edit and delete actions. `Index` and `All` apply
    `Catalogue.SearchAndCategory`. */
module ProductController {
  import opened Common
  import opened Entities
  import opened Data
  import opened Catalogue

  /** `BySeller`: exactly the products of the seller, in table order. */
  function BySeller(products: seq<Product>, sellerId: int): (r: seq<Product>)
    ensures forall j :: 0 <= j < |r| ==> r[j] in products && r[j].sellerId == sellerId
    ensures forall j :: 0 <= j < |products| && products[j].sellerId == sellerId ==> products[j] in r
  {
    Filter(products, (p: Product) => p.sellerId == sellerId)
  }

  /** `ByCategory`: exactly the products of the category, in table order. Unlike the
      listing filter, any category id is used, zero and negative ones included. */
  function ByCategory(products: seq<Product>, categoryId: int): (r: seq<Product>)
    ensures forall j :: 0 <= j < |r| ==> r[j] in products && r[j].categoryId == categoryId
    ensures forall j :: 0 <= j < |products| && products[j].categoryId == categoryId ==> products[j] in r
  {
    Filter(products, (p: Product) => p.categoryId == categoryId)
  }

  /** For a positive id, `ByCategory` lists what the unsearched listing lists for that
      category; for any other id the listing ignores the category, while `ByCategory` still
      filters by it. */
  lemma ByCategoryAgainstListing(products: seq<Product>, categoryId: int)
    ensures categoryId > 0 ==> ByCategory(products, categoryId) == SearchAndCategory(products, None, Some(categoryId))
    ensures categoryId <= 0 ==> SearchAndCategory(products, None, Some(categoryId)) == products
  {
    if categoryId > 0 {
      FilterExt(products, (p: Product) => p.categoryId == categoryId,
                (p: Product) => p.categoryId == categoryId);
    }
  }

  /** The products of a seller in a category are the same whichever filter comes first. */
  lemma SellerAndCategoryCommute(products: seq<Product>, sellerId: int, categoryId: int)
    ensures ByCategory(BySeller(products, sellerId), categoryId) == BySeller(ByCategory(products, categoryId), sellerId)
  {
    var bySeller := (p: Product) => p.sellerId == sellerId;
    var byCategory := (p: Product) => p.categoryId == categoryId;
    var both := (p: Product) => p.sellerId == sellerId && p.categoryId == categoryId;
    FilterFilter(products, bySeller, byCategory, both);
    FilterFilter(products, byCategory, bySeller, both);
  }

  /** The validation attributes of the posted product. */
  predicate ProductValid(p: Product)
  {
    ProductFieldsValid(p.name, p.description)
  }

  /** The row `Edit` inserts when the posted product carries the unset key 0: the posted
      product under a fresh identity value, found under that value afterwards. */
  function Added(products: seq<Product>, product: Product): (r: Product)
    ensures r.(id := product.id) == product
    ensures forall j :: 0 <= j < |products| ==> products[j].id != r.id
    ensures FindProduct(products + [r], r.id) == Some(|products|)
  {
    var r := product.(id := NewProductId(products));
    FindProductIs(products + [r], r.id, |products|);
    r
  }

  /** `Edit` (POST): the route id must be the posted product's id and the product must be
      valid; `Update` then writes the posted product, every column included. A product with
      the unset key 0 is tracked as new and inserted under a fresh identity value. Any
      other key replaces the stored row with that id; when there is none, the save fails
      with a concurrency error that the action turns into NotFound. */
  method Edit(db: ShopDb, id: int, product: Product) returns (resp: Response)
    modifies db`products
    ensures resp != Done ==> db.products == old(db.products)
    ensures id != product.id ==> resp == NotFound
    ensures id == product.id && !ProductValid(product) ==> resp == ShowForm
    ensures id == product.id && id != 0 && ProductValid(product) && FindProduct(old(db.products), id).None? ==>
      resp == NotFound
    ensures resp == Done <==>
      id == product.id && ProductValid(product) && (id == 0 || FindProduct(old(db.products), id).Some?)
    ensures resp == Done && id == 0 ==>
      db.products == old(db.products) + [Added(old(db.products), product)]
    ensures resp == Done && id != 0 ==>
      db.products == old(db.products)[FindProduct(old(db.products), id).value := product]
      && FindProduct(db.products, id) == FindProduct(old(db.products), id)
  {
    if id != product.id {
      return NotFound;
    }
    if !ProductValid(product) {
      return ShowForm;
    }
    if id == 0 {
      db.products := db.products + [Added(db.products, product)];
      return Done;
    }
    var found := FindProduct(db.products, id);
    if found.None? {
      return NotFound;
    }
    db.products := db.products[found.value := product];
    FindProductIs(db.products, id, found.value);
    resp := Done;
  }

  /** Product ids are unique in the table. */
  predicate UniqueIds(products: seq<Product>)
  {
    forall i, j :: 0 <= i < j < |products| ==> products[i].id != products[j].id
  }

  /** The table after `DeleteConfirmed`: the product with that id removed, if there is one. */
  function Deleted(products: seq<Product>, id: int): (r: seq<Product>)
    ensures FindProduct(products, id).None? ==> r == products
    ensures FindProduct(products, id).Some? ==> |r| == |products| - 1
  {
    match FindProduct(products, id)
    case None => products
    case Some(k) => RemoveAt(products, k)
  }

  /** With unique ids, a deleted product can no longer be found, every other product stays,
      and ids stay unique. */
  lemma DeletedIsGone(products: seq<Product>, id: int)
    requires UniqueIds(products)
    ensures FindProduct(Deleted(products, id), id).None?
    ensures forall p :: p in products && p.id != id ==> p in Deleted(products, id)
    ensures UniqueIds(Deleted(products, id))
  {
    var r := Deleted(products, id);
    match FindProduct(products, id)
    case None =>
    case Some(k) =>
      forall j | 0 <= j < |r|
        ensures r[j].id != id
      {
        if j < k {
          assert r[j] == products[j];
        } else {
          assert r[j] == products[j + 1];
        }
      }
      forall p | p in products && p.id != id
        ensures p in r
      {
        var j :| 0 <= j < |products| && products[j] == p;
        if j < k {
          assert r[j] == p;
        } else {
          assert j != k;
          assert r[j - 1] == p;
        }
      }
  }

  /** `DeleteConfirmed`: removes the product with that id; a missing id changes nothing. */
  method DeleteConfirmed(db: ShopDb, id: int) returns (resp: Response)
    modifies db`products
    ensures resp == Done
    ensures db.products == Deleted(old(db.products), id)
  {
    db.products := Deleted(db.products, id);
    resp := Done;
  }
}
