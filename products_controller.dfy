/** Controllers/ProductsController.cs: the administrator and seller product list, the
    shopping list, and the product edit form. The signed-in user is a parameter; a
    newly uploaded image is given as the URL the upload produced (`None` when no file was
    posted). */
module ProductsController {
  import opened Common
  import opened Entities
  import opened Data
  import opened Catalogue

  /** A seller user sees only their own products; `sellerId` is the user's (nullable)
      seller id, compared with the product's. */
  predicate VisibleTo(p: Product, user: User)
  {
    user.userType != SellerUser || Some(p.sellerId) == user.sellerId
  }

  /** `Index`: the seller restriction, then the search and category filters. Without a
      signed-in user the query throws, the exception is caught, and the list is empty. */
  function Index(products: seq<Product>, user: Option<User>, search: Option<string>, categoryId: Option<int>): (r: seq<Product>)
    ensures user.None? ==> r == []
    ensures user.Some? && user.value.userType != SellerUser ==> r == SearchAndCategory(products, search, categoryId)
    ensures forall j :: 0 <= j < |r| ==>
      r[j] in products && user.Some? && VisibleTo(r[j], user.value)
      && MatchesSearch(r[j], search) && InCategory(r[j], categoryId)
  {
    if user.None? then []
    else
      var mine := if user.value.userType == SellerUser
                  then Filter(products, (p: Product) => Some(p.sellerId) == user.value.sellerId)
                  else products;
      assert forall j :: 0 <= j < |mine| ==> mine[j] in products && VisibleTo(mine[j], user.value);
      SearchAndCategory(mine, search, categoryId)
  }

  /** A product is in a signed-in user's list exactly when it is in the table, visible to the
      user, and passes both filters. */
  lemma IndexMembers(products: seq<Product>, user: User, search: Option<string>, categoryId: Option<int>, p: Product)
    ensures p in Index(products, Some(user), search, categoryId) <==>
      p in products && VisibleTo(p, user) && MatchesSearch(p, search) && InCategory(p, categoryId)
  {
    if user.userType == SellerUser {
      var mine := Filter(products, (q: Product) => Some(q.sellerId) == user.sellerId);
      SearchAndCategoryMembers(mine, search, categoryId, p);
      FilterIn(products, (q: Product) => Some(q.sellerId) == user.sellerId, p);
    } else {
      SearchAndCategoryMembers(products, search, categoryId, p);
    }
  }

  /** A seller user without a seller id sees no product. */
  lemma SellerWithoutIdSeesNothing(products: seq<Product>, user: User, search: Option<string>, categoryId: Option<int>)
    requires user.userType == SellerUser && user.sellerId.None?
    ensures Index(products, Some(user), search, categoryId) == []
  {
    var mine := Filter(products, (q: Product) => Some(q.sellerId) == user.sellerId);
    FilterDropsAll(products, (q: Product) => Some(q.sellerId) == user.sellerId);
    assert mine == [];
  }

  /** The posted edit form (ProductVM): the six editable fields and the route id. */
  datatype ProductForm = ProductForm(
    id: int,
    name: string,
    description: Option<string>,
    price: int,
    stockQuantity: int,
    sellerId: int,
    categoryId: int)

  /** The validation attributes of the form. */
  predicate FormValid(form: ProductForm)
  {
    ProductFieldsValid(form.name, form.description)
  }

  /** The stored product after an edit: the six form fields copied, the image replaced only
      by a newly uploaded one, the id kept. */
  function Edited(p: Product, form: ProductForm, newImage: Option<string>): (r: Product)
    ensures r.id == p.id
    ensures newImage.None? ==> r.imageUrl == p.imageUrl
    ensures newImage.Some? ==> r.imageUrl == newImage
    ensures ProductFieldsValid(r.name, r.description) <==> FormValid(form)
  {
    p.(name := form.name, description := form.description, price := form.price,
       stockQuantity := form.stockQuantity, categoryId := form.categoryId, sellerId := form.sellerId,
       imageUrl := if newImage.Some? then newImage else p.imageUrl)
  }

  /** Posting the same form again without a new image changes nothing more, and the
      outcome of an edit does not depend on the fields it overwrites. */
  lemma EditedIdempotent(p: Product, q: Product, form: ProductForm, newImage: Option<string>)
    requires p.id == q.id && (newImage.Some? || p.imageUrl == q.imageUrl)
    ensures Edited(Edited(p, form, newImage), form, None) == Edited(p, form, newImage)
    ensures Edited(p, form, newImage) == Edited(q, form, newImage)
  {
  }

  /** `Edit` (POST). */
  method Edit(db: ShopDb, id: int, form: ProductForm, newImage: Option<string>) returns (resp: Response)
    modifies db`products
    ensures resp != Done ==> db.products == old(db.products)
    ensures id != form.id ==> resp == NotFound
    ensures id == form.id && !FormValid(form) ==> resp == ShowForm
    ensures id == form.id && FormValid(form) && FindProduct(old(db.products), id).None? ==> resp == NotFound
    ensures resp == Done <==> id == form.id && FormValid(form) && FindProduct(old(db.products), id).Some?
    ensures resp == Done ==>
      var k := FindProduct(old(db.products), id).value;
      db.products == old(db.products)[k := Edited(old(db.products)[k], form, newImage)]
  {
    if id != form.id {
      return NotFound;
    }
    if !FormValid(form) {
      return ShowForm;
    }
    var found := FindProduct(db.products, id);
    if found.None? {
      return NotFound;
    }
    var k := found.value;
    db.products := db.products[k := Edited(db.products[k], form, newImage)];
    resp := Done;
  }
}
