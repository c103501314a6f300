/** The product and category rules the catalogue controllers share: the listing filters
    (name search, then category), the validation attributes of Models/Product.cs and
    Models/Category.cs, and the link from products to their category that the
    category-deletion guard protects. */
module Catalogue {
  import opened Common
  import opened Entities
  import opened Data

  /** A non-empty search keeps the products whose name contains it. */
  predicate MatchesSearch(p: Product, search: Option<string>)
  {
    IsNullOrEmpty(search) || Contains(p.name, search.value)
  }

  /** The category filter applies only to a category id greater than zero. */
  predicate InCategory(p: Product, categoryId: Option<int>)
  {
    categoryId.None? || categoryId.value <= 0 || p.categoryId == categoryId.value
  }

  /** The search and category filters of the catalogue listings, in the order the queries
      add them. */
  function SearchAndCategory(products: seq<Product>, search: Option<string>, categoryId: Option<int>): (r: seq<Product>)
    ensures |r| <= |products|
    ensures forall j :: 0 <= j < |r| ==>
      r[j] in products && MatchesSearch(r[j], search) && InCategory(r[j], categoryId)
  {
    var bySearch := if IsNullOrEmpty(search) then products
                    else Filter(products, (p: Product) => Contains(p.name, search.value));
    if categoryId.Some? && categoryId.value > 0 then Filter(bySearch, (p: Product) => p.categoryId == categoryId.value)
    else bySearch
  }

  /** The filters compose by conjunction: the listing is the table restricted, in table
      order, to the products that pass both. */
  lemma SearchAndCategoryIsConjunction(products: seq<Product>, search: Option<string>, categoryId: Option<int>)
    ensures SearchAndCategory(products, search, categoryId)
      == Filter(products, (p: Product) => MatchesSearch(p, search) && InCategory(p, categoryId))
  {
    var both := (p: Product) => MatchesSearch(p, search) && InCategory(p, categoryId);
    if categoryId.Some? && categoryId.value > 0 {
      var byCategory := (p: Product) => p.categoryId == categoryId.value;
      if IsNullOrEmpty(search) {
        FilterExt(products, byCategory, both);
      } else {
        var byName := (p: Product) => Contains(p.name, search.value);
        FilterFilter(products, byName, byCategory, both);
      }
    } else {
      if IsNullOrEmpty(search) {
        FilterKeepsAll(products, both);
      } else {
        FilterExt(products, (p: Product) => Contains(p.name, search.value), both);
      }
    }
  }

  /** A product is listed exactly when it is in the table and passes both filters. */
  lemma SearchAndCategoryMembers(products: seq<Product>, search: Option<string>, categoryId: Option<int>, p: Product)
    ensures p in SearchAndCategory(products, search, categoryId) <==>
      p in products && MatchesSearch(p, search) && InCategory(p, categoryId)
  {
    SearchAndCategoryIsConjunction(products, search, categoryId);
    FilterIn(products, (p: Product) => MatchesSearch(p, search) && InCategory(p, categoryId), p);
  }

  /** `[Required, MaxLength(150)]` on the name and `[MaxLength(500)]` on the description of a
      product. */
  predicate ProductFieldsValid(name: string, description: Option<string>)
  {
    !IsBlank(name) && |name| <= 150 && (description.None? || |description.value| <= 500)
  }

  /** `[Required, MaxLength(100)]` on the name and `[MaxLength(250)]` on the description of a
      category. */
  predicate CategoryFieldsValid(name: string, description: Option<string>)
  {
    !IsBlank(name) && |name| <= 100 && (description.None? || |description.value| <= 250)
  }

  /** The deletion guard: some product belongs to the category (`category.Products.Any()`). */
  predicate HasProducts(products: seq<Product>, categoryId: int)
  {
    exists j :: 0 <= j < |products| && products[j].categoryId == categoryId
  }

  /** Every product's category is in the category table. */
  predicate CategoriesResolve(products: seq<Product>, categories: seq<Category>)
  {
    forall j :: 0 <= j < |products| ==> FindCategory(categories, products[j].categoryId).Some?
  }

  /** Removing a category no product belongs to keeps every product's category resolvable. */
  lemma RemoveUnusedCategory(products: seq<Product>, categories: seq<Category>, k: nat)
    requires k < |categories| && !HasProducts(products, categories[k].id)
    requires CategoriesResolve(products, categories)
    ensures CategoriesResolve(products, RemoveAt(categories, k))
  {
    var r := RemoveAt(categories, k);
    forall j | 0 <= j < |products|
      ensures FindCategory(r, products[j].categoryId).Some?
    {
      var id := products[j].categoryId;
      var m := FindCategory(categories, id).value;
      assert m != k;
      var at := if m < k then m else m - 1;
      assert r[at] == categories[m];
    }
  }
}
