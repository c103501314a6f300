/** Controllers/CategoriesController.cs: the category list with its search box, the edit
    form (with an optional image upload, given as the URL the upload produced) and the
    guarded delete. */
module CategoriesController {
  import opened Common
  import opened Entities
  import opened Data
  import opened Catalogue

  /** The search predicate: the name contains the search, or the description is present and
      contains it. */
  predicate Matches(c: Category, search: string)
  {
    Contains(c.name, search) || (c.description.Some? && Contains(c.description.value, search))
  }

  /** `Index`: a null or white-space search lists every category; any other search lists
      exactly the matching ones, in table order. */
  function Index(categories: seq<Category>, search: Option<string>): (r: seq<Category>)
    ensures IsNullOrWhiteSpace(search) ==> r == categories
    ensures !IsNullOrWhiteSpace(search) ==>
      (forall j :: 0 <= j < |r| ==> r[j] in categories && Matches(r[j], search.value))
      && (forall j :: 0 <= j < |categories| && Matches(categories[j], search.value) ==> categories[j] in r)
  {
    if IsNullOrWhiteSpace(search) then categories
    else Filter(categories, (c: Category) => Matches(c, search.value))
  }

  /** A category whose name contains the search is always listed, and a search that is a
      prefix of a name finds that category. */
  lemma NameHitIsListed(categories: seq<Category>, search: string, j: nat, at: nat)
    requires j < |categories| && at + |search| <= |categories[j].name|
    requires categories[j].name[at..at + |search|] == search
    ensures categories[j] in Index(categories, Some(search))
  {
    ContainsAt(categories[j].name, search, at);
  }

  /** The stored category after an edit: name and description copied, the image replaced
      only by a newly uploaded one, the id kept. */
  function Edited(existing: Category, posted: Category, newImage: Option<string>): (r: Category)
    ensures r.id == existing.id && r.name == posted.name && r.description == posted.description
    ensures newImage.None? ==> r.imageUrl == existing.imageUrl
    ensures newImage.Some? ==> r.imageUrl == newImage
  {
    existing.(name := posted.name, description := posted.description,
              imageUrl := if newImage.Some? then newImage else existing.imageUrl)
  }

  /** `Edit` (POST). */
  method Edit(db: ShopDb, id: int, category: Category, newImage: Option<string>) returns (resp: Response)
    modifies db`categories
    ensures resp != Done ==> db.categories == old(db.categories)
    ensures id != category.id ==> resp == NotFound
    ensures id == category.id && !CategoryFieldsValid(category.name, category.description) ==> resp == ShowForm
    ensures (id == category.id && CategoryFieldsValid(category.name, category.description)
             && FindCategory(old(db.categories), id).None?) ==> resp == NotFound
    ensures resp == Done <==>
      id == category.id && CategoryFieldsValid(category.name, category.description)
      && FindCategory(old(db.categories), id).Some?
    ensures resp == Done ==>
      var k := FindCategory(old(db.categories), id).value;
      db.categories == old(db.categories)[k := Edited(old(db.categories)[k], category, newImage)]
  {
    if id != category.id {
      return NotFound;
    }
    if !CategoryFieldsValid(category.name, category.description) {
      return ShowForm;
    }
    var found := FindCategory(db.categories, id);
    if found.None? {
      return NotFound;
    }
    var k := found.value;
    db.categories := db.categories[k := Edited(db.categories[k], category, newImage)];
    resp := Done;
  }

  /** `DeleteConfirmed`: a category that still has products is kept and the action
      declines; otherwise the category with that id is removed; a missing id changes
      nothing. Every product keeps a resolvable category. */
  method DeleteConfirmed(db: ShopDb, id: int) returns (resp: Response)
    modifies db`categories
    ensures FindCategory(old(db.categories), id).None? ==> resp == Done && db.categories == old(db.categories)
    ensures FindCategory(old(db.categories), id).Some? && HasProducts(db.products, id) ==>
      resp == Declined(CategoryHasProducts) && db.categories == old(db.categories)
    ensures FindCategory(old(db.categories), id).Some? && !HasProducts(db.products, id) ==>
      resp == Done && db.categories == RemoveAt(old(db.categories), FindCategory(old(db.categories), id).value)
    ensures old(CategoriesResolve(db.products, db.categories)) ==> CategoriesResolve(db.products, db.categories)
  {
    var found := FindCategory(db.categories, id);
    if found.None? {
      return Done;
    }
    if HasProducts(db.products, id) {
      return Declined(CategoryHasProducts);
    }
    if CategoriesResolve(db.products, db.categories) {
      RemoveUnusedCategory(db.products, db.categories, found.value);
    }
    db.categories := RemoveAt(db.categories, found.value);
    resp := Done;
  }
}
