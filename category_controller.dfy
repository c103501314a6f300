/** Controllers/CategoryController.cs: the second category controller. Its forms bind only
    some fields (`[Bind]`): `Create` binds the name and description, `Edit` the id, name
    and description, so the image column of the row it writes is null. */
module CategoryController {
  import opened Common
  import opened Entities
  import opened Data
  import opened Catalogue

  /** The row a create form produces: the bound name and description, no image, under a
      fresh identity value. */
  function Created(categories: seq<Category>, name: string, description: Option<string>): (r: Category)
    ensures r.name == name && r.description == description && r.imageUrl.None?
    ensures FindCategory(categories + [r], r.id) == Some(|categories|)
  {
    var r := Category(NewCategoryId(categories), name, description, None);
    assert (categories + [r])[|categories|] == r;
    r
  }

  /** `Create` (POST). */
  method Create(db: ShopDb, name: string, description: Option<string>) returns (resp: Response)
    modifies db`categories
    ensures !CategoryFieldsValid(name, description) ==> resp == ShowForm && db.categories == old(db.categories)
    ensures CategoryFieldsValid(name, description) ==>
      resp == Done && db.categories == old(db.categories) + [Created(old(db.categories), name, description)]
  {
    if !CategoryFieldsValid(name, description) {
      return ShowForm;
    }
    db.categories := db.categories + [Created(db.categories, name, description)];
    resp := Done;
  }

  /** The row an edit form produces: the bound id, name and description, no image. */
  function Bound(posted: Category): (r: Category)
    ensures r.id == posted.id && r.name == posted.name && r.description == posted.description
    ensures r.imageUrl.None?
  {
    posted.(imageUrl := None)
  }

  /** `Edit` (POST): the route id must be the posted id and the form valid; `Update` then
      writes the bound row, so a stored image is cleared. A category with the unset key 0 is
      tracked as new and inserted under a fresh identity value, exactly as `Create` would
      insert it. Any other key replaces the stored row with that id; when there is none, the
      save fails with a concurrency error that the action turns into NotFound. */
  method Edit(db: ShopDb, id: int, category: Category) returns (resp: Response)
    modifies db`categories
    ensures resp != Done ==> db.categories == old(db.categories)
    ensures id != category.id ==> resp == NotFound
    ensures id == category.id && !CategoryFieldsValid(category.name, category.description) ==> resp == ShowForm
    ensures (id == category.id && id != 0 && CategoryFieldsValid(category.name, category.description)
             && FindCategory(old(db.categories), id).None?) ==> resp == NotFound
    ensures resp == Done <==>
      id == category.id && CategoryFieldsValid(category.name, category.description)
      && (id == 0 || FindCategory(old(db.categories), id).Some?)
    ensures resp == Done && id == 0 ==>
      db.categories == old(db.categories) + [Created(old(db.categories), category.name, category.description)]
    ensures resp == Done && id != 0 ==>
      db.categories == old(db.categories)[FindCategory(old(db.categories), id).value := Bound(category)]
  {
    if id != category.id {
      return NotFound;
    }
    if !CategoryFieldsValid(category.name, category.description) {
      return ShowForm;
    }
    if id == 0 {
      db.categories := db.categories + [Created(db.categories, category.name, category.description)];
      return Done;
    }
    var found := FindCategory(db.categories, id);
    if found.None? {
      return NotFound;
    }
    db.categories := db.categories[found.value := Bound(category)];
    resp := Done;
  }

  /** `DeleteConfirmed`: the same guard as the other category controller; a category with
      products is kept, otherwise the category with that id is removed, and a missing id
      changes nothing. */
  method DeleteConfirmed(db: ShopDb, id: int) returns (resp: Response)
    modifies db`categories
    ensures FindCategory(old(db.categories), id).None? ==> resp == Done && db.categories == old(db.categories)
    ensures FindCategory(old(db.categories), id).Some? && HasProducts(db.products, id) ==>
      resp == Declined(CategoryHasProducts) && db.categories == old(db.categories)
    ensures FindCategory(old(db.categories), id).Some? && !HasProducts(db.products, id) ==>
      resp == Done && db.categories == RemoveAt(old(db.categories), FindCategory(old(db.categories), id).value)
    ensures old(CategoriesResolve(db.products, db.categories)) ==> CategoriesResolve(db.products, db.categories)
  {
    var found := FindCategory(db.categories, id);
    if found.None? {
      return Done;
    }
    if HasProducts(db.products, id) {
      return Declined(CategoryHasProducts);
    }
    if CategoriesResolve(db.products, db.categories) {
      RemoveUnusedCategory(db.products, db.categories, found.value);
    }
    db.categories := RemoveAt(db.categories, found.value);
    resp := Done;
  }
}
