/** Product categories (`CategoryController`): creating and renaming a category
    under a unique name, and deleting one that no product uses. */
module Categories {
  import opened Schema
  import opened Seqs

  /** A create or update request. `description` is `None` when the field was not
      sent at all, `Some(None)` when it was sent empty (null), `Some(Some(d))` otherwise. */
  datatype CategoryRequest = CategoryRequest(name: Option<string>, description: Option<Option<string>>)

  const MaxNameLength: nat := 255
  const MaxDescriptionLength: nat := 1000

  /** `unique:product_categories,name` (ignore == None) or `unique:product_categories,name,{id}`
      (ignore == Some(id)): no category other than the ignored one has the name. */
  predicate NameFree(categories: seq<Category>, name: string, ignore: Option<Id>)
  {
    forall i :: 0 <= i < |categories| && (ignore.None? || categories[i].id != ignore.value) ==>
      categories[i].name != name
  }

  /** The validation rules of `store` and `update`: a name of 1 to 255 characters that no
      other category has, and an optional description of at most 1000 characters. */
  predicate Acceptable(categories: seq<Category>, req: CategoryRequest, ignore: Option<Id>)
  {
    req.name.Some? && 0 < |req.name.value| <= MaxNameLength &&
    NameFree(categories, req.name.value, ignore) &&
    (req.description.Some? && req.description.value.Some? ==>
      |req.description.value.value| <= MaxDescriptionLength)
  }

  /** The row `ProductCategory::create` inserts: a description not sent is stored as null. */
  function Created(id: Id, req: CategoryRequest): Category
    requires req.name.Some?
  {
    Category(id, req.name.value, if req.description.Some? then req.description.value else None)
  }

  /** The row after `$category->update($validated)`: the description changes only when sent. */
  function Edited(c: Category, req: CategoryRequest): Category
    requires req.name.Some?
  {
    c.(name := req.name.value, description := if req.description.Some? then req.description.value else c.description)
  }

  /** The category table after updating the row with id `id`. */
  function Revised(categories: seq<Category>, id: Id, req: CategoryRequest): seq<Category>
    requires req.name.Some?
  {
    seq(|categories|, i requires 0 <= i < |categories| =>
      if categories[i].id == id then Edited(categories[i], req) else categories[i])
  }

  /** The category table after deleting the row with id `id`. */
  function Without(categories: seq<Category>, id: Id): seq<Category>
  {
    Filter(categories, (c: Category) => c.id != id)
  }

  /** The products that belong to category `id` (`$category->products()`). */
  function ProductsIn(products: seq<Product>, id: Id): seq<Product>
  {
    Filter(products, (p: Product) => p.categoryId == id)
  }

  /** No two categories share a name (the column's unique index). */
  ghost predicate NamesUnique(categories: seq<Category>)
  {
    forall i, j :: 0 <= i < j < |categories| ==> categories[i].name != categories[j].name
  }

  /** Creating an accepted category keeps names unique. */
  lemma StoreKeepsNamesUnique(categories: seq<Category>, req: CategoryRequest, id: Id)
    requires Acceptable(categories, req, None) && NamesUnique(categories)
    ensures NamesUnique(categories + [Created(id, req)])
  {
  }

  /** Renaming a category to an accepted name keeps names unique; a category may keep its own name. */
  lemma UpdateKeepsNamesUnique(categories: seq<Category>, id: Id, req: CategoryRequest)
    requires Acceptable(categories, req, Some(id)) && NamesUnique(categories)
    requires IdsIncreasing(categories, (c: Category) => c.id)
    ensures NamesUnique(Revised(categories, id, req))
  {
    var r := Revised(categories, id, req);
    forall i, j | 0 <= i < j < |r| ensures r[i].name != r[j].name {
      if categories[i].id == id {
        assert categories[j].id != id;
      } else if categories[j].id == id {
        assert categories[i].id != id;
      }
    }
  }

  /** Renaming a category to its own name is accepted, while creating another category with
      that name is refused. */
  lemma OwnNameAllowed(categories: seq<Category>, k: nat)
    requires k < |categories|
    requires NamesUnique(categories) && IdsIncreasing(categories, (c: Category) => c.id)
    ensures NameFree(categories, categories[k].name, Some(categories[k].id))
    ensures !NameFree(categories, categories[k].name, None)
  {
    forall i | 0 <= i < |categories| && categories[i].id != categories[k].id
      ensures categories[i].name != categories[k].name
    {
      assert i != k;
    }
  }

  /** Deleting a category that no product uses keeps every product's category in place, and
      removes that category and no other. */
  lemma DestroyKeepsIntegrity(categories: seq<Category>, products: seq<Product>, id: Id)
    requires CategoriesExist(products, categories)
    requires ProductsIn(products, id) == []
    ensures CategoriesExist(products, Without(categories, id))
    ensures forall c :: HasCategory(Without(categories, id), c) <==> HasCategory(categories, c) && c != id
  {
    var w := Without(categories, id);
    forall c | HasCategory(categories, c) && c != id ensures HasCategory(w, c) {
      var i :| 0 <= i < |categories| && categories[i].id == c;
      assert categories[i] in w;
    }
    forall c | HasCategory(w, c) ensures HasCategory(categories, c) && c != id {
      var i :| 0 <= i < |w| && w[i].id == c;
      assert w[i] in categories;
    }
    forall i | 0 <= i < |products| ensures products[i].categoryId != id {
      assert products[i] in products;
    }
  }

  /** With unique ids, cutting out position k is deleting the row with that position's id. */
  lemma WithoutAt(categories: seq<Category>, k: nat)
    requires k < |categories| && IdsIncreasing(categories, (c: Category) => c.id)
    ensures Without(categories, categories[k].id) == categories[..k] + categories[k + 1..]
  {
    var keep := (c: Category) => c.id != categories[k].id;
    forall j | 0 <= j < |categories| && j != k ensures keep(categories[j]) {
      if j < k {
        assert categories[j].id < categories[k].id;
      } else {
        assert categories[k].id < categories[j].id;
      }
    }
    FilterDropOne(categories, keep, k);
  }

  /** `CategoryController::store`. A rejected request or a failed insert changes nothing. */
  method StoreCategory(db: Database, req: CategoryRequest, fault: bool) returns (r: Outcome<Id>)
    requires db.Valid()
    modifies db
    ensures db.Valid()
    ensures db.branches == old(db.branches) && db.products == old(db.products)
    ensures db.orders == old(db.orders) && db.orderItems == old(db.orderItems)
    ensures db.nextProductId == old(db.nextProductId) && db.nextOrderId == old(db.nextOrderId)
    ensures !Acceptable(old(db.categories), req, None) ==> r == ValidationError && unchanged(db)
    ensures Acceptable(old(db.categories), req, None) && fault ==> r == ServerError && unchanged(db)
    ensures Acceptable(old(db.categories), req, None) && !fault ==>
      r == Ok(old(db.nextCategoryId)) &&
      db.categories == old(db.categories) + [Created(old(db.nextCategoryId), req)] &&
      db.nextCategoryId == old(db.nextCategoryId) + 1
  {
    if !Acceptable(db.categories, req, None) {
      return ValidationError;
    }
    if fault {
      return ServerError;
    }
    var id := db.nextCategoryId;
    db.categories := db.categories + [Created(id, req)];
    db.nextCategoryId := id + 1;
    r := Ok(id);
  }

  /** `CategoryController::update`. An unknown category is not found; a rejected request or a
      failed write changes nothing; otherwise only the row with that id changes. */
  method UpdateCategory(db: Database, id: Id, req: CategoryRequest, fault: bool) returns (r: Outcome<Id>)
    requires db.Valid()
    modifies db
    ensures db.Valid()
    ensures db.branches == old(db.branches) && db.products == old(db.products)
    ensures db.orders == old(db.orders) && db.orderItems == old(db.orderItems)
    ensures db.nextCategoryId == old(db.nextCategoryId)
    ensures db.nextProductId == old(db.nextProductId) && db.nextOrderId == old(db.nextOrderId)
    ensures !HasCategory(old(db.categories), id) ==> r == NotFound && unchanged(db)
    ensures HasCategory(old(db.categories), id) && !Acceptable(old(db.categories), req, Some(id)) ==>
      r == ValidationError && unchanged(db)
    ensures HasCategory(old(db.categories), id) && Acceptable(old(db.categories), req, Some(id)) && fault ==>
      r == ServerError && unchanged(db)
    ensures HasCategory(old(db.categories), id) && Acceptable(old(db.categories), req, Some(id)) && !fault ==>
      r == Ok(id) && db.categories == Revised(old(db.categories), id, req)
  {
    // route model binding resolves the category before the action runs
    var found := Find(db.categories, (c: Category) => c.id, id);
    if found.None? {
      return NotFound;
    }
    if !Acceptable(db.categories, req, Some(id)) {
      return ValidationError;
    }
    if fault {
      return ServerError;
    }
    var k := found.value;
    db.categories := db.categories[k := Edited(db.categories[k], req)];
    r := Ok(id);
  }

  /** `CategoryController::destroy`. An unknown category is not found; a category that some
      product uses is refused (422) and kept; otherwise exactly that row is deleted. */
  method DestroyCategory(db: Database, id: Id, fault: bool) returns (r: Outcome<Id>)
    requires db.Valid()
    modifies db
    ensures db.Valid()
    ensures db.branches == old(db.branches) && db.products == old(db.products)
    ensures db.orders == old(db.orders) && db.orderItems == old(db.orderItems)
    ensures db.nextCategoryId == old(db.nextCategoryId)
    ensures db.nextProductId == old(db.nextProductId) && db.nextOrderId == old(db.nextOrderId)
    ensures !HasCategory(old(db.categories), id) ==> r == NotFound && unchanged(db)
    ensures HasCategory(old(db.categories), id) && ProductsIn(old(db.products), id) != [] ==>
      r == Conflict && unchanged(db)
    ensures HasCategory(old(db.categories), id) && ProductsIn(old(db.products), id) == [] && fault ==>
      r == ServerError && unchanged(db)
    ensures HasCategory(old(db.categories), id) && ProductsIn(old(db.products), id) == [] && !fault ==>
      r == Ok(id) && db.categories == Without(old(db.categories), id)
  {
    var found := Find(db.categories, (c: Category) => c.id, id);
    if found.None? {
      return NotFound;
    }
    if |ProductsIn(db.products, id)| > 0 {
      return Conflict;
    }
    if fault {
      return ServerError;
    }
    var k := found.value;
    WithoutAt(db.categories, k);
    db.categories := db.categories[..k] + db.categories[k + 1..];
    r := Ok(id);
  }
}
