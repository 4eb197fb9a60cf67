/** The product catalog (`ProductController`): the paginated listing, and
    creating and updating a product behind the request's validation rules,
    inside a transaction that a failure rolls back. */
module Products {
  import opened Calendar
  import opened Schema
  import opened Seqs

  /** An uploaded file: whether it is an image, and its size in kilobytes. */
  datatype Upload = Upload(isImage: bool, sizeKb: nat)

  /** A create or update request as submitted; a missing field is `None`. */
  datatype ProductRequest = ProductRequest(
    name: Option<string>,
    categoryId: Option<Id>,
    branchId: Option<Id>,
    barcode: Option<int>,
    price: Option<Cents>,
    stockQuantity: Option<int>,
    image: Option<Upload>)

  const MaxNameLength: nat := 255
  const MaxImageKb: nat := 2048
  /** `min:0.01`, in cents. */
  const MinPrice: Cents := 1
  /** `request('per_page', 10)`. */
  const DefaultPerPage: nat := 10
  /** The model's own page size, which `paginate` falls back to when given 0. */
  const ModelPerPage: nat := 15

  /** `unique:products,barcode` (with `ignore == None`) or `unique:products,barcode,{id}`
      (with `ignore == Some(id)`): no product other than the ignored one has the barcode. */
  predicate BarcodeFree(products: seq<Product>, barcode: int, ignore: Option<Id>)
  {
    forall i :: 0 <= i < |products| && (ignore.None? || products[i].id != ignore.value) ==>
      products[i].barcode != barcode
  }

  /** The validation rules shared by `store` and `update`. `store` requires an image and
      checks the barcode against every product; `update` accepts a missing image and ignores
      the product's own row in the barcode check. */
  predicate Acceptable(branches: seq<Branch>, categories: seq<Category>, products: seq<Product>,
                       req: ProductRequest, ignore: Option<Id>)
  {
    req.name.Some? && 0 < |req.name.value| <= MaxNameLength &&
    req.categoryId.Some? && HasCategory(categories, req.categoryId.value) &&
    req.branchId.Some? && HasBranch(branches, req.branchId.value) &&
    req.barcode.Some? && BarcodeFree(products, req.barcode.value, ignore) &&
    req.price.Some? && req.price.value >= MinPrice &&
    req.stockQuantity.Some? && req.stockQuantity.value >= 0 &&
    (ignore.None? ==> req.image.Some?) &&
    (req.image.Some? ==> req.image.value.isImage && req.image.value.sizeKb <= MaxImageKb)
  }

  /** The row `Product::create` inserts; `path` is where the upload was stored. */
  function Created(id: Id, req: ProductRequest, path: string, now: Timestamp): Product
    requires req.name.Some? && req.categoryId.Some? && req.branchId.Some? && req.barcode.Some?
    requires req.price.Some? && req.stockQuantity.Some?
  {
    Product(id, req.name.value, req.categoryId.value, Some(req.branchId.value), req.barcode.value,
            req.price.value, req.stockQuantity.value, path, now)
  }

  /** The row after `$product->update($validated)`: every validated column replaced, the image
      only when a new one was uploaded; id and creation time kept. */
  function Edited(p: Product, req: ProductRequest, path: string): Product
    requires req.name.Some? && req.categoryId.Some? && req.branchId.Some? && req.barcode.Some?
    requires req.price.Some? && req.stockQuantity.Some?
  {
    p.(name := req.name.value, categoryId := req.categoryId.value, branchId := Some(req.branchId.value),
       barcode := req.barcode.value, price := req.price.value, stock := req.stockQuantity.value,
       image := if req.image.Some? then path else p.image)
  }

  /** The product table after updating the row with id `id`; every other row as it was. */
  function Revised(products: seq<Product>, id: Id, req: ProductRequest, path: string): (r: seq<Product>)
    requires req.name.Some? && req.categoryId.Some? && req.branchId.Some? && req.barcode.Some?
    requires req.price.Some? && req.stockQuantity.Some?
  {
    seq(|products|, i requires 0 <= i < |products| =>
      if products[i].id == id then Edited(products[i], req, path) else products[i])
  }

  /** No two products share a barcode (the column's unique index). */
  ghost predicate BarcodesUnique(products: seq<Product>)
  {
    forall i, j :: 0 <= i < j < |products| ==> products[i].barcode != products[j].barcode
  }

  /** A product may keep its own barcode on `update`, while `store` refuses a barcode that
      product already has. */
  lemma OwnBarcodeAllowed(products: seq<Product>, k: nat)
    requires k < |products|
    requires BarcodesUnique(products) && IdsIncreasing(products, (p: Product) => p.id)
    ensures BarcodeFree(products, products[k].barcode, Some(products[k].id))
    ensures !BarcodeFree(products, products[k].barcode, None)
  {
    forall i | 0 <= i < |products| && products[i].id != products[k].id
      ensures products[i].barcode != products[k].barcode
    {
      assert i != k;
    }
  }

  /** Creating an accepted product keeps barcodes unique and every category reference valid. */
  lemma StoreKeepsInvariants(branches: seq<Branch>, categories: seq<Category>, products: seq<Product>,
                             req: ProductRequest, id: Id, path: string, now: Timestamp)
    requires Acceptable(branches, categories, products, req, None)
    requires BarcodesUnique(products) && CategoriesExist(products, categories)
    ensures BarcodesUnique(products + [Created(id, req, path, now)])
    ensures CategoriesExist(products + [Created(id, req, path, now)], categories)
  {
  }

  /** Updating an accepted product keeps barcodes unique and every category reference valid. */
  lemma UpdateKeepsInvariants(branches: seq<Branch>, categories: seq<Category>, products: seq<Product>,
                              id: Id, req: ProductRequest, path: string)
    requires Acceptable(branches, categories, products, req, Some(id))
    requires BarcodesUnique(products) && CategoriesExist(products, categories)
    requires IdsIncreasing(products, (p: Product) => p.id)
    ensures BarcodesUnique(Revised(products, id, req, path))
    ensures CategoriesExist(Revised(products, id, req, path), categories)
  {
    var r := Revised(products, id, req, path);
    forall i, j | 0 <= i < j < |r| ensures r[i].barcode != r[j].barcode {
      if products[i].id == id {
        assert products[j].id != id;
      } else if products[j].id == id {
        assert products[i].id != id;
      }
    }
  }

  /** With unique ids, updating "the row whose id is `id`" is updating that one position. */
  lemma RevisedAt(products: seq<Product>, k: nat, req: ProductRequest, path: string)
    requires k < |products| && IdsIncreasing(products, (p: Product) => p.id)
    requires req.name.Some? && req.categoryId.Some? && req.branchId.Some? && req.barcode.Some?
    requires req.price.Some? && req.stockQuantity.Some?
    ensures Revised(products, products[k].id, req, path) == products[k := Edited(products[k], req, path)]
  {
  }

  /** `ProductController::store`. Any failure (validation or storage) leaves the table as it was. */
  method StoreProduct(db: Database, req: ProductRequest, path: string, now: Timestamp, fault: bool)
    returns (r: Outcome<Id>)
    requires db.Valid()
    modifies db
    ensures db.Valid()
    ensures db.branches == old(db.branches) && db.categories == old(db.categories)
    ensures db.orders == old(db.orders) && db.orderItems == old(db.orderItems)
    ensures db.nextCategoryId == old(db.nextCategoryId) && db.nextOrderId == old(db.nextOrderId)
    ensures !Acceptable(old(db.branches), old(db.categories), old(db.products), req, None) ==>
      r == ValidationError && unchanged(db)
    ensures Acceptable(old(db.branches), old(db.categories), old(db.products), req, None) && fault ==>
      r == ServerError && unchanged(db)
    ensures Acceptable(old(db.branches), old(db.categories), old(db.products), req, None) && !fault ==>
      r == Ok(old(db.nextProductId)) &&
      db.products == old(db.products) + [Created(old(db.nextProductId), req, path, now)] &&
      db.nextProductId == old(db.nextProductId) + 1
  {
    // DB::beginTransaction(); the validation runs inside the try
    if !Acceptable(db.branches, db.categories, db.products, req, None) {
      return ValidationError;
    }
    if fault {
      // DB::rollBack(): nothing was written
      return ServerError;
    }
    var id := db.nextProductId;
    db.products := db.products + [Created(id, req, path, now)];
    db.nextProductId := id + 1;
    r := Ok(id);
  }

  /** `ProductController::update`. A missing id, a rejected request or a storage failure leaves
      the table as it was; otherwise only the row with that id changes. */
  method UpdateProduct(db: Database, id: Id, req: ProductRequest, path: string, fault: bool)
    returns (r: Outcome<Id>)
    requires db.Valid()
    modifies db
    ensures db.Valid()
    ensures db.branches == old(db.branches) && db.categories == old(db.categories)
    ensures db.orders == old(db.orders) && db.orderItems == old(db.orderItems)
    ensures db.nextCategoryId == old(db.nextCategoryId) && db.nextOrderId == old(db.nextOrderId)
    ensures db.nextProductId == old(db.nextProductId)
    ensures !HasProduct(old(db.products), id) ==> r == NotFound && unchanged(db)
    ensures HasProduct(old(db.products), id) &&
            !Acceptable(old(db.branches), old(db.categories), old(db.products), req, Some(id)) ==>
      r == ValidationError && unchanged(db)
    ensures HasProduct(old(db.products), id) &&
            Acceptable(old(db.branches), old(db.categories), old(db.products), req, Some(id)) && fault ==>
      r == ServerError && unchanged(db)
    ensures HasProduct(old(db.products), id) &&
            Acceptable(old(db.branches), old(db.categories), old(db.products), req, Some(id)) && !fault ==>
      r == Ok(id) && db.products == Revised(old(db.products), id, req, path)
  {
    // DB::beginTransaction(); Product::findOrFail($id)
    var found := Find(db.products, (p: Product) => p.id, id);
    if found.None? {
      return NotFound;
    }
    if !Acceptable(db.branches, db.categories, db.products, req, Some(id)) {
      return ValidationError;
    }
    if fault {
      return ServerError;
    }
    var k := found.value;
    RevisedAt(db.products, k, req, path);
    db.products := db.products[k := Edited(db.products[k], req, path)];
    r := Ok(id);
  }

  /** The page size `paginate` uses for a requested `per_page`. */
  function PageSize(perPage: Option<nat>): (n: nat)
    ensures n > 0
  {
    match perPage
    case None => DefaultPerPage
    case Some(k) => if k == 0 then ModelPerPage else k
  }

  /** The page `paginate` serves for a requested `page`: anything below 1 is page 1. */
  function PageNumber(page: Option<int>): (n: nat)
    ensures n >= 1
  {
    match page
    case None => 1
    case Some(k) => if k < 1 then 1 else k
  }

  /** All products, newest first (`orderBy('created_at', 'desc')`). */
  function Newest(products: seq<Product>): seq<Product>
  {
    SortDesc(products, (p: Product) => p.createdAt)
  }

  /** `count` pages of `size` rows: the number of rows before page `count + 1`. */
  function Offset(count: nat, size: nat): nat
  {
    if count == 0 then 0 else Offset(count - 1, size) + size
  }

  lemma {:induction false} OffsetIsProduct(count: nat, size: nat)
    ensures Offset(count, size) == count * size
  {
    if count > 0 {
      OffsetIsProduct(count - 1, size);
    }
  }

  /** Position in the newest-first listing of the first product on the requested page. */
  function PageStart(perPage: Option<nat>, page: Option<int>): nat
  {
    Offset(PageNumber(page) - 1, PageSize(perPage))
  }

  /** `ProductController::index`: one page of the products, newest first. */
  function ProductPage(products: seq<Product>, perPage: Option<nat>, page: Option<int>): (r: seq<Product>)
    ensures |r| <= PageSize(perPage)
    ensures Descending(r, (p: Product) => p.createdAt)
    ensures forall i :: 0 <= i < |r| ==> r[i] in products
    ensures forall i :: 0 <= i < |r| ==>
      PageStart(perPage, page) + i < |products| && r[i] == Newest(products)[PageStart(perPage, page) + i]
  {
    var sorted, first, size := Newest(products), PageStart(perPage, page), PageSize(perPage);
    if first >= |sorted| then []
    else
      var n := if |sorted| - first < size then |sorted| - first else size;
      DescendingSlice(sorted, (p: Product) => p.createdAt, first, n);
      NewestMembers(products);
      sorted[first..first + n]
  }

  /** The listing holds exactly the catalog's products. */
  lemma NewestMembers(products: seq<Product>)
    ensures |Newest(products)| == |products|
    ensures forall x :: x in Newest(products) ==> x in products
  {
    var sorted := Newest(products);
    forall x | x in sorted ensures x in products {
      assert x in multiset(sorted);
    }
  }

  /** The page holding position k of the newest-first listing, and k's place on it. */
  lemma PageArithmetic(size: nat, k: nat)
    requires size > 0
    ensures Offset(k / size, size) + k % size == k
    ensures k % size < size
  {
    OffsetIsProduct(k / size, size);
  }

  /** Every product appears on a page: the k-th newest is entry k % size of page k / size + 1. */
  lemma PageOfProduct(products: seq<Product>, perPage: Option<nat>, k: nat)
    requires k < |products|
    ensures var size := PageSize(perPage);
      var page := ProductPage(products, perPage, Some(k / size + 1));
      k % size < |page| && page[k % size] == Newest(products)[k]
  {
    var size := PageSize(perPage);
    var page := Some(k / size + 1);
    PageArithmetic(size, k);
    assert PageStart(perPage, page) + k % size == k;
  }
}
