/** The rows of the point-of-sale database and the database itself. Every
    table is a sequence of rows in id order; money is held in integer cents
    (the `decimal(10,2)` columns) and instants in integer seconds. */
module Schema {
  import opened Calendar

  type Id = nat

  /** An amount of money in cents. */
  type Cents = int

  datatype Option<T> = None | Some(value: T)

  datatype Status = Pending | Confirmed | Completed | Cancelled

  datatype Branch = Branch(id: Id, name: string, location: string, contactNumber: string)

  datatype Category = Category(id: Id, name: string, description: Option<string>)

  /** A product row; `branchId` is `None` for a product no branch has adopted yet. */
  datatype Product = Product(
    id: Id,
    name: string,
    categoryId: Id,
    branchId: Option<Id>,
    barcode: int,
    price: Cents,
    stock: int,
    image: string,
    createdAt: Timestamp)

  datatype Order = Order(
    id: Id,
    branchId: Id,
    subtotal: Cents,
    tax: Cents,
    total: Cents,
    status: Status,
    createdAt: Timestamp)

  /** One line of an order, with the unit price captured at the time of sale. */
  datatype OrderItem = OrderItem(orderId: Id, productId: Id, quantity: int, price: Cents)

  /** What a controller action reports: its result, or the kind of failure. */
  datatype Outcome<T> = Ok(value: T) | ValidationError | NotFound | Conflict | ServerError

  /** An exact quotient num / den; every producer keeps den > 0. */
  datatype Ratio = Ratio(num: int, den: int)

  predicate HasBranch(branches: seq<Branch>, id: Id)
  {
    exists i :: 0 <= i < |branches| && branches[i].id == id
  }

  predicate HasCategory(categories: seq<Category>, id: Id)
  {
    exists i :: 0 <= i < |categories| && categories[i].id == id
  }

  predicate HasProduct(products: seq<Product>, id: Id)
  {
    exists i :: 0 <= i < |products| && products[i].id == id
  }

  /** `find($id)`: the position of the row whose key is `key`, if there is one. */
  function Find<T>(s: seq<T>, id: T -> Id, key: Id): (r: Option<nat>)
    ensures r.Some? ==> r.value < |s| && id(s[r.value]) == key
    ensures r.None? <==> forall i :: 0 <= i < |s| ==> id(s[i]) != key
  {
    if s == [] then None
    else if id(s[0]) == key then Some(0)
    else
      match Find(s[1..], id, key)
      case None =>
        assert forall i :: 1 <= i < |s| ==> s[i] == s[1..][i - 1];
        None
      case Some(k) => Some(k + 1)
  }

  /** Every product's category exists (the `category_id` foreign key). */
  ghost predicate CategoriesExist(products: seq<Product>, categories: seq<Category>)
  {
    forall i :: 0 <= i < |products| ==> HasCategory(categories, products[i].categoryId)
  }

  /** Ids grow along the table, so no id occurs twice. */
  ghost predicate IdsIncreasing<T>(s: seq<T>, id: T -> Id)
  {
    forall i, j :: 0 <= i < j < |s| ==> id(s[i]) < id(s[j])
  }

  /** Every id of the table is below the table's next auto-increment value. */
  ghost predicate IdsBelow<T>(s: seq<T>, id: T -> Id, next: Id)
  {
    forall i :: 0 <= i < |s| ==> id(s[i]) < next
  }

  /** The database: one field per table, plus the auto-increment counters. */
  class Database {
    var branches: seq<Branch>
    var categories: seq<Category>
    var products: seq<Product>
    var orders: seq<Order>
    var orderItems: seq<OrderItem>
    var nextCategoryId: Id
    var nextProductId: Id
    var nextOrderId: Id

    /** An empty database, every auto-increment counter at 1. */
    constructor ()
      ensures branches == [] && categories == [] && products == [] && orders == [] && orderItems == []
      ensures nextCategoryId == 1 && nextProductId == 1 && nextOrderId == 1
      ensures Valid()
    {
      branches := [];
      categories := [];
      products := [];
      orders := [];
      orderItems := [];
      nextCategoryId := 1;
      nextProductId := 1;
      nextOrderId := 1;
    }

    /** Primary keys are unique and below their counters; every order item
        belongs to an order id already handed out. */
    ghost predicate Valid()
      reads this
    {
      IdsIncreasing(branches, (b: Branch) => b.id) &&
      IdsIncreasing(categories, (c: Category) => c.id) &&
      IdsBelow(categories, (c: Category) => c.id, nextCategoryId) &&
      IdsIncreasing(products, (p: Product) => p.id) &&
      IdsBelow(products, (p: Product) => p.id, nextProductId) &&
      IdsIncreasing(orders, (o: Order) => o.id) &&
      IdsBelow(orders, (o: Order) => o.id, nextOrderId) &&
      IdsBelow(orderItems, (it: OrderItem) => it.orderId, nextOrderId)
    }
  }
}
