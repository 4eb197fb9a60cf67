/** Order placement (`OrderController::store`): validate a cart, then, in one
    transaction, insert a `completed` order, one order item per cart line and
    decrement each named product's stock; any storage failure rolls the whole
    transaction back. Stock is not checked before it is decremented. */
module Orders {
  import opened Calendar
  import opened Schema
  import opened Seqs

  /** One element of the request's `items` array as submitted; a missing field is `None`. */
  datatype CartLineInput = CartLineInput(productId: Option<Id>, quantity: Option<int>, price: Option<Cents>)

  /** The order request as submitted. */
  datatype OrderRequest = OrderRequest(
    branchId: Option<Id>,
    items: Option<seq<CartLineInput>>,
    subtotal: Option<Cents>,
    tax: Option<Cents>,
    total: Option<Cents>)

  /** A cart line that passed validation. */
  datatype CartLine = CartLine(productId: Id, quantity: int, price: Cents)

  /** A request that passed validation. */
  datatype Cart = Cart(branchId: Id, lines: seq<CartLine>, subtotal: Cents, tax: Cents, total: Cents)

  /** The per-line rules: `product_id` required and existing, `quantity` an integer of at
      least 1, `price` at least 0. */
  predicate LineAcceptable(products: seq<Product>, line: CartLineInput)
  {
    line.productId.Some? && HasProduct(products, line.productId.value) &&
    line.quantity.Some? && line.quantity.value >= 1 &&
    line.price.Some? && line.price.value >= 0
  }

  /** Validates the cart lines one by one; `None` as soon as one line breaks a rule. */
  function ValidateLines(products: seq<Product>, items: seq<CartLineInput>): (r: Option<seq<CartLine>>)
    ensures r.Some? <==> forall i :: 0 <= i < |items| ==> LineAcceptable(products, items[i])
    ensures r.Some? ==> |r.value| == |items| && forall i :: 0 <= i < |items| ==>
      r.value[i] == CartLine(items[i].productId.value, items[i].quantity.value, items[i].price.value)
  {
    if items == [] then Some([])
    else if !LineAcceptable(products, items[0]) then None
    else
      match ValidateLines(products, items[1..])
      case None => None
      case Some(rest) =>
        var first := items[0];
        Some([CartLine(first.productId.value, first.quantity.value, first.price.value)] + rest)
  }

  /** `$request->validate(...)`: the branch exists, `items` is a non-empty array (an empty
      array fails `required`), every line passes, and subtotal, tax and total are at least 0. */
  function Validate(branches: seq<Branch>, products: seq<Product>, req: OrderRequest): (r: Option<Cart>)
    ensures r.Some? ==> HasBranch(branches, r.value.branchId) && |r.value.lines| > 0
    ensures r.Some? ==> WellFormed(products, r.value)
    ensures r.Some? <==>
      req.branchId.Some? && HasBranch(branches, req.branchId.value) &&
      req.items.Some? && |req.items.value| > 0 &&
      (forall i :: 0 <= i < |req.items.value| ==> LineAcceptable(products, req.items.value[i])) &&
      req.subtotal.Some? && req.subtotal.value >= 0 &&
      req.tax.Some? && req.tax.value >= 0 &&
      req.total.Some? && req.total.value >= 0
    ensures r.Some? ==>
      req.branchId == Some(r.value.branchId) && req.subtotal == Some(r.value.subtotal) &&
      req.tax == Some(r.value.tax) && req.total == Some(r.value.total) &&
      req.items.Some? && ValidateLines(products, req.items.value) == Some(r.value.lines)
  {
    if req.branchId.None? || !HasBranch(branches, req.branchId.value) then None
    else if req.items.None? || |req.items.value| == 0 then None
    else if req.subtotal.None? || req.subtotal.value < 0 then None
    else if req.tax.None? || req.tax.value < 0 then None
    else if req.total.None? || req.total.value < 0 then None
    else
      match ValidateLines(products, req.items.value)
      case None => None
      case Some(lines) => Some(Cart(req.branchId.value, lines, req.subtotal.value, req.tax.value, req.total.value))
  }

  /** What validation guarantees of a cart. */
  ghost predicate WellFormed(products: seq<Product>, cart: Cart)
  {
    (forall i :: 0 <= i < |cart.lines| ==>
      HasProduct(products, cart.lines[i].productId) && cart.lines[i].quantity >= 1 && cart.lines[i].price >= 0) &&
    cart.subtotal >= 0 && cart.tax >= 0 && cart.total >= 0
  }

  /** The order row the transaction inserts. */
  function NewOrder(id: Id, cart: Cart, now: Timestamp): Order
  {
    Order(id, cart.branchId, cart.subtotal, cart.tax, cart.total, Completed, now)
  }

  /** The order item row for one cart line. */
  function ItemOf(orderId: Id, line: CartLine): OrderItem
  {
    OrderItem(orderId, line.productId, line.quantity, line.price)
  }

  /** The order item rows for a cart, in cart order. */
  function ItemsFor(orderId: Id, lines: seq<CartLine>): seq<OrderItem>
  {
    if lines == [] then [] else ItemsFor(orderId, lines[..|lines| - 1]) + [ItemOf(orderId, lines[|lines| - 1])]
  }

  /** One `save()` of a decremented product: the rows with that id lose `quantity` units. */
  function Decrement(products: seq<Product>, id: Id, quantity: int): seq<Product>
  {
    seq(|products|, i requires 0 <= i < |products| =>
      if products[i].id == id then products[i].(stock := products[i].stock - quantity) else products[i])
  }

  /** The product table after the cart's lines are decremented one after the other. */
  function StockAfterSale(products: seq<Product>, lines: seq<CartLine>): seq<Product>
  {
    if lines == [] then products
    else
      var last := lines[|lines| - 1];
      Decrement(StockAfterSale(products, lines[..|lines| - 1]), last.productId, last.quantity)
  }

  /** Units of product `id` that the cart asks for, summed over all lines naming it. */
  function QuantityOf(lines: seq<CartLine>, id: Id): int
  {
    SumOf(lines, (l: CartLine) => if l.productId == id then l.quantity else 0)
  }

  /** The stock ledger: every product row ends with its stock reduced by exactly the units
      the cart asks for (repeated lines accumulate) and all its other columns unchanged. */
  lemma {:induction false} StockAfterSaleEffect(products: seq<Product>, lines: seq<CartLine>)
    ensures |StockAfterSale(products, lines)| == |products|
    ensures forall i :: 0 <= i < |products| ==>
      StockAfterSale(products, lines)[i] == products[i].(stock := products[i].stock - QuantityOf(lines, products[i].id))
  {
    if lines != [] {
      var prefix, last := lines[..|lines| - 1], lines[|lines| - 1];
      StockAfterSaleEffect(products, prefix);
      assert lines == prefix + [last];
      forall i | 0 <= i < |products|
        ensures StockAfterSale(products, lines)[i] == products[i].(stock := products[i].stock - QuantityOf(lines, products[i].id))
      {
        SumOfAppend(prefix, [last], (l: CartLine) => if l.productId == products[i].id then l.quantity else 0);
      }
    }
  }

  /** A product no cart line names keeps its row exactly. */
  lemma UnnamedProductUnchanged(products: seq<Product>, lines: seq<CartLine>, i: nat)
    requires i < |products|
    requires forall k :: 0 <= k < |lines| ==> lines[k].productId != products[i].id
    ensures |StockAfterSale(products, lines)| == |products|
    ensures StockAfterSale(products, lines)[i] == products[i]
  {
    StockAfterSaleEffect(products, lines);
    SumOfZero(lines, (l: CartLine) => if l.productId == products[i].id then l.quantity else 0);
  }

  /** With quantities of at least 1, a product the cart names ends with strictly less stock. */
  lemma NamedProductDecreases(products: seq<Product>, lines: seq<CartLine>, i: nat, k: nat)
    requires i < |products| && k < |lines|
    requires forall j :: 0 <= j < |lines| ==> lines[j].quantity >= 1
    requires lines[k].productId == products[i].id
    ensures |StockAfterSale(products, lines)| == |products|
    ensures StockAfterSale(products, lines)[i].stock <= products[i].stock - lines[k].quantity < products[i].stock
  {
    StockAfterSaleEffect(products, lines);
    SumOfAtLeastOne(lines, (l: CartLine) => if l.productId == products[i].id then l.quantity else 0, k);
  }

  /** Nothing bounds stock from below: a cart asking for more than is on hand drives it negative. */
  lemma Oversell(products: seq<Product>, lines: seq<CartLine>, i: nat)
    requires i < |products|
    requires QuantityOf(lines, products[i].id) > products[i].stock
    ensures |StockAfterSale(products, lines)| == |products|
    ensures StockAfterSale(products, lines)[i].stock < 0
  {
    StockAfterSaleEffect(products, lines);
  }

  lemma ItemsForShape(orderId: Id, lines: seq<CartLine>)
    ensures |ItemsFor(orderId, lines)| == |lines|
    ensures forall k :: 0 <= k < |lines| ==> ItemsFor(orderId, lines)[k] == ItemOf(orderId, lines[k])
  {
    if lines != [] {
      ItemsForShape(orderId, lines[..|lines| - 1]);
    }
  }

  /** Joined back to the new order (`$order->items`), the item table yields exactly the cart's
      lines in cart order: no earlier item points at the fresh order id. */
  lemma {:induction false} NewOrderItems(items: seq<OrderItem>, orderId: Id, lines: seq<CartLine>)
    requires forall k :: 0 <= k < |items| ==> items[k].orderId < orderId
    ensures Filter(items + ItemsFor(orderId, lines), (it: OrderItem) => it.orderId == orderId) == ItemsFor(orderId, lines)
  {
    var mine := (it: OrderItem) => it.orderId == orderId;
    FilterAppend(items, ItemsFor(orderId, lines), mine);
    FilterNone(items, mine);
    ItemsForShape(orderId, lines);
    FilterAll(ItemsFor(orderId, lines), mine);
  }

  /** The transaction fails at write `fault`: 0 is the order insert, k >= 1 the writes of line k. */
  predicate Faults(fault: Option<nat>, cart: Cart)
  {
    fault.Some? && fault.value <= |cart.lines|
  }

  lemma StockAfterSaleIds(products: seq<Product>, lines: seq<CartLine>)
    ensures |StockAfterSale(products, lines)| == |products|
    ensures forall i :: 0 <= i < |products| ==> StockAfterSale(products, lines)[i].id == products[i].id
  {
    StockAfterSaleEffect(products, lines);
  }

  /** The rows a successful placement writes keep the database's keys valid. */
  lemma PlacementKeepsKeys(orders: seq<Order>, items: seq<OrderItem>, products: seq<Product>, nextProductId: Id,
                           id: Id, cart: Cart, now: Timestamp)
    requires IdsIncreasing(orders, (o: Order) => o.id) && IdsBelow(orders, (o: Order) => o.id, id)
    requires IdsBelow(items, (it: OrderItem) => it.orderId, id)
    requires IdsIncreasing(products, (p: Product) => p.id)
    requires IdsBelow(products, (p: Product) => p.id, nextProductId)
    ensures IdsIncreasing(orders + [NewOrder(id, cart, now)], (o: Order) => o.id)
    ensures IdsBelow(orders + [NewOrder(id, cart, now)], (o: Order) => o.id, id + 1)
    ensures IdsBelow(items, (it: OrderItem) => it.orderId, id + 1)
    ensures IdsBelow(items + ItemsFor(id, cart.lines), (it: OrderItem) => it.orderId, id + 1)
    ensures IdsIncreasing(StockAfterSale(products, cart.lines), (p: Product) => p.id)
    ensures IdsBelow(StockAfterSale(products, cart.lines), (p: Product) => p.id, nextProductId)
  {
    ItemsForShape(id, cart.lines);
    StockAfterSaleIds(products, cart.lines);
  }

  /** `OrderController::store`. A request that fails validation changes nothing; a valid one
      is handed to the transaction. */
  method PlaceOrder(db: Database, req: OrderRequest, now: Timestamp, fault: Option<nat>) returns (r: Outcome<Id>)
    requires db.Valid()
    modifies db
    ensures db.Valid()
    ensures Validate(old(db.branches), old(db.products), req).None? ==>
      r == ValidationError && unchanged(db)
    ensures Validate(old(db.branches), old(db.products), req).Some? ==>
      TransactionEffect(Validate(old(db.branches), old(db.products), req).value, now, fault, r,
        old(db.orders), old(db.orderItems), old(db.products), old(db.nextOrderId),
        db.orders, db.orderItems, db.products, db.nextOrderId) &&
      db.branches == old(db.branches) && db.categories == old(db.categories) &&
      db.nextProductId == old(db.nextProductId) && db.nextCategoryId == old(db.nextCategoryId)
  {
    var validated := Validate(db.branches, db.products, req);
    if validated.None? {
      return ValidationError;
    }
    r := PlaceCart(db, validated.value, now, fault);
  }

  /** What the transaction leaves behind, from the tables before (`orders0` ...) to the tables
      after (`orders1` ...): on a storage failure every table as it was (the auto-increment
      counter is not given back once the order row was inserted); otherwise the new order, its
      items in cart order, and the stock decremented by the cart. */
  ghost predicate TransactionEffect(cart: Cart, now: Timestamp, fault: Option<nat>, r: Outcome<Id>,
    orders0: seq<Order>, items0: seq<OrderItem>, products0: seq<Product>, next0: Id,
    orders1: seq<Order>, items1: seq<OrderItem>, products1: seq<Product>, next1: Id)
  {
    if Faults(fault, cart) then
      r == ServerError && orders1 == orders0 && items1 == items0 && products1 == products0 &&
      next1 == (if fault.value == 0 then next0 else next0 + 1)
    else
      r == Ok(next0) &&
      orders1 == orders0 + [NewOrder(next0, cart, now)] &&
      items1 == items0 + ItemsFor(next0, cart.lines) &&
      products1 == StockAfterSale(products0, cart.lines) &&
      next1 == next0 + 1
  }

  /** The body of the `try` in `OrderController::store`: between `DB::beginTransaction()` and
      `DB::commit()` insert the order, then for each line its item and the product's decremented
      stock; a storage failure (`fault`) ends in `DB::rollBack()`. */
  method PlaceCart(db: Database, cart: Cart, now: Timestamp, fault: Option<nat>) returns (r: Outcome<Id>)
    requires db.Valid()
    modifies db
    ensures db.Valid()
    ensures TransactionEffect(cart, now, fault, r,
      old(db.orders), old(db.orderItems), old(db.products), old(db.nextOrderId),
      db.orders, db.orderItems, db.products, db.nextOrderId)
    ensures db.branches == old(db.branches) && db.categories == old(db.categories)
    ensures db.nextProductId == old(db.nextProductId) && db.nextCategoryId == old(db.nextCategoryId)
  {
    // DB::beginTransaction(): what a rollback restores
    var orders0, items0, products0 := db.orders, db.orderItems, db.products;
    if fault == Some(0) {
      return ServerError;
    }
    var id := db.nextOrderId;
    db.orders := db.orders + [NewOrder(id, cart, now)];
    db.nextOrderId := id + 1;
    PlacementKeepsKeys(orders0, items0, products0, db.nextProductId, id, cart, now);
    var i := 0;
    while i < |cart.lines|
      invariant 0 <= i <= |cart.lines|
      invariant fault.Some? ==> fault.value > i
      invariant db.branches == old(db.branches) && db.categories == old(db.categories)
      invariant db.nextProductId == old(db.nextProductId) && db.nextCategoryId == old(db.nextCategoryId)
      invariant db.nextOrderId == id + 1
      invariant db.orders == orders0 + [NewOrder(id, cart, now)]
      invariant db.orderItems == items0 + ItemsFor(id, cart.lines[..i])
      invariant db.products == StockAfterSale(products0, cart.lines[..i])
    {
      var line := cart.lines[i];
      assert cart.lines[..i + 1] == cart.lines[..i] + [line];
      db.orderItems := db.orderItems + [ItemOf(id, line)];
      if fault == Some(i + 1) {
        // DB::rollBack()
        db.orders, db.orderItems, db.products := orders0, items0, products0;
        return ServerError;
      }
      db.products := Decrement(db.products, line.productId, line.quantity);
      i := i + 1;
    }
    assert cart.lines[..i] == cart.lines;
    // DB::commit()
    r := Ok(id);
  }
}
