/** The point-of-sale product list of a branch (`BranchController::getBranchProducts`).
    A branch that owns no products first adopts every product no branch owns, one
    save at a time and outside any transaction, then lists what it owns. */
module Branches {
  import opened Schema
  import opened Seqs

  /** `where('branch_id', $branch->id)`: the products branch `b` owns, in table order. */
  function OfBranch(products: seq<Product>, b: Id): seq<Product>
  {
    Filter(products, (p: Product) => p.branchId == Some(b))
  }

  /** The products table once the unassigned products at positions below `n` were given to `b`. */
  function AdoptBefore(products: seq<Product>, b: Id, n: int): (r: seq<Product>)
    ensures |r| == |products|
  {
    seq(|products|, i requires 0 <= i < |products| =>
      if i < n && products[i].branchId.None? then products[i].(branchId := Some(b)) else products[i])
  }

  /** The products table once every unassigned product was given to `b`. */
  function Adopt(products: seq<Product>, b: Id): seq<Product>
  {
    AdoptBefore(products, b, |products|)
  }

  /** `fault == Some(j)`: saving the product at position j fails, if the loop reaches it. */
  predicate SaveFails(products: seq<Product>, fault: Option<nat>)
  {
    fault.Some? && fault.value < |products| && products[fault.value].branchId.None?
  }

  /** After adoption, the branch owns exactly the products that no branch owned before, with
      the rest of each row as it was; products of other branches are untouched. */
  lemma AdoptionClaimsUnassigned(products: seq<Product>, b: Id)
    requires OfBranch(products, b) == []
    ensures forall i :: 0 <= i < |products| ==>
      (Adopt(products, b)[i].branchId == Some(b) <==> products[i].branchId.None?)
    ensures forall i :: 0 <= i < |products| ==>
      Adopt(products, b)[i] == products[i].(branchId := Adopt(products, b)[i].branchId)
    ensures forall i :: 0 <= i < |products| && products[i].branchId.Some? ==> Adopt(products, b)[i] == products[i]
  {
    forall i | 0 <= i < |products| ensures products[i].branchId != Some(b) {
      assert products[i] in products;
    }
  }

  /** Adoption leaves no product unassigned, so adopting again, for this or any other branch,
      changes nothing: the first branch to ask takes every unassigned product. */
  lemma AdoptionIsFinal(products: seq<Product>, b: Id, c: Id)
    ensures forall i :: 0 <= i < |products| ==> Adopt(products, b)[i].branchId.Some?
    ensures Adopt(Adopt(products, b), c) == Adopt(products, b)
  {
    var once := Adopt(products, b);
    assert forall i :: 0 <= i < |products| ==> once[i].branchId.Some?;
    assert Adopt(once, c) == once;
  }

  /** A product given to branch `b`. */
  function Assigned(b: Id): Product -> Product
  {
    (p: Product) => p.(branchId := Some(b))
  }

  /** A product given to `b` if no branch owned it. */
  function Claimed(b: Id): Product -> Product
  {
    (p: Product) => if p.branchId.None? then p.(branchId := Some(b)) else p
  }

  /** The list a branch that owned nothing receives after adoption: the previously unassigned
      products, in table order, each now the branch's. */
  lemma AdoptedList(products: seq<Product>, b: Id)
    requires OfBranch(products, b) == []
    ensures OfBranch(Adopt(products, b), b) == Map(Filter(products, (p: Product) => p.branchId.None?), Assigned(b))
  {
    assert Adopt(products, b) == Map(products, Claimed(b));
    forall x | x in products ensures x.branchId != Some(b) {
      assert x !in OfBranch(products, b);
    }
    FilterMap(products, Claimed(b), (p: Product) => p.branchId == Some(b), (p: Product) => p.branchId.None?, Assigned(b));
  }

  /** `BranchController::getBranchProducts`. An unknown branch is not found. A branch that owns
      products gets them and nothing changes. Otherwise every unassigned product is saved as the
      branch's, in table order; a save that fails ends the request with the products before it
      already reassigned. */
  method GetBranchProducts(db: Database, b: Id, fault: Option<nat>) returns (r: Outcome<seq<Product>>)
    requires db.Valid()
    modifies db
    ensures db.Valid()
    ensures db.branches == old(db.branches) && db.categories == old(db.categories)
    ensures db.orders == old(db.orders) && db.orderItems == old(db.orderItems)
    ensures db.nextCategoryId == old(db.nextCategoryId)
    ensures db.nextProductId == old(db.nextProductId) && db.nextOrderId == old(db.nextOrderId)
    ensures !HasBranch(old(db.branches), b) ==> r == NotFound && unchanged(db)
    ensures HasBranch(old(db.branches), b) && OfBranch(old(db.products), b) != [] ==>
      r == Ok(OfBranch(old(db.products), b)) && unchanged(db)
    ensures HasBranch(old(db.branches), b) && OfBranch(old(db.products), b) == [] &&
            SaveFails(old(db.products), fault) ==>
      r == ServerError && db.products == AdoptBefore(old(db.products), b, fault.value)
    ensures HasBranch(old(db.branches), b) && OfBranch(old(db.products), b) == [] &&
            !SaveFails(old(db.products), fault) ==>
      db.products == Adopt(old(db.products), b) && r == Ok(OfBranch(db.products, b))
  {
    // route model binding resolves the branch before the action runs
    var found := Find(db.branches, (br: Branch) => br.id, b);
    if found.None? {
      return NotFound;
    }
    var owned := OfBranch(db.products, b);
    if owned == [] {
      ghost var products0 := db.products;
      var i := 0;
      while i < |db.products|
        invariant 0 <= i <= |db.products| == |products0|
        invariant db.products == AdoptBefore(products0, b, i)
        invariant fault.Some? && fault.value < i ==> !SaveFails(products0, fault)
        invariant db.branches == old(db.branches) && db.categories == old(db.categories)
        invariant db.orders == old(db.orders) && db.orderItems == old(db.orderItems)
        invariant db.nextCategoryId == old(db.nextCategoryId)
        invariant db.nextProductId == old(db.nextProductId) && db.nextOrderId == old(db.nextOrderId)
      {
        if db.products[i].branchId.None? {
          if fault == Some(i) {
            return ServerError;
          }
          db.products := db.products[i := db.products[i].(branchId := Some(b))];
        }
        i := i + 1;
      }
      owned := OfBranch(db.products, b);
    }
    r := Ok(owned);
  }
}
