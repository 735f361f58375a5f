/** The shop's store: categories, products and the ordered list of sales,
    with the three operations that change them. Selling deducts stock and
    records a sale; deleting a product or a category removes it together
    with every record that refers to it (`on_delete=CASCADE`). */
module Inventory {
  import opened Optional
  import opened Seqs
  import opened Models
  import opened Reports

  function CategoryId(c: Category): nat
  {
    c.id
  }

  function ProductId(p: Product): nat
  {
    p.id
  }

  /** The primary keys present in a category table. */
  function CategoryIds(cs: seq<Category>): set<nat>
  {
    set c | c in cs :: c.id
  }

  /** The contents of the store's tables at one moment. */
  datatype Tables = Tables(categories: seq<Category>, products: seq<Product>, sales: seq<Sale>)

  /** Primary keys are unique and every foreign key names an existing row:
      each product's category exists and each sale's product exists. */
  ghost predicate Consistent(t: Tables)
  {
    && UniqueKeys(t.categories, CategoryId)
    && UniqueKeys(t.products, ProductId)
    && (forall p :: p in t.products ==> p.category in CategoryIds(t.categories))
    && (forall s :: s in t.sales ==> s.product in ProductIds(t.products))
  }

  /** The current stock of the product with primary key `pk`, if there is
      one. */
  function StockOf(t: Tables, pk: nat): Option<int>
  {
    match ProductIndex(t.products, pk)
    case Some(i) => Some(t.products[i].stockQuantity)
    case None => None
  }

  // ---------------------------------------------------------------------
  // Selling (`sell_product`)

  datatype SellOutcome =
    | ProductNotFound
    | InvalidQuantity
    | NotEnoughStock(available: int)
    | Sold(sale: Sale)

  /** Selling `quantity` units of product `pk`: the product must exist and
      the quantity must be a valid non-negative number; when the stock
      covers it, the stock is lowered and a sale at the product's price is
      recorded, otherwise nothing changes. */
  function Sell(t: Tables, pk: nat, quantity: int, seller: string, when: Stamp): (SellOutcome, Tables)
  {
    match ProductIndex(t.products, pk)
    case None => (ProductNotFound, t)
    case Some(i) =>
      var p := t.products[i];
      if quantity < 0 then (InvalidQuantity, t)
      else if p.stockQuantity >= quantity then
        var sale := Sale(pk, quantity, p.price * quantity, when, seller);
        (Sold(sale), t.(products := t.products[i := p.(stockQuantity := p.stockQuantity - quantity)],
                        sales := t.sales + [sale]))
      else (NotEnoughStock(p.stockQuantity), t)
  }

  /** A sale that goes through lowers that product's stock by exactly the
      quantity, records exactly one sale of that quantity at price times
      quantity after all earlier ones, and changes no other product. */
  lemma {:induction false} SellSucceeds(t: Tables, pk: nat, quantity: int, seller: string, when: Stamp)
    requires StockOf(t, pk).Some? && 0 <= quantity <= StockOf(t, pk).value
    ensures var (outcome, t') := Sell(t, pk, quantity, seller, when);
      var i := ProductIndex(t.products, pk).value;
      && outcome.Sold?
      && outcome.sale == Sale(pk, quantity, t.products[i].price * quantity, when, seller)
      && StockOf(t', pk) == Some(StockOf(t, pk).value - quantity)
      && t'.sales == t.sales + [outcome.sale]
      && t'.categories == t.categories
      && |t'.products| == |t.products|
      && (forall k :: 0 <= k < |t.products| && k != i ==> t'.products[k] == t.products[k])
      && t'.products[i] == t.products[i].(stockQuantity := t.products[i].stockQuantity - quantity)
  {
    var i := ProductIndex(t.products, pk).value;
    var (_, t') := Sell(t, pk, quantity, seller, when);
    assert ProductIndex(t'.products, pk) == Some(i) by {
      ProductIndexUnchanged(t.products, t'.products, pk);
    }
  }

  /** Updating fields other than the key keeps where a key is found. */
  lemma {:induction false} ProductIndexUnchanged(ps: seq<Product>, qs: seq<Product>, pk: nat)
    requires |ps| == |qs|
    requires forall k :: 0 <= k < |ps| ==> ps[k].id == qs[k].id
    ensures ProductIndex(qs, pk) == ProductIndex(ps, pk)
    decreases |ps|
  {
    if ps != [] {
      ProductIndexUnchanged(ps[..|ps| - 1], qs[..|qs| - 1], pk);
    }
  }

  /** Asking for more than the stock, a missing product or an invalid
      quantity changes nothing and records no sale. */
  lemma {:induction false} SellRefused(t: Tables, pk: nat, quantity: int, seller: string, when: Stamp)
    requires StockOf(t, pk).None? || quantity < 0 || quantity > StockOf(t, pk).value
    ensures Sell(t, pk, quantity, seller, when).1 == t
    ensures !Sell(t, pk, quantity, seller, when).0.Sold?
    ensures StockOf(t, pk).Some? && 0 <= quantity && quantity > StockOf(t, pk).value
            ==> Sell(t, pk, quantity, seller, when).0 == NotEnoughStock(StockOf(t, pk).value)
  {
    if ProductIndex(t.products, pk).Some? {
      var i := ProductIndex(t.products, pk).value;
      assert StockOf(t, pk) == Some(t.products[i].stockQuantity);
    }
  }

  /** Selling never drives stock below zero: if no product had negative
      stock before, none has afterwards. */
  lemma {:induction false} SellKeepsStockNonNegative(t: Tables, pk: nat, quantity: int, seller: string, when: Stamp)
    requires forall p :: p in t.products ==> p.stockQuantity >= 0
    ensures forall p :: p in Sell(t, pk, quantity, seller, when).1.products ==> p.stockQuantity >= 0
  {
    var (_, t') := Sell(t, pk, quantity, seller, when);
    forall p | p in t'.products
      ensures p.stockQuantity >= 0
    {
      var k :| 0 <= k < |t'.products| && t'.products[k] == p;
      assert t.products[k] in t.products;
    }
  }

  /** Selling keeps the store consistent. */
  lemma {:induction false} SellKeepsConsistent(t: Tables, pk: nat, quantity: int, seller: string, when: Stamp)
    requires Consistent(t)
    ensures Consistent(Sell(t, pk, quantity, seller, when).1)
  {
    var (outcome, t') := Sell(t, pk, quantity, seller, when);
    if outcome.Sold? {
      var i := ProductIndex(t.products, pk).value;
      assert forall k :: 0 <= k < |t.products| ==> t'.products[k].id == t.products[k].id;
      assert ProductIds(t'.products) == ProductIds(t.products) by {
        forall id | id in ProductIds(t.products)
          ensures id in ProductIds(t'.products)
        {
          var p :| p in t.products && p.id == id;
          var k :| 0 <= k < |t.products| && t.products[k] == p;
          assert t'.products[k] in t'.products;
        }
        forall id | id in ProductIds(t'.products)
          ensures id in ProductIds(t.products)
        {
          var p :| p in t'.products && p.id == id;
          var k :| 0 <= k < |t'.products| && t'.products[k] == p;
          assert t.products[k] in t.products;
        }
      }
      forall p | p in t'.products
        ensures p.category in CategoryIds(t'.categories)
      {
        var k :| 0 <= k < |t'.products| && t'.products[k] == p;
        assert t.products[k] in t.products;
      }
    }
  }

  /** What a sale takes out of the stock's value it puts into revenue: the
      stock value plus the revenue of all sales is the same before and
      after. */
  lemma {:induction false} SellConservesValue(t: Tables, pk: nat, quantity: int, seller: string, when: Stamp)
    ensures var t' := Sell(t, pk, quantity, seller, when).1;
      StockValue(t'.products) + Revenue(t'.sales) == StockValue(t.products) + Revenue(t.sales)
  {
    var (outcome, t') := Sell(t, pk, quantity, seller, when);
    if outcome.Sold? {
      var i := ProductIndex(t.products, pk).value;
      var p := t.products[i];
      SumUpdate(t.products, i, p.(stockQuantity := p.stockQuantity - quantity), LineValue);
      SumAppend(t.sales, outcome.sale, TotalPrice);
    }
  }

  // ---------------------------------------------------------------------
  // Deleting (`delete_product`, `delete_category`)

  datatype DeleteOutcome = PermissionDenied | NotFound | NotDeleted | Deleted

  /** Not the product with primary key `pk`. */
  function OtherProduct(pk: nat): Product -> bool
  {
    (p: Product) => p.id != pk
  }

  /** Not a product of category `c`. */
  function OutsideCategory(c: nat): Product -> bool
  {
    (p: Product) => p.category != c
  }

  /** A sale of none of the products in `gone`. */
  function SaleKept(gone: set<nat>): Sale -> bool
  {
    (s: Sale) => s.product !in gone
  }

  /** The store without the product `pk` and without its sales. */
  function RemoveProduct(t: Tables, pk: nat): (r: Tables)
    ensures r.categories == t.categories
    ensures forall p :: p in r.products <==> p in t.products && p.id != pk
    ensures forall s :: s in r.sales <==> s in t.sales && s.product != pk
  {
    t.(products := Where(t.products, OtherProduct(pk)), sales := Where(t.sales, SaleKept({pk})))
  }

  /** Deleting product `pk`: only a superuser may, the product must exist,
      and only the GET request deletes it; any other request method leaves
      it in place. */
  function DeleteProductOp(t: Tables, pk: nat, isSuperuser: bool, isGet: bool): (DeleteOutcome, Tables)
  {
    if !isSuperuser then (PermissionDenied, t)
    else if ProductIndex(t.products, pk).None? then (NotFound, t)
    else if !isGet then (NotDeleted, t)
    else (Deleted, RemoveProduct(t, pk))
  }

  /** A user who is not a superuser is refused and nothing changes. */
  lemma {:induction false} DeleteProductNeedsSuperuser(t: Tables, pk: nat, isGet: bool)
    ensures DeleteProductOp(t, pk, false, isGet) == (PermissionDenied, t)
  {
  }

  /** A product is removed exactly when a superuser asks for an existing one
      with GET; then it is gone, so is every sale of it, and every other
      product and sale remains. */
  lemma {:induction false} DeleteProductCascades(t: Tables, pk: nat, isSuperuser: bool, isGet: bool)
    ensures var (outcome, t') := DeleteProductOp(t, pk, isSuperuser, isGet);
      && (outcome == Deleted <==> isSuperuser && isGet && pk in ProductIds(t.products))
      && (outcome != Deleted ==> t' == t)
      && (outcome == Deleted ==>
            && pk !in ProductIds(t'.products)
            && (forall s :: s in t'.sales ==> s.product != pk)
            && (forall p :: p in t.products && p.id != pk ==> p in t'.products)
            && (forall s :: s in t.sales && s.product != pk ==> s in t'.sales))
  {
    var (outcome, t') := DeleteProductOp(t, pk, isSuperuser, isGet);
    if pk in ProductIds(t.products) {
      var p :| p in t.products && p.id == pk;
      var k :| 0 <= k < |t.products| && t.products[k] == p;
    }
    if outcome == Deleted {
      assert pk !in ProductIds(t'.products);
    }
  }

  /** Deleting a product keeps the store consistent. */
  lemma {:induction false} DeleteProductKeepsConsistent(t: Tables, pk: nat, isSuperuser: bool, isGet: bool)
    requires Consistent(t)
    ensures Consistent(DeleteProductOp(t, pk, isSuperuser, isGet).1)
  {
    var (outcome, t') := DeleteProductOp(t, pk, isSuperuser, isGet);
    if outcome == Deleted {
      WhereUniqueKeys(t.products, OtherProduct(pk), ProductId);
      forall s | s in t'.sales
        ensures s.product in ProductIds(t'.products)
      {
        var p :| p in t.products && p.id == s.product;
        assert p in t'.products;
      }
    }
  }

  /** The primary keys of the products in category `c`. */
  function ProductsIn(ps: seq<Product>, c: nat): set<nat>
  {
    set p | p in ps && p.category == c :: p.id
  }

  /** The store without category `c`, its products and their sales. */
  function RemoveCategory(t: Tables, c: nat): (r: Tables)
    ensures forall x :: x in r.categories <==> x in t.categories && x.id != c
    ensures forall p :: p in r.products <==> p in t.products && p.category != c
    ensures forall s :: s in r.sales <==> s in t.sales && s.product !in ProductsIn(t.products, c)
  {
    Tables(
      Where(t.categories, OtherCategory(c)),
      Where(t.products, OutsideCategory(c)),
      Where(t.sales, SaleKept(ProductsIn(t.products, c))))
  }

  /** Not the category with primary key `c`. */
  function OtherCategory(c: nat): Category -> bool
  {
    (x: Category) => x.id != c
  }

  /** Deleting category `c`: it must exist; then it goes, and with it its
      products and their sales. */
  function DeleteCategoryOp(t: Tables, c: nat): (DeleteOutcome, Tables)
  {
    if c !in CategoryIds(t.categories) then (NotFound, t) else (Deleted, RemoveCategory(t, c))
  }

  /** After deleting a category, no product of it remains and no sale of such
      a product remains; every other product and every sale of one remains. */
  lemma {:induction false} DeleteCategoryCascades(t: Tables, c: nat)
    requires Consistent(t)
    ensures var (outcome, t') := DeleteCategoryOp(t, c);
      && (outcome == Deleted <==> c in CategoryIds(t.categories))
      && (outcome != Deleted ==> t' == t)
      && (outcome == Deleted ==>
            && c !in CategoryIds(t'.categories)
            && (forall p :: p in t'.products ==> p.category != c)
            && (forall p :: p in t.products && p.category != c ==> p in t'.products)
            && (forall s :: s in t'.sales ==> s.product in ProductIds(t'.products))
            && (forall s :: s in t.sales && s.product in ProductIds(t'.products) ==> s in t'.sales))
  {
    var (outcome, t') := DeleteCategoryOp(t, c);
    if outcome == Deleted {
      SalesOfKeptProducts(t, c);
    }
  }

  /** After a category is deleted, a sale survives exactly when its product
      does. */
  lemma {:induction false} SalesOfKeptProducts(t: Tables, c: nat)
    requires Consistent(t)
    ensures var t' := RemoveCategory(t, c);
      forall s :: s in t.sales ==> (s in t'.sales <==> s.product in ProductIds(t'.products))
  {
    var t' := RemoveCategory(t, c);
    forall s | s in t.sales
      ensures s in t'.sales <==> s.product in ProductIds(t'.products)
    {
      var p :| p in t.products && p.id == s.product;
      if s.product in ProductsIn(t.products, c) {
        var q :| q in t.products && q.category == c && q.id == s.product;
        SameKeySameProduct(t.products, p, q);
        if s.product in ProductIds(t'.products) {
          var r :| r in t'.products && r.id == s.product;
          SameKeySameProduct(t.products, p, r);
        }
      } else {
        assert p.category != c;
        assert p in t'.products;
      }
    }
  }

  /** In a table with unique keys, a key names one product. */
  lemma {:induction false} SameKeySameProduct(ps: seq<Product>, p: Product, q: Product)
    requires UniqueKeys(ps, ProductId)
    requires p in ps && q in ps && p.id == q.id
    ensures p == q
  {
    var i :| 0 <= i < |ps| && ps[i] == p;
    var j :| 0 <= j < |ps| && ps[j] == q;
  }

  /** Deleting a category keeps the store consistent. */
  lemma {:induction false} DeleteCategoryKeepsConsistent(t: Tables, c: nat)
    requires Consistent(t)
    ensures Consistent(DeleteCategoryOp(t, c).1)
  {
    var (outcome, t') := DeleteCategoryOp(t, c);
    if outcome == Deleted {
      WhereUniqueKeys(t.categories, OtherCategory(c), CategoryId);
      WhereUniqueKeys(t.products, OutsideCategory(c), ProductId);
      SalesOfKeptProducts(t, c);
      forall p | p in t'.products
        ensures p.category in CategoryIds(t'.categories)
      {
        var x :| x in t.categories && x.id == p.category;
        assert x in t'.categories;
      }
    }
  }

  // ---------------------------------------------------------------------
  // The store itself

  class Store {
    var categories: seq<Category>
    var products: seq<Product>
    var sales: seq<Sale>

    function Contents(): Tables
      reads this
    {
      Tables(categories, products, sales)
    }

    ghost predicate Valid()
      reads this
    {
      Consistent(Contents())
    }

    constructor (cs: seq<Category>, ps: seq<Product>, ss: seq<Sale>)
      requires Consistent(Tables(cs, ps, ss))
      ensures Valid() && Contents() == Tables(cs, ps, ss)
    {
      categories, products, sales := cs, ps, ss;
    }

    /** `sell_product` on a valid form submission. */
    method SellProduct(pk: nat, quantity: int, seller: string, when: Stamp) returns (outcome: SellOutcome)
      requires Valid()
      modifies this
      ensures Valid()
      ensures (outcome, Contents()) == Sell(old(Contents()), pk, quantity, seller, when)
    {
      SellKeepsConsistent(Contents(), pk, quantity, seller, when);
      var found := ProductIndex(products, pk);
      if found.None? {
        return ProductNotFound;
      }
      var i := found.value;
      if quantity < 0 {
        return InvalidQuantity;
      }
      var product := products[i];
      if product.stockQuantity >= quantity {
        products := products[i := product.(stockQuantity := product.stockQuantity - quantity)];
        var sale := Sale(pk, quantity, product.price * quantity, when, seller);
        sales := sales + [sale];
        outcome := Sold(sale);
      } else {
        outcome := NotEnoughStock(product.stockQuantity);
      }
    }

    /** `delete_product`. */
    method DeleteProduct(pk: nat, isSuperuser: bool, isGet: bool) returns (outcome: DeleteOutcome)
      requires Valid()
      modifies this
      ensures Valid()
      ensures (outcome, Contents()) == DeleteProductOp(old(Contents()), pk, isSuperuser, isGet)
    {
      DeleteProductKeepsConsistent(Contents(), pk, isSuperuser, isGet);
      if !isSuperuser {
        return PermissionDenied;
      }
      if ProductIndex(products, pk).None? {
        return NotFound;
      }
      if !isGet {
        return NotDeleted;
      }
      products := Where(products, OtherProduct(pk));
      sales := Where(sales, SaleKept({pk}));
      outcome := Deleted;
    }

    /** `delete_category`. */
    method DeleteCategory(c: nat) returns (outcome: DeleteOutcome)
      requires Valid()
      modifies this
      ensures Valid()
      ensures (outcome, Contents()) == DeleteCategoryOp(old(Contents()), c)
    {
      DeleteCategoryKeepsConsistent(Contents(), c);
      if c !in CategoryIds(categories) {
        return NotFound;
      }
      var gone := ProductsIn(products, c);
      categories := Where(categories, OtherCategory(c));
      products := Where(products, OutsideCategory(c));
      sales := Where(sales, SaleKept(gone));
      outcome := Deleted;
    }
  }
}
