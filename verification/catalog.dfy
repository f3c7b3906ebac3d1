/**
  The catalog ledger: creating products (idempotent by SKU) and adjusting
  a product's stock by a signed delta.
 */
module Catalog {
  import opened Store

  /** Every product row other than `id` is the same in `a` and `b`. */
  predicate OthersUnchanged(a: map<int, Product>, b: map<int, Product>, id: int) {
    forall k :: k in a && k != id ==> k in b && b[k] == a[k]
  }

  /** INSERT OR IGNORE of a product row. A SKU that is already present
      writes no row; otherwise the row gets the next AUTOINCREMENT id and the
      stock it was given. Whether an ignored insert uses up an id is the
      store engine's choice, passed in as `consumesId`: when it does, later
      ids skip one. Needs a well-formed store: that is what makes the
      counter's id fresh. */
  function AddProduct(s: State, sku: string, name: string, description: string, price: int, stock: int,
                      consumesId: bool): (s': State)
    requires Valid(s)
    ensures Valid(s')
    ensures SkuTaken(s'.products, sku)
    ensures s'.nextProductId > s.nextProductId || (SkuTaken(s.products, sku) && !consumesId)
    ensures SkuTaken(s.products, sku) ==>
      && s'.products == s.products
      && s'.customers == s.customers && s'.suppliers == s.suppliers
      && s'.purchases == s.purchases && s'.sales == s.sales
      && s'.nextProductId == s.nextProductId + (if consumesId then 1 else 0)
    ensures !SkuTaken(s.products, sku) ==>
      && s.nextProductId !in s.products
      && s'.products.Keys == s.products.Keys + {s.nextProductId}
      && s'.products[s.nextProductId] == Product(sku, name, description, price, stock)
      && OthersUnchanged(s.products, s'.products, s.nextProductId)
      && |s'.products| == |s.products| + 1
      && s'.customers == s.customers && s'.suppliers == s.suppliers
      && s'.purchases == s.purchases && s'.sales == s.sales
  {
    if SkuTaken(s.products, sku) then
      if consumesId then s.(nextProductId := s.nextProductId + 1) else s
    else
      var id := s.nextProductId;
      var s' := s.(products := s.products[id := Product(sku, name, description, price, stock)],
                   nextProductId := id + 1);
      assert s'.products[id].sku == sku;
      s'
  }

  /** Adding the same product twice leaves every table as adding it once;
      only the id counter may have moved on. */
  lemma AddProductIdempotent(s: State, sku: string, name: string, description: string, price: int, stock: int,
                             c1: bool, c2: bool)
    requires Valid(s)
    ensures var once := AddProduct(s, sku, name, description, price, stock, c1);
            var twice := AddProduct(once, sku, name, description, price, stock, c2);
            && twice == once.(nextProductId := twice.nextProductId)
            && (!c2 ==> twice == once)
  {
  }

  /** The ids of the product rows that carry `sku`. */
  function IdsWithSku(products: map<int, Product>, sku: string): set<int> {
    set id | id in products && products[id].sku == sku
  }

  /** After adding a product (once or several times) exactly one row carries its SKU. */
  lemma AddProductLeavesOneRow(s: State, sku: string, name: string, description: string, price: int, stock: int,
                               c1: bool, c2: bool)
    requires Valid(s)
    ensures var once := AddProduct(s, sku, name, description, price, stock, c1);
            var twice := AddProduct(once, sku, name, description, price, stock, c2);
            |IdsWithSku(twice.products, sku)| == 1
  {
    var once := AddProduct(s, sku, name, description, price, stock, c1);
    AddProductIdempotent(s, sku, name, description, price, stock, c1, c2);
    var id :| id in once.products && once.products[id].sku == sku;
    forall x | x in IdsWithSku(once.products, sku)
      ensures x == id
    {
    }
    assert IdsWithSku(once.products, sku) == {id};
  }

  /** When an ignored insert uses up an id, the next product skips it:
      adding A, A again, then B puts B under id 3 and leaves id 2 empty. */
  lemma IgnoredInsertLeavesGap(pa: Product, pb: Product)
    requires pa.sku != pb.sku
    ensures var s1 := AddProduct(Empty, pa.sku, pa.name, pa.description, pa.price, pa.stock, false);
            var s2 := AddProduct(s1, pa.sku, pa.name, pa.description, pa.price, pa.stock, true);
            var s3 := AddProduct(s2, pb.sku, pb.name, pb.description, pb.price, pb.stock, false);
            && s3.products == map[1 := pa, 3 := pb]
            && 2 !in s3.products
  {
    var s1 := AddProduct(Empty, pa.sku, pa.name, pa.description, pa.price, pa.stock, false);
    assert s1.products == map[1 := pa] && s1.nextProductId == 2;
    var s2 := AddProduct(s1, pa.sku, pa.name, pa.description, pa.price, pa.stock, true);
    assert s2.products == map[1 := pa] && s2.nextProductId == 3;
    assert !SkuTaken(s2.products, pb.sku);
  }

  /** UPDATE products SET stock = stock + delta WHERE id = ?. Only that
      product's stock moves, by exactly `delta`, with no floor at zero; an
      absent id matches no row and changes nothing. */
  function UpdateStock(s: State, id: int, delta: int): (s': State)
    ensures s'.products.Keys == s.products.Keys
    ensures OthersUnchanged(s.products, s'.products, id)
    ensures id in s.products ==>
      && s'.products[id].stock == s.products[id].stock + delta
      && s'.products[id].(stock := s.products[id].stock) == s.products[id]
    ensures id !in s.products ==> s' == s
    ensures s'.nextProductId == s.nextProductId
    ensures s'.customers == s.customers && s'.suppliers == s.suppliers
    ensures s'.purchases == s.purchases && s'.sales == s.sales
    ensures Valid(s) ==> Valid(s')
  {
    if id in s.products then
      s.(products := s.products[id := s.products[id].(stock := s.products[id].stock + delta)])
    else s
  }

  /** Two adjustments of one product add up. */
  lemma UpdateStockAdditive(s: State, id: int, a: int, b: int)
    ensures UpdateStock(UpdateStock(s, id, a), id, b) == UpdateStock(s, id, a + b)
  {
  }

  /** An adjustment is undone by the opposite adjustment. */
  lemma UpdateStockInverse(s: State, id: int, delta: int)
    ensures UpdateStock(UpdateStock(s, id, delta), id, -delta) == s
  {
    if id in s.products {
      var p := s.products[id := s.products[id].(stock := s.products[id].stock + delta)];
      assert p[id := s.products[id]] == s.products;
    }
  }

  /** There is no floor at zero: a product with no stock can be taken below it. */
  lemma UpdateStockHasNoFloor(s: State, id: int)
    requires id in s.products && s.products[id].stock == 0
    ensures UpdateStock(s, id, -1).products[id].stock == -1
  {
  }
}
