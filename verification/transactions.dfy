/**
  The transaction recorder: each purchase or sale writes one movement row
  and makes one stock adjustment of matching sign and magnitude. Neither
  checks that the quantity is positive, and neither checks that the
  product exists.
 */
module Transactions {
  import opened Store
  import opened Catalog

  /** The movement row an insert into a table of `rows` writes: next id,
      and a total of quantity times unit amount. */
  function NewMovement(rows: seq<Movement>, productId: int, partyId: Option<int>, qty: int,
                       unitAmount: int, date: string, note: string): (m: Movement)
    ensures m.total == m.qty * m.unitAmount
    ensures m.productId == productId && m.partyId == partyId && m.qty == qty
    ensures m.unitAmount == unitAmount && m.date == date && m.note == note
    ensures MovementIdsSequential(rows) ==> MovementIdsSequential(rows + [m])
  {
    Movement(|rows| + 1, productId, partyId, qty, unitAmount, qty * unitAmount, date, note)
  }

  /** record_purchase: appends exactly one purchase row with
      total = qty * costPerItem and raises that product's stock by qty.
      The row is written even when the product is absent, in which case no
      stock moves. Sales, parties and other products are untouched. */
  function RecordPurchase(s: State, productId: int, supplierId: Option<int>, qty: int,
                          costPerItem: int, date: string, note: string): (s': State)
    ensures |s'.purchases| == |s.purchases| + 1
    ensures s'.purchases[..|s.purchases|] == s.purchases
    ensures var m := s'.purchases[|s.purchases|];
            && m.productId == productId && m.partyId == supplierId && m.qty == qty
            && m.unitAmount == costPerItem && m.total == qty * costPerItem
            && m.date == date && m.note == note
    ensures s'.sales == s.sales && s'.customers == s.customers && s'.suppliers == s.suppliers
    ensures s'.products.Keys == s.products.Keys && s'.nextProductId == s.nextProductId
    ensures OthersUnchanged(s.products, s'.products, productId)
    ensures productId in s.products ==>
      s'.products[productId] == s.products[productId].(stock := s.products[productId].stock + qty)
    ensures productId !in s.products ==> s'.products == s.products
    ensures Valid(s) ==> Valid(s')
  {
    var m := NewMovement(s.purchases, productId, supplierId, qty, costPerItem, date, note);
    var s1 := s.(purchases := s.purchases + [m]);
    assert (s.purchases + [m])[..|s.purchases|] == s.purchases;
    UpdateStock(s1, productId, qty)
  }

  /** record_sale: lowers that product's stock by qty and appends exactly
      one sale row with total = qty * pricePerItem. Nothing here stops the
      stock going below zero. Purchases, parties and other products are
      untouched. */
  function RecordSale(s: State, productId: int, customerId: Option<int>, qty: int,
                      pricePerItem: int, date: string, note: string): (s': State)
    ensures |s'.sales| == |s.sales| + 1
    ensures s'.sales[..|s.sales|] == s.sales
    ensures var m := s'.sales[|s.sales|];
            && m.productId == productId && m.partyId == customerId && m.qty == qty
            && m.unitAmount == pricePerItem && m.total == qty * pricePerItem
            && m.date == date && m.note == note
    ensures s'.purchases == s.purchases && s'.customers == s.customers && s'.suppliers == s.suppliers
    ensures s'.products.Keys == s.products.Keys && s'.nextProductId == s.nextProductId
    ensures OthersUnchanged(s.products, s'.products, productId)
    ensures productId in s.products ==>
      s'.products[productId] == s.products[productId].(stock := s.products[productId].stock - qty)
    ensures productId !in s.products ==> s'.products == s.products
    ensures Valid(s) ==> Valid(s')
  {
    var s1 := UpdateStock(s, productId, -qty);
    var m := NewMovement(s1.sales, productId, customerId, qty, pricePerItem, date, note);
    assert (s1.sales + [m])[..|s1.sales|] == s1.sales;
    s1.(sales := s1.sales + [m])
  }
}
