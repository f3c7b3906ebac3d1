/**
  The guards the request handlers put in front of the recorder. The sale
  handler looks the product up in the products table and refuses an
  unknown id or a quantity above the current stock; only then does it
  record the sale. `CheckedPurchase` is the purchase handler with the same
  existence check, which the purchase handler as written does not make.
 */
module Handlers {
  import opened Store
  import opened Transactions

  /** How a guarded request ended: committed, or refused without mutation. */
  datatype Outcome = Ok | NotFound | InsufficientStock

  /** The sale handler: refuses an unknown product and a quantity larger
      than the stock read from the products table; otherwise records the
      sale. A committed sale leaves the stock non-negative. The quantity
      itself is not validated. */
  function Sale(s: State, productId: int, customerId: Option<int>, qty: int,
                pricePerItem: int, date: string, note: string): (r: (Outcome, State))
    ensures productId !in s.products ==> r == (NotFound, s)
    ensures productId in s.products && qty > s.products[productId].stock ==> r == (InsufficientStock, s)
    ensures r.0 == Ok <==> productId in s.products && qty <= s.products[productId].stock
    ensures r.0 != Ok ==> r.1 == s
    ensures r.0 == Ok ==>
      && r.1 == RecordSale(s, productId, customerId, qty, pricePerItem, date, note)
      && r.1.products[productId].stock >= 0
    ensures Valid(s) ==> Valid(r.1)
  {
    if productId !in s.products then (NotFound, s)
    else if qty > s.products[productId].stock then (InsufficientStock, s)
    else (Ok, RecordSale(s, productId, customerId, qty, pricePerItem, date, note))
  }

  /** The purchase handler with the product-existence check the sale
      handler makes: an unknown product is refused with no row written;
      otherwise the purchase is recorded. It never reports insufficient
      stock. */
  function CheckedPurchase(s: State, productId: int, supplierId: Option<int>, qty: int,
                           costPerItem: int, date: string, note: string): (r: (Outcome, State))
    ensures r.0 != InsufficientStock
    ensures r.0 == NotFound <==> productId !in s.products
    ensures r.0 == NotFound ==> r.1 == s
    ensures r.0 == Ok ==>
      && r.1 == RecordPurchase(s, productId, supplierId, qty, costPerItem, date, note)
      && r.1.purchases[|s.purchases|].productId in r.1.products
    ensures Valid(s) ==> Valid(r.1)
  {
    if productId !in s.products then (NotFound, s)
    else (Ok, RecordPurchase(s, productId, supplierId, qty, costPerItem, date, note))
  }
}
