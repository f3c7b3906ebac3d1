/**
  How the recorder's writes show up in the reporting view.
 */
module Scenarios {
  import opened Store
  import opened Transactions
  import opened Handlers
  import opened Reports

  /** A recorded purchase adds one to the dashboard's purchase count, leaves
      the other counts alone, and raises its product's stock by its quantity. */
  lemma PurchaseCountedOnDashboard(s: State, productId: int, supplierId: Option<int>, qty: int,
                                   costPerItem: int, date: string, note: string)
    requires productId in s.products
    ensures var s' := RecordPurchase(s, productId, supplierId, qty, costPerItem, date, note);
            && Dashboard(s').totalPurchases == Dashboard(s).totalPurchases + 1
            && Dashboard(s').totalSales == Dashboard(s).totalSales
            && Dashboard(s').totalProducts == Dashboard(s).totalProducts
            && s'.products[productId].stock == s.products[productId].stock + qty
  {
  }

  /** A sale the handler commits is the newest row of the recent-sales list,
      with total quantity times price, and the stock drops by its quantity. */
  lemma CommittedSaleListedFirst(s: State, productId: int, customerId: Option<int>, qty: int,
                                 pricePerItem: int, date: string, note: string, limit: nat)
    requires productId in s.products && qty <= s.products[productId].stock
    requires 1 <= limit
    ensures var r := Sale(s, productId, customerId, qty, pricePerItem, date, note);
            var recent := Recent(r.1.sales, limit);
            && r.0 == Ok
            && |recent| >= 1
            && recent[0] == r.1.sales[|s.sales|]
            && recent[0].productId == productId && recent[0].qty == qty
            && recent[0].total == qty * pricePerItem
            && r.1.products[productId].stock == s.products[productId].stock - qty
  {
  }

  /** A refused sale changes neither the sales count nor any stock. */
  lemma RefusedSaleInvisible(s: State, productId: int, customerId: Option<int>, qty: int,
                             pricePerItem: int, date: string, note: string)
    requires productId !in s.products || qty > s.products[productId].stock
    ensures var r := Sale(s, productId, customerId, qty, pricePerItem, date, note);
            && r.0 != Ok
            && Dashboard(r.1) == Dashboard(s)
            && r.1.products == s.products
  {
  }
}
