/**
  The reporting view: the dashboard's row counts and low-stock list, and
  the reports page's most-recent-first movement lists.
 */
module Reports {
  import opened Store

  /** Products at or below this stock are flagged on the dashboard. */
  const LowStockThreshold: int := 5

  /** The reports page shows at most this many sales and purchases. */
  const RecentLimit: nat := 100

  /** A product row as a report shows it: its id and its columns. */
  datatype ProductRow = ProductRow(id: int, product: Product)

  datatype Summary = Summary(totalProducts: nat, totalSales: nat, totalPurchases: nat, lowStock: seq<ProductRow>)

  predicate IsLow(p: Product) {
    p.stock <= LowStockThreshold
  }

  /** Some row of `rows` is the row of product `id`. */
  predicate Lists(rows: seq<ProductRow>, id: int) {
    exists i :: 0 <= i < |rows| && rows[i].id == id
  }

  /** `row` is a faithful copy of a low-stock product with id in [lo, hi). */
  predicate LowRowBetween(products: map<int, Product>, lo: int, hi: int, row: ProductRow) {
    && lo <= row.id < hi
    && row.id in products
    && row.product == products[row.id]
    && IsLow(row.product)
  }

  lemma ListsCons(row: ProductRow, rest: seq<ProductRow>, id: int)
    requires Lists(rest, id)
    ensures Lists([row] + rest, id)
  {
    var k :| 0 <= k < |rest| && rest[k].id == id;
    assert ([row] + rest)[k + 1].id == id;
  }

  /** The rows of the products with ids in [lo, hi) whose stock is low, in
      ascending id order. */
  function LowStockBetween(products: map<int, Product>, lo: int, hi: int): (rows: seq<ProductRow>)
    decreases hi - lo
    ensures forall i :: 0 <= i < |rows| ==> LowRowBetween(products, lo, hi, rows[i])
    ensures forall id :: lo <= id < hi && id in products && IsLow(products[id]) ==> Lists(rows, id)
    ensures forall i, j :: 0 <= i < j < |rows| ==> rows[i].id < rows[j].id
  {
    if lo >= hi then []
    else
      var rest := LowStockBetween(products, lo + 1, hi);
      if lo in products && IsLow(products[lo]) then
        var row := ProductRow(lo, products[lo]);
        var rows := [row] + rest;
        assert forall i :: 1 <= i < |rows| ==> rows[i] == rest[i - 1];
        forall id | lo < id < hi && id in products && IsLow(products[id])
          ensures Lists(rows, id)
        {
          ListsCons(row, rest, id);
        }
        assert rows[0].id == lo;
        rows
      else rest
  }

  /** The dashboard: the three row counts and the low-stock products in
      table order. Every listed product has stock at most the threshold;
      in a well-formed store every such product is listed. */
  function Dashboard(s: State): (d: Summary)
    ensures d.totalProducts == |s.products|
    ensures d.totalSales == |s.sales| && d.totalPurchases == |s.purchases|
    ensures forall i :: 0 <= i < |d.lowStock| ==>
      && d.lowStock[i].id in s.products
      && d.lowStock[i].product == s.products[d.lowStock[i].id]
      && d.lowStock[i].product.stock <= LowStockThreshold
    ensures Valid(s) ==> forall id :: id in s.products && s.products[id].stock <= LowStockThreshold ==>
      Lists(d.lowStock, id)
    ensures forall i, j :: 0 <= i < j < |d.lowStock| ==> d.lowStock[i].id < d.lowStock[j].id
  {
    Summary(|s.products|, |s.sales|, |s.purchases|, LowStockBetween(s.products, 1, s.nextProductId))
  }

  /** The threshold is inclusive: stock 5 is flagged, stock 6 is not. */
  lemma LowStockBoundary(p5: Product, p6: Product)
    requires p5.stock == 5 && p6.stock == 6
    ensures var s := Store.Empty.(products := map[1 := p5, 2 := p6], nextProductId := 3);
            Dashboard(s).lowStock == [ProductRow(1, p5)]
  {
    var products := map[1 := p5, 2 := p6];
    assert LowStockBetween(products, 3, 3) == [];
    assert LowStockBetween(products, 2, 3) == [];
    assert LowStockBetween(products, 1, 3) == [ProductRow(1, p5)];
  }

  /** The last `limit` rows of an append-only table, newest first. */
  function Recent(rows: seq<Movement>, limit: nat): (r: seq<Movement>)
    ensures |r| == if limit < |rows| then limit else |rows|
    ensures forall i :: 0 <= i < |r| ==> r[i] == rows[|rows| - 1 - i]
  {
    if limit == 0 || |rows| == 0 then []
    else
      var rest := Recent(rows[..|rows| - 1], limit - 1);
      var r := [rows[|rows| - 1]] + rest;
      assert forall i :: 1 <= i < |r| ==> r[i] == rest[i - 1];
      r
  }

  datatype Report = Report(products: map<int, Product>, sales: seq<Movement>, purchases: seq<Movement>)

  /** The reports page: every product, and the most recent sales and
      purchases, at most RecentLimit of each, newest first; every row is
      shown when a table has at most RecentLimit rows. */
  function ReportsPage(s: State): (r: Report)
    ensures r.products == s.products
    ensures |r.sales| == (if RecentLimit < |s.sales| then RecentLimit else |s.sales|)
    ensures |r.purchases| == (if RecentLimit < |s.purchases| then RecentLimit else |s.purchases|)
    ensures forall i :: 0 <= i < |r.sales| ==> r.sales[i] == s.sales[|s.sales| - 1 - i]
    ensures forall i :: 0 <= i < |r.purchases| ==> r.purchases[i] == s.purchases[|s.purchases| - 1 - i]
  {
    Report(s.products, Recent(s.sales, RecentLimit), Recent(s.purchases, RecentLimit))
  }
}
