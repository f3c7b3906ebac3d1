# Inventory ledger of the CRM application, modelled in Dafny

The application keeps five tables: products, customers, suppliers, purchases and sales.
Its business logic is small:

- `add_product` inserts a product and ignores the insert when the SKU already exists.
- `update_stock` adds a signed delta to one product's stock.
- `record_purchase` and `record_sale` each write one movement row and make one matching stock adjustment.
- The sale handler refuses an unknown product and a quantity above the current stock.
- The dashboard shows row counts and the products with stock at most 5.
- The reports page shows the latest 100 sales and purchases.

This project models that logic as a sequential state machine over an immutable store. Each operation is a pure function from one store to the next. The central property is stock conservation: every product's stock equals the stock it was created with, plus its purchased quantities, minus its sold quantities.

Modules, one file each:

- `Store` (`store.dfy`): row types, the store, the empty store and well-formedness (`Valid`).
- `Catalog` (`catalog.dfy`): `AddProduct` and `UpdateStock`.
- `Parties` (`parties.dfy`): `AddCustomer` and `AddSupplier`.
- `Transactions` (`transactions.dfy`): `RecordPurchase` and `RecordSale`.
- `Handlers` (`handlers.dfy`): the guarded `Sale`, and `CheckedPurchase`, the corrected purchase handler (see Findings).
- `Reports` (`reports.dfy`): `Dashboard`, the low-stock list and the newest-first lists.
- `Conservation` (`conservation.dfy`): the invariant, the lemmas that each operation preserves it, and the theorem that every run of requests preserves it.
- `Scenarios` (`scenarios.dfy`): how writes show up on the dashboard and in the recent lists.

Modelling decisions:

- The SQL semantics are written out. `INSERT OR IGNORE` on the `UNIQUE` sku column writes no row when the SKU exists. `UPDATE … WHERE id = ?` changes nothing when no row matches. AUTOINCREMENT hands out increasing ids starting at 1.
- SQLite may use up an AUTOINCREMENT id on an ignored insert, which leaves a gap. `AddProduct` therefore takes the engine's choice as a parameter, `consumesId`. With it set, the counter moves on and every table stays the same.
- `Valid` states that every product id is below the counter, that SKUs are unique, and that rows of the append-only tables have ids equal to their positions plus one. `Valid` holds of the empty store and every operation preserves it. `AddProduct` requires it, because it makes the counter's id fresh. `Conservation.Step` requires it because it may call `AddProduct`.
- Money (price, cost per item, totals) is an integer. Timestamps and notes are opaque strings passed in by the caller.
- Quantities are unconstrained integers, as in the code. Nothing checks `qty > 0`, and nothing checks that a purchased product exists.
- The sale handler reads stock from a snapshot of the products table. In this sequential model the snapshot is the current store.

## Model

| member | source | states |
|---|---|---|
| Store.EmptyValid | app.py:20-71 | The freshly created schema (all tables empty, product counter at 1) is well-formed. |
| Catalog.AddProduct | app.py:92-96 | A SKU already present leaves every table unchanged. Only the id counter may move on, when the engine uses up an id. A new SKU adds exactly one product under a fresh id with the given columns and stock. Every existing product and every other table is untouched. Afterwards the SKU is present and the store is still well-formed, so SKUs stay unique. |
| Catalog.AddProductIdempotent | app.py:92-96 | Adding the same product twice leaves every table as adding it once. Only the id counter may differ. |
| Catalog.IgnoredInsertLeavesGap | app.py:22 | If an ignored insert uses up an id, adding A, A again, then B puts B under id 3 and leaves id 2 empty. |
| Catalog.AddProductLeavesOneRow | app.py:23 | After adding a product twice, exactly one product row carries its SKU. |
| Catalog.UpdateStock | app.py:98-99 | Only the named product's stock changes, by exactly delta, with no floor. Its other columns, every other product and every other table are unchanged. An absent id changes nothing. |
| Catalog.UpdateStockAdditive | app.py:98-99 | Two adjustments of one product equal one adjustment by their sum. |
| Catalog.UpdateStockInverse | app.py:98-99 | An adjustment by delta followed by one by -delta restores the store. |
| Catalog.UpdateStockHasNoFloor | app.py:98-99 | A product with stock 0 adjusted by -1 has stock -1. |
| Parties.AppendParty | app.py:101-111 | Appending a party row keeps the earlier rows, stores the given fields and keeps ids sequential. |
| Parties.AddCustomer | app.py:101-105 | Appends exactly one customer row with the given fields. Returns its id, which is larger than every earlier customer's id. Nothing else changes. |
| Parties.AddSupplier | app.py:107-111 | Appends exactly one supplier row with the given fields. Returns its id, which is larger than every earlier supplier's id. Nothing else changes. |
| Transactions.NewMovement | app.py:114-118 | A movement row carries the given product, party, quantity, unit amount, date and note, with total = qty × unit amount. Appending it keeps ids sequential. |
| Transactions.RecordPurchase | app.py:113-120 | Appends exactly one purchase row with the given fields and total = qty × cost per item. Raises that product's stock by qty if the product exists. For an absent id the row is still written and no stock moves. Sales, parties and other products are unchanged. |
| Transactions.RecordSale | app.py:122-130 | Lowers that product's stock by qty and appends exactly one sale row with total = qty × price per item. Purchases, parties and other products are unchanged. |
| Handlers.Sale | app.py:205-214 | An unknown product gives NotFound and the store is unchanged. A quantity above stock gives InsufficientStock and the store is unchanged. It commits exactly when the product exists and qty ≤ stock, and then it is record_sale. A committed sale leaves that stock non-negative. |
| Handlers.CheckedPurchase | app.py:184-189 | Corrected purchase handler. It refuses an unknown product with NotFound and writes nothing. Otherwise it records the purchase, whose row then names an existing product. It never reports InsufficientStock. |
| Reports.LowStockBetween | app.py:138 | The rows listed are exactly the products in the id range with stock ≤ 5, as copies of their rows, in ascending id order. |
| Reports.Dashboard | app.py:134-143 | The totals are the numbers of products, sales and purchases. Every low-stock row is a product with stock ≤ 5. In a well-formed store every such product is listed, in table order. |
| Reports.LowStockBoundary | app.py:138 | With products of stock 5 and 6, only the stock-5 product is flagged. |
| Reports.Recent | app.py:224-225 | Returns min(limit, number of rows) rows: the newest row first, then successively older ones. |
| Reports.ReportsPage | app.py:221-229 | The reports page shows every product. It shows exactly the last min(100, n) sales and purchases, newest first, so all rows are shown when there are at most 100. |
| Conservation.AddProductConserves | app.py:92-96 | Adding a product preserves conservation. A new product starts at its given stock, with no movement rows naming it. |
| Conservation.RecordPurchaseConserves | app.py:113-120 | record_purchase preserves conservation when the product exists. |
| Conservation.RecordSaleConserves | app.py:122-130 | record_sale preserves conservation when the product exists. |
| Conservation.SaleConserves | app.py:205-214 | The sale handler preserves conservation for every input. |
| Conservation.CheckedPurchaseConserves | app.py:184-189 | The corrected purchase handler preserves conservation for every input. |
| Conservation.OrphanPurchaseBreaksConservation | app.py:113-120 | Take an empty store, record a purchase of 5 units for id 1, then create product 1 with stock 0. The product has stock 0 but 5 purchased units, so conservation fails. |
| Conservation.Step | app.py:145-216 | Every request keeps the store well-formed. The requests are: add a product, customer or supplier; a purchase, through either the route as written or the checked handler; a guarded sale. |
| Conservation.Run | app.py:145-216 | Every store reached from the empty store by a sequence of requests is well-formed. This holds for the application as written and for the corrected purchase handler. |
| Conservation.StockConserved | app.py:113-130 | After any sequence of requests with the checked purchase handler, every product's stock equals its creation stock plus its purchased quantities minus its sold quantities, and every movement row names an existing product. |
| Scenarios.PurchaseCountedOnDashboard | app.py:120 | A recorded purchase of an existing product raises the dashboard's purchase count by one and that product's stock by qty. The other counts are unchanged. |
| Scenarios.CommittedSaleListedFirst | app.py:210-214 | A committed sale is the newest entry of the recent-sales list, with total qty × price, and the stock drops by qty. |
| Scenarios.RefusedSaleInvisible | app.py:206-213 | A refused sale leaves the dashboard and every stock unchanged. |

## Left out

- Flask routes, templates, `flash`, `redirect` and form parsing (`int(...)`, `float(...)`, `.strip()`) are presentation glue. The model takes already-typed arguments.
- The sqlite connection, `run_query`, `fetch_df` and pandas DataFrames are I/O. An in-memory immutable store replaces them.
- `datetime.now()` is a clock read. The timestamp is an opaque string parameter.
- Float prices and totals (`REAL` columns) are modelled as integers. Float rounding of `qty * cost_per_item` is not modelled.
- Reports.Recent: `ORDER BY date DESC` is modelled as newest insertion first. This assumes the clock never runs backwards between inserts. Ties between equal timestamps are broken by insertion order, which SQLite does not promise.
- Concurrency is out of scope because the model is sequential. This includes the race between the stock snapshot (app.py:198) and the update (app.py:126), and `check_same_thread=False`.
- Catalog.UpdateStock: integers are unbounded. SQLite INTEGER is 64-bit, and an update whose `stock + ?` leaves that range makes the stock a REAL. That outcome is not modelled.
- Transactions.RecordPurchase: Python's sqlite3 raises OverflowError when it binds an integer outside the 64-bit range. The insert then fails and nothing is written. The model writes the row for every quantity.
- Transactions.RecordSale: for the same reason, a `-qty` outside the 64-bit range makes the stock update fail before the sale row is written, so nothing changes. The model records the sale.
- Handlers.Sale: for example, stock 0 and `qty = -2^63 - 1` passes the guard at app.py:211, then fails when app.py:126 binds `-qty`. The model returns Ok and writes both the stock change and the row.
- Storage failures (an unreachable store, a failed statement between the row insert and the stock update) are not modelled. Every statement succeeds.
- The purchase route (app.py:179-191) calls record_purchase with no check. In the model that is `Transactions.RecordPurchase` itself, the `AsWritten` route of `Conservation.Step`. The conservation theorem over request sequences is stated for the `Checked` route (see Findings).
- The list reads of the routes (`SELECT * FROM products`, customers, suppliers) return the tables unchanged. They are the store's fields.

## Findings

| source | as written | input that shows it | evidently intended | confidence | as-written member | corrected member |
|---|---|---|---|---|---|---|
| app.py:113-120 | record_purchase writes a purchase row for any product id. It moves stock only when that product exists, and the purchase route never checks that it does. | On an empty store, record_purchase(1, None, 5, 2, …), then add_product("A", …, stock 0). Product 1 has stock 0 but 5 purchased units. | A purchase of an unknown product is refused with NotFound, as the sale handler does for sales, so stock always equals creation stock plus purchases minus sales. | medium; not executed | Conservation.OrphanPurchaseBreaksConservation | Handlers.CheckedPurchase |
