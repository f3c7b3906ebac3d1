/**
  The stock-conservation invariant: for every product, its stock equals
  the stock it was created with, plus the quantities of its purchase rows,
  minus the quantities of its sale rows. Each recorder operation preserves
  it when the product exists; the sale handler and the checked purchase
  handler preserve it unconditionally, and so does every run of commands
  built from them. A purchase recorded for an absent product id breaks it
  once a product is created under that id.
 */
module Conservation {
  import opened Store
  import opened Catalog
  import opened Parties
  import opened Transactions
  import opened Handlers

  /** The net quantity of product `id` moved by the rows `ms`. */
  function QtyFor(ms: seq<Movement>, id: int): int {
    if |ms| == 0 then 0
    else QtyFor(ms[..|ms| - 1], id) + (if ms[|ms| - 1].productId == id then ms[|ms| - 1].qty else 0)
  }

  /** Appending a row adds its quantity to its own product's total only. */
  lemma QtyForAppend(ms: seq<Movement>, m: Movement, id: int)
    ensures QtyFor(ms + [m], id) == QtyFor(ms, id) + (if m.productId == id then m.qty else 0)
  {
    assert (ms + [m])[..|ms|] == ms;
  }

  /** Rows that never name `id` move none of it. */
  lemma {:induction false} QtyForUnreferenced(ms: seq<Movement>, id: int)
    requires forall i :: 0 <= i < |ms| ==> ms[i].productId != id
    ensures QtyFor(ms, id) == 0
  {
    if |ms| > 0 {
      QtyForUnreferenced(ms[..|ms| - 1], id);
    }
  }

  /** Every row of `ms` names an existing product. */
  predicate References(ms: seq<Movement>, products: map<int, Product>) {
    forall i :: 0 <= i < |ms| ==> ms[i].productId in products
  }

  /** `init` holds the stock each product was created with, and every
      product's stock is that plus its purchases minus its sales. */
  predicate Conserved(init: map<int, int>, s: State) {
    && References(s.purchases, s.products)
    && References(s.sales, s.products)
    && init.Keys == s.products.Keys
    && forall id :: id in s.products ==>
         id in init && s.products[id].stock == init[id] + QtyFor(s.purchases, id) - QtyFor(s.sales, id)
  }

  /** The creation stocks after AddProduct: a new product starts at the
      stock it was given; an ignored insert creates nothing. */
  function InitialAfterAdd(init: map<int, int>, s: State, sku: string, stock: int): map<int, int> {
    if SkuTaken(s.products, sku) then init else init[s.nextProductId := stock]
  }

  lemma AddProductConserves(init: map<int, int>, s: State, sku: string, name: string,
                            description: string, price: int, stock: int, consumesId: bool)
    requires Valid(s) && Conserved(init, s)
    ensures Conserved(InitialAfterAdd(init, s, sku, stock), AddProduct(s, sku, name, description, price, stock, consumesId))
  {
    if !SkuTaken(s.products, sku) {
      var n := s.nextProductId;
      QtyForUnreferenced(s.purchases, n);
      QtyForUnreferenced(s.sales, n);
    }
  }

  lemma RecordPurchaseConserves(init: map<int, int>, s: State, productId: int, supplierId: Option<int>,
                                qty: int, costPerItem: int, date: string, note: string)
    requires Conserved(init, s) && productId in s.products
    ensures Conserved(init, RecordPurchase(s, productId, supplierId, qty, costPerItem, date, note))
  {
    var s' := RecordPurchase(s, productId, supplierId, qty, costPerItem, date, note);
    var m := s'.purchases[|s.purchases|];
    assert s'.purchases == s.purchases + [m];
    forall id | id in s'.products
      ensures QtyFor(s'.purchases, id) == QtyFor(s.purchases, id) + (if id == productId then qty else 0)
    {
      QtyForAppend(s.purchases, m, id);
    }
  }

  lemma RecordSaleConserves(init: map<int, int>, s: State, productId: int, customerId: Option<int>,
                            qty: int, pricePerItem: int, date: string, note: string)
    requires Conserved(init, s) && productId in s.products
    ensures Conserved(init, RecordSale(s, productId, customerId, qty, pricePerItem, date, note))
  {
    var s' := RecordSale(s, productId, customerId, qty, pricePerItem, date, note);
    var m := s'.sales[|s.sales|];
    assert s'.sales == s.sales + [m];
    forall id | id in s'.products
      ensures QtyFor(s'.sales, id) == QtyFor(s.sales, id) + (if id == productId then qty else 0)
    {
      QtyForAppend(s.sales, m, id);
    }
  }

  /** The sale handler keeps conservation whatever it is asked. */
  lemma SaleConserves(init: map<int, int>, s: State, productId: int, customerId: Option<int>,
                      qty: int, pricePerItem: int, date: string, note: string)
    requires Conserved(init, s)
    ensures Conserved(init, Sale(s, productId, customerId, qty, pricePerItem, date, note).1)
  {
    if productId in s.products && qty <= s.products[productId].stock {
      RecordSaleConserves(init, s, productId, customerId, qty, pricePerItem, date, note);
    }
  }

  /** The checked purchase handler keeps conservation whatever it is asked. */
  lemma CheckedPurchaseConserves(init: map<int, int>, s: State, productId: int, supplierId: Option<int>,
                                 qty: int, costPerItem: int, date: string, note: string)
    requires Conserved(init, s)
    ensures Conserved(init, CheckedPurchase(s, productId, supplierId, qty, costPerItem, date, note).1)
  {
    if productId in s.products {
      RecordPurchaseConserves(init, s, productId, supplierId, qty, costPerItem, date, note);
    }
  }

  /** record_purchase as written, for a product id that does not exist yet:
      the purchase row is kept, no stock moves, and the product later
      created under that id starts from its given stock, so its stock
      disagrees with its purchase rows. */
  lemma OrphanPurchaseBreaksConservation()
    ensures var s1 := RecordPurchase(Empty, 1, None, 5, 2, "t0", "");
            var s2 := AddProduct(s1, "A", "widget", "", 10, 0, false);
            && 1 in s2.products
            && s2.products[1].stock == 0
            && QtyFor(s2.purchases, 1) == 5
            && QtyFor(s2.sales, 1) == 0
            && !Conserved(InitialAfterAdd(map[], s1, "A", 0), s2)
  {
    var m := Movement(1, 1, None, 5, 2, 10, "t0", "");
    var s1 := RecordPurchase(Empty, 1, None, 5, 2, "t0", "");
    assert s1 == Empty.(purchases := [m]);
    assert QtyFor([m], 1) == 5 by {
      assert [m][..0] == [];
    }
    var p := Product("A", "widget", "", 10, 0);
    assert !SkuTaken(s1.products, "A");
    var s2 := AddProduct(s1, "A", "widget", "", 10, 0, false);
    assert s2 == s1.(products := map[1 := p], nextProductId := 2);
    assert InitialAfterAdd(map[], s1, "A", 0) == map[1 := 0];
  }

  /** A request the application can receive, with already-typed arguments.
      `consumesId` is the store engine's choice for an ignored product insert. */
  datatype Command =
    | NewProduct(sku: string, name: string, description: string, price: int, stock: int, consumesId: bool)
    | NewCustomer(cname: string, cemail: string, cphone: string, caddress: string)
    | NewSupplier(sname: string, semail: string, sphone: string, saddress: string)
    | Buy(buyId: int, supplierId: Option<int>, buyQty: int, costPerItem: int, buyDate: string, buyNote: string)
    | Sell(sellId: int, customerId: Option<int>, sellQty: int, pricePerItem: int, sellDate: string, sellNote: string)

  /** Which purchase handler serves Buy: the route as written, which records
      any purchase, or the corrected one, which refuses unknown products. */
  datatype PurchaseRoute = AsWritten | Checked

  function Step(s: State, c: Command, route: PurchaseRoute): (s': State)
    requires Valid(s)
    ensures Valid(s')
  {
    match c
    case NewProduct(sku, name, description, price, stock, consumesId) =>
      AddProduct(s, sku, name, description, price, stock, consumesId)
    case NewCustomer(name, email, phone, address) => AddCustomer(s, name, email, phone, address).state
    case NewSupplier(name, email, phone, address) => AddSupplier(s, name, email, phone, address).state
    case Buy(id, supplier, qty, cost, date, note) =>
      if route == AsWritten then RecordPurchase(s, id, supplier, qty, cost, date, note)
      else CheckedPurchase(s, id, supplier, qty, cost, date, note).1
    case Sell(id, customer, qty, price, date, note) => Sale(s, id, customer, qty, price, date, note).1
  }

  /** The store after running `cmds` in order on a fresh store. */
  function Run(cmds: seq<Command>, route: PurchaseRoute): (s: State)
    ensures Valid(s)
  {
    if |cmds| == 0 then Empty
    else Step(Run(cmds[..|cmds| - 1], route), cmds[|cmds| - 1], route)
  }

  /** The stock each product of Run(cmds, Checked) was created with. */
  function Initial(cmds: seq<Command>): map<int, int> {
    if |cmds| == 0 then map[]
    else
      var prefix := cmds[..|cmds| - 1];
      match cmds[|cmds| - 1]
      case NewProduct(sku, _, _, _, stock, _) => InitialAfterAdd(Initial(prefix), Run(prefix, Checked), sku, stock)
      case _ => Initial(prefix)
  }

  /** After any run with the corrected purchase handler, every product's
      stock is its creation stock plus the quantities purchased minus the
      quantities sold. */
  lemma {:induction false} StockConserved(cmds: seq<Command>)
    ensures Conserved(Initial(cmds), Run(cmds, Checked))
  {
    if |cmds| > 0 {
      var prefix := cmds[..|cmds| - 1];
      StockConserved(prefix);
      var s := Run(prefix, Checked);
      var init := Initial(prefix);
      match cmds[|cmds| - 1]
      case NewProduct(sku, name, description, price, stock, consumesId) =>
        AddProductConserves(init, s, sku, name, description, price, stock, consumesId);
      case NewCustomer(name, email, phone, address) =>
      case NewSupplier(name, email, phone, address) =>
      case Buy(id, supplier, qty, cost, date, note) =>
        CheckedPurchaseConserves(init, s, id, supplier, qty, cost, date, note);
      case Sell(id, customer, qty, price, date, note) =>
        SaleConserves(init, s, id, customer, qty, price, date, note);
    }
  }
}
