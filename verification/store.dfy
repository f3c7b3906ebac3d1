/**
  The abstract store of the inventory ledger: the five tables of the
  relational schema (products, customers, suppliers, purchases, sales)
  as immutable values, and the well-formedness that every reachable
  store keeps.
 */
module Store {

  datatype Option<+T> = None | Some(value: T)

  /** A row of the products table. The row's id is its key in State.products.
      Prices are whole money units: the model does not reason about rounding. */
  datatype Product = Product(sku: string, name: string, description: string, price: int, stock: int)

  /** A row of the customers table or of the suppliers table (same shape). */
  datatype Party = Party(id: int, name: string, email: string, phone: string, address: string)

  /** A row of the purchases table or of the sales table: a dated, priced
      movement of `qty` units of one product. For a purchase `partyId` is the
      supplier and `unitAmount` the cost per item; for a sale `partyId` is the
      customer and `unitAmount` the price per item. `date` is the timestamp
      taken from the clock, kept opaque. */
  datatype Movement = Movement(
    id: int,
    productId: int,
    partyId: Option<int>,
    qty: int,
    unitAmount: int,
    total: int,
    date: string,
    note: string)

  /** The whole store. `nextProductId` is the AUTOINCREMENT counter of the
      products table; the other tables are append-only, so their next id is
      their length plus one. */
  datatype State = State(
    products: map<int, Product>,
    nextProductId: int,
    customers: seq<Party>,
    suppliers: seq<Party>,
    purchases: seq<Movement>,
    sales: seq<Movement>)

  /** The store right after the schema is created: every table empty. */
  const Empty: State := State(map[], 1, [], [], [], [])

  /** Some product row already carries `sku` (the column is UNIQUE). */
  predicate SkuTaken(products: map<int, Product>, sku: string) {
    exists id :: id in products && products[id].sku == sku
  }

  /** Row i of an append-only table has id i + 1. */
  predicate PartyIdsSequential(rows: seq<Party>) {
    forall i :: 0 <= i < |rows| ==> rows[i].id == i + 1
  }

  predicate MovementIdsSequential(rows: seq<Movement>) {
    forall i :: 0 <= i < |rows| ==> rows[i].id == i + 1
  }

  /** Well-formedness of the store: every product id is one the counter has
      already handed out (ids skipped by the counter may be missing), SKUs
      are unique, and rows of the append-only tables are numbered from 1 in
      insertion order. */
  predicate Valid(s: State) {
    && 1 <= s.nextProductId
    && (forall id :: id in s.products ==> 1 <= id < s.nextProductId)
    && (forall a, b :: a in s.products && b in s.products && a != b ==>
          s.products[a].sku != s.products[b].sku)
    && PartyIdsSequential(s.customers)
    && PartyIdsSequential(s.suppliers)
    && MovementIdsSequential(s.purchases)
    && MovementIdsSequential(s.sales)
  }

  lemma EmptyValid()
    ensures Valid(Empty)
  {
  }
}
