/**
  The party registry: customers and suppliers are plain identity rows,
  appended with the next AUTOINCREMENT id, which is handed back.
 */
module Parties {
  import opened Store

  /** The store after an insert, and the id the insert was given. */
  datatype Inserted = Inserted(state: State, id: int)

  /** Appends a party row to an append-only table under the next id. */
  function AppendParty(rows: seq<Party>, name: string, email: string, phone: string, address: string): (r: seq<Party>)
    ensures |r| == |rows| + 1
    ensures r[..|rows|] == rows
    ensures r[|rows|].name == name && r[|rows|].email == email
    ensures r[|rows|].phone == phone && r[|rows|].address == address
    ensures PartyIdsSequential(rows) ==> PartyIdsSequential(r)
  {
    rows + [Party(|rows| + 1, name, email, phone, address)]
  }

  /** INSERT INTO customers; returns the new row's id, which no earlier
      customer has. Nothing but the customers table changes. */
  function AddCustomer(s: State, name: string, email: string, phone: string, address: string): (r: Inserted)
    ensures r.state == s.(customers := r.state.customers)
    ensures |r.state.customers| == |s.customers| + 1
    ensures r.state.customers[..|s.customers|] == s.customers
    ensures var row := r.state.customers[|s.customers|];
            row == Party(r.id, name, email, phone, address)
    ensures Valid(s) ==> Valid(r.state) && forall i :: 0 <= i < |s.customers| ==> s.customers[i].id < r.id
  {
    var rows := AppendParty(s.customers, name, email, phone, address);
    Inserted(s.(customers := rows), |s.customers| + 1)
  }

  /** INSERT INTO suppliers; returns the new row's id, which no earlier
      supplier has. Nothing but the suppliers table changes. */
  function AddSupplier(s: State, name: string, email: string, phone: string, address: string): (r: Inserted)
    ensures r.state == s.(suppliers := r.state.suppliers)
    ensures |r.state.suppliers| == |s.suppliers| + 1
    ensures r.state.suppliers[..|s.suppliers|] == s.suppliers
    ensures var row := r.state.suppliers[|s.suppliers|];
            row == Party(r.id, name, email, phone, address)
    ensures Valid(s) ==> Valid(r.state) && forall i :: 0 <= i < |s.suppliers| ==> s.suppliers[i].id < r.id
  {
    var rows := AppendParty(s.suppliers, name, email, phone, address);
    Inserted(s.(suppliers := rows), |s.suppliers| + 1)
  }
}
