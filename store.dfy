/** The Supabase database the sales hook talks to, as an abstract store: the `customers`,
    `sales` and `sale_items` tables keyed by id, and each product's stock. Every request the
    hook makes is one `Call`, applied atomically; a request may fail, and then it changes
    nothing. Each table hands out its own consecutive ids. */
module Store {
  import opened Wrappers

  datatype Customer = Customer(name: string, phone: string, email: string, updatedAt: string)

  /** The fields of a customer row that an update rewrites; `None` leaves a field alone. */
  datatype CustomerPatch = CustomerPatch(name: Option<string>, email: Option<string>)
  {
    predicate IsEmpty() { name.None? && email.None? }
  }

  /** A `sales` row. Amounts are exact; `createdAt` is the timestamp as the caller gave it. */
  datatype SaleHeader = SaleHeader(
    invoiceNumber: string,
    customerName: string, customerPhone: string, customerEmail: string,
    totalAmount: real, taxAmount: real,
    paymentMethod: string, customerId: int, createdAt: string)

  /** The columns `updateSale` writes to a `sales` row. */
  datatype HeaderUpdate = HeaderUpdate(
    paymentMethod: string, createdAt: string, totalAmount: real, taxAmount: real, customerId: int)

  /** A `sale_items` row; prices in cents. */
  datatype ItemRow = ItemRow(saleId: int, productId: int, quantity: int, unitPrice: int, totalPrice: int)

  datatype Db = Db(
    customers: map<int, Customer>, nextCustomerId: int,
    sales: map<int, SaleHeader>, nextSaleId: int,
    saleItems: map<int, ItemRow>, nextItemId: int,
    stock: map<int, int>)

  /** One request to the store. `DecrementProductStock` and `AddItemToExistingSale` are the
      two server procedures; their bodies are not part of this model, and they are taken
      to do what their names and arguments say. */
  datatype Call =
    | InsertCustomer(customer: Customer)
    | UpdateCustomer(id: int, patch: CustomerPatch, now: string)
    | InsertSale(header: SaleHeader)
    | UpdateSaleHeader(id: int, update: HeaderUpdate)
    | InsertSaleItems(rows: seq<ItemRow>)
    | DeleteSaleItem(id: int)
    | UpdateSaleItem(id: int, quantity: int, unitPrice: int, totalPrice: int)
    | DecrementProductStock(productId: int, quantity: int)
    | AddItemToExistingSale(saleId: int, productId: int, quantity: int, unitPrice: int)

  function Patched(c: Customer, p: CustomerPatch, now: string): Customer
  {
    c.(name := if p.name.Some? then p.name.value else c.name,
       email := if p.email.Some? then p.email.value else c.email,
       updatedAt := now)
  }

  function Updated(h: SaleHeader, u: HeaderUpdate): SaleHeader
  {
    h.(paymentMethod := u.paymentMethod, createdAt := u.createdAt,
       totalAmount := u.totalAmount, taxAmount := u.taxAmount, customerId := u.customerId)
  }

  /** A batch insert: the rows take the ids `first`, `first + 1`, ... in order. */
  function WithRows(m: map<int, ItemRow>, first: int, rows: seq<ItemRow>): (r: map<int, ItemRow>)
    ensures forall k :: k in r <==> k in m || first <= k < first + |rows|
    ensures forall i :: 0 <= i < |rows| ==> r[first + i] == rows[i]
    ensures forall k :: k in m && !(first <= k < first + |rows|) ==> r[k] == m[k]
    decreases |rows|
  {
    if rows == [] then m
    else
      var r := WithRows(m[first := rows[0]], first + 1, rows[1..]);
      assert forall i :: 1 <= i < |rows| ==> rows[i] == rows[1..][i - 1];
      r
  }

  /** An atomic decrement of one product's stock; a product that is gone is left gone. */
  function Decremented(stock: map<int, int>, productId: int, quantity: int): map<int, int>
  {
    if productId in stock then stock[productId := stock[productId] - quantity] else stock
  }

  /** The effect of one request that succeeds. Updates and deletes that match no row
      change nothing, as an `update ... eq('id', id)` matching no row does. */
  function Apply(db: Db, c: Call): Db
  {
    match c
    case InsertCustomer(customer) =>
      db.(customers := db.customers[db.nextCustomerId := customer], nextCustomerId := db.nextCustomerId + 1)
    case UpdateCustomer(id, patch, now) =>
      if id in db.customers then db.(customers := db.customers[id := Patched(db.customers[id], patch, now)]) else db
    case InsertSale(header) =>
      db.(sales := db.sales[db.nextSaleId := header], nextSaleId := db.nextSaleId + 1)
    case UpdateSaleHeader(id, update) =>
      if id in db.sales then db.(sales := db.sales[id := Updated(db.sales[id], update)]) else db
    case InsertSaleItems(rows) =>
      db.(saleItems := WithRows(db.saleItems, db.nextItemId, rows), nextItemId := db.nextItemId + |rows|)
    case DeleteSaleItem(id) =>
      db.(saleItems := db.saleItems - {id})
    case UpdateSaleItem(id, quantity, unitPrice, totalPrice) =>
      if id in db.saleItems then
        db.(saleItems := db.saleItems[id := db.saleItems[id].(quantity := quantity, unitPrice := unitPrice, totalPrice := totalPrice)])
      else db
    case DecrementProductStock(productId, quantity) =>
      db.(stock := Decremented(db.stock, productId, quantity))
    case AddItemToExistingSale(saleId, productId, quantity, unitPrice) =>
      db.(saleItems := db.saleItems[db.nextItemId := ItemRow(saleId, productId, quantity, unitPrice, quantity * unitPrice)],
          nextItemId := db.nextItemId + 1,
          stock := Decremented(db.stock, productId, quantity))
  }

  /** A sequence of requests issued one after another; those at the positions in `failed`
      fail and change nothing, the others succeed. */
  function Run(db: Db, calls: seq<Call>, failed: set<nat>): Db
    decreases |calls|
  {
    if calls == [] then db
    else
      var before := Run(db, calls[..|calls| - 1], failed);
      if |calls| - 1 in failed then before else Apply(before, calls[|calls| - 1])
  }

  /** Every id handed out so far is below its table's next id. */
  predicate WellFormed(db: Db)
  {
    (forall id :: id in db.customers ==> id < db.nextCustomerId)
    && (forall id :: id in db.sales ==> id < db.nextSaleId)
    && (forall id :: id in db.saleItems ==> id < db.nextItemId)
  }

  /** At most one customer per phone number. */
  predicate PhonesUnique(db: Db)
  {
    forall i, j :: i in db.customers && j in db.customers && i != j ==> db.customers[i].phone != db.customers[j].phone
  }

  /** `select ... eq('phone', phone)` on `customers`. */
  function CustomersWithPhone(db: Db, phone: string): (r: set<int>)
  {
    set id | id in db.customers && db.customers[id].phone == phone
  }

  /** A non-empty set has a member to pick. */
  lemma SomeMember(s: set<int>)
    requires s != {}
    ensures exists x :: x in s
  {
    if forall x :: x !in s {
      assert false;
    }
  }

  /** While phones are unique, the phone lookup finds at most one customer: the one with it. */
  lemma AtMostOneWithPhone(db: Db, phone: string)
    requires PhonesUnique(db)
    ensures |CustomersWithPhone(db, phone)| <= 1
    ensures forall id :: id in CustomersWithPhone(db, phone) ==> CustomersWithPhone(db, phone) == {id}
  {
    var found := CustomersWithPhone(db, phone);
    forall id | id in found
      ensures found == {id}
    {
      forall j | j in found ensures j == id {
        assert db.customers[j].phone == phone == db.customers[id].phone;
      }
    }
    if found != {} {
      SomeMember(found);
      var id :| id in found;
      assert found == {id};
    }
  }

  lemma ApplyWellFormed(db: Db, c: Call)
    requires WellFormed(db)
    ensures WellFormed(Apply(db, c))
    ensures Apply(db, c).nextCustomerId >= db.nextCustomerId && Apply(db, c).nextSaleId >= db.nextSaleId
    ensures Apply(db, c).nextItemId >= db.nextItemId
  {
  }

  lemma {:induction false} RunWellFormed(db: Db, calls: seq<Call>, failed: set<nat>)
    requires WellFormed(db)
    ensures WellFormed(Run(db, calls, failed))
    decreases |calls|
  {
    if calls != [] {
      RunWellFormed(db, calls[..|calls| - 1], failed);
      ApplyWellFormed(Run(db, calls[..|calls| - 1], failed), calls[|calls| - 1]);
    }
  }

  /** Issuing one more request extends the run by that request. */
  lemma RunSnoc(db: Db, calls: seq<Call>, k: nat, failed: set<nat>)
    requires k < |calls|
    ensures Run(db, calls[..k + 1], failed)
         == if k in failed then Run(db, calls[..k], failed) else Apply(Run(db, calls[..k], failed), calls[k])
  {
    assert calls[..k + 1][..k] == calls[..k];
  }

  /** Only the two stock-changing requests change stock; the rest leave it as it is. */
  predicate TouchesStock(c: Call)
  {
    c.DecrementProductStock? || c.AddItemToExistingSale?
  }

  /** The total quantity that the succeeding requests of a run take off one product. */
  function Demand(calls: seq<Call>, failed: set<nat>, productId: int): int
    decreases |calls|
  {
    if calls == [] then 0
    else
      var c := calls[|calls| - 1];
      Demand(calls[..|calls| - 1], failed, productId)
        + if |calls| - 1 !in failed && TouchesStock(c) && c.productId == productId then c.quantity else 0
  }

  /** One request changes a product's stock only when it is a stock request for it. */
  lemma ApplyStock(db: Db, c: Call, productId: int)
    ensures productId in Apply(db, c).stock <==> productId in db.stock
    ensures productId in db.stock ==>
      Apply(db, c).stock[productId]
        == db.stock[productId] - if TouchesStock(c) && c.productId == productId then c.quantity else 0
  {
  }

  /** A run changes each product's stock by exactly its demand, and adds or drops no
      product. */
  lemma {:induction false} RunStock(db: Db, calls: seq<Call>, failed: set<nat>, productId: int)
    ensures productId in Run(db, calls, failed).stock <==> productId in db.stock
    ensures productId in db.stock ==>
      Run(db, calls, failed).stock[productId] == db.stock[productId] - Demand(calls, failed, productId)
    decreases |calls|
  {
    if calls != [] {
      var init := calls[..|calls| - 1];
      RunStock(db, init, failed, productId);
      ApplyStock(Run(db, init, failed), calls[|calls| - 1], productId);
    }
  }

  lemma {:induction false} DemandAppend(a: seq<Call>, b: seq<Call>, productId: int)
    ensures Demand(a + b, {}, productId) == Demand(a, {}, productId) + Demand(b, {}, productId)
    decreases |b|
  {
    if b == [] {
      assert a + b == a;
    } else {
      assert (a + b)[..|a + b| - 1] == a + b[..|b| - 1];
      DemandAppend(a, b[..|b| - 1], productId);
    }
  }

  /** A run in which no request touches stock takes nothing off any product. */
  lemma {:induction false} NoStockCallsNoDemand(calls: seq<Call>, failed: set<nat>, productId: int)
    requires forall i :: 0 <= i < |calls| ==> !TouchesStock(calls[i])
    ensures Demand(calls, failed, productId) == 0
    decreases |calls|
  {
    if calls != [] {
      NoStockCallsNoDemand(calls[..|calls| - 1], failed, productId);
    }
  }

  /** Requests on sales and their items leave the `customers` table alone. */
  predicate OnSaleTables(c: Call)
  {
    !c.InsertCustomer? && !c.UpdateCustomer?
  }

  lemma {:induction false} RunKeepsCustomers(db: Db, calls: seq<Call>, failed: set<nat>)
    requires forall i :: 0 <= i < |calls| ==> OnSaleTables(calls[i])
    ensures Run(db, calls, failed).customers == db.customers
    ensures Run(db, calls, failed).nextCustomerId == db.nextCustomerId
    decreases |calls|
  {
    if calls != [] {
      RunKeepsCustomers(db, calls[..|calls| - 1], failed);
    }
  }

  /** The store as the hook sees it: the four tables, updated in place by each request. */
  class Database {
    var customers: map<int, Customer>
    var nextCustomerId: int
    var sales: map<int, SaleHeader>
    var nextSaleId: int
    var saleItems: map<int, ItemRow>
    var nextItemId: int
    var stock: map<int, int>

    function State(): Db
      reads this
    {
      Db(customers, nextCustomerId, sales, nextSaleId, saleItems, nextItemId, stock)
    }

    ghost predicate Valid()
      reads this
    {
      WellFormed(State())
    }

    /** Empty tables over a given stock of products. */
    constructor (initialStock: map<int, int>)
      ensures Valid()
      ensures State() == Db(map[], 0, map[], 0, map[], 0, initialStock)
    {
      customers, nextCustomerId := map[], 0;
      sales, nextSaleId := map[], 0;
      saleItems, nextItemId := map[], 0;
      stock := initialStock;
    }

    /** Sends one request; it succeeds exactly when `ok` holds. `newId` is the id an insert
        into a single-row table receives. */
    method Send(c: Call, ok: bool) returns (success: bool, newId: int)
      requires Valid()
      modifies this
      ensures Valid()
      ensures success == ok
      ensures newId == (if c.InsertCustomer? then old(nextCustomerId) else old(nextSaleId))
      ensures State() == if ok then Apply(old(State()), c) else old(State())
    {
      success := ok;
      newId := if c.InsertCustomer? then nextCustomerId else nextSaleId;
      if ok {
        ApplyWellFormed(State(), c);
        var next := Apply(State(), c);
        customers, nextCustomerId := next.customers, next.nextCustomerId;
        sales, nextSaleId := next.sales, next.nextSaleId;
        saleItems, nextItemId := next.saleItems, next.nextItemId;
        stock := next.stock;
      }
    }

    /** `select('id, name, email').eq('phone', phone)`: the ids of the customers with that
        phone, or `None` when the query fails. */
    method SelectCustomersByPhone(phone: string, ok: bool) returns (r: Option<set<int>>)
      ensures r == if ok then Some(CustomersWithPhone(State(), phone)) else None
    {
      r := if ok then Some(set id | id in customers && customers[id].phone == phone) else None;
    }
  }
}
