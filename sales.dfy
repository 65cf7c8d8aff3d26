/** The sales hook (src/hooks/useSales.js): resolving the buyer by phone, writing the sale
    header, writing the line items and asking for one stock decrement per item, and
    reconciling an edited item list against the one that was loaded. Every function of the
    hook is a method over the shared `Database`; what it asks of the store is stated as a
    `Run` of requests, and the properties of those requests are lemmas. */
module Sales {
  import opened Wrappers
  import opened Seqs
  import opened Store
  import opened Cart

  /** Why an operation of the hook gave up. All but `InvalidSaleDate` are a request the store
      refused; `InvalidSaleDate` is the `RangeError` that `toISOString` throws for a sale date
      `new Date` cannot read. */
  datatype StorageError =
    | CustomerLookupFailed | CustomerInsertFailed | SaleInsertFailed | SaleItemsInsertFailed | SaleUpdateFailed
    | InvalidSaleDate

  /** Which requests of one operation fail: the customer lookup, the customer insert or
      update, the sale insert or header update, the batch insert of line items, and, by
      position, the per-item requests (stock decrements on create, reconciliation requests
      on update). `dateUnparseable` says whether the JavaScript date parser rejects the
      sale date string handed in, which the model does not decide itself. */
  datatype Faults = Faults(
    lookupFails: bool, customerWriteFails: bool, saleWriteFails: bool, itemsInsertFails: bool,
    failedItemCalls: set<nat>, dateUnparseable: bool)

  /** `new Date(s)` is an invalid date: always for the empty string, otherwise as the parser
      decides. */
  predicate DateRejected(s: string, f: Faults)
  {
    s == "" || f.dateUnparseable
  }

  // ---------------------------------------------------------------- customers

  /** The field-level difference `upsertCustomer` sends for an existing customer: the name
      when it differs, the email when one is given and it differs. */
  function CustomerChanges(existing: Customer, name: string, email: string): CustomerPatch
  {
    CustomerPatch(if name != existing.name then Some(name) else None,
                  if email != "" && email != existing.email then Some(email) else None)
  }

  /** The update carries the name exactly when it changed and the email exactly when a
      non-empty, different email was given; applying it leaves the phone alone. */
  lemma CustomerChangesExact(existing: Customer, name: string, email: string, now: string)
    ensures var p := CustomerChanges(existing, name, email);
      && (p.name.Some? <==> name != existing.name)
      && (p.email.Some? <==> email != "" && email != existing.email)
      && (p.IsEmpty() <==> name == existing.name && (email == "" || email == existing.email))
      && (!p.IsEmpty() ==> var c := Patched(existing, p, now);
            c.name == name && c.phone == existing.phone
            && c.email == (if email != "" then email else existing.email))
  {
  }

  /** Resolving the same phone again with the same name and email finds nothing to change. */
  lemma ResolveAgainChangesNothing(existing: Customer, name: string, email: string, now: string)
    ensures CustomerChanges(Patched(existing, CustomerChanges(existing, name, email), now), name, email).IsEmpty()
  {
  }

  lemma InsertKeepsPhonesUnique(db: Db, c: Customer)
    requires WellFormed(db) && PhonesUnique(db) && CustomersWithPhone(db, c.phone) == {}
    ensures PhonesUnique(Apply(db, InsertCustomer(c)))
  {
    assert db.nextCustomerId !in db.customers;
    forall id | id in db.customers
      ensures db.customers[id].phone != c.phone
    {
      assert id !in CustomersWithPhone(db, c.phone);
    }
  }

  /** The customer row `upsertCustomer` inserts: no `updated_at` is sent, so that column
      starts as the table's default, written "". */
  function NewCustomer(name: string, phone: string, email: string): Customer
  {
    Customer(name, phone, email, "")
  }

  /** What the customer step of a sale does to the store, from `before` to `after`, with
      result `r`. A failed lookup aborts. When customers with the phone exist (the store
      returns them in no promised order, so any of them may come first) that one's id is
      returned, and it is updated only when something changed; a failed update is only
      logged. Otherwise one customer is inserted under the next id, and a failed insert
      aborts. */
  predicate CustomerStep(before: Db, after: Db, name: string, phone: string, email: string, now: string,
                         f: Faults, r: Result<int, StorageError>)
  {
    if f.lookupFails then r == Failure(CustomerLookupFailed) && after == before
    else if CustomersWithPhone(before, phone) != {} then
      && r.Success? && r.value in CustomersWithPhone(before, phone)
      && var changes := CustomerChanges(before.customers[r.value], name, email);
         after == if changes.IsEmpty() || f.customerWriteFails then before
                  else Apply(before, UpdateCustomer(r.value, changes, now))
    else if f.customerWriteFails then r == Failure(CustomerInsertFailed) && after == before
    else r == Success(before.nextCustomerId) && after == Apply(before, InsertCustomer(NewCustomer(name, phone, email)))
  }

  /** `upsertCustomer`, as `CustomerStep` describes it. */
  method UpsertCustomer(db: Database, name: string, phone: string, email: string, now: string, f: Faults)
    returns (r: Result<int, StorageError>)
    requires db.Valid()
    modifies db
    ensures db.Valid()
    ensures CustomerStep(old(db.State()), db.State(), name, phone, email, now, f, r)
    ensures r.Success? ==> r.value in db.customers && db.customers[r.value].phone == phone
    ensures r.Failure? ==> db.State() == old(db.State())
    ensures db.sales == old(db.sales) && db.nextSaleId == old(db.nextSaleId)
    ensures db.saleItems == old(db.saleItems) && db.nextItemId == old(db.nextItemId) && db.stock == old(db.stock)
    ensures PhonesUnique(old(db.State())) ==> PhonesUnique(db.State())
  {
    var found := db.SelectCustomersByPhone(phone, !f.lookupFails);
    if found.None? {
      return Failure(CustomerLookupFailed);
    }
    if found.value != {} {
      SomeMember(found.value);
      var id :| id in found.value;
      var changes := CustomerChanges(db.customers[id], name, email);
      if !changes.IsEmpty() {
        var _, _ := db.Send(UpdateCustomer(id, changes, now), !f.customerWriteFails);
      }
      r := Success(id);
    } else {
      ghost var before := db.State();
      var ok, newId := db.Send(InsertCustomer(NewCustomer(name, phone, email)), !f.customerWriteFails);
      if !ok {
        return Failure(CustomerInsertFailed);
      }
      if PhonesUnique(before) {
        InsertKeepsPhonesUnique(before, NewCustomer(name, phone, email));
      }
      r := Success(newId);
    }
  }

  // ---------------------------------------------------------------- creating a sale

  /** What the checkout screen hands to `createSale`. */
  datatype SaleData = SaleData(
    invoiceNumber: string, customerName: string, customerPhone: string, customerEmail: string,
    totalAmount: real, taxAmount: real, paymentMethod: string, saleDate: string)

  /** The `sales` row `insertSaleRecord` writes; without a sale date the clock's `now` is used. */
  function SaleRecord(data: SaleData, customerId: int, now: string): SaleHeader
  {
    SaleHeader(data.invoiceNumber, data.customerName, data.customerPhone, data.customerEmail,
               data.totalAmount, data.taxAmount, data.paymentMethod, customerId,
               if data.saleDate != "" then data.saleDate else now)
  }

  /** `insertSaleRecord`: one `sales` row; a failed insert aborts. */
  method InsertSaleRecord(db: Database, data: SaleData, customerId: int, now: string, f: Faults)
    returns (r: Result<int, StorageError>)
    requires db.Valid()
    modifies db
    ensures db.Valid()
    ensures f.saleWriteFails ==> r == Failure(SaleInsertFailed) && db.State() == old(db.State())
    ensures !f.saleWriteFails ==>
      r == Success(old(db.nextSaleId)) && db.State() == Apply(old(db.State()), InsertSale(SaleRecord(data, customerId, now)))
  {
    var ok, newId := db.Send(InsertSale(SaleRecord(data, customerId, now)), !f.saleWriteFails);
    if !ok {
      return Failure(SaleInsertFailed);
    }
    r := Success(newId);
  }

  /** The `sale_items` rows of a new sale, one per cart line. */
  function LineItems(saleId: int, cart: seq<CartLine>): (rows: seq<ItemRow>)
    ensures |rows| == |cart|
    ensures forall i :: 0 <= i < |cart| ==>
      rows[i] == ItemRow(saleId, cart[i].product.id, cart[i].quantity, cart[i].product.price,
                         cart[i].product.price * cart[i].quantity)
  {
    if cart == [] then []
    else
      var line := cart[0];
      var rest := LineItems(saleId, cart[1..]);
      assert forall i :: 1 <= i < |cart| ==> cart[i] == cart[1..][i - 1];
      [ItemRow(saleId, line.product.id, line.quantity, line.product.price, line.product.price * line.quantity)] + rest
  }

  /** The sum of the `total_price` column over some rows. */
  function RowsTotal(rows: seq<ItemRow>): int
  {
    if rows == [] then 0 else rows[0].totalPrice + RowsTotal(rows[1..])
  }

  /** The line items of a new sale add up to the cart's subtotal. */
  lemma {:induction false} LineItemsTotal(saleId: int, cart: seq<CartLine>)
    ensures RowsTotal(LineItems(saleId, cart)) == Subtotal(cart)
  {
    if cart != [] {
      assert LineItems(saleId, cart)[1..] == LineItems(saleId, cart[1..]);
      LineItemsTotal(saleId, cart[1..]);
    }
  }

  /** One `decrement_product_stock` request per cart line, in cart order. */
  function StockCalls(cart: seq<CartLine>): seq<Call>
  {
    seq(|cart|, i requires 0 <= i < |cart| => DecrementProductStock(cart[i].product.id, cart[i].quantity))
  }

  /** The quantity the cart holds of one product. */
  function QuantityOf(cart: seq<CartLine>, productId: int): int
  {
    if cart == [] then 0
    else (if cart[0].product.id == productId then cart[0].quantity else 0) + QuantityOf(cart[1..], productId)
  }

  /** When no decrement fails, the decrements of a sale take off each product exactly the
      quantity the cart holds of it. */
  lemma {:induction false} StockCallsDemand(cart: seq<CartLine>, productId: int)
    ensures Demand(StockCalls(cart), {}, productId) == QuantityOf(cart, productId)
  {
    if cart != [] {
      var head := [DecrementProductStock(cart[0].product.id, cart[0].quantity)];
      assert StockCalls(cart) == head + StockCalls(cart[1..]);
      DemandAppend(head, StockCalls(cart[1..]), productId);
      assert head[..0] == [];
      StockCallsDemand(cart[1..], productId);
    }
  }

  /** Stock requests change nothing but stock. */
  lemma {:induction false} RunStockCallsOnlyStock(db: Db, cart: seq<CartLine>, failed: set<nat>, k: nat)
    requires k <= |cart|
    ensures Run(db, StockCalls(cart)[..k], failed) == db.(stock := Run(db, StockCalls(cart)[..k], failed).stock)
  {
    if k > 0 {
      assert StockCalls(cart)[..k][..k - 1] == StockCalls(cart)[..k - 1];
      RunStockCallsOnlyStock(db, cart, failed, k - 1);
    }
  }

  /** `insertSaleItemsAndDecrementStock`: one batch insert of the line items, which aborts
      when it fails — before any stock request; then one decrement per cart line, where a
      failed decrement is only logged and the remaining lines are still processed. */
  method InsertSaleItemsAndDecrementStock(db: Database, saleId: int, cart: seq<CartLine>, f: Faults)
    returns (r: Result<seq<ItemRow>, StorageError>)
    requires db.Valid()
    modifies db
    ensures db.Valid()
    ensures f.itemsInsertFails ==> r == Failure(SaleItemsInsertFailed) && db.State() == old(db.State())
    ensures !f.itemsInsertFails ==>
      && r == Success(LineItems(saleId, cart))
      && db.State() == Run(Apply(old(db.State()), InsertSaleItems(LineItems(saleId, cart))), StockCalls(cart), f.failedItemCalls)
      && db.State() == Apply(old(db.State()), InsertSaleItems(LineItems(saleId, cart))).(stock := db.stock)
  {
    var rows := LineItems(saleId, cart);
    var ok, _ := db.Send(InsertSaleItems(rows), !f.itemsInsertFails);
    if !ok {
      return Failure(SaleItemsInsertFailed);
    }
    ghost var inserted := db.State();
    ghost var calls := StockCalls(cart);
    for i := 0 to |cart|
      invariant db.Valid()
      invariant db.State() == Run(inserted, calls[..i], f.failedItemCalls)
    {
      RunSnoc(inserted, calls, i, f.failedItemCalls);
      var _, _ := db.Send(DecrementProductStock(cart[i].product.id, cart[i].quantity), i !in f.failedItemCalls);
    }
    assert calls[..|cart|] == calls;
    RunStockCallsOnlyStock(inserted, cart, f.failedItemCalls, |cart|);
    r := Success(rows);
  }

  datatype CreatedSale = CreatedSale(id: int, invoiceNumber: string, items: seq<ItemRow>)

  /** `before` with the customers table of `after`: the store after the customer step, as
      long as nothing later writes to that table. */
  function WithCustomersOf(before: Db, after: Db): Db
  {
    before.(customers := after.customers, nextCustomerId := after.nextCustomerId)
  }

  /** A completed `createSale` took the store from `before` to `after`: the customer step
      resolved `customerId`, then the header went in under the next sale id `saleId`, then
      the line items, then one decrement per cart line with the failing ones skipped. */
  predicate SaleCreated(before: Db, after: Db, data: SaleData, cart: seq<CartLine>, now: string, f: Faults,
                        customerId: int, saleId: int)
  {
    var mid := WithCustomersOf(before, after);
    && CustomerStep(before, mid, data.customerName, data.customerPhone, data.customerEmail, now, f, Success(customerId))
    && saleId == before.nextSaleId
    && after == Run(Apply(Apply(mid, InsertSale(SaleRecord(data, customerId, now))), InsertSaleItems(LineItems(saleId, cart))),
                    StockCalls(cart), f.failedItemCalls)
  }

  /** The store a `createSale` that failed with `e` leaves behind: a failed customer step
      wrote nothing; after a resolved customer, a refused header left only the customer step
      done, and refused line items left the customer step and the header. */
  ghost predicate CreateAborted(before: Db, after: Db, data: SaleData, now: string, f: Faults, e: StorageError)
  {
    if e in {CustomerLookupFailed, CustomerInsertFailed} then
      after == before
      && CustomerStep(before, after, data.customerName, data.customerPhone, data.customerEmail, now, f, Failure(e))
    else if e == SaleInsertFailed then
      exists id :: CustomerStep(before, after, data.customerName, data.customerPhone, data.customerEmail, now, f, Success(id))
    else
      && e == SaleItemsInsertFailed
      && exists id :: var mid := WithCustomersOf(before, after);
           && CustomerStep(before, mid, data.customerName, data.customerPhone, data.customerEmail, now, f, Success(id))
           && after == Apply(mid, InsertSale(SaleRecord(data, id, now)))
  }

  /** `createSale`: resolve the customer, insert the header, insert the items and request
      the stock decrements, in that order; the first failure aborts and what was written
      before it stays written. `customerId` is the id the customer step resolved. */
  method CreateSale(db: Database, data: SaleData, cart: seq<CartLine>, now: string, f: Faults)
    returns (r: Result<CreatedSale, StorageError>, ghost customerId: int)
    requires db.Valid()
    modifies db
    ensures db.Valid()
    ensures r.Failure? ==> r.error in {CustomerLookupFailed, CustomerInsertFailed, SaleInsertFailed, SaleItemsInsertFailed}
    ensures r.Failure? && r.error in {CustomerLookupFailed, CustomerInsertFailed} ==>
      db.State() == old(db.State())
      && CustomerStep(old(db.State()), db.State(), data.customerName, data.customerPhone, data.customerEmail, now, f, Failure(r.error))
    ensures r == Failure(SaleInsertFailed) ==>
      CustomerStep(old(db.State()), db.State(), data.customerName, data.customerPhone, data.customerEmail, now, f, Success(customerId))
    ensures r == Failure(SaleItemsInsertFailed) ==>
      var mid := WithCustomersOf(old(db.State()), db.State());
      && CustomerStep(old(db.State()), mid, data.customerName, data.customerPhone, data.customerEmail, now, f, Success(customerId))
      && db.State() == Apply(mid, InsertSale(SaleRecord(data, customerId, now)))
    ensures r.Success? ==> SaleCreated(old(db.State()), db.State(), data, cart, now, f, customerId, r.value.id)
    ensures r.Failure? ==> db.saleItems == old(db.saleItems) && db.stock == old(db.stock)
    ensures r == Failure(SaleInsertFailed) ==> db.sales == old(db.sales)
    ensures r == Failure(SaleItemsInsertFailed) ==>
      db.sales.Keys == old(db.sales.Keys) + {old(db.nextSaleId)}
    ensures r.Success? ==>
      && r.value.id == old(db.nextSaleId) && r.value.invoiceNumber == data.invoiceNumber
      && r.value.items == LineItems(r.value.id, cart)
      && r.value.id in db.sales
      && db.sales == old(db.sales)[r.value.id := SaleRecord(data, db.sales[r.value.id].customerId, now)]
      && db.sales[r.value.id].customerId in db.customers
      && db.customers[db.sales[r.value.id].customerId].phone == data.customerPhone
      && db.saleItems == WithRows(old(db.saleItems), old(db.nextItemId), r.value.items)
      && (forall productId :: productId in db.stock <==> productId in old(db.stock))
      && (forall productId :: productId in old(db.stock) ==>
            db.stock[productId] == old(db.stock)[productId] - Demand(StockCalls(cart), f.failedItemCalls, productId))
    ensures PhonesUnique(old(db.State())) ==> PhonesUnique(db.State())
  {
    customerId := 0;
    var customer := UpsertCustomer(db, data.customerName, data.customerPhone, data.customerEmail, now, f);
    if customer.Failure? {
      return Failure(customer.error), customerId;
    }
    var resolvedId := customer.value;
    customerId := resolvedId;
    var sale := InsertSaleRecord(db, data, resolvedId, now, f);
    if sale.Failure? {
      return Failure(sale.error), customerId;
    }
    ghost var inserted := db.State();
    var items := InsertSaleItemsAndDecrementStock(db, sale.value, cart, f);
    if items.Failure? {
      return Failure(items.error), customerId;
    }
    forall productId | true
      ensures productId in db.stock <==> productId in inserted.stock
      ensures productId in inserted.stock ==>
        db.stock[productId] == inserted.stock[productId] - Demand(StockCalls(cart), f.failedItemCalls, productId)
    {
      RunStock(Apply(inserted, InsertSaleItems(LineItems(sale.value, cart))), StockCalls(cart), f.failedItemCalls, productId);
    }
    r := Success(CreatedSale(sale.value, data.invoiceNumber, items.value));
  }

  /** A sale written with no failing request takes off each product the quantity the cart
      holds of it. */
  lemma CreatedSaleStock(before: map<int, int>, after: map<int, int>, cart: seq<CartLine>, productId: int)
    requires productId in before && productId in after
    requires after[productId] == before[productId] - Demand(StockCalls(cart), {}, productId)
    ensures after[productId] == before[productId] - QuantityOf(cart, productId)
  {
    StockCallsDemand(cart, productId);
  }

  // ---------------------------------------------------------------- reconciling an edited sale

  /** An item of the edit screen: a loaded `sale_items` row (with its `id`) or a line added
      in the editor (no `id`). `price` is what the editor shows and bills; `unitPrice` is
      the row's `unit_price`. */
  datatype SaleLine = SaleLine(
    id: Option<int>, productId: int, name: string, reference: string,
    price: int, unitPrice: int, quantity: int, totalPrice: int, currentStock: int)

  /** Some line carries this id (`lines.find(l => l.id === id)` is truthy). */
  predicate HasId(lines: seq<SaleLine>, id: Option<int>)
  {
    exists j :: 0 <= j < |lines| && lines[j].id == id
  }

  /** `originalSaleItems.find(orig => orig.id === id)`: the first line with that id. */
  function FindById(lines: seq<SaleLine>, id: Option<int>): (r: Option<SaleLine>)
    ensures r.None? <==> !HasId(lines, id)
    ensures r.Some? ==> r.value in lines && r.value.id == id
  {
    if lines == [] then None
    else if lines[0].id == id then Some(lines[0])
    else
      assert forall i :: 1 <= i < |lines| ==> lines[i] == lines[1..][i - 1];
      FindById(lines[1..], id)
  }

  /** The line found is the first with the id: no line before it carries it. */
  lemma {:induction false} FindByIdFirst(lines: seq<SaleLine>, id: Option<int>)
    requires FindById(lines, id).Some?
    ensures exists i :: 0 <= i < |lines| && lines[i] == FindById(lines, id).value
                        && forall j :: 0 <= j < i ==> lines[j].id != id
  {
    if lines[0].id != id {
      FindByIdFirst(lines[1..], id);
      var i :| 0 <= i < |lines[1..]| && lines[1..][i] == FindById(lines, id).value
               && forall j :: 0 <= j < i ==> lines[1..][j].id != id;
      assert lines[i + 1] == FindById(lines, id).value;
      assert forall j :: 0 <= j < i + 1 ==> lines[j].id != id by {
        forall j | 0 <= j < i + 1 ensures lines[j].id != id {
          if j > 0 { assert lines[j] == lines[1..][j - 1]; }
        }
      }
    }
  }

  /** `itemsToDelete`: the loaded items that have an id no edited item carries any more. */
  function ToDelete(updated: seq<SaleLine>, original: seq<SaleLine>): (r: seq<SaleLine>)
    ensures IsSubsequence(r, original)
    ensures forall i :: 0 <= i < |r| ==> r[i].id.Some? && !HasId(updated, r[i].id)
    ensures forall i :: 0 <= i < |original| && original[i].id.Some? && !HasId(updated, original[i].id) ==> original[i] in r
    ensures |r| == Count(original, (o: SaleLine) => o.id.Some? && !HasId(updated, o.id))
  {
    if original == [] then []
    else
      var rest := ToDelete(updated, original[1..]);
      assert forall i :: 1 <= i < |original| ==> original[i] == original[1..][i - 1];
      if original[0].id.Some? && !HasId(updated, original[0].id) then [original[0]] + rest else rest
  }

  /** The delete requests, one per item to delete, in order. */
  function DeleteCalls(updated: seq<SaleLine>, original: seq<SaleLine>): seq<Call>
  {
    var d := ToDelete(updated, original);
    seq(|d|, i requires 0 <= i < |d| => DeleteSaleItem(d[i].id.value))
  }

  /** What the second loop asks for one edited item: an item whose id matches a loaded one
      is rewritten when its quantity or unit price changed; an item without an id goes to
      `add_item_to_existing_sale` at its shown price; an id that matches nothing is ignored. */
  function WriteFor(saleId: int, item: SaleLine, original: seq<SaleLine>): seq<Call>
  {
    var originalItem := FindById(original, item.id);
    if item.id.Some? && originalItem.Some? then
      if item.quantity != originalItem.value.quantity || item.unitPrice != originalItem.value.unitPrice then
        [UpdateSaleItem(item.id.value, item.quantity, item.unitPrice, item.quantity * item.unitPrice)]
      else []
    else if item.id.None? then
      [AddItemToExistingSale(saleId, item.productId, item.quantity, item.price)]
    else []
  }

  /** The update and insert requests, in the order of the edited items. */
  function WriteCalls(saleId: int, updated: seq<SaleLine>, original: seq<SaleLine>): seq<Call>
    decreases |updated|
  {
    if updated == [] then []
    else WriteCalls(saleId, updated[..|updated| - 1], original) + WriteFor(saleId, updated[|updated| - 1], original)
  }

  /** Every request `manageSaleItemChanges` sends, in the order it sends them. */
  function Plan(saleId: int, updated: seq<SaleLine>, original: seq<SaleLine>): seq<Call>
  {
    DeleteCalls(updated, original) + WriteCalls(saleId, updated, original)
  }

  lemma {:induction false} WriteCallsPrefix(saleId: int, updated: seq<SaleLine>, original: seq<SaleLine>, i: nat)
    requires i < |updated|
    ensures WriteCalls(saleId, updated[..i + 1], original)
         == WriteCalls(saleId, updated[..i], original) + WriteFor(saleId, updated[i], original)
    ensures WriteCalls(saleId, updated[..i + 1], original) <= WriteCalls(saleId, updated, original)
    decreases |updated|
  {
    assert updated[..i + 1][..i] == updated[..i];
    if i + 1 < |updated| {
      var init := updated[..|updated| - 1];
      WriteCallsPrefix(saleId, init, original, i);
      assert init[..i + 1] == updated[..i + 1] && init[..i] == updated[..i];
    } else {
      assert updated[..i + 1] == updated;
    }
  }

  lemma {:induction false} WriteCallsNoDeletes(saleId: int, updated: seq<SaleLine>, original: seq<SaleLine>)
    ensures forall c :: c in WriteCalls(saleId, updated, original) ==> !c.DeleteSaleItem?
    decreases |updated|
  {
    if updated != [] {
      WriteCallsNoDeletes(saleId, updated[..|updated| - 1], original);
    }
  }

  /** Sends the request at position `k` of a plan, which fails when `k` is in `failed`. */
  method SendPlanned(db: Database, c: Call, ghost start: Db, ghost plan: seq<Call>, k: nat, failed: set<nat>)
    requires db.Valid() && k < |plan| && plan[k] == c
    requires db.State() == Run(start, plan[..k], failed)
    modifies db
    ensures db.Valid() && db.State() == Run(start, plan[..k + 1], failed)
  {
    RunSnoc(start, plan, k, failed);
    var _, _ := db.Send(c, k !in failed);
  }

  lemma SliceInTail<T>(plan: seq<T>, k0: nat, all: seq<T>, pre: seq<T>, w: seq<T>)
    requires k0 <= |plan| && plan[k0..] == all && pre + w <= all
    ensures k0 + |pre| + |w| <= |plan|
    ensures plan[k0 + |pre|..k0 + |pre| + |w|] == w
  {
    assert all[..|pre| + |w|] == pre + w;
    assert plan[k0 + |pre|..k0 + |pre| + |w|] == all[|pre|..|pre| + |w|];
  }

  /** Where the requests for edited item `i` sit in the plan. */
  lemma WriteStep(saleId: int, updated: seq<SaleLine>, original: seq<SaleLine>, plan: seq<Call>, k0: nat, i: nat, k: nat)
    requires k0 <= |plan| && plan[k0..] == WriteCalls(saleId, updated, original) && i < |updated|
    requires k == k0 + |WriteCalls(saleId, updated[..i], original)|
    ensures k + |WriteFor(saleId, updated[i], original)| == k0 + |WriteCalls(saleId, updated[..i + 1], original)| <= |plan|
    ensures forall j :: 0 <= j < |WriteFor(saleId, updated[i], original)| ==> plan[k + j] == WriteFor(saleId, updated[i], original)[j]
  {
    WriteCallsPrefix(saleId, updated, original, i);
    var w := WriteFor(saleId, updated[i], original);
    SliceInTail(plan, k0, WriteCalls(saleId, updated, original), WriteCalls(saleId, updated[..i], original), w);
    forall j | 0 <= j < |w|
      ensures plan[k + j] == w[j]
    {
      assert plan[k..k + |w|][j] == plan[k + j];
    }
  }

  /** One pass of the second loop of `manageSaleItemChanges`: sends what `WriteFor` asks
      for edited item `i`. The requests of the loop sit in the plan from position `k0`
      on, and those for the items before `i` have been sent. */
  method WriteItem(db: Database, saleId: int, updated: seq<SaleLine>, original: seq<SaleLine>,
                   ghost start: Db, ghost plan: seq<Call>, k0: nat, i: nat, k: nat, failed: set<nat>) returns (k': nat)
    requires k0 <= |plan| && plan[k0..] == WriteCalls(saleId, updated, original) && i < |updated|
    requires k == k0 + |WriteCalls(saleId, updated[..i], original)|
    requires db.Valid() && k <= |plan| && db.State() == Run(start, plan[..k], failed)
    modifies db
    ensures k' == k0 + |WriteCalls(saleId, updated[..i + 1], original)| <= |plan|
    ensures db.Valid() && db.State() == Run(start, plan[..k'], failed)
  {
    WriteStep(saleId, updated, original, plan, k0, i, k);
    ghost var w := WriteFor(saleId, updated[i], original);
    k' := k;
    var item := updated[i];
    var originalItem := FindById(original, item.id);
    if item.id.Some? && originalItem.Some? {
      if item.quantity != originalItem.value.quantity || item.unitPrice != originalItem.value.unitPrice {
        var c := UpdateSaleItem(item.id.value, item.quantity, item.unitPrice, item.quantity * item.unitPrice);
        assert w == [c] && plan[k + 0] == w[0];
        SendPlanned(db, c, start, plan, k, failed);
        k' := k + 1;
      } else {
        assert w == [];
      }
    } else if item.id.None? {
      var c := AddItemToExistingSale(saleId, item.productId, item.quantity, item.price);
      assert w == [c] && plan[k + 0] == w[0];
      SendPlanned(db, c, start, plan, k, failed);
      k' := k + 1;
    } else {
      assert w == [];
    }
  }

  /** The second loop of `manageSaleItemChanges`: one pass over the edited items, sending
      the requests of `WriteCalls` as the plan's requests from position `k0` on. */
  method WriteEdited(db: Database, saleId: int, updated: seq<SaleLine>, original: seq<SaleLine>,
                     ghost start: Db, ghost plan: seq<Call>, k0: nat, failed: set<nat>)
    requires k0 <= |plan| && plan[k0..] == WriteCalls(saleId, updated, original)
    requires db.Valid() && db.State() == Run(start, plan[..k0], failed)
    modifies db
    ensures db.Valid() && db.State() == Run(start, plan, failed)
  {
    var k := k0;
    for i := 0 to |updated|
      invariant k == k0 + |WriteCalls(saleId, updated[..i], original)| <= |plan|
      invariant db.Valid() && db.State() == Run(start, plan[..k], failed)
    {
      k := WriteItem(db, saleId, updated, original, start, plan, k0, i, k, failed);
    }
    assert updated[..|updated|] == updated;
    assert plan[..k] == plan;
  }

  /** `manageSaleItemChanges`: a delete for every item to delete, then one pass over the
      edited items. No request here is checked for an error: a failed one is skipped
      silently. */
  method ManageSaleItemChanges(db: Database, saleId: int, updated: seq<SaleLine>, original: seq<SaleLine>, failed: set<nat>)
    requires db.Valid()
    modifies db
    ensures db.Valid()
    ensures db.State() == Run(old(db.State()), Plan(saleId, updated, original), failed)
  {
    ghost var start := db.State();
    ghost var plan := Plan(saleId, updated, original);
    var toDelete := ToDelete(updated, original);
    for i := 0 to |toDelete|
      invariant db.Valid()
      invariant db.State() == Run(start, plan[..i], failed)
    {
      SendPlanned(db, DeleteSaleItem(toDelete[i].id.value), start, plan, i, failed);
    }
    assert plan[|toDelete|..] == WriteCalls(saleId, updated, original);
    WriteEdited(db, saleId, updated, original, start, plan, |toDelete|, failed);
  }

  /** A request is asked for by the second loop exactly when some edited item asks for it. */
  lemma {:induction false} WriteCallsMembers(saleId: int, updated: seq<SaleLine>, original: seq<SaleLine>, c: Call)
    ensures c in WriteCalls(saleId, updated, original)
        <==> exists i :: 0 <= i < |updated| && c in WriteFor(saleId, updated[i], original)
    decreases |updated|
  {
    if updated != [] {
      var init := updated[..|updated| - 1];
      WriteCallsMembers(saleId, init, original, c);
      assert forall i :: 0 <= i < |init| ==> init[i] == updated[i];
      if c in WriteCalls(saleId, updated, original) {
        if c !in WriteCalls(saleId, init, original) {
          assert c in WriteFor(saleId, updated[|updated| - 1], original);
        }
      }
    }
  }

  lemma DeleteCallsMembers(updated: seq<SaleLine>, original: seq<SaleLine>, c: Call)
    ensures c in DeleteCalls(updated, original) ==> c.DeleteSaleItem?
    ensures c.DeleteSaleItem? ==>
      (c in DeleteCalls(updated, original)
       <==> exists i :: 0 <= i < |original| && original[i].id == Some(c.id) && !HasId(updated, Some(c.id)))
  {
    var d := ToDelete(updated, original);
    if c.DeleteSaleItem? && c in DeleteCalls(updated, original) {
      var j :| 0 <= j < |d| && DeleteCalls(updated, original)[j] == c;
      SubsequenceMembers(d, original, d[j]);
      var i :| 0 <= i < |original| && original[i] == d[j];
      assert original[i].id == Some(c.id);
    }
    if c.DeleteSaleItem? && exists i :: 0 <= i < |original| && original[i].id == Some(c.id) && !HasId(updated, Some(c.id)) {
      var i :| 0 <= i < |original| && original[i].id == Some(c.id) && !HasId(updated, Some(c.id));
      var j :| 0 <= j < |d| && d[j] == original[i];
      assert DeleteCalls(updated, original)[j] == c;
    }
  }

  /** Reconciliation deletes exactly the loaded items that carry an id no edited item still
      carries, and nothing else. */
  lemma PlanDeletes(saleId: int, updated: seq<SaleLine>, original: seq<SaleLine>, id: int)
    ensures DeleteSaleItem(id) in Plan(saleId, updated, original)
        <==> exists i :: 0 <= i < |original| && original[i].id == Some(id) && !HasId(updated, Some(id))
  {
    WriteCallsNoDeletes(saleId, updated, original);
    DeleteCallsMembers(updated, original, DeleteSaleItem(id));
  }

  lemma PlanWrites(saleId: int, updated: seq<SaleLine>, original: seq<SaleLine>, c: Call)
    requires !c.DeleteSaleItem?
    ensures c in Plan(saleId, updated, original)
        <==> exists i :: 0 <= i < |updated| && c in WriteFor(saleId, updated[i], original)
  {
    DeleteCallsMembers(updated, original, c);
    WriteCallsMembers(saleId, updated, original, c);
  }

  /** A loaded row is rewritten exactly when an edited item carries its id and differs from
      it in quantity or unit price; the rewrite sets that item's quantity and unit price and
      their product as the total. */
  lemma PlanUpdates(saleId: int, updated: seq<SaleLine>, original: seq<SaleLine>,
                    id: int, quantity: int, unitPrice: int, totalPrice: int)
    ensures UpdateSaleItem(id, quantity, unitPrice, totalPrice) in Plan(saleId, updated, original)
        <==> && FindById(original, Some(id)).Some?
             && totalPrice == quantity * unitPrice
             && exists i :: && 0 <= i < |updated| && updated[i].id == Some(id)
                            && updated[i].quantity == quantity && updated[i].unitPrice == unitPrice
                            && (quantity != FindById(original, Some(id)).value.quantity
                                || unitPrice != FindById(original, Some(id)).value.unitPrice)
  {
    PlanWrites(saleId, updated, original, UpdateSaleItem(id, quantity, unitPrice, totalPrice));
  }

  /** An edited item without an id is sent to `add_item_to_existing_sale` with its shown
      price, and nothing else is. */
  lemma PlanInserts(saleId: int, updated: seq<SaleLine>, original: seq<SaleLine>,
                    s: int, productId: int, quantity: int, price: int)
    ensures AddItemToExistingSale(s, productId, quantity, price) in Plan(saleId, updated, original)
        <==> && s == saleId
             && exists i :: && 0 <= i < |updated| && updated[i].id.None?
                            && updated[i].productId == productId && updated[i].quantity == quantity
                            && updated[i].price == price
  {
    PlanWrites(saleId, updated, original, AddItemToExistingSale(s, productId, quantity, price));
  }

  /** Reconciliation only deletes, rewrites and inserts sale items. */
  lemma PlanKinds(saleId: int, updated: seq<SaleLine>, original: seq<SaleLine>, c: Call)
    requires c in Plan(saleId, updated, original)
    ensures c.DeleteSaleItem? || c.UpdateSaleItem? || c.AddItemToExistingSale?
  {
    if !c.DeleteSaleItem? {
      PlanWrites(saleId, updated, original, c);
    }
  }

  lemma {:induction false} WriteCallsEmpty(saleId: int, updated: seq<SaleLine>, original: seq<SaleLine>)
    requires forall i :: 0 <= i < |updated| ==> WriteFor(saleId, updated[i], original) == []
    ensures WriteCalls(saleId, updated, original) == []
    decreases |updated|
  {
    if updated != [] {
      WriteCallsEmpty(saleId, updated[..|updated| - 1], original);
    }
  }

  /** Every line carries an id, and no two the same one (as loaded rows do). */
  predicate LoadedIds(lines: seq<SaleLine>)
  {
    && (forall i :: 0 <= i < |lines| ==> lines[i].id.Some?)
    && (forall i, j :: 0 <= i < j < |lines| ==> lines[i].id != lines[j].id)
  }

  /** Saving loaded items that were not edited sends no request at all. */
  lemma UnchangedPlanIsEmpty(saleId: int, lines: seq<SaleLine>)
    requires LoadedIds(lines)
    ensures Plan(saleId, lines, lines) == []
  {
    var d := ToDelete(lines, lines);
    if d != [] {
      SubsequenceMembers(d, lines, d[0]);
      assert false;
    }
    assert DeleteCalls(lines, lines) == [];
    forall i | 0 <= i < |lines|
      ensures WriteFor(saleId, lines[i], lines) == []
    {
      var r := FindById(lines, lines[i].id);
      var j :| 0 <= j < |lines| && lines[j] == r.value;
      assert j == i;
    }
    WriteCallsEmpty(saleId, lines, lines);
  }

  /** The same does not hold for items without an id: saving an added, not yet stored item
      twice would insert it twice. */
  lemma AddedLineInsertedAgain(saleId: int, line: SaleLine)
    requires line.id.None?
    ensures Plan(saleId, [line], [line]) == [AddItemToExistingSale(saleId, line.productId, line.quantity, line.price)]
  {
    assert ToDelete([line], [line]) == [];
    assert DeleteCalls([line], [line]) == [];
    assert [line][..0] == [];
    assert WriteCalls(saleId, [line], [line]) == WriteCalls(saleId, [], [line]) + WriteFor(saleId, line, [line]);
  }

  /** The quantity of one product among the edited items that have no id. */
  function AddedQuantity(updated: seq<SaleLine>, productId: int): int
    decreases |updated|
  {
    if updated == [] then 0
    else
      var last := updated[|updated| - 1];
      AddedQuantity(updated[..|updated| - 1], productId)
        + if last.id.None? && last.productId == productId then last.quantity else 0
  }

  /** When every request succeeds, reconciliation takes off a product's stock exactly the
      quantity of the added items for it: deleting a row or changing its quantity gives
      nothing back and takes nothing more. */
  lemma {:induction false} PlanDemand(saleId: int, updated: seq<SaleLine>, original: seq<SaleLine>, productId: int)
    ensures Demand(Plan(saleId, updated, original), {}, productId) == AddedQuantity(updated, productId)
    decreases |updated|
  {
    var d := DeleteCalls(updated, original);
    NoStockCallsNoDemand(d, {}, productId);
    DemandAppend(d, WriteCalls(saleId, updated, original), productId);
    WriteCallsDemand(saleId, updated, original, productId);
  }

  lemma {:induction false} WriteCallsDemand(saleId: int, updated: seq<SaleLine>, original: seq<SaleLine>, productId: int)
    ensures Demand(WriteCalls(saleId, updated, original), {}, productId) == AddedQuantity(updated, productId)
    decreases |updated|
  {
    if updated != [] {
      var init := updated[..|updated| - 1];
      var w := WriteFor(saleId, updated[|updated| - 1], original);
      WriteCallsDemand(saleId, init, original, productId);
      DemandAppend(WriteCalls(saleId, init, original), w, productId);
      if w != [] {
        assert w[..|w| - 1] == [];
      }
    }
  }

  /** The stock gap: when the edited items are all stored rows, reconciliation leaves every
      product's stock as it was, whatever was deleted or changed and whichever requests
      fail. */
  lemma StockUntouchedWithoutAddedLines(db: Db, saleId: int, updated: seq<SaleLine>, original: seq<SaleLine>, failed: set<nat>)
    requires forall i :: 0 <= i < |updated| ==> updated[i].id.Some?
    ensures Run(db, Plan(saleId, updated, original), failed).stock == db.stock
  {
    var plan := Plan(saleId, updated, original);
    forall i | 0 <= i < |plan|
      ensures !TouchesStock(plan[i])
    {
      PlanKinds(saleId, updated, original, plan[i]);
      if plan[i].AddItemToExistingSale? {
        PlanInserts(saleId, updated, original, plan[i].saleId, plan[i].productId, plan[i].quantity, plan[i].unitPrice);
      }
    }
    forall productId
      ensures productId in Run(db, plan, failed).stock <==> productId in db.stock
      ensures productId in db.stock ==> Run(db, plan, failed).stock[productId] == db.stock[productId]
    {
      RunStock(db, plan, failed, productId);
      NoStockCallsNoDemand(plan, failed, productId);
    }
  }

  /** A worked case: of two stored rows, one is removed and the other's quantity goes from
      2 to 5. The removed row is deleted, the other rewritten, and no stock moves. */
  lemma EditWithoutStockMovement(db: Db, saleId: int, a: SaleLine, b: SaleLine)
    requires a.id == Some(1) && b.id == Some(2) && a.quantity == 2
    ensures var edited := [a.(quantity := 5)];
      && Plan(saleId, edited, [a, b]) == [DeleteSaleItem(2), UpdateSaleItem(1, 5, a.unitPrice, 5 * a.unitPrice)]
      && Run(db, Plan(saleId, edited, [a, b]), {}).stock == db.stock
  {
    var edited := [a.(quantity := 5)];
    assert edited[0].id == Some(1);
    assert !HasId(edited, Some(2)) && HasId(edited, Some(1));
    assert ToDelete(edited, [b]) == [b];
    assert ToDelete(edited, [a, b]) == [b];
    assert FindById([a, b], Some(1)) == Some(a);
    assert edited[..0] == [];
    assert DeleteCalls(edited, [a, b]) == [DeleteSaleItem(2)];
    assert WriteFor(saleId, edited[0], [a, b]) == [UpdateSaleItem(1, 5, a.unitPrice, 5 * a.unitPrice)];
    assert WriteCalls(saleId, edited, [a, b]) == WriteCalls(saleId, [], [a, b]) + WriteFor(saleId, edited[0], [a, b]);
    StockUntouchedWithoutAddedLines(db, saleId, edited, [a, b], {});
  }

  // ---------------------------------------------------------------- updating a sale

  /** What the edit screen hands to `updateSale`. */
  datatype SaleUpdate = SaleUpdate(
    customerName: string, customerPhone: string, customerEmail: string,
    paymentMethod: string, createdAt: string, totalAmount: real, taxAmount: real)

  /** The header payload: the sale data without the three customer columns, with the
      resolved customer's id. */
  function HeaderPayload(u: SaleUpdate, customerId: int): (h: HeaderUpdate)
  {
    HeaderUpdate(u.paymentMethod, u.createdAt, u.totalAmount, u.taxAmount, customerId)
  }

  /** The header update links the sale to the customer and leaves the name, phone and email
      stored on the sale row as they were. */
  lemma HeaderKeepsCustomerColumns(h: SaleHeader, u: SaleUpdate, customerId: int)
    ensures var n := Updated(h, HeaderPayload(u, customerId));
      && n.customerId == customerId
      && n.customerName == h.customerName && n.customerPhone == h.customerPhone && n.customerEmail == h.customerEmail
      && n.invoiceNumber == h.invoiceNumber
      && n.totalAmount == u.totalAmount && n.taxAmount == u.taxAmount
  {
  }

  lemma PlanOnSaleTables(saleId: int, updated: seq<SaleLine>, original: seq<SaleLine>)
    ensures forall i :: 0 <= i < |Plan(saleId, updated, original)| ==> OnSaleTables(Plan(saleId, updated, original)[i])
  {
    var plan := Plan(saleId, updated, original);
    forall i | 0 <= i < |plan|
      ensures OnSaleTables(plan[i])
    {
      PlanKinds(saleId, updated, original, plan[i]);
    }
  }

  /** The store an `updateSale` that failed with `e` leaves behind: a failed customer step
      wrote nothing; after a resolved customer, an unreadable sale date (exactly when the
      date is rejected) or a refused header update left only the customer step done. */
  ghost predicate UpdateAborted(before: Db, after: Db, u: SaleUpdate, now: string, f: Faults, e: StorageError)
  {
    if e in {CustomerLookupFailed, CustomerInsertFailed} then
      after == before
      && CustomerStep(before, after, u.customerName, u.customerPhone, u.customerEmail, now, f, Failure(e))
    else
      && e in {InvalidSaleDate, SaleUpdateFailed}
      && (e == InvalidSaleDate <==> DateRejected(u.createdAt, f))
      && exists id :: CustomerStep(before, after, u.customerName, u.customerPhone, u.customerEmail, now, f, Success(id))
  }

  /** `updateSale`: resolve the customer, turn the sale date into an ISO timestamp, rewrite
      the header, then reconcile the items. A failed lookup or customer insert, an
      unreadable date or a failed header update aborts before the items are touched.
      `customerId` is the id the customer step resolved; the source returns nothing. */
  method UpdateSale(db: Database, saleId: int, u: SaleUpdate, updated: seq<SaleLine>, original: seq<SaleLine>,
                    now: string, f: Faults)
    returns (r: Outcome<StorageError>, ghost customerId: int)
    requires db.Valid()
    modifies db
    ensures db.Valid()
    ensures r.Fail? ==> r.error in {CustomerLookupFailed, CustomerInsertFailed, InvalidSaleDate, SaleUpdateFailed}
    ensures r.Fail? && r.error in {CustomerLookupFailed, CustomerInsertFailed} ==>
      db.State() == old(db.State())
      && CustomerStep(old(db.State()), db.State(), u.customerName, u.customerPhone, u.customerEmail, now, f, Failure(r.error))
    ensures r.Fail? && r.error in {InvalidSaleDate, SaleUpdateFailed} ==>
      CustomerStep(old(db.State()), db.State(), u.customerName, u.customerPhone, u.customerEmail, now, f, Success(customerId))
    ensures (r.Pass? || r.error in {InvalidSaleDate, SaleUpdateFailed}) ==>
      (r == Fail(InvalidSaleDate) <==> DateRejected(u.createdAt, f))
    ensures r.Fail? ==>
      db.sales == old(db.sales) && db.saleItems == old(db.saleItems) && db.nextItemId == old(db.nextItemId) && db.stock == old(db.stock)
    ensures r.Pass? ==>
      var mid := WithCustomersOf(old(db.State()), db.State());
      && customerId in db.customers && db.customers[customerId].phone == u.customerPhone
      && CustomerStep(old(db.State()), mid, u.customerName, u.customerPhone, u.customerEmail, now, f, Success(customerId))
      && db.State() == Run(Apply(mid, UpdateSaleHeader(saleId, HeaderPayload(u, customerId))),
                           Plan(saleId, updated, original), f.failedItemCalls)
    ensures PhonesUnique(old(db.State())) ==> PhonesUnique(db.State())
  {
    customerId := 0;
    var customer := UpsertCustomer(db, u.customerName, u.customerPhone, u.customerEmail, now, f);
    if customer.Failure? {
      return Fail(customer.error), customerId;
    }
    var customerIdToUpdate := customer.value;
    customerId := customerIdToUpdate;
    if DateRejected(u.createdAt, f) {
      return Fail(InvalidSaleDate), customerId;
    }
    var ok, _ := db.Send(UpdateSaleHeader(saleId, HeaderPayload(u, customerIdToUpdate)), !f.saleWriteFails);
    if !ok {
      return Fail(SaleUpdateFailed), customerId;
    }
    ghost var headed := db.State();
    ManageSaleItemChanges(db, saleId, updated, original, f.failedItemCalls);
    PlanOnSaleTables(saleId, updated, original);
    RunKeepsCustomers(headed, Plan(saleId, updated, original), f.failedItemCalls);
    r := Pass;
  }
}
