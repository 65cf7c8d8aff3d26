/** The edit-sale screen of EditSale.jsx: loading a stored sale into an editable item list
    and a pristine copy of it, adding products from the search modal, the totals, and
    submitting through `updateSale`. The item list it builds is the `updated`/`original`
    pair that `Sales.ManageSaleItemChanges` reconciles. */
module EditSale {
  import opened Wrappers
  import opened Catalog
  import opened Store
  import opened Sales

  /** The customer joined to a stored sale; an absent or null field is "". */
  datatype CustomerRef = CustomerRef(name: string, phone: string, email: string)

  /** A stored `sale_items` row with its joined product (`None` when the join found none). */
  datatype LoadedRow = LoadedRow(id: int, quantity: int, unitPrice: int, totalPrice: int, product: Option<Product>)

  /** A stored sale with its joined customer and items. */
  datatype SaleRow = SaleRow(
    invoiceNumber: string, customer: Option<CustomerRef>,
    customerName: string, customerPhone: string, customerEmail: string,
    paymentMethod: string, createdAt: string, rows: seq<LoadedRow>)

  /** `a || b` on strings: the first unless it is empty. */
  function Either(a: string, b: string): (r: string)
    ensures r == a || r == b
    ensures r == "" <==> a == "" && b == ""
    ensures a != "" ==> r == a
  {
    if a != "" then a else b
  }

  /** The edit line for one stored row: the row with its product's id, name, reference and
      stock, priced at the row's unit price. */
  function LoadedLine(row: LoadedRow): SaleLine
    requires row.product.Some?
  {
    var p := row.product.value;
    SaleLine(Some(row.id), p.id, p.name, p.reference, row.unitPrice, row.unitPrice, row.quantity, row.totalPrice, p.stock)
  }

  /** The item mapping of `fetchSaleDetails`. A row without a joined product makes the
      mapping throw, and then no list is loaded. */
  function LoadItems(rows: seq<LoadedRow>): (r: Option<seq<SaleLine>>)
    ensures r.None? <==> exists i :: 0 <= i < |rows| && rows[i].product.None?
    ensures r.Some? ==> |r.value| == |rows| && forall i :: 0 <= i < |rows| ==>
      && r.value[i].id == Some(rows[i].id)
      && r.value[i].productId == rows[i].product.value.id
      && r.value[i].price == rows[i].unitPrice && r.value[i].unitPrice == rows[i].unitPrice
      && r.value[i].quantity == rows[i].quantity && r.value[i].totalPrice == rows[i].totalPrice
      && r.value[i].currentStock == rows[i].product.value.stock
  {
    if exists i :: 0 <= i < |rows| && rows[i].product.None? then None
    else Some(seq(|rows|, i requires 0 <= i < |rows| => LoadedLine(rows[i])))
  }

  /** Distinct stored ids give a loaded list in which every line has its own id. */
  lemma LoadedHaveIds(rows: seq<LoadedRow>)
    requires LoadItems(rows).Some?
    requires forall i, j :: 0 <= i < j < |rows| ==> rows[i].id != rows[j].id
    ensures LoadedIds(LoadItems(rows).value)
  {
    var lines := LoadItems(rows).value;
    forall i, j | 0 <= i < j < |lines|
      ensures lines[i].id != lines[j].id
    {
      assert lines[i].id == Some(rows[i].id) && lines[j].id == Some(rows[j].id);
    }
  }

  /** Saving a freshly loaded sale without editing its items sends no item request. */
  lemma SaveAsLoadedIsQuiet(saleId: int, rows: seq<LoadedRow>)
    requires LoadItems(rows).Some?
    requires forall i, j :: 0 <= i < j < |rows| ==> rows[i].id != rows[j].id
    ensures Plan(saleId, LoadItems(rows).value, LoadItems(rows).value) == []
  {
    LoadedHaveIds(rows);
    UnchangedPlanIsEmpty(saleId, LoadItems(rows).value);
  }

  // ---------------------------------------------------------------- totals

  /** `saleItems.reduce(...)`: the sum of price × quantity, in cents. */
  function ItemsSubtotal(items: seq<SaleLine>): int
  {
    if items == [] then 0 else items[0].price * items[0].quantity + ItemsSubtotal(items[1..])
  }

  /** The stored rows' own amount: the sum of unit price × quantity. */
  function RowsAmount(rows: seq<LoadedRow>): int
  {
    if rows == [] then 0 else rows[0].unitPrice * rows[0].quantity + RowsAmount(rows[1..])
  }

  /** A loaded sale's subtotal is what its rows were sold for. */
  lemma {:induction false} LoadedSubtotal(rows: seq<LoadedRow>)
    requires LoadItems(rows).Some?
    ensures ItemsSubtotal(LoadItems(rows).value) == RowsAmount(rows)
  {
    if rows != [] {
      var lines := LoadItems(rows).value;
      assert forall i :: 1 <= i < |rows| ==> rows[1..][i - 1] == rows[i];
      assert lines[1..] == LoadItems(rows[1..]).value;
      LoadedSubtotal(rows[1..]);
    }
  }

  lemma {:induction false} ItemsSubtotalAppend(a: seq<SaleLine>, b: seq<SaleLine>)
    ensures ItemsSubtotal(a + b) == ItemsSubtotal(a) + ItemsSubtotal(b)
  {
    if a == [] {
      assert a + b == b;
    } else {
      assert (a + b)[1..] == a[1..] + b;
      ItemsSubtotalAppend(a[1..], b);
    }
  }

  /** The tax and total of the edit screen at the shop's tax rate. */
  function EditTax(items: seq<SaleLine>, taxRate: real): real
  {
    ItemsSubtotal(items) as real * taxRate
  }

  function EditTotal(items: seq<SaleLine>, taxRate: real): (r: real)
  {
    ItemsSubtotal(items) as real + EditTax(items, taxRate)
  }

  // ---------------------------------------------------------------- adding a product

  /** The first line for a product, as `find(item => item.product_id === id)`. */
  function FindProductLine(items: seq<SaleLine>, productId: int): (r: Option<nat>)
    ensures r.None? <==> forall i :: 0 <= i < |items| ==> items[i].productId != productId
    ensures r.Some? ==> r.value < |items| && items[r.value].productId == productId
                        && forall i :: 0 <= i < r.value ==> items[i].productId != productId
  {
    if items == [] then None
    else if items[0].productId == productId then Some(0)
    else
      var r := FindProductLine(items[1..], productId);
      assert forall i :: 1 <= i < |items| ==> items[i] == items[1..][i - 1];
      if r.Some? then Some(r.value + 1) else None
  }

  /** The line a product adds to the sale: no id, quantity 1, at the product's price. */
  function NewLine(product: Product): SaleLine
  {
    SaleLine(None, product.id, product.name, product.reference, product.price, product.price, 1, product.price * 1, product.stock)
  }

  /** One more unit on a line, with its total at the shown price. */
  function Bumped(item: SaleLine): SaleLine
  {
    item.(quantity := item.quantity + 1, totalPrice := item.price * (item.quantity + 1))
  }

  /** The updater inside `onProductSelect`: a product already on the sale gains one unit on
      every line for it, unless its first line is at the product's stock; a new product is
      appended as a line without an id. */
  function AddProduct(items: seq<SaleLine>, product: Product): (r: seq<SaleLine>)
    ensures FindProductLine(items, product.id).None? ==> r == items + [NewLine(product)]
    ensures FindProductLine(items, product.id).Some? ==>
      if items[FindProductLine(items, product.id).value].quantity >= product.stock then r == items
      else |r| == |items| && forall i :: 0 <= i < |items| ==>
        r[i] == (if items[i].productId == product.id then Bumped(items[i]) else items[i])
  {
    match FindProductLine(items, product.id)
    case Some(k) =>
      if items[k].quantity >= product.stock then items
      else seq(|items|, i requires 0 <= i < |items| => if items[i].productId == product.id then Bumped(items[i]) else items[i])
    case None => items + [NewLine(product)]
  }

  /** A product not yet on the sale adds its price to the subtotal. */
  lemma NewProductSubtotal(items: seq<SaleLine>, product: Product)
    requires FindProductLine(items, product.id).None?
    ensures ItemsSubtotal(AddProduct(items, product)) == ItemsSubtotal(items) + product.price
  {
    ItemsSubtotalAppend(items, [NewLine(product)]);
    assert [NewLine(product)][1..] == [];
  }

  lemma RateDistributes(s: real, p: real, rate: real)
    ensures (s + p) + (s + p) * rate == (s + s * rate) + p * (1.0 + rate)
  {
  }

  /** Adding a new product raises the bill by its price plus the tax on it. */
  lemma AddedProductTotal(items: seq<SaleLine>, product: Product, taxRate: real)
    requires FindProductLine(items, product.id).None?
    ensures EditTotal(AddProduct(items, product), taxRate) == EditTotal(items, taxRate) + product.price as real * (1.0 + taxRate)
  {
    NewProductSubtotal(items, product);
    var s, p := ItemsSubtotal(items) as real, product.price as real;
    assert ItemsSubtotal(AddProduct(items, product)) as real == s + p;
    RateDistributes(s, p, taxRate);
  }

  /** A product added in the editor reaches the store through `add_item_to_existing_sale`
      with quantity 1 at its price. */
  lemma AddedProductIsInserted(saleId: int, items: seq<SaleLine>, original: seq<SaleLine>, product: Product)
    requires FindProductLine(items, product.id).None?
    ensures AddItemToExistingSale(saleId, product.id, 1, product.price) in Plan(saleId, AddProduct(items, product), original)
  {
    var r := AddProduct(items, product);
    assert r[|items|] == NewLine(product);
    PlanInserts(saleId, r, original, saleId, product.id, 1, product.price);
  }

  /** One more unit of a product whose stored line is unedited becomes a rewrite of that row
      at its stored unit price; when all lines are stored rows, no stock moves. */
  lemma BumpedStoredLine(db: Db, saleId: int, items: seq<SaleLine>, original: seq<SaleLine>, product: Product, k: nat)
    requires FindProductLine(items, product.id) == Some(k)
    requires items[k].quantity < product.stock
    requires items[k].id.Some? && FindById(original, items[k].id) == Some(items[k])
    ensures var r := AddProduct(items, product);
      && UpdateSaleItem(items[k].id.value, items[k].quantity + 1, items[k].unitPrice, (items[k].quantity + 1) * items[k].unitPrice)
           in Plan(saleId, r, original)
      && ((forall i :: 0 <= i < |items| ==> items[i].id.Some?) ==> Run(db, Plan(saleId, r, original), {}).stock == db.stock)
  {
    var r := AddProduct(items, product);
    assert r[k] == Bumped(items[k]);
    PlanUpdates(saleId, r, original, items[k].id.value, items[k].quantity + 1, items[k].unitPrice,
                (items[k].quantity + 1) * items[k].unitPrice);
    if forall i :: 0 <= i < |items| ==> items[i].id.Some? {
      assert forall i :: 0 <= i < |r| ==> r[i].id == items[i].id;
      StockUntouchedWithoutAddedLines(db, saleId, r, original, {});
    }
  }

  // ---------------------------------------------------------------- submitting

  datatype SubmitError = MissingCustomer | NoItems | UpdateFailed(cause: StorageError)

  /** The checks `handleSubmit` makes before `updateSale`: first the customer's name and
      phone, then the item list. */
  function SubmitGuard(name: string, phone: string, items: seq<SaleLine>): (r: Outcome<SubmitError>)
    ensures r.Pass? <==> name != "" && phone != "" && items != []
    ensures (name == "" || phone == "") ==> r == Fail(MissingCustomer)
    ensures name != "" && phone != "" && items == [] ==> r == Fail(NoItems)
  {
    if name == "" || phone == "" then Fail(MissingCustomer)
    else if items == [] then Fail(NoItems)
    else Pass
  }

  /** The payload `handleSubmit` hands to `updateSale`. */
  function SubmitPayload(name: string, phone: string, email: string, paymentMethod: string, saleDate: string,
                         items: seq<SaleLine>, taxRate: real): (u: SaleUpdate)
  {
    SaleUpdate(name, phone, email, paymentMethod, saleDate, EditTotal(items, taxRate), EditTax(items, taxRate))
  }

  /** Submitting a sale as it was loaded stores amounts that agree with its stored rows: total
      less tax is what the rows were sold for, and the tax is that amount at the rate. */
  lemma SubmitLoadedAmounts(rows: seq<LoadedRow>, name: string, phone: string, email: string, paymentMethod: string,
                            saleDate: string, taxRate: real)
    requires LoadItems(rows).Some?
    ensures var u := SubmitPayload(name, phone, email, paymentMethod, saleDate, LoadItems(rows).value, taxRate);
      && u.totalAmount - u.taxAmount == RowsAmount(rows) as real
      && u.taxAmount == RowsAmount(rows) as real * taxRate
  {
    LoadedSubtotal(rows);
  }

  class EditSaleScreen {
    var saleLoaded: bool
    var invoiceNumber: string
    var customerName: string
    var customerPhone: string
    var customerEmail: string
    var items: seq<SaleLine>
    var originalItems: seq<SaleLine>
    var paymentMethod: string
    var saleDate: string

    /** The screen before the sale is fetched. */
    constructor ()
      ensures !saleLoaded && items == [] && originalItems == [] && paymentMethod == "CASH"
      ensures customerName == "" && customerPhone == "" && customerEmail == "" && saleDate == ""
    {
      saleLoaded, invoiceNumber := false, "";
      customerName, customerPhone, customerEmail := "", "", "";
      items, originalItems := [], [];
      paymentMethod, saleDate := "CASH", "";
    }

    /** `fetchSaleDetails` given what the query returned (`None` for an error or no sale,
        which change nothing). The customer fields prefer the joined customer's, then the
        sale's own; the item list and its pristine copy are the same loaded list. A row
        without a product throws after the sale and customer are shown, so the item list,
        payment method and date keep their values. The date's formatting is not modelled. */
    method Load(fetched: Option<SaleRow>)
      modifies this
      ensures fetched.None? ==>
        && saleLoaded == old(saleLoaded) && invoiceNumber == old(invoiceNumber)
        && customerName == old(customerName) && customerPhone == old(customerPhone) && customerEmail == old(customerEmail)
        && items == old(items) && originalItems == old(originalItems)
        && paymentMethod == old(paymentMethod) && saleDate == old(saleDate)
      ensures fetched.Some? ==>
        var data := fetched.value;
        var joined := if data.customer.Some? then data.customer.value else CustomerRef("", "", "");
        && saleLoaded && invoiceNumber == data.invoiceNumber
        && customerName == Either(joined.name, data.customerName)
        && customerPhone == Either(joined.phone, data.customerPhone)
        && customerEmail == Either(joined.email, data.customerEmail)
        && (LoadItems(data.rows).None? ==>
              items == old(items) && originalItems == old(originalItems)
              && paymentMethod == old(paymentMethod) && saleDate == old(saleDate))
        && (LoadItems(data.rows).Some? ==>
              items == LoadItems(data.rows).value && originalItems == items
              && paymentMethod == data.paymentMethod && saleDate == data.createdAt)
    {
      if fetched.None? {
        return;
      }
      var data := fetched.value;
      var joined := if data.customer.Some? then data.customer.value else CustomerRef("", "", "");
      saleLoaded, invoiceNumber := true, data.invoiceNumber;
      customerName := Either(joined.name, data.customerName);
      customerPhone := Either(joined.phone, data.customerPhone);
      customerEmail := Either(joined.email, data.customerEmail);
      var loaded := LoadItems(data.rows);
      if loaded.None? {
        return;
      }
      items := loaded.value;
      originalItems := loaded.value;
      paymentMethod := data.paymentMethod;
      saleDate := data.createdAt;
    }

    /** `onProductSelect`: a product out of stock changes nothing; otherwise the updater
        computes the new item list. */
    method SelectProduct(product: Product)
      modifies this
      ensures items == if product.stock == 0 then old(items) else AddProduct(old(items), product)
      ensures originalItems == old(originalItems) && saleLoaded == old(saleLoaded) && invoiceNumber == old(invoiceNumber)
      ensures customerName == old(customerName) && customerPhone == old(customerPhone) && customerEmail == old(customerEmail)
      ensures paymentMethod == old(paymentMethod) && saleDate == old(saleDate)
    {
      if product.stock == 0 {
        return;
      }
      items := AddProduct(items, product);
    }

    /** `handleSubmit`: the guard, then `updateSale` with the edited items against the
        loaded ones. A screen that never received a sale date still holds "", which
        `updateSale` cannot turn into a timestamp. */
    method Submit(db: Database, saleId: int, taxRate: real, now: string, f: Faults)
      returns (r: Outcome<SubmitError>)
      requires db.Valid()
      modifies db
      ensures db.Valid()
      ensures SubmitGuard(customerName, customerPhone, items).Fail? ==>
        r == SubmitGuard(customerName, customerPhone, items) && db.State() == old(db.State())
      ensures r.Pass? ==> SubmitGuard(customerName, customerPhone, items).Pass? && !DateRejected(saleDate, f)
      ensures SubmitGuard(customerName, customerPhone, items).Pass? && r.Fail? ==>
        && r.error.UpdateFailed?
        && UpdateAborted(old(db.State()), db.State(),
                         SubmitPayload(customerName, customerPhone, customerEmail, paymentMethod, saleDate, items, taxRate),
                         now, f, r.error.cause)
      ensures r.Fail? ==> db.saleItems == old(db.saleItems) && db.stock == old(db.stock)
      ensures r.Pass? ==> exists customerId ::
        && customerId in db.customers && db.customers[customerId].phone == customerPhone
        && CustomerStep(old(db.State()), WithCustomersOf(old(db.State()), db.State()),
                        customerName, customerPhone, customerEmail, now, f, Success(customerId))
        && db.State() == Run(Apply(WithCustomersOf(old(db.State()), db.State()),
                                   UpdateSaleHeader(saleId, HeaderPayload(
                                     SubmitPayload(customerName, customerPhone, customerEmail, paymentMethod, saleDate, items, taxRate),
                                     customerId))),
                             Plan(saleId, items, originalItems), f.failedItemCalls)
    {
      var guard := SubmitGuard(customerName, customerPhone, items);
      if guard.Fail? {
        return guard;
      }
      var payload := SubmitPayload(customerName, customerPhone, customerEmail, paymentMethod, saleDate, items, taxRate);
      var outcome, customerId := UpdateSale(db, saleId, payload, items, originalItems, now, f);
      if outcome.Fail? {
        return Fail(UpdateFailed(outcome.error));
      }
      r := Pass;
    }
  }
}
