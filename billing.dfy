/** The billing screen of Billing.jsx: the cart and customer fields it holds as state, the
    cart transitions, checkout through `createSale`, and clearing after the invoice is
    printed. Each `setCart` replaces the cart with the value the pure functions of `Cart`
    compute. */
module Billing {
  import opened Wrappers
  import opened Catalog
  import opened Cart
  import opened ProductSearch
  import opened Store
  import opened Sales

  /** Why checkout stopped. */
  datatype CheckoutError = EmptyCart | MissingCustomer | SaleFailed(cause: StorageError)

  /** What the invoice shows after a sale. */
  datatype Invoice = Invoice(
    customerName: string, customerPhone: string, customerEmail: string, paymentMethod: string,
    items: seq<CartLine>, subtotal: int, tax: real, total: real, invoiceNumber: string, date: string)

  /** The checks `handleCheckout` makes before anything is written: first the cart, then
      the customer's name and phone. */
  function CheckoutGuard(cart: seq<CartLine>, name: string, phone: string): (r: Outcome<CheckoutError>)
    ensures r.Pass? <==> cart != [] && name != "" && phone != ""
    ensures cart == [] ==> r == Fail(EmptyCart)
    ensures cart != [] && (name == "" || phone == "") ==> r == Fail(MissingCustomer)
  {
    if cart == [] then Fail(EmptyCart)
    else if name == "" || phone == "" then Fail(MissingCustomer)
    else Pass
  }

  /** The payload checkout hands to `createSale`: the bill's total and tax at the shop's
      tax rate, and the customer fields as entered. */
  function CheckoutData(cart: seq<CartLine>, name: string, phone: string, email: string, paymentMethod: string,
                        taxRate: real, invoiceNumber: string, saleTime: string): (d: SaleData)
  {
    SaleData(invoiceNumber, name, phone, email, Total(cart, taxRate), Tax(Subtotal(cart), taxRate), paymentMethod, saleTime)
  }

  /** The checkout payload's amounts agree with the line items written beside it: total less
      tax is what the rows add up to, and the tax is that sum at the tax rate. */
  lemma CheckoutAmountsMatchItems(cart: seq<CartLine>, name: string, phone: string, email: string, paymentMethod: string,
                                  taxRate: real, invoiceNumber: string, saleTime: string, saleId: int)
    ensures var d := CheckoutData(cart, name, phone, email, paymentMethod, taxRate, invoiceNumber, saleTime);
      && d.totalAmount - d.taxAmount == RowsTotal(LineItems(saleId, cart)) as real
      && d.taxAmount == RowsTotal(LineItems(saleId, cart)) as real * taxRate
  {
    LineItemsTotal(saleId, cart);
  }

  /** What checkout leaves in the store. A failed guard writes nothing; a failure after the
      guard is a failed `createSale` and leaves what that wrote before it gave up, which
      keeps the sale items and stock; a completed sale is the `createSale` run for the checkout
      payload, adds exactly its line items, stores a header whose amounts are the bill's and
      agree with the items, and takes each product's succeeding decrements off its stock. */
  ghost predicate CheckoutStored(before: Db, after: Db, cart: seq<CartLine>, name: string, phone: string, email: string,
                                 paymentMethod: string, taxRate: real, invoiceNumber: string, saleTime: string,
                                 now: string, f: Faults, r: Result<CreatedSale, CheckoutError>)
  {
    var guard := CheckoutGuard(cart, name, phone);
    && (guard.Fail? ==> r == Failure(guard.error) && after == before)
    && (r.Failure? ==> r.error.SaleFailed? || guard.Fail?)
    && (guard.Pass? && r.Failure? ==>
          && r.error.SaleFailed?
          && CreateAborted(before, after,
               CheckoutData(cart, name, phone, email, paymentMethod, taxRate, invoiceNumber, saleTime),
               now, f, r.error.cause))
    && (r.Failure? ==> after.saleItems == before.saleItems && after.stock == before.stock)
    && (r.Success? ==>
      && guard.Pass?
      && (exists customerId :: SaleCreated(before, after,
            CheckoutData(cart, name, phone, email, paymentMethod, taxRate, invoiceNumber, saleTime),
            cart, now, f, customerId, r.value.id))
      && r.value.invoiceNumber == invoiceNumber
      && r.value.items == LineItems(r.value.id, cart)
      && after.saleItems == WithRows(before.saleItems, before.nextItemId, r.value.items)
      && RowsTotal(r.value.items) == Subtotal(cart)
      && r.value.id in after.sales
      && after.sales[r.value.id].totalAmount == Total(cart, taxRate)
      && after.sales[r.value.id].taxAmount == Tax(Subtotal(cart), taxRate)
      && after.sales[r.value.id].totalAmount - after.sales[r.value.id].taxAmount == RowsTotal(r.value.items) as real
      && after.sales[r.value.id].paymentMethod == paymentMethod
      && (forall productId :: productId in after.stock <==> productId in before.stock)
      && (forall productId :: productId in before.stock ==>
            after.stock[productId] == before.stock[productId] - Demand(StockCalls(cart), f.failedItemCalls, productId))
      && (f.failedItemCalls == {} ==> forall productId :: productId in before.stock ==>
            after.stock[productId] == before.stock[productId] - QuantityOf(cart, productId)))
  }

  /** The store side of `handleCheckout`: the guard, then `createSale` with the bill's amounts. */
  method PlaceSale(db: Database, cart: seq<CartLine>, name: string, phone: string, email: string,
                   paymentMethod: string, taxRate: real, invoiceNumber: string, saleTime: string,
                   now: string, f: Faults)
    returns (r: Result<CreatedSale, CheckoutError>)
    requires db.Valid()
    modifies db
    ensures db.Valid()
    ensures CheckoutStored(old(db.State()), db.State(), cart, name, phone, email, paymentMethod, taxRate,
                           invoiceNumber, saleTime, now, f, r)
    ensures r.Success? ==> r.value.invoiceNumber == invoiceNumber
  {
    var guard := CheckoutGuard(cart, name, phone);
    if guard.Fail? {
      return Failure(guard.error);
    }
    var data := CheckoutData(cart, name, phone, email, paymentMethod, taxRate, invoiceNumber, saleTime);
    var newSale, customerId := CreateSale(db, data, cart, now, f);
    if newSale.Failure? {
      return Failure(SaleFailed(newSale.error));
    }
    LineItemsTotal(newSale.value.id, cart);
    if f.failedItemCalls == {} {
      forall productId | productId in old(db.stock)
        ensures db.stock[productId] == old(db.stock)[productId] - QuantityOf(cart, productId)
      {
        StockCallsDemand(cart, productId);
      }
    }
    r := Success(newSale.value);
  }

  class BillingScreen {
    var cart: seq<CartLine>
    var searchQuery: string
    var customerName: string
    var customerPhone: string
    var customerEmail: string
    var paymentMethod: string
    var invoice: Option<Invoice>

    /** The screen as first shown: an empty cart and payment by cash. */
    constructor ()
      ensures cart == [] && searchQuery == "" && invoice.None?
      ensures customerName == "" && customerPhone == "" && customerEmail == "" && paymentMethod == "CASH"
    {
      cart := [];
      searchQuery := "";
      customerName, customerPhone, customerEmail, paymentMethod := "", "", "", "CASH";
      invoice := None;
    }

    /** `filteredProducts` for the current search box. */
    function FilteredProducts(products: seq<Product>): (r: seq<Product>)
      reads this
      ensures forall p :: p in r <==> p in products && Matches(p, searchQuery)
    {
      var r := Filter(products, searchQuery);
      forall p ensures p in r <==> p in products && Matches(p, searchQuery) {
        FilterMembership(products, searchQuery, p);
      }
      r
    }

    /** `addToCart`; a catalog whose figures have not changed keeps the cart valid. */
    method AddToCart(products: seq<Product>, product: Product)
      modifies this
      ensures cart == AfterAdd(old(cart), product)
      ensures CatalogOk(products) && product in products && CartValid(old(cart), products) ==> CartValid(cart, products)
      ensures DistinctIds(old(cart)) ==>
        (cart == old(cart) || (FindLine(cart, product.id).Some? && Subtotal(cart) == Subtotal(old(cart)) + FindLine(cart, product.id).value.product.price))
      ensures searchQuery == old(searchQuery) && invoice == old(invoice)
      ensures customerName == old(customerName) && customerPhone == old(customerPhone)
      ensures customerEmail == old(customerEmail) && paymentMethod == old(paymentMethod)
    {
      if CatalogOk(products) && product in products && CartValid(cart, products) {
        AddKeepsValid(cart, products, product);
      }
      if DistinctIds(cart) {
        AddToCartSubtotal(cart, product);
      }
      if product.stock == 0 {
        return;
      }
      var existingItem := FindLine(cart, product.id);
      if existingItem.Some? {
        if existingItem.value.quantity >= product.stock {
          return;
        }
        cart := Increment(cart, product.id);
      } else {
        cart := cart + [CartLine(product, 1)];
      }
    }

    /** `removeFromCart`. */
    method RemoveFromCart(products: seq<Product>, productId: int)
      modifies this
      ensures cart == Removed(old(cart), productId)
      ensures CartValid(old(cart), products) ==> CartValid(cart, products)
      ensures Subtotal(cart) == Subtotal(old(cart)) - LinesAmount(old(cart), productId)
      ensures searchQuery == old(searchQuery) && invoice == old(invoice)
      ensures customerName == old(customerName) && customerPhone == old(customerPhone)
      ensures customerEmail == old(customerEmail) && paymentMethod == old(paymentMethod)
    {
      if CartValid(cart, products) {
        RemovedKeepsValid(cart, products, productId);
      }
      RemovedSubtotal(cart, productId);
      cart := Removed(cart, productId);
    }

    /** `updateQuantity`. */
    method UpdateQuantity(products: seq<Product>, productId: int, newQuantity: int)
      modifies this
      ensures cart == AfterUpdate(old(cart), products, productId, newQuantity)
      ensures CatalogOk(products) && CartValid(old(cart), products) ==> CartValid(cart, products)
      ensures searchQuery == old(searchQuery) && invoice == old(invoice)
      ensures customerName == old(customerName) && customerPhone == old(customerPhone)
      ensures customerEmail == old(customerEmail) && paymentMethod == old(paymentMethod)
    {
      if CatalogOk(products) && CartValid(cart, products) {
        UpdateKeepsValid(cart, products, productId, newQuantity);
      }
      var productDetails := Find(products, productId);
      if productDetails.None? {
        return;
      }
      if newQuantity > productDetails.value.stock {
        cart := SetQuantity(cart, productId, productDetails.value.stock);
        return;
      }
      if newQuantity < 1 {
        cart := Removed(cart, productId);
        return;
      }
      cart := SetQuantity(cart, productId, newQuantity);
    }

    /** `handleCheckout`: the guard and `createSale` (`PlaceSale`); a completed sale fills
        the invoice with the cart as it stands. The cart is not cleared here.
        `invoiceNumber`, `saleTime` and `date` are what the clock gives. */
    method Checkout(db: Database, taxRate: real, invoiceNumber: string, saleTime: string, date: string,
                    now: string, f: Faults)
      returns (r: Result<CreatedSale, CheckoutError>)
      requires db.Valid()
      modifies this, db
      ensures db.Valid()
      ensures cart == old(cart) && searchQuery == old(searchQuery)
      ensures customerName == old(customerName) && customerPhone == old(customerPhone)
      ensures customerEmail == old(customerEmail) && paymentMethod == old(paymentMethod)
      ensures CheckoutStored(old(db.State()), db.State(), cart, customerName, customerPhone, customerEmail,
                             paymentMethod, taxRate, invoiceNumber, saleTime, now, f, r)
      ensures r.Failure? ==> invoice == old(invoice)
      ensures r.Success? ==>
        invoice == Some(Invoice(customerName, customerPhone, customerEmail, paymentMethod, cart,
                                Subtotal(cart), Tax(Subtotal(cart), taxRate), Total(cart, taxRate),
                                invoiceNumber, date))
    {
      var subtotal := Subtotal(cart);
      var taxAmount := Tax(subtotal, taxRate);
      var totalAmount := subtotal as real + taxAmount;
      ghost var shown := Invoice(customerName, customerPhone, customerEmail, paymentMethod, cart,
                                 Subtotal(cart), Tax(Subtotal(cart), taxRate), Total(cart, taxRate), invoiceNumber, date);
      r := PlaceSale(db, cart, customerName, customerPhone, customerEmail, paymentMethod, taxRate,
                     invoiceNumber, saleTime, now, f);
      if r.Success? {
        var number := if r.value.invoiceNumber != "" then r.value.invoiceNumber else invoiceNumber;
        invoice := Some(Invoice(customerName, customerPhone, customerEmail, paymentMethod, cart,
                                subtotal, taxAmount, totalAmount, number, date));
        assert invoice == Some(shown);
      }
    }

    /** `handlePrintAndClear`: with an invoice, the screen is reset for the next customer;
        without one, nothing changes. */
    method PrintAndClear() returns (printed: bool)
      modifies this
      ensures printed == old(invoice).Some?
      ensures printed ==>
        && cart == [] && invoice.None? && searchQuery == ""
        && customerName == "" && customerPhone == "" && customerEmail == "" && paymentMethod == "CASH"
      ensures !printed ==>
        && cart == old(cart) && invoice == old(invoice) && searchQuery == old(searchQuery)
        && customerName == old(customerName) && customerPhone == old(customerPhone)
        && customerEmail == old(customerEmail) && paymentMethod == old(paymentMethod)
    {
      if invoice.None? {
        return false;
      }
      cart := [];
      customerName, customerPhone, customerEmail, paymentMethod := "", "", "", "CASH";
      invoice := None;
      searchQuery := "";
      printed := true;
    }
  }
}
