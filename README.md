# Bill system: the sale transaction and cart engine

A Dafny model of the part of the bill-system shop application that records sales. It covers:

- the sales hook `src/hooks/useSales.js`, which resolves the buyer by phone number, writes the sale header and its line items, asks for one stock decrement per item, and reconciles an edited item list against the one that was loaded;
- the checkout screen `src/components/Billing.jsx`, with its cart, bill totals, checkout guard and product search;
- the edit-sale screen `src/components/EditSale.jsx`, with loading, adding products, totals and submit;
- the dashboard figures `src/components/Dashboard.jsx`: low stock, inventory value, and the sold-items report grouped by product;
- the search filter of `src/components/billing/ProductSearchModal.jsx`.

The Supabase database is an abstract store (`store.dfy`). It holds the `customers`, `sales` and `sale_items` tables, each keyed by id and each handing out consecutive ids, plus a stock figure per product. Every request the hook makes is one `Call`:

- `Apply` gives the effect of a request that succeeds;
- `Run` gives the effect of a sequence of requests, where the positions in a `failed` set change nothing;
- the class `Database` holds the tables as fields, and its method `Send` performs one request in place.

The hook's functions are methods over that class. The predicate `CustomerStep` states, one case per branch, the effect of resolving the buyer (`upsertCustomer`). The batch of item writes and stock decrements, and the reconciliation of an edited item list, are each proved equal to a `Run` of a request plan that is a pure function of the inputs. `CreateSale` and `UpdateSale` are stated as the customer step, then their header request, then the `Run` of their plan; the lemmas about those plans state what the hook promises. Which requests fail, and whether the date parser rejects a sale date, is a `Faults` parameter. For each cause of failure, the predicates `CreateAborted` and `UpdateAborted` give the exact store a failed `createSale` or `updateSale` leaves. The screens are classes whose fields are the React state they update. Cart and item-list transitions are pure functions, because the source computes each new list with `find`, `map` and `filter`. The dashboard report's `reduce` over a dictionary is a method with a `map` accumulator.

Quantities and stock are `int`. Prices are integer cents. The tax rate, tax and totals are exact `real`s. Strings are `seq<char>`. An absent or `null` optional string is `""`, since the source treats both as false in its conditions.

The stock behaviour of editing a sale is modelled as written:

- a deleted line is sent to the store as a plain delete;
- a changed quantity is sent as a plain update;
- neither changes any product's stock;
- only lines added in the editor go through `add_item_to_existing_sale`, which takes their quantity off stock.

`Sales.StockUntouchedWithoutAddedLines` and `Sales.EditWithoutStockMovement` state this gap as theorems. Quantities already sold are not put back.

## Model

| member | source | states |
|---|---|---|
| Catalog.Find | src/components/Billing.jsx:67 | `products.find` by id: `None` exactly when no product has the id, otherwise a catalog product with that id |
| Catalog.FindMember | src/components/Billing.jsx:67 | in a catalog with distinct ids, looking up a product's id returns that product |
| ProductSearch.Filter | src/components/billing/ProductSearchModal.jsx:13-19 | the result is a subsequence of the catalog in catalog order; every product in it matches the lower-cased query on name or on a present reference number; no matching product is dropped, and it has as many products as the catalog has matches, so it is exactly the catalog's `filter` |
| ProductSearch.FilterMembership | src/components/billing/ProductSearchModal.jsx:13-19 | a product is listed if and only if it is in the catalog and matches the query |
| ProductSearch.FilterEmptyQuery | src/components/billing/ProductSearchModal.jsx:13-19 | an empty search box lists the whole catalog unchanged |
| ProductSearch.FilterIgnoresQueryCase | src/components/billing/ProductSearchModal.jsx:14 | two queries that differ only in letter case list the same products |
| ProductSearch.FilterIdempotent | src/components/Billing.jsx:37-43 | filtering the filtered list again with the same query changes nothing |
| Cart.FindLine | src/components/Billing.jsx:50 | `cart.find` by product id: `None` exactly when no line has the id, otherwise the first line of the cart for that id |
| Cart.Removed | src/components/Billing.jsx:62-64 | no line for the id survives; the result is a subsequence of the cart, in cart order, holding every other line and as many lines as the cart has for other ids, so it is exactly the cart's `filter` |
| Cart.AfterAdd | src/components/Billing.jsx:45-60 | a product with stock 0 leaves the cart alone; a product not in the cart is appended with quantity 1; a product in the cart gains one unit on its line unless that line is already at the product's stock |
| Cart.AfterUpdate | src/components/Billing.jsx:66-79 | the checks in the source's order: an unknown product changes nothing; above the catalog stock, the line is clamped to the stock; below 1, the line is removed; otherwise the line takes the new quantity |
| Cart.TotalAppend | src/components/Billing.jsx:81-93 | `Tax` and `Total` (subtotal plus its tax) are additive over concatenated carts |
| Cart.TotalCoversSubtotal | src/components/Billing.jsx:81-93 | at a tax rate that is not negative and with no negative price or quantity, the tax is not negative and the total is at least the subtotal |
| Cart.SubtotalAppend | src/components/Billing.jsx:82 | `Subtotal`, the sum of price times quantity over the lines, is additive over concatenated carts |
| Cart.SubtotalNonNegative | src/components/Billing.jsx:82 | with no negative price or quantity, the subtotal is not negative |
| Cart.RemovedSubtotal | src/components/Billing.jsx:62-64 | removing a product lowers the subtotal by exactly what that product's lines cost |
| Cart.IncrementSubtotal | src/components/Billing.jsx:56 | `Increment`, one more unit on the product's lines, raises the subtotal by their unit price |
| Cart.SetQuantitySubtotal | src/components/Billing.jsx:71-78 | `SetQuantity` replaces the lines' amount with the new quantity times their unit price |
| Cart.AddToCartSubtotal | src/components/Billing.jsx:45-60 | with one line per product, adding either leaves the cart as it was or raises the subtotal by exactly the unit price of that product's line |
| Cart.AddKeepsValid | src/components/Billing.jsx:45-60 | for a catalog with distinct ids and non-negative stock, adding keeps the cart invariant: one line per product, each with a quantity from 1 to that product's catalog stock |
| Cart.AppendKeepsValid | src/components/Billing.jsx:58 | appending a new product with quantity 1 keeps the cart invariant |
| Cart.IncrementKeepsValid | src/components/Billing.jsx:52-56 | one more unit on a line below its stock keeps the cart invariant |
| Cart.RemovedKeepsValid | src/components/Billing.jsx:62-64 | removing a product keeps the cart invariant |
| Cart.UpdateKeepsValid | src/components/Billing.jsx:66-79 | every outcome of `updateQuantity` keeps the cart invariant |
| Cart.NegativeStockEntersCart | src/components/Billing.jsx:46 | the `stock === 0` test lets a product with negative stock into the cart with quantity 1, which breaks the invariant; so the invariant needs non-negative stock |
| Billing.CheckoutGuard | src/components/Billing.jsx:134-141 | checkout goes ahead if and only if the cart is non-empty and both name and phone are given; an empty cart is reported before missing customer details |
| Billing.CheckoutAmountsMatchItems | src/components/Billing.jsx:143-158 | the checkout payload `CheckoutData` agrees with the line items written for it: total less tax is what the rows add up to, and the tax is that sum at the tax rate |
| Billing.BillingScreen.constructor | src/components/Billing.jsx:25-28 | the screen starts with an empty cart and search box, no invoice, blank customer details, and payment by cash |
| Billing.BillingScreen.FilteredProducts | src/components/Billing.jsx:37-43 | the listed products are exactly the catalog products matching the current search box |
| Billing.BillingScreen.AddToCart | src/components/Billing.jsx:45-60 | the cart becomes `AfterAdd` of the old cart; the invariant is kept; with one line per product, the subtotal changes by exactly the added line's unit price or not at all; no other field changes |
| Billing.BillingScreen.RemoveFromCart | src/components/Billing.jsx:62-64 | the cart loses the product's lines, keeps the invariant, and its subtotal drops by their amount; no other field changes |
| Billing.BillingScreen.UpdateQuantity | src/components/Billing.jsx:66-79 | the cart becomes `AfterUpdate` of the old cart and keeps the invariant; no other field changes |
| Billing.PlaceSale | src/components/Billing.jsx:133-161 | the store side of checkout, as `CheckoutStored` states it: a failed guard reports its reason and writes nothing; a failure after the guard is `SaleFailed` with `createSale`'s cause and leaves exactly the state `CreateAborted` gives for that cause (nothing for a failed lookup or customer insert, the customer step alone for a refused header, the customer step and the header for refused items), so sale items and stock are kept; a completed sale is `SaleCreated` for the checkout payload, adds exactly its line items to the sale items, stores a header with the bill's total, tax and payment method whose total less tax is what the items add up to, lowers each product's stock by its succeeding decrements (by the cart's quantity when none fails) and adds or drops no product |
| Billing.BillingScreen.Checkout | src/components/Billing.jsx:133-178 | the store ends as `CheckoutStored` says for the screen's cart and customer fields, failures included; a failure leaves the invoice as it was; a completed sale shows an invoice of the cart as it stands with the bill's subtotal, tax and total; the cart and customer fields are not cleared |
| Billing.BillingScreen.PrintAndClear | src/components/Billing.jsx:249-259 | with an invoice, the screen is reset to its initial state; without one, nothing changes |
| Store.WithRows | src/hooks/useSales.js:110-111 | a batch insert gives the rows consecutive fresh ids in order and keeps every earlier row |
| Store.AtMostOneWithPhone | src/hooks/useSales.js:38-41 | the phone lookup `CustomersWithPhone` finds at most one customer while phones are unique, and then exactly the one with it |
| Store.RunStock | src/hooks/useSales.js:113-119 | a run of requests changes each product's stock by exactly the quantity its succeeding stock requests take, and adds or drops no product |
| Store.RunKeepsCustomers | src/hooks/useSales.js:239 | requests on the sale tables leave the customers table and its id counter alone |
| Store.Database.Send | src/hooks/useSales.js:56-59 | one request: on success the tables become `Apply` of the old state (the effect of each kind of request on its table and counter), on failure they are unchanged |
| Store.Database.SelectCustomersByPhone | src/hooks/useSales.js:38-43 | the customers with the phone, or `None` when the query fails |
| Sales.CustomerChangesExact | src/hooks/useSales.js:47-55 | `CustomerChanges`, the update for a known customer, carries the name if and only if it changed, and the email if and only if a non-empty, different email was given; applying it leaves the phone alone |
| Sales.ResolveAgainChangesNothing | src/hooks/useSales.js:45-61 | resolving the same buyer again after the update finds nothing left to change |
| Sales.InsertKeepsPhonesUnique | src/hooks/useSales.js:62-74 | inserting a customer whose phone is unused keeps phone numbers unique |
| Sales.UpsertCustomer | src/hooks/useSales.js:36-76 | the store changes as `CustomerStep` says: a failed lookup aborts unchanged; for a known phone, one of its customers' ids is returned, and that customer is updated with `CustomerChanges` at `now` only when something changed (a failed update is ignored); for an unknown phone, a new customer with the next id and no `updated_at` is inserted, or the failed insert aborts; unique phones stay unique and the sale tables are untouched |
| Sales.InsertSaleRecord | src/hooks/useSales.js:78-99 | on success, one header row `SaleRecord` with the next sale id holding the sale data and the customer id, using the clock's time when no date is given; a failure aborts unchanged |
| Sales.LineItems | src/hooks/useSales.js:102-108 | one row per cart line, in cart order, with the product id, quantity, unit price and price times quantity |
| Sales.LineItemsTotal | src/hooks/useSales.js:102-108 | the line items of a new sale add up to the cart's subtotal |
| Sales.StockCallsDemand | src/hooks/useSales.js:113-119 | `StockCalls` holds one decrement per cart line; when none fails, each product loses exactly the quantity the cart holds of it |
| Sales.RunStockCallsOnlyStock | src/hooks/useSales.js:113-119 | the decrements change nothing but stock |
| Sales.InsertSaleItemsAndDecrementStock | src/hooks/useSales.js:101-121 | a failed batch insert aborts before any stock request; otherwise the rows are inserted, then one decrement per cart line runs in order, where a failing one is skipped and the rest still run |
| Sales.CreateSale | src/hooks/useSales.js:179-194 | the customer step (`CustomerStep`), the header and the items run in that order, and the first failure aborts while earlier writes stay, each failure stated with the exact state it leaves; a completed sale (`SaleCreated`) has the header id the counter handed out, the state of running the header insert, the item insert and the decrements after the customer step, its rows, a header linked to a customer with the buyer's phone, exactly its line items added, and each product's stock lowered by its succeeding decrements |
| Sales.CreatedSaleStock | src/hooks/useSales.js:113-119 | with no failed request, a sale takes off each product the quantity the cart holds of it |
| Sales.FindById | src/hooks/useSales.js:133 | `None` exactly when no loaded line carries the id; otherwise the first loaded line with that id |
| Sales.FindByIdFirst | src/hooks/useSales.js:133 | the line `FindById` returns is the first with the id: no loaded line before it carries it |
| Sales.ToDelete | src/hooks/useSales.js:125-127 | the loaded lines, in order, that have an id that no edited line carries: a subsequence holding only such lines, every one of them, and as many as the list has |
| Sales.WriteItem | src/hooks/useSales.js:133-149 | one pass of the second loop sends exactly the requests the plan assigns to that edited line |
| Sales.WriteEdited | src/hooks/useSales.js:132-150 | the second loop sends the update and insert part of the plan, in order |
| Sales.ManageSaleItemChanges | src/hooks/useSales.js:124-151 | the store ends in the state of running the plan (deletes first, then one pass over the edited lines), where failing requests are skipped silently |
| Sales.WriteCallsMembers | src/hooks/useSales.js:132-150 | a request is in the second loop's part if and only if some edited line asks for it |
| Sales.WriteCallsNoDeletes | src/hooks/useSales.js:132-150 | the second loop never deletes |
| Sales.DeleteCallsMembers | src/hooks/useSales.js:125-130 | the first loop sends only deletes, and a delete of an id if and only if a loaded line has that id and no edited line does |
| Sales.PlanDeletes | src/hooks/useSales.js:124-151 | reconciliation deletes a row if and only if it was loaded and no edited line still carries its id |
| Sales.PlanWrites | src/hooks/useSales.js:132-150 | `Plan` is the deletes followed by `WriteFor` of each edited line in turn; any request other than a delete is in it if and only if some edited line asks for it |
| Sales.PlanUpdates | src/hooks/useSales.js:134-141 | a stored row is rewritten if and only if an edited line carries its id and differs from the loaded line in quantity or unit price; the rewrite stores that line's quantity, unit price and their product |
| Sales.PlanInserts | src/hooks/useSales.js:142-148 | an `add_item_to_existing_sale` request is sent if and only if an edited line has no id, for that sale, with that line's product, quantity and shown price |
| Sales.PlanKinds | src/hooks/useSales.js:124-151 | reconciliation only deletes, rewrites and inserts sale items |
| Sales.UnchangedPlanIsEmpty | src/hooks/useSales.js:124-151 | when the edited list equals the loaded list and every line carries its own id, nothing is sent |
| Sales.AddedLineInsertedAgain | src/hooks/useSales.js:142-148 | a line without an id is inserted even when it is also in the "original" list, so saving it twice would insert it twice |
| Sales.PlanDemand | src/hooks/useSales.js:124-151 | when every request succeeds, reconciliation takes off a product's stock exactly the quantity of the added lines for it; deletes and quantity changes neither give back nor take more |
| Sales.WriteCallsDemand | src/hooks/useSales.js:132-150 | the second loop's stock effect is the quantity of the lines without an id |
| Sales.StockUntouchedWithoutAddedLines | src/hooks/useSales.js:128-141 | when every edited line is a stored row, no product's stock moves, whatever was deleted or changed and whichever requests fail |
| Sales.EditWithoutStockMovement | src/hooks/useSales.js:124-151 | worked case: removing one of two stored rows and raising the other from 2 to 5 sends one delete and one rewrite, and stock stays as it was |
| Sales.HeaderKeepsCustomerColumns | src/hooks/useSales.js:223-230 | the header payload `HeaderPayload` leaves out the three customer columns: after it, the sale row points to the resolved customer, keeps its stored name, phone, email and invoice number, and takes the new amounts |
| Sales.PlanOnSaleTables | src/hooks/useSales.js:239 | reconciliation never writes to the customers table |
| Sales.UpdateSale | src/hooks/useSales.js:214-249 | a failed lookup or customer insert aborts unchanged; after the customer step, a sale date `new Date` cannot read (`DateRejected`: always `""`) aborts with `InvalidSaleDate` exactly when it is rejected, before the header, and a failed header update aborts too, both leaving the customer step alone; the sales, items and stock are kept on every failure; on success, the store is the customer step (`CustomerStep`, with the resolved id) followed by the header update `HeaderPayload` and then the `Run` of the reconciliation plan; unique phones stay unique |
| EditSale.Either | src/components/EditSale.jsx:63-67 | `a or b` on strings: the first when it is non-empty, else the second; empty only when both are |
| EditSale.LoadItems | src/components/EditSale.jsx:69-76 | no list when a row lacks its joined product (the mapping throws); otherwise one line per row with the row's id, quantity and total, priced at its unit price, and the product's id and stock |
| EditSale.LoadedHaveIds | src/components/EditSale.jsx:69-78 | a loaded list from distinct rows has every line carrying its own id |
| EditSale.SaveAsLoadedIsQuiet | src/components/EditSale.jsx:77-78 | saving a freshly loaded sale without edits sends no item request |
| EditSale.LoadedSubtotal | src/components/EditSale.jsx:104 | a loaded sale's `ItemsSubtotal` (price times quantity over its lines, which `EditTax` and `EditTotal` build on) is what its stored rows were sold for |
| EditSale.ItemsSubtotalAppend | src/components/EditSale.jsx:104 | the edit subtotal is additive over concatenated lists |
| EditSale.AddedProductTotal | src/components/EditSale.jsx:104-106 | adding a product not yet on the sale raises `EditTotal` by its price plus the tax on it |
| EditSale.FindProductLine | src/components/EditSale.jsx:177 | the position of the first line for a product, or `None` exactly when no line has it |
| EditSale.AddProduct | src/components/EditSale.jsx:176-202 | a product not on the sale is appended as a line with no id and quantity 1; one already on it gains a unit on every line for it, with the total re-priced, unless its first line is at the product's stock |
| EditSale.NewProductSubtotal | src/components/EditSale.jsx:189-200 | adding a new product raises the subtotal by its price |
| EditSale.AddedProductIsInserted | src/components/EditSale.jsx:189-200 | the added product reaches the store through `add_item_to_existing_sale` with quantity 1 at its price |
| EditSale.BumpedStoredLine | src/components/EditSale.jsx:183-187 | one more unit on an unedited stored line becomes a rewrite of that row at its stored unit price, and when every line is a stored row, no stock moves |
| EditSale.SubmitGuard | src/components/EditSale.jsx:110-117 | submit goes ahead if and only if name and phone are given and the list is non-empty; missing customer details are reported before an empty list |
| EditSale.SubmitLoadedAmounts | src/components/EditSale.jsx:119-127 | submitting a sale as it was loaded sends a `SubmitPayload` whose total less tax is what its stored rows were sold for, and whose tax is that amount at the rate |
| EditSale.EditSaleScreen.constructor | src/components/EditSale.jsx:30-35 | the screen starts with no sale, blank customer details, empty lists, payment by cash, and no date |
| EditSale.EditSaleScreen.Load | src/components/EditSale.jsx:39-88 | no sale changes nothing; otherwise each customer field prefers the joined customer's value over the sale's own; when the items load, the list and its pristine copy are the same and the payment method and date are set; a row without a product leaves the list, copy, payment method and date as they were |
| EditSale.EditSaleScreen.SelectProduct | src/components/EditSale.jsx:171-204 | a product out of stock changes nothing; otherwise the list becomes `AddProduct` of the old list; no other field changes |
| EditSale.EditSaleScreen.Submit | src/components/EditSale.jsx:108-139 | a failed guard writes nothing; a failure after the guard is `UpdateFailed` with `updateSale`'s cause and leaves exactly the state `UpdateAborted` gives for it (nothing, or the customer step alone, with `InvalidSaleDate` exactly when the screen's date is rejected); success means the guard passed, the date was readable, and the store holds the customer step (`CustomerStep`) for the screen's customer, then the header update with the screen's totals, then the reconciliation of the edited list against the loaded one |
| Dashboard.LowStock | src/components/Dashboard.jsx:26 | the products below 10 units, in catalog order, all of them, and as many as the catalog has |
| Dashboard.LowStockMembership | src/components/Dashboard.jsx:26 | a product is listed if and only if it is in the catalog with fewer than 10 units |
| Dashboard.InventoryValueSplit | src/components/Dashboard.jsx:26-27 | `InventoryValue`, the sum of price times stock, is that of the low-stock products plus that of the `WellStocked` rest |
| Dashboard.InventoryValueNonNegative | src/components/Dashboard.jsx:27 | with no negative price or stock, the inventory value is not negative |
| Dashboard.KeyGroups | src/components/Dashboard.jsx:97 | which products share a report line under `Key`: two with reference numbers exactly when the numbers agree, two without exactly when the names agree, and one of each exactly when the name equals the reference number |
| Dashboard.NameJoinsReferenceGroup | src/components/Dashboard.jsx:97 | worked case: a product without a reference number whose name is another product's reference number falls into that product's line |
| Dashboard.KeysInOrderFacts | src/components/Dashboard.jsx:95-109 | a key is in the report if and only if some row with a product falls under it; the first such row names the group; a key not in the report has nothing to add up |
| Dashboard.KeysInOrderDistinct | src/components/Dashboard.jsx:98-105 | each key is listed once |
| Dashboard.Aggregate | src/components/Dashboard.jsx:95-109 | the dictionary's keys are the keys in first-seen order; each group carries its first row's name and reference, and the sums of quantity and quantity times unit price over the rows under it; rows without a product are skipped |
| Dashboard.GroupingKeepsTotals | src/components/Dashboard.jsx:110-113 | summed over its keys, the report gives the total over every row that has a product |
| Dashboard.GroupsTotalByKeys | src/components/Dashboard.jsx:112-113 | `GroupsTotal`, a field summed over the report lines, equals the sum per key |
| Dashboard.DashboardScreen.constructor | src/components/Dashboard.jsx:16-24 | the report starts empty with both totals 0 |
| Dashboard.DashboardScreen.FetchSoldItems | src/components/Dashboard.jsx:87-114 | a query error empties the report and zeroes both totals; otherwise the report has one line per key in first-seen order, and the sales value and item count are the totals over every row with a product |

## Left out

- Transport and concurrency: the Supabase client, its network calls, and concurrent edits from other sessions. Each request is an atomic step on the abstract store.
- The server procedures `decrement_product_stock` and `add_item_to_existing_sale`: their bodies are not part of this model. Each is taken to do what its name and arguments say: take the quantity off the product's stock (with no floor at zero) and, for the second, also insert the row.
- Stock restoration on edit: deleting a line or lowering its quantity gives no stock back, because the source sends no stock request for them. The model keeps this gap rather than adding a restoration the code lacks.
- Clocks: `Date.now()`, `new Date()`, `toISOString()` and `toLocaleDateString()` are parameters (`now`, `invoiceNumber`, `saleTime`, `date`). Timestamp formatting, including the `slice(0, 16)` of the edit screen's date, is not modelled.
- The dashboard's date-range filter on the sold-items query, and its `useEffect` triggers: the query result is a parameter.
- Floating point: prices are integer cents and the tax rate and amounts are exact reals, so JavaScript's rounding is not modelled.
- Razorpay payment (`handleRazorpayPayment`, src/components/Billing.jsx:180-247): it runs the same `createSale` after an external payment dialog that cannot be modelled.
- The customer auto-fill lookup and its debounce on the checkout screen (src/components/Billing.jsx:99-130), toasts, navigation, printing, loading flags and the other React rendering.
- `fetchProducts` and `fetchSales` refreshes after a write: they only re-read the store.
- The other hook functions (`fetchSales`, `getSaleByInvoiceNumber`) and the CRUD screens outside the sale flow.
- The `updated_at` column: a customer update sets it to the `now` parameter (`Patched`); a new customer is inserted without one, as `NewCustomer` leaves it `""`.
- Only the ASCII letters A-Z are lower-cased by `Text.Lower`; the rest of Unicode case mapping is not modelled.
- A line id is present or absent (`Option<int>`): a stored id is taken to be truthy, so an id of 0 is not distinguished.
- A missing and a `null` reference number or email are both `""`.
- A line added in the editor has no `unit_price` in the source; the model gives it the product's price. That field is never read for such a line, because lines without an id are sent with their shown price.
- Object keys: the report is built in a `{}` accumulator (src/components/Dashboard.jsx:95-109); the model keeps a key list in first-seen order and a map. Two JavaScript behaviours are not modelled:
  - `Object.values` lists integer-like keys such as `"1042"` first, in ascending order. So the source's report order differs from first-seen order when reference numbers are digits; the totals do not change.
  - A key (the reference number, or the name when there is none) that is an inherited property of every object, such as `constructor`, `toString` or `__proto__`, finds a truthy `acc[key]`. So no group is created. The `+=` then writes `NaN` onto a built-in object, and `Object.values` does not list it. The source's report and both totals lose those rows, so Dashboard.GroupingKeepsTotals and the totals stated for Dashboard.DashboardScreen.FetchSoldItems do not hold for the source in that case.
- Sales.CreateSale: the id of the resolved customer is a ghost out-parameter, because the source's `createSale` returns only the sale and its items.
- Sales.UpdateSale: the id of the resolved customer is a ghost out-parameter, because the source's `updateSale` returns nothing.
- Date parsing: whether `new Date(s)` can read a non-empty date string is the `dateUnparseable` flag of `Faults`; the empty string is always rejected (`DateRejected`). The edit screen holds `""` until a sale loads with all its items.
- Sales.InsertSaleRecord: a non-empty `saleDate` is taken to be readable. `new Date(saleDate).toISOString()` (src/hooks/useSales.js:88) would throw for an unreadable one, and that abort is not modelled, because checkout, the only caller, passes `new Date()`.
- The edit screen's date round trip (not executed): the date is shown as `new Date(created_at).toISOString().slice(0, 16)` (src/components/EditSale.jsx:80), which is UTC time without its zone. `updateSale` reads it back with `new Date(...)` (src/hooks/useSales.js:226), which takes a string without a zone as local time. So each save of an untouched date moves `created_at` by the browser's UTC offset. The model passes the screen's date through unchanged.
- Sales.UpsertCustomer: with several customers sharing a phone, the store returns them in no promised order, so the contract says only that one of them is chosen.
- Sales.ManageSaleItemChanges: errors of its requests are not reported, as in the source; the contract is stated for any set of failing positions.
- Billing.BillingScreen.AddToCart: the subtotal clause assumes one line per product, which the cart invariant guarantees for a catalog with distinct ids.
