/** The figures of Dashboard.jsx: the low-stock list and the inventory value over the
    catalog, and the sold-items report, which groups the fetched `sale_items` rows by
    product and totals them. */
module Dashboard {
  import opened Wrappers
  import opened Seqs
  import opened Catalog

  /** A product is low on stock below this many units. */
  const LowStockThreshold := 10

  // ---------------------------------------------------------------- catalog figures

  /** `lowStockItems`: the products below the threshold, in catalog order. */
  function LowStock(products: seq<Product>): (r: seq<Product>)
    ensures IsSubsequence(r, products)
    ensures forall i :: 0 <= i < |r| ==> r[i].stock < LowStockThreshold
    ensures forall i :: 0 <= i < |products| && products[i].stock < LowStockThreshold ==> products[i] in r
    ensures |r| == Count(products, (p: Product) => p.stock < LowStockThreshold)
  {
    if products == [] then []
    else
      var rest := LowStock(products[1..]);
      assert forall i :: 1 <= i < |products| ==> products[i] == products[1..][i - 1];
      if products[0].stock < LowStockThreshold then [products[0]] + rest else rest
  }

  /** A product is listed exactly when it is in the catalog below the threshold. */
  lemma LowStockMembership(products: seq<Product>, p: Product)
    ensures p in LowStock(products) <==> p in products && p.stock < LowStockThreshold
  {
    var r := LowStock(products);
    if p in r {
      SubsequenceMembers(r, products, p);
    } else if p in products {
      var i :| 0 <= i < |products| && products[i] == p;
    }
  }

  /** The products at or above the threshold, in catalog order. */
  function WellStocked(products: seq<Product>): seq<Product>
  {
    if products == [] then []
    else if products[0].stock >= LowStockThreshold then [products[0]] + WellStocked(products[1..])
    else WellStocked(products[1..])
  }

  /** `totalInventoryValue`: the sum of price × stock, in cents. */
  function InventoryValue(products: seq<Product>): int
  {
    if products == [] then 0 else products[0].price * products[0].stock + InventoryValue(products[1..])
  }

  /** The inventory value is that of the low-stock products plus that of the rest. */
  lemma {:induction false} InventoryValueSplit(products: seq<Product>)
    ensures InventoryValue(products) == InventoryValue(LowStock(products)) + InventoryValue(WellStocked(products))
  {
    if products != [] {
      InventoryValueSplit(products[1..]);
      if products[0].stock < LowStockThreshold {
        assert ([products[0]] + LowStock(products[1..]))[1..] == LowStock(products[1..]);
      } else {
        assert ([products[0]] + WellStocked(products[1..]))[1..] == WellStocked(products[1..]);
      }
    }
  }

  /** With no negative price or stock the inventory value is not negative. */
  lemma {:induction false} InventoryValueNonNegative(products: seq<Product>)
    requires forall i :: 0 <= i < |products| ==> products[i].price >= 0 && products[i].stock >= 0
    ensures InventoryValue(products) >= 0
  {
    if products != [] {
      InventoryValueNonNegative(products[1..]);
    }
  }

  // ---------------------------------------------------------------- the sold-items report

  /** The product joined to a sold row; a null reference number is "". */
  datatype ProductRef = ProductRef(name: string, reference: string)

  /** A fetched `sale_items` row; `product` is `None` when the join found none. */
  datatype SoldRow = SoldRow(quantity: int, unitPrice: int, product: Option<ProductRef>)

  /** One line of the report. */
  datatype Group = Group(name: string, reference: string, quantity: int, totalValue: int)

  /** What is being added up: units sold, or their value in cents. */
  datatype Measure = Units | Value

  /** A row is grouped under its product's reference number, or its name without one. */
  function Key(p: ProductRef): (k: string)
  {
    if p.reference != "" then p.reference else p.name
  }

  /** Which products share a report line: two with reference numbers exactly when the numbers
      agree, two without exactly when the names agree. */
  lemma KeyGroups(p: ProductRef, q: ProductRef)
    ensures p.reference != "" && q.reference != "" ==> (Key(p) == Key(q) <==> p.reference == q.reference)
    ensures p.reference == "" && q.reference == "" ==> (Key(p) == Key(q) <==> p.name == q.name)
    ensures p.reference != "" && q.reference == "" ==> (Key(p) == Key(q) <==> p.reference == q.name)
  {
  }

  /** A product without a reference number whose name is another product's reference number
      falls into that product's line. */
  lemma NameJoinsReferenceGroup()
    ensures Key(ProductRef("Widget", "")) == Key(ProductRef("Gadget", "Widget"))
  {
  }

  function Amount(r: SoldRow, m: Measure): int
  {
    match m
    case Units => r.quantity
    case Value => r.quantity * r.unitPrice
  }

  function Field(g: Group, m: Measure): int
  {
    match m
    case Units => g.quantity
    case Value => g.totalValue
  }

  /** The row has a product and falls under `key`. */
  predicate Under(r: SoldRow, key: string)
  {
    r.product.Some? && Key(r.product.value) == key
  }

  /** The sum of a measure over the rows under one key. */
  function KeyTotal(rows: seq<SoldRow>, key: string, m: Measure): int
    decreases |rows|
  {
    if rows == [] then 0
    else
      var last := rows[|rows| - 1];
      KeyTotal(rows[..|rows| - 1], key, m) + if Under(last, key) then Amount(last, m) else 0
  }

  /** The sum of a measure over all rows that have a product. */
  function RowsTotal(rows: seq<SoldRow>, m: Measure): int
    decreases |rows|
  {
    if rows == [] then 0
    else
      var last := rows[|rows| - 1];
      RowsTotal(rows[..|rows| - 1], m) + if last.product.Some? then Amount(last, m) else 0
  }

  /** The product of the first row under `key`. */
  function FirstRef(rows: seq<SoldRow>, key: string): Option<ProductRef>
    decreases |rows|
  {
    if rows == [] then None
    else
      var earlier := FirstRef(rows[..|rows| - 1], key);
      if earlier.Some? then earlier
      else if Under(rows[|rows| - 1], key) then rows[|rows| - 1].product
      else None
  }

  /** Every key in the order it first turns up. */
  function KeysInOrder(rows: seq<SoldRow>): seq<string>
    decreases |rows|
  {
    if rows == [] then []
    else
      var keys := KeysInOrder(rows[..|rows| - 1]);
      var last := rows[|rows| - 1];
      if last.product.Some? && Key(last.product.value) !in keys then keys + [Key(last.product.value)] else keys
  }

  /** The report line for a key that turns up in the rows. */
  function GroupFor(rows: seq<SoldRow>, key: string): Group
    requires FirstRef(rows, key).Some?
  {
    var p := FirstRef(rows, key).value;
    Group(p.name, p.reference, KeyTotal(rows, key, Units), KeyTotal(rows, key, Value))
  }

  /** A key is listed exactly when some row with a product falls under it; it is listed
      once; the first row under a listed key gives it its product, and an unlisted key has
      nothing to add up. */
  lemma {:induction false} KeysInOrderFacts(rows: seq<SoldRow>, key: string)
    ensures key in KeysInOrder(rows) <==> exists i :: 0 <= i < |rows| && Under(rows[i], key)
    ensures key in KeysInOrder(rows) <==> FirstRef(rows, key).Some?
    ensures FirstRef(rows, key).Some? ==> Key(FirstRef(rows, key).value) == key
    ensures key !in KeysInOrder(rows) ==> KeyTotal(rows, key, Units) == 0 && KeyTotal(rows, key, Value) == 0
    decreases |rows|
  {
    if rows != [] {
      var init := rows[..|rows| - 1];
      KeysInOrderFacts(init, key);
      assert forall i :: 0 <= i < |init| ==> init[i] == rows[i];
      if exists i :: 0 <= i < |rows| && Under(rows[i], key) {
        var i :| 0 <= i < |rows| && Under(rows[i], key);
        if i < |init| {
          assert Under(init[i], key);
        }
      }
    }
  }

  lemma {:induction false} KeysInOrderDistinct(rows: seq<SoldRow>)
    ensures forall i, j :: 0 <= i < j < |KeysInOrder(rows)| ==> KeysInOrder(rows)[i] != KeysInOrder(rows)[j]
    decreases |rows|
  {
    if rows != [] {
      KeysInOrderDistinct(rows[..|rows| - 1]);
    }
  }

  /** The data `reduce` of `fetchSoldItems`, run over a dictionary that each row updates in
      place: a row without a product is skipped; the first row under a key creates its
      group from that row's product; every row under a key adds its quantity and value. */
  method Aggregate(rows: seq<SoldRow>) returns (groups: map<string, Group>, order: seq<string>)
    ensures order == KeysInOrder(rows)
    ensures forall k :: k in groups <==> k in order
    ensures forall k :: k in groups ==> FirstRef(rows, k).Some? && groups[k] == GroupFor(rows, k)
  {
    groups := map[];
    order := [];
    for i := 0 to |rows|
      invariant order == KeysInOrder(rows[..i])
      invariant forall k :: k in groups <==> k in order
      invariant forall k :: k in groups ==> FirstRef(rows[..i], k).Some? && groups[k] == GroupFor(rows[..i], k)
    {
      assert rows[..i + 1][..i] == rows[..i];
      var item := rows[i];
      if item.product.Some? {
        var key := Key(item.product.value);
        if key !in groups {
          KeysInOrderFacts(rows[..i], key);
          groups := groups[key := Group(item.product.value.name, item.product.value.reference, 0, 0)];
          order := order + [key];
        }
        groups := groups[key := groups[key].(quantity := groups[key].quantity + item.quantity)];
        groups := groups[key := groups[key].(totalValue := groups[key].totalValue + item.quantity * item.unitPrice)];
      }
    }
    assert rows[..|rows|] == rows;
  }

  /** `currentSoldItems.reduce(...)`: the sum of one field over the report. */
  function GroupsTotal(groups: seq<Group>, m: Measure): int
    decreases |groups|
  {
    if groups == [] then 0 else GroupsTotal(groups[..|groups| - 1], m) + Field(groups[|groups| - 1], m)
  }

  /** The sum over a list of keys of what falls under each. */
  function SumOverKeys(keys: seq<string>, rows: seq<SoldRow>, m: Measure): int
    decreases |keys|
  {
    if keys == [] then 0 else SumOverKeys(keys[..|keys| - 1], rows, m) + KeyTotal(rows, keys[|keys| - 1], m)
  }

  lemma {:induction false} SumOverKeysOneMore(keys: seq<string>, rows: seq<SoldRow>, r: SoldRow, m: Measure)
    requires forall i, j :: 0 <= i < j < |keys| ==> keys[i] != keys[j]
    ensures SumOverKeys(keys, rows + [r], m)
         == SumOverKeys(keys, rows, m) + if r.product.Some? && Key(r.product.value) in keys then Amount(r, m) else 0
    decreases |keys|
  {
    assert (rows + [r])[..|rows|] == rows;
    if keys != [] {
      var init := keys[..|keys| - 1];
      SumOverKeysOneMore(init, rows, r, m);
      assert keys == init + [keys[|keys| - 1]];
    }
  }

  /** The report's totals do not depend on the grouping: summed over its keys it gives the
      total over every row that has a product. */
  lemma {:induction false} GroupingKeepsTotals(rows: seq<SoldRow>, m: Measure)
    ensures SumOverKeys(KeysInOrder(rows), rows, m) == RowsTotal(rows, m)
    decreases |rows|
  {
    if rows != [] {
      var init := rows[..|rows| - 1];
      var r := rows[|rows| - 1];
      var keys := KeysInOrder(init);
      assert rows == init + [r];
      GroupingKeepsTotals(init, m);
      KeysInOrderDistinct(init);
      SumOverKeysOneMore(keys, init, r, m);
      if r.product.Some? && Key(r.product.value) !in keys {
        var k := Key(r.product.value);
        KeysInOrderFacts(init, k);
        assert m.Units? || m.Value?;
        assert (keys + [k])[..|keys|] == keys;
      }
    }
  }

  lemma {:induction false} GroupsTotalByKeys(groups: seq<Group>, keys: seq<string>, rows: seq<SoldRow>, m: Measure)
    requires |groups| == |keys|
    requires forall i :: 0 <= i < |keys| ==> Field(groups[i], m) == KeyTotal(rows, keys[i], m)
    ensures GroupsTotal(groups, m) == SumOverKeys(keys, rows, m)
    decreases |keys|
  {
    if keys != [] {
      GroupsTotalByKeys(groups[..|groups| - 1], keys[..|keys| - 1], rows, m);
    }
  }

  /** The dashboard's sold-items state. */
  class DashboardScreen {
    var soldItems: seq<Group>
    var totalSalesValue: int
    var itemsSoldCount: int

    constructor ()
      ensures soldItems == [] && totalSalesValue == 0 && itemsSoldCount == 0
    {
      soldItems, totalSalesValue, itemsSoldCount := [], 0, 0;
    }

    /** `fetchSoldItems` given what the query returned (`None` for an error): on an error
        the report is emptied; otherwise it holds one line per key in first-seen order,
        and the two totals are those of every row that has a product. The date range of
        the query is not modelled. */
    method FetchSoldItems(result: Option<seq<SoldRow>>)
      modifies this
      ensures result.None? ==> soldItems == [] && totalSalesValue == 0 && itemsSoldCount == 0
      ensures result.Some? ==>
        var rows := result.value;
        && |soldItems| == |KeysInOrder(rows)|
        && (forall i :: 0 <= i < |soldItems| ==>
              FirstRef(rows, KeysInOrder(rows)[i]).Some? && soldItems[i] == GroupFor(rows, KeysInOrder(rows)[i]))
        && totalSalesValue == RowsTotal(rows, Value)
        && itemsSoldCount == RowsTotal(rows, Units)
    {
      if result.None? {
        soldItems, totalSalesValue, itemsSoldCount := [], 0, 0;
        return;
      }
      var rows := result.value;
      var aggregatedItems, order := Aggregate(rows);
      var currentSoldItems := seq(|order|, i requires 0 <= i < |order| => aggregatedItems[order[i]]);
      GroupsTotalByKeys(currentSoldItems, order, rows, Value);
      GroupsTotalByKeys(currentSoldItems, order, rows, Units);
      GroupingKeepsTotals(rows, Value);
      GroupingKeepsTotals(rows, Units);
      soldItems := currentSoldItems;
      totalSalesValue := GroupsTotal(currentSoldItems, Value);
      itemsSoldCount := GroupsTotal(currentSoldItems, Units);
    }
  }
}
