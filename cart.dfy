/** The checkout cart of Billing.jsx as values: each of `addToCart`, `removeFromCart` and
    `updateQuantity` computes the next cart from the current one with `find`, `map` and
    `filter`, and the bill is a `reduce` over the cart. */
module Cart {
  import opened Wrappers
  import opened Seqs
  import opened Catalog

  /** A cart entry, `{ ...product, quantity }`: the product as it was when it was added. */
  datatype CartLine = CartLine(product: Product, quantity: int)

  /** `cart.find(item => item.id === id)`. */
  function FindLine(cart: seq<CartLine>, id: int): (r: Option<CartLine>)
    ensures r.None? <==> forall i :: 0 <= i < |cart| ==> cart[i].product.id != id
    ensures r.Some? ==> r.value in cart && r.value.product.id == id
    ensures r.Some? ==> exists i :: 0 <= i < |cart| && cart[i] == r.value
                                     && forall j :: 0 <= j < i ==> cart[j].product.id != id
  {
    if cart == [] then None
    else if cart[0].product.id == id then Some(cart[0])
    else
      var r := FindLine(cart[1..], id);
      if r.Some? then
        ghost var i :| 0 <= i < |cart[1..]| && cart[1..][i] == r.value
                         && forall j :: 0 <= j < i ==> cart[1..][j].product.id != id;
        assert cart[i + 1] == r.value;
        r
      else
        assert forall i :: 1 <= i < |cart| ==> cart[i] == cart[1..][i - 1];
        r
  }

  /** `cart.map(item => item.id === id ? { ...item, quantity: q } : item)`. */
  function SetQuantity(cart: seq<CartLine>, id: int, q: int): seq<CartLine>
  {
    seq(|cart|, i requires 0 <= i < |cart| => if cart[i].product.id == id then cart[i].(quantity := q) else cart[i])
  }

  /** `cart.map(item => item.id === id ? { ...item, quantity: item.quantity + 1 } : item)`. */
  function Increment(cart: seq<CartLine>, id: int): seq<CartLine>
  {
    seq(|cart|, i requires 0 <= i < |cart| =>
      if cart[i].product.id == id then cart[i].(quantity := cart[i].quantity + 1) else cart[i])
  }

  /** `removeFromCart`: `cart.filter(item => item.id !== id)`. */
  function Removed(cart: seq<CartLine>, id: int): (r: seq<CartLine>)
    ensures IsSubsequence(r, cart)
    ensures forall i :: 0 <= i < |r| ==> r[i].product.id != id && r[i] in cart
    ensures forall i :: 0 <= i < |cart| && cart[i].product.id != id ==> cart[i] in r
    ensures |r| == Count(cart, (l: CartLine) => l.product.id != id)
  {
    if cart == [] then []
    else
      var rest := Removed(cart[1..], id);
      assert forall i :: 1 <= i < |cart| ==> cart[i] == cart[1..][i - 1];
      if cart[0].product.id == id then rest else [cart[0]] + rest
  }

  /** `addToCart(product)`: out of stock leaves the cart as it is; a product already in the
      cart gains one unit unless its line is at the product's stock; a new product is
      appended with quantity 1. */
  function AfterAdd(cart: seq<CartLine>, product: Product): (r: seq<CartLine>)
    ensures product.stock == 0 ==> r == cart
    ensures product.stock != 0 && FindLine(cart, product.id).None? ==> r == cart + [CartLine(product, 1)]
    ensures product.stock != 0 && FindLine(cart, product.id).Some? ==>
      if FindLine(cart, product.id).value.quantity >= product.stock then r == cart
      else |r| == |cart| && forall i :: 0 <= i < |cart| ==>
        r[i] == (if cart[i].product.id == product.id then cart[i].(quantity := cart[i].quantity + 1) else cart[i])
  {
    if product.stock == 0 then cart
    else match FindLine(cart, product.id)
      case Some(line) => if line.quantity >= product.stock then cart else Increment(cart, product.id)
      case None => cart + [CartLine(product, 1)]
  }

  /** `updateQuantity(id, newQuantity)`, checked in the source's order: a product missing
      from the catalog changes nothing; more than the catalog stock sets the line to the
      stock; less than one removes the line; otherwise the line takes the new quantity. */
  function AfterUpdate(cart: seq<CartLine>, products: seq<Product>, id: int, newQuantity: int): (r: seq<CartLine>)
    ensures Find(products, id).None? ==> r == cart
    ensures Find(products, id).Some? && newQuantity > Find(products, id).value.stock ==>
      r == SetQuantity(cart, id, Find(products, id).value.stock)
    ensures Find(products, id).Some? && newQuantity <= Find(products, id).value.stock && newQuantity < 1 ==>
      r == Removed(cart, id)
    ensures Find(products, id).Some? && 1 <= newQuantity <= Find(products, id).value.stock ==>
      r == SetQuantity(cart, id, newQuantity)
  {
    match Find(products, id)
    case None => cart
    case Some(details) =>
      if newQuantity > details.stock then SetQuantity(cart, id, details.stock)
      else if newQuantity < 1 then Removed(cart, id)
      else SetQuantity(cart, id, newQuantity)
  }

  // ---------------------------------------------------------------- the bill

  /** `calculateSubtotal`: the sum of price × quantity over the cart, in cents. */
  function Subtotal(cart: seq<CartLine>): int
  {
    if cart == [] then 0 else cart[0].product.price * cart[0].quantity + Subtotal(cart[1..])
  }

  /** The sum of the unit prices of the lines for one product (one price when ids are distinct). */
  function PriceOfLines(cart: seq<CartLine>, id: int): int
  {
    if cart == [] then 0
    else (if cart[0].product.id == id then cart[0].product.price else 0) + PriceOfLines(cart[1..], id)
  }

  /** `calculateTax`: the tax on a subtotal at the shop's tax rate. */
  function Tax(subtotal: int, taxRate: real): real
  {
    subtotal as real * taxRate
  }

  /** `calculateTotal`: subtotal plus tax. */
  function Total(cart: seq<CartLine>, taxRate: real): (r: real)
  {
    Subtotal(cart) as real + Tax(Subtotal(cart), taxRate)
  }

  lemma {:induction false} SubtotalAppend(a: seq<CartLine>, b: seq<CartLine>)
    ensures Subtotal(a + b) == Subtotal(a) + Subtotal(b)
  {
    if a == [] {
      assert a + b == b;
    } else {
      assert (a + b)[1..] == a[1..] + b;
      SubtotalAppend(a[1..], b);
    }
  }

  /** Every line's quantity and price is non-negative, so is the bill. */
  lemma {:induction false} SubtotalNonNegative(cart: seq<CartLine>)
    requires forall i :: 0 <= i < |cart| ==> cart[i].quantity >= 0 && cart[i].product.price >= 0
    ensures Subtotal(cart) >= 0
  {
    if cart != [] {
      SubtotalNonNegative(cart[1..]);
    }
  }

  /** The bill of two carts joined is the sum of their bills, tax included. */
  lemma TotalAppend(a: seq<CartLine>, b: seq<CartLine>, taxRate: real)
    ensures Tax(Subtotal(a + b), taxRate) == Tax(Subtotal(a), taxRate) + Tax(Subtotal(b), taxRate)
    ensures Total(a + b, taxRate) == Total(a, taxRate) + Total(b, taxRate)
  {
    SubtotalAppend(a, b);
    assert (Subtotal(a) + Subtotal(b)) as real * taxRate == Subtotal(a) as real * taxRate + Subtotal(b) as real * taxRate;
  }

  /** At a tax rate that is not negative, with no negative price or quantity, the tax is not
      negative and the total is at least the subtotal. */
  lemma TotalCoversSubtotal(cart: seq<CartLine>, taxRate: real)
    requires taxRate >= 0.0
    requires forall i :: 0 <= i < |cart| ==> cart[i].quantity >= 0 && cart[i].product.price >= 0
    ensures Tax(Subtotal(cart), taxRate) >= 0.0
    ensures Subtotal(cart) as real <= Total(cart, taxRate)
  {
    SubtotalNonNegative(cart);
  }

  /** Removing a product takes exactly its lines' amounts off the bill. */
  lemma {:induction false} RemovedSubtotal(cart: seq<CartLine>, id: int)
    ensures Subtotal(Removed(cart, id)) == Subtotal(cart) - LinesAmount(cart, id)
  {
    if cart != [] {
      RemovedSubtotal(cart[1..], id);
      var rest := Removed(cart[1..], id);
      if cart[0].product.id != id {
        assert ([cart[0]] + rest)[1..] == rest;
      }
    }
  }

  /** The amount the lines of one product contribute to the bill. */
  function LinesAmount(cart: seq<CartLine>, id: int): int
  {
    if cart == [] then 0
    else (if cart[0].product.id == id then cart[0].product.price * cart[0].quantity else 0) + LinesAmount(cart[1..], id)
  }

  lemma {:induction false} IncrementSubtotal(cart: seq<CartLine>, id: int)
    ensures Subtotal(Increment(cart, id)) == Subtotal(cart) + PriceOfLines(cart, id)
  {
    if cart != [] {
      assert Increment(cart, id)[1..] == Increment(cart[1..], id);
      IncrementSubtotal(cart[1..], id);
      var p, q := cart[0].product.price, cart[0].quantity;
      assert p * (q + 1) == p * q + p;
    }
  }

  /** Setting a product's quantity to `q` replaces its lines' amounts by `q` times their prices. */
  lemma {:induction false} SetQuantitySubtotal(cart: seq<CartLine>, id: int, q: int)
    ensures Subtotal(SetQuantity(cart, id, q)) == Subtotal(cart) - LinesAmount(cart, id) + q * PriceOfLines(cart, id)
  {
    if cart != [] {
      assert SetQuantity(cart, id, q)[1..] == SetQuantity(cart[1..], id, q);
      SetQuantitySubtotal(cart[1..], id, q);
      var pr := cart[0].product.price;
      assert q * (pr + PriceOfLines(cart[1..], id)) == q * pr + q * PriceOfLines(cart[1..], id);
      assert pr * q == q * pr;
    }
  }

  // ---------------------------------------------------------------- the cart invariant

  predicate DistinctIds(cart: seq<CartLine>)
  {
    forall i, j :: 0 <= i < j < |cart| ==> cart[i].product.id != cart[j].product.id
  }

  /** A line is within the stock of its product as the catalog lists it now. */
  predicate WithinStock(line: CartLine, products: seq<Product>)
  {
    var p := Find(products, line.product.id);
    p.Some? && 1 <= line.quantity <= p.value.stock
  }

  /** What the cart operations keep: one line per product, each between 1 and its stock. */
  predicate CartValid(cart: seq<CartLine>, products: seq<Product>)
  {
    DistinctIds(cart) && forall i :: 0 <= i < |cart| ==> WithinStock(cart[i], products)
  }

  /** With one line per product, the lines of a product sum to the price of its line. */
  lemma {:induction false} PriceOfOnlyLine(cart: seq<CartLine>, k: nat)
    requires DistinctIds(cart) && k < |cart|
    ensures PriceOfLines(cart, cart[k].product.id) == cart[k].product.price
  {
    if k == 0 {
      NoLines(cart[1..], cart[0].product.id);
    } else {
      PriceOfOnlyLine(cart[1..], k - 1);
    }
  }

  lemma {:induction false} NoLines(cart: seq<CartLine>, id: int)
    requires forall i :: 0 <= i < |cart| ==> cart[i].product.id != id
    ensures PriceOfLines(cart, id) == 0
  {
    if cart != [] {
      NoLines(cart[1..], id);
    }
  }

  /** Adding a product raises the bill by the unit price of that product's line, or leaves
      the cart as it was. */
  lemma AddToCartSubtotal(cart: seq<CartLine>, product: Product)
    requires DistinctIds(cart)
    ensures var r := AfterAdd(cart, product);
      r == cart || (FindLine(r, product.id).Some? && Subtotal(r) == Subtotal(cart) + FindLine(r, product.id).value.product.price)
  {
    var r := AfterAdd(cart, product);
    if r != cart {
      match FindLine(cart, product.id)
      case None =>
        SubtotalAppend(cart, [CartLine(product, 1)]);
        assert r[|cart|] == CartLine(product, 1);
        FirstLineIs(r, |cart|);
      case Some(line) =>
        var k :| 0 <= k < |cart| && cart[k] == line;
        IncrementSubtotal(cart, product.id);
        PriceOfOnlyLine(cart, k);
        assert r[k].product == line.product;
        assert DistinctIds(r);
        FirstLineIs(r, k);
    }
  }

  lemma FirstLineIs(cart: seq<CartLine>, k: nat)
    requires DistinctIds(cart) && k < |cart|
    ensures FindLine(cart, cart[k].product.id) == Some(cart[k])
  {
    var r := FindLine(cart, cart[k].product.id);
    var j :| 0 <= j < |cart| && cart[j] == r.value;
  }

  /** `addToCart` keeps the invariant, for a product of a catalog whose stocks are not
      negative (the source tests `stock === 0`, so a negative stock would let a line of
      quantity 1 in). */
  lemma AddKeepsValid(cart: seq<CartLine>, products: seq<Product>, product: Product)
    requires CatalogOk(products) && product in products && CartValid(cart, products)
    ensures CartValid(AfterAdd(cart, product), products)
  {
    FindMember(products, product);
    var n :| 0 <= n < |products| && products[n] == product;
    assert product.stock >= 0;
    if product.stock != 0 {
      match FindLine(cart, product.id)
      case None =>
        AppendKeepsValid(cart, products, product);
      case Some(line) =>
        if line.quantity < product.stock {
          var k :| 0 <= k < |cart| && cart[k] == line;
          IncrementKeepsValid(cart, products, k);
        }
    }
  }

  lemma AppendKeepsValid(cart: seq<CartLine>, products: seq<Product>, product: Product)
    requires CartValid(cart, products) && Find(products, product.id) == Some(product) && product.stock >= 1
    requires forall i :: 0 <= i < |cart| ==> cart[i].product.id != product.id
    ensures CartValid(cart + [CartLine(product, 1)], products)
  {
    var r := cart + [CartLine(product, 1)];
    assert forall i :: 0 <= i < |cart| ==> r[i] == cart[i];
  }

  lemma IncrementKeepsValid(cart: seq<CartLine>, products: seq<Product>, k: nat)
    requires CartValid(cart, products) && k < |cart|
    requires Find(products, cart[k].product.id).Some?
    requires cart[k].quantity < Find(products, cart[k].product.id).value.stock
    ensures CartValid(Increment(cart, cart[k].product.id), products)
  {
    var r := Increment(cart, cart[k].product.id);
    forall i | 0 <= i < |cart|
      ensures WithinStock(r[i], products)
    {
      if i != k {
        assert cart[i].product.id != cart[k].product.id;
        assert r[i] == cart[i];
      }
    }
  }

  lemma {:induction false} RemovedKeepsValid(cart: seq<CartLine>, products: seq<Product>, id: int)
    requires CartValid(cart, products)
    ensures CartValid(Removed(cart, id), products)
  {
    if cart != [] {
      var tail := cart[1..];
      assert forall i :: 0 <= i < |tail| ==> tail[i] == cart[i + 1];
      RemovedKeepsValid(tail, products, id);
      if cart[0].product.id != id {
        forall x | x in tail
          ensures x.product.id != cart[0].product.id
        {
          var j :| 0 <= j < |tail| && tail[j] == x;
        }
        ConsKeepsValid(cart[0], Removed(tail, id), products);
      }
    }
  }

  lemma ConsKeepsValid(line: CartLine, rest: seq<CartLine>, products: seq<Product>)
    requires WithinStock(line, products) && CartValid(rest, products)
    requires forall i :: 0 <= i < |rest| ==> rest[i].product.id != line.product.id
    ensures CartValid([line] + rest, products)
  {
    var r := [line] + rest;
    assert forall i :: 1 <= i < |r| ==> r[i] == rest[i - 1];
  }

  /** `updateQuantity` keeps the invariant while the catalog's stocks stay as they are. */
  lemma UpdateKeepsValid(cart: seq<CartLine>, products: seq<Product>, id: int, newQuantity: int)
    requires CatalogOk(products) && CartValid(cart, products)
    ensures CartValid(AfterUpdate(cart, products, id, newQuantity), products)
  {
    match Find(products, id)
    case None =>
    case Some(details) =>
      if newQuantity < 1 && newQuantity <= details.stock {
        RemovedKeepsValid(cart, products, id);
      }
  }

  /** A product whose stock is negative is not caught by the out-of-stock test. */
  lemma NegativeStockEntersCart()
    ensures var p := Product(1, "shirt", "", 500, -1);
      AfterAdd([], p) == [CartLine(p, 1)] && !CartValid(AfterAdd([], p), [p])
  {
    var p := Product(1, "shirt", "", 500, -1);
    assert Find([p], 1) == Some(p);
    assert !WithinStock(CartLine(p, 1), [p]);
    assert AfterAdd([], p)[0] == CartLine(p, 1);
  }
}
