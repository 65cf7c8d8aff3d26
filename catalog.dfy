/** The product rows the screens read from the `products` table. */
module Catalog {
  import opened Wrappers

  /** A product. Prices are integer cents; a missing (null) `reference_number` is "". */
  datatype Product = Product(id: int, name: string, reference: string, price: int, stock: int)

  /** `products.find(p => p.id === id)`: the first product with that id, if any. */
  function Find(products: seq<Product>, id: int): (r: Option<Product>)
    ensures r.None? <==> forall i :: 0 <= i < |products| ==> products[i].id != id
    ensures r.Some? ==> r.value.id == id && exists i :: 0 <= i < |products| && products[i] == r.value
                                                      && forall j :: 0 <= j < i ==> products[j].id != id
  {
    if products == [] then None
    else if products[0].id == id then Some(products[0])
    else
      var r := Find(products[1..], id);
      if r.Some? then
        ghost var i :| 0 <= i < |products[1..]| && products[1..][i] == r.value
                         && forall j :: 0 <= j < i ==> products[1..][j].id != id;
        assert products[i + 1] == r.value;
        r
      else r
  }

  /** Ids are distinct, so `Find` can return only one product; stocks are not negative. */
  predicate CatalogOk(products: seq<Product>)
  {
    (forall i, j :: 0 <= i < j < |products| ==> products[i].id != products[j].id)
    && forall i :: 0 <= i < |products| ==> products[i].stock >= 0
  }

  /** In a catalog with distinct ids, `Find` returns the product itself. */
  lemma FindMember(products: seq<Product>, p: Product)
    requires CatalogOk(products) && p in products
    ensures Find(products, p.id) == Some(p)
  {
    var k :| 0 <= k < |products| && products[k] == p;
    var r := Find(products, p.id);
    var i :| 0 <= i < |products| && products[i] == r.value && forall j :: 0 <= j < i ==> products[j].id != p.id;
    assert i == k;
  }
}
