/** The product search filter. Billing.jsx and ProductSearchModal.jsx both filter the
    catalog with the same expression: a product is kept when its lower-cased name, or its
    lower-cased reference number when it has one, contains the lower-cased query. */
module ProductSearch {
  import opened Text
  import opened Seqs
  import opened Catalog

  predicate Matches(p: Product, query: string)
  {
    var q := Lower(query);
    Contains(Lower(p.name), q) || (p.reference != "" && Contains(Lower(p.reference), q))
  }

  /** `products.filter(...)`: the matching products, in catalog order. */
  function Filter(products: seq<Product>, query: string): (r: seq<Product>)
    ensures IsSubsequence(r, products)
    ensures forall i :: 0 <= i < |r| ==> Matches(r[i], query)
    ensures forall i :: 0 <= i < |products| && Matches(products[i], query) ==> products[i] in r
    ensures |r| == Count(products, (p: Product) => Matches(p, query))
  {
    if products == [] then []
    else
      var rest := Filter(products[1..], query);
      assert forall i :: 1 <= i < |products| ==> products[i] == products[1..][i - 1];
      if Matches(products[0], query) then [products[0]] + rest else rest
  }

  /** A product is kept exactly when it matches: nothing that matches is dropped and
      nothing that does not is let through. */
  lemma FilterMembership(products: seq<Product>, query: string, p: Product)
    ensures p in Filter(products, query) <==> p in products && Matches(p, query)
  {
    var r := Filter(products, query);
    if p in r {
      SubsequenceMembers(r, products, p);
    } else if p in products {
      var i :| 0 <= i < |products| && products[i] == p;
    }
  }

  /** The empty query keeps every product. */
  lemma {:induction false} FilterEmptyQuery(products: seq<Product>)
    ensures Filter(products, "") == products
  {
    if products != [] {
      assert Lower("") == "";
      ContainsEmpty(Lower(products[0].name));
      FilterEmptyQuery(products[1..]);
    }
  }

  /** Filtering is case-insensitive in the query: queries that differ only in letter case
      give the same list. */
  lemma {:induction false} FilterIgnoresQueryCase(products: seq<Product>, a: string, b: string)
    requires SameUpToCase(a, b)
    ensures Filter(products, a) == Filter(products, b)
  {
    SameUpToCaseLower(a, b);
    if products != [] {
      FilterIgnoresQueryCase(products[1..], a, b);
    }
  }

  /** Filtering an already filtered list with the same query changes nothing. */
  lemma {:induction false} FilterIdempotent(products: seq<Product>, query: string)
    ensures Filter(Filter(products, query), query) == Filter(products, query)
  {
    if products != [] {
      FilterIdempotent(products[1..], query);
    }
  }
}
