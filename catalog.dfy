/** The product catalog as the frontend receives it from `GET /products`, and
    the three places that flatten it into one list of products: the search
    page and the home page (the same code in frontend/src/Search.js and
    frontend/src/App.js) and the cart page (frontend/src/Cart.js). */
module Catalog {
  import opened Js

  /** A catalog entry, with the fields the storefront's logic reads. A
      response element may itself carry a nested `products` member. */
  datatype Product = Product(
    id: Value,
    title: Option<string>,
    description: Option<string>,
    brand: Option<string>,
    category: Option<string>,
    price: Option<int>,
    originalPrice: Option<int>,
    deleted: Value,
    products: Nested)

  /** The `products` member of an element: an array, or any other value
      (absent included), of which only its truthiness matters. */
  datatype Nested = NotArray(truthy: bool) | Products(items: seq<Product>)

  /** The parsed response body: an array of elements, or anything else. */
  datatype Response = NotAnArray | Elements(elems: seq<Product>)

  /** `doc.products` is truthy (every array is). */
  predicate HasProducts(doc: Product)
  {
    match doc.products
    case NotArray(t) => t
    case Products(_) => true
  }

  /** The products a document contributes: its `products` array, if it is one. */
  function NestedOf(doc: Product): seq<Product>
  {
    match doc.products
    case NotArray(_) => []
    case Products(items) => items
  }

  /** `allProducts = allProducts.concat(doc.products)` over the documents
      whose `products` is an array, in order. */
  function NestedConcat(docs: seq<Product>): seq<Product>
  {
    if docs == [] then [] else NestedConcat(docs[..|docs| - 1]) + NestedOf(docs[|docs| - 1])
  }

  /** The flattened catalog of the search and home pages: the nested lists
      when the first element has a truthy `products`, the array itself when
      it is flat, nothing when the body is not an array. */
  function ListedProducts(data: Response): seq<Product>
  {
    match data
    case NotAnArray => []
    case Elements(es) => if |es| > 0 && HasProducts(es[0]) then NestedConcat(es) else es
  }

  /** The flattening loop of the search page, which the home page repeats
      word for word. */
  method FlattenResponse(data: Response) returns (all: seq<Product>)
    ensures all == ListedProducts(data)
  {
    all := [];
    if data.Elements? && |data.elems| > 0 && HasProducts(data.elems[0]) {
      var docs := data.elems;
      var i := 0;
      while i < |docs|
        invariant 0 <= i <= |docs|
        invariant all == NestedConcat(docs[..i])
      {
        if docs[i].products.Products? {
          all := all + docs[i].products.items;
        }
        assert docs[..i + 1][..i] == docs[..i];
        i := i + 1;
      }
      assert docs[..i] == docs;
    } else if data.Elements? {
      all := data.elems;
    }
  }

  /** The cart page's flattening: every element's `products` array is
      concatenated, and a flat array contributes nothing. */
  function CartCatalog(data: Response): seq<Product>
  {
    match data
    case NotAnArray => []
    case Elements(es) => NestedConcat(es)
  }

  /** The cart page's flattening loop. */
  method FlattenCartResponse(data: Response) returns (all: seq<Product>)
    ensures all == CartCatalog(data)
  {
    all := [];
    if data.Elements? {
      var docs := data.elems;
      var i := 0;
      while i < |docs|
        invariant 0 <= i <= |docs|
        invariant all == NestedConcat(docs[..i])
      {
        if docs[i].products.Products? {
          all := all + docs[i].products.items;
        }
        assert docs[..i + 1][..i] == docs[..i];
        i := i + 1;
      }
      assert docs[..i] == docs;
    }
  }

  /** Flattening document by document: the lists of `a` come before those of `b`. */
  lemma {:induction false} NestedConcatAppend(a: seq<Product>, b: seq<Product>)
    ensures NestedConcat(a + b) == NestedConcat(a) + NestedConcat(b)
    decreases |b|
  {
    if b == [] {
      assert a + b == a;
    } else {
      var b' := b[..|b| - 1];
      NestedConcatAppend(a, b');
      assert (a + b)[..|a + b| - 1] == a + b';
      assert NestedConcat(b) == NestedConcat(b') + NestedOf(b[|b| - 1]);
    }
  }

  /** A product is in the nested flattening exactly when some document's
      `products` array holds it: non-array members are skipped, nothing is
      added. */
  lemma {:induction false} NestedConcatMembers(docs: seq<Product>, p: Product)
    ensures p in NestedConcat(docs) <==>
      exists i :: 0 <= i < |docs| && docs[i].products.Products? && p in docs[i].products.items
  {
    if docs != [] {
      var front := docs[..|docs| - 1];
      NestedConcatMembers(front, p);
      if exists i :: 0 <= i < |front| && front[i].products.Products? && p in front[i].products.items {
        var i :| 0 <= i < |front| && front[i].products.Products? && p in front[i].products.items;
        assert docs[i] == front[i];
      }
      if exists i :: 0 <= i < |docs| && docs[i].products.Products? && p in docs[i].products.items {
        var i :| 0 <= i < |docs| && docs[i].products.Products? && p in docs[i].products.items;
        if i < |front| {
          assert front[i] == docs[i];
        }
      }
    }
  }

  /** When the first element carries a `products` array the cart page sees
      the same catalog as the search and home pages; when no element carries
      one (a flat list of products) the cart page sees an empty catalog while
      the other pages see the whole list. */
  lemma CartCatalogComparedToListed(data: Response)
    ensures data.Elements? && |data.elems| > 0 && HasProducts(data.elems[0]) ==>
      CartCatalog(data) == ListedProducts(data)
    ensures data.Elements? && (forall i :: 0 <= i < |data.elems| ==> !data.elems[i].products.Products?) ==>
      CartCatalog(data) == []
    ensures data.Elements? && (forall i :: 0 <= i < |data.elems| ==> !HasProducts(data.elems[i])) ==>
      ListedProducts(data) == data.elems
  {
    if data.Elements? && (forall i :: 0 <= i < |data.elems| ==> !data.elems[i].products.Products?) {
      NestedEmpty(data.elems);
    }
  }

  lemma {:induction false} NestedEmpty(docs: seq<Product>)
    requires forall i :: 0 <= i < |docs| ==> !docs[i].products.Products?
    ensures NestedConcat(docs) == []
  {
    if docs != [] {
      NestedEmpty(docs[..|docs| - 1]);
    }
  }
}
