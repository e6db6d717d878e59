/** The search page's result list (frontend/src/Search.js): the catalog
    filtered by a case-insensitive substring match on four text fields,
    skipping deleted products. Case folding is modelled for ASCII letters. */
module Search {
  import opened Js
  import opened Catalog

  /** `useQuery().get("q") || ""`: a missing or empty query parameter
      searches for "", any other value is searched for as given. */
  function QueryText(param: Option<string>): (r: string)
    ensures r == "" <==> param.None? || param.value == ""
    ensures param.Some? ==> r == param.value
  {
    if param.Some? then param.value else ""
  }

  /** `field?.toLowerCase().includes(query.toLowerCase())`: an absent field never matches. */
  predicate FieldMatches(field: Option<string>, query: string)
  {
    field.Some? && Includes(Lower(field.value), Lower(query))
  }

  /** The `filter` predicate: not deleted, and the query found in the title,
      description, brand or category. */
  predicate Matches(p: Product, query: string): (r: bool)
    ensures r <==> (!Truthy(p.deleted)
      && exists f :: f in [p.title, p.description, p.brand, p.category] && FieldMatches(f, query))
  {
    !Truthy(p.deleted)
    && (FieldMatches(p.title, query) || FieldMatches(p.description, query)
        || FieldMatches(p.brand, query) || FieldMatches(p.category, query))
  }

  /** `products.filter(...)`. */
  function Filtered(products: seq<Product>, query: string): (r: seq<Product>)
    ensures |r| <= |products|
    ensures forall i :: 0 <= i < |r| ==> Matches(r[i], query)
  {
    if products == [] then []
    else (if Matches(products[0], query) then [products[0]] else []) + Filtered(products[1..], query)
  }

  /** `a` is `b` with some elements left out and the rest in their order. */
  predicate IsSubsequence<T(==)>(a: seq<T>, b: seq<T>)
    decreases |b|
  {
    a == [] || (b != [] && ((a[0] == b[0] && IsSubsequence(a[1..], b[1..])) || IsSubsequence(a, b[1..])))
  }

  /** The results keep the catalog's order and add nothing. */
  lemma {:induction false} FilteredIsSubsequence(products: seq<Product>, query: string)
    ensures IsSubsequence(Filtered(products, query), products)
  {
    if products != [] {
      FilteredIsSubsequence(products[1..], query);
      var r := Filtered(products, query);
      if Matches(products[0], query) {
        assert r[0] == products[0] && r[1..] == Filtered(products[1..], query);
      } else {
        assert r == Filtered(products[1..], query);
      }
    }
  }

  /** The filter goes through the catalog piece by piece: filtering a
      concatenation concatenates the filtered pieces. */
  lemma {:induction false} FilteredAppend(a: seq<Product>, b: seq<Product>, query: string)
    ensures Filtered(a + b, query) == Filtered(a, query) + Filtered(b, query)
  {
    if a == [] {
      assert a + b == b;
    } else {
      assert (a + b)[0] == a[0] && (a + b)[1..] == a[1..] + b;
      FilteredAppend(a[1..], b, query);
    }
  }

  /** A matching product is listed as often as the catalog holds it, and a
      product that does not match is not listed at all. */
  lemma {:induction false} FilteredCount(products: seq<Product>, query: string, p: Product)
    ensures multiset(Filtered(products, query))[p] == if Matches(p, query) then multiset(products)[p] else 0
  {
    if products != [] {
      FilteredCount(products[1..], query, p);
      assert products == [products[0]] + products[1..];
    }
  }

  /** A product is listed exactly when it is in the catalog and matches. */
  lemma {:induction false} FilteredMembers(products: seq<Product>, query: string, p: Product)
    ensures p in Filtered(products, query) <==> p in products && Matches(p, query)
  {
    if products != [] {
      FilteredMembers(products[1..], query, p);
      assert products == [products[0]] + products[1..];
    }
  }

  /** A product whose `deleted` is truthy is never listed. */
  lemma DeletedNeverListed(products: seq<Product>, query: string, p: Product)
    requires Truthy(p.deleted)
    ensures p !in Filtered(products, query)
  {
    FilteredMembers(products, query, p);
  }

  /** A product that is not deleted is listed exactly when the lower-cased
      query occurs at some position of one of its lower-cased text fields. */
  lemma ListedIffOccurs(products: seq<Product>, query: string, p: Product)
    requires p in products && !Truthy(p.deleted)
    ensures p in Filtered(products, query) <==>
      exists f :: f in [p.title, p.description, p.brand, p.category] && f.Some?
        && exists i :: OccursAt(Lower(f.value), Lower(query), i)
  {
    FilteredMembers(products, query, p);
    var fields := [p.title, p.description, p.brand, p.category];
    forall f | f in fields && f.Some?
      ensures Includes(Lower(f.value), Lower(query)) <==> exists i :: OccursAt(Lower(f.value), Lower(query), i)
    {
      IncludesAt(Lower(f.value), Lower(query));
    }
    assert fields[0] == p.title && fields[1] == p.description && fields[2] == p.brand && fields[3] == p.category;
  }

  /** Only the lower-cased query matters: queries that differ in letter case
      give the same results. */
  lemma {:induction false} CaseInsensitive(products: seq<Product>, q1: string, q2: string)
    requires Lower(q1) == Lower(q2)
    ensures Filtered(products, q1) == Filtered(products, q2)
  {
    if products != [] {
      CaseInsensitive(products[1..], q1, q2);
      assert Matches(products[0], q1) == Matches(products[0], q2);
    }
  }

  /** Upper-casing the query changes nothing. */
  lemma UpperCaseQuery(products: seq<Product>, query: string)
    ensures Filtered(products, Upper(query)) == Filtered(products, query)
  {
    LowerOfUpper(query);
    CaseInsensitive(products, Upper(query), query);
  }

  /** Without a `q` parameter the query is empty, and it lists every product
      that is not deleted and has at least one of the four text fields. */
  lemma EmptyQuery(products: seq<Product>, p: Product)
    ensures p in Filtered(products, QueryText(None)) <==>
      p in products && !Truthy(p.deleted)
      && (p.title.Some? || p.description.Some? || p.brand.Some? || p.category.Some?)
  {
    FilteredMembers(products, "", p);
    assert Lower("") == "";
    if p.title.Some? { IncludesEmpty(Lower(p.title.value)); }
    if p.description.Some? { IncludesEmpty(Lower(p.description.value)); }
    if p.brand.Some? { IncludesEmpty(Lower(p.brand.value)); }
    if p.category.Some? { IncludesEmpty(Lower(p.category.value)); }
  }
}
