/** The cart page's join of the merged cart entries with the catalog
    (frontend/src/Cart.js): each entry is matched with the first product
    whose `String(id)` equals the entry's `String(productId)`; a match gives
    the product's fields with the entry's `quantity || 1` and `productId`, no
    match gives a placeholder flagged as missing. */
module CartReconcile {
  import opened Js
  import opened Catalog
  import opened CartMerge

  /** A line of the cart page. */
  datatype CartLine =
    | Found(product: Product, productId: Value, quantity: int)
    | Missing(productId: Value, quantity: int)

  /** `String(p.id) === key`. */
  predicate IdMatches(p: Product, key: string)
  {
    ToStr(p.id) == key
  }

  /** Position `j` holds the first product of `catalog` that matches `key`. */
  predicate FirstMatch(catalog: seq<Product>, key: string, j: int)
  {
    0 <= j < |catalog| && IdMatches(catalog[j], key)
    && forall i :: 0 <= i < j ==> !IdMatches(catalog[i], key)
  }

  /** `catalog.find((p) => String(p.id) === key)`. */
  function FindProduct(catalog: seq<Product>, key: string): (r: Option<Product>)
    ensures r.None? <==> forall j :: 0 <= j < |catalog| ==> !IdMatches(catalog[j], key)
    ensures r.Some? ==> exists j :: FirstMatch(catalog, key, j) && catalog[j] == r.value
  {
    if catalog == [] then None
    else if IdMatches(catalog[0], key) then
      assert FirstMatch(catalog, key, 0);
      Some(catalog[0])
    else
      var r := FindProduct(catalog[1..], key);
      if r.Some? then
        var j :| FirstMatch(catalog[1..], key, j) && catalog[1..][j] == r.value;
        assert FirstMatch(catalog, key, j + 1);
        r
      else
        assert forall j :: 1 <= j < |catalog| ==> catalog[j] == catalog[1..][j - 1];
        r
  }

  /** The line for one merged entry. */
  function Enrich(item: Item, catalog: seq<Product>): CartLine
  {
    match FindProduct(catalog, Key(item))
    case Some(p) => Found(p, item.productId, OrElse(item.quantity, 1))
    case None => Missing(item.productId, OrElse(item.quantity, 1))
  }

  /** `combinedCartItemsRaw.map(...)`: one line per merged entry, in order. */
  function Reconcile(merged: seq<Item>, catalog: seq<Product>): (r: seq<CartLine>)
    ensures |r| == |merged|
    ensures forall i :: 0 <= i < |r| ==>
      r[i].productId == merged[i].productId
      && r[i].quantity == OrElse(merged[i].quantity, 1) && r[i].quantity != 0
    ensures forall i :: 0 <= i < |r| ==>
      (r[i].Missing? <==> forall j :: 0 <= j < |catalog| ==> !IdMatches(catalog[j], Key(merged[i])))
    ensures forall i :: 0 <= i < |r| && r[i].Found? ==>
      exists j :: FirstMatch(catalog, Key(merged[i]), j) && catalog[j] == r[i].product
  {
    seq(|merged|, i requires 0 <= i < |merged| => Enrich(merged[i], catalog))
  }

  /** The lines the cart page shows for a carts listing and a catalog response. */
  function Loaded(carts: Option<seq<CartDoc>>, response: Response): seq<CartLine>
  {
    Reconcile(Merged(carts, CurrentUser), CartCatalog(response))
  }

  /** A catalog response that is a flat array of products, with no nested
      `products` arrays, leaves every cart line missing. */
  lemma FlatCatalogAllMissing(merged: seq<Item>, response: Response)
    requires response.Elements?
    requires forall i :: 0 <= i < |response.elems| ==> !response.elems[i].products.Products?
    ensures forall i :: 0 <= i < |merged| ==> Reconcile(merged, CartCatalog(response))[i].Missing?
  {
    NestedEmpty(response.elems);
  }
}
