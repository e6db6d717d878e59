/** The home page's add-to-cart request followed through the backend and
    back to the cart page: what `POST /cart/add` does with the body of
    frontend/src/App.js, and how the cart page, which shows the carts of the
    string user "2", lists the cart that request creates. */
module Storefront {
  import opened Js
  import opened Catalog
  import opened CartService
  import Home
  import CartMerge

  /** A stored cart as `GET /carts` lists it to the cart page: the stored
      strings and numbers are sent as they are. */
  function AsListed(c: StoredCart): (d: CartMerge.CartDoc)
    ensures d.userId == Str(c.userId) && d.items.Some? && |d.items.value| == |c.items|
    ensures forall i :: 0 <= i < |c.items| ==>
      d.items.value[i] == CartMerge.Item(Str(c.items[i].productId), Some(c.items[i].quantity))
  {
    CartMerge.CartDoc(Str(c.userId), Some(seq(|c.items|, i requires 0 <= i < |c.items| =>
      CartMerge.Item(Str(c.items[i].productId), Some(c.items[i].quantity)))))
  }

  /** The backend turns a home-page request away exactly when the product's
      id is falsy; otherwise it adds one unit. */
  lemma HomepageRequestChecked(carts: map<CartId, StoredCart>, p: Product, lookup: Lookup, saved: bool, newId: CartId)
    requires Consistent(carts, lookup, newId)
    ensures AddOutcome(carts, Home.AddToCartBody(p), lookup, saved, newId).0 == MissingFields <==> !Truthy(p.id)
    ensures Increment(Home.AddToCartBody(p)) == Some(1)
  {
    ParseIntOfNumber(1);
  }

  /** Without an active cart, a saved home-page request stores a new active
      cart whose `userId` is the string "2" (the schema casts the number 2),
      holding one unit of the product under its id as a string. */
  lemma HomepageCreatesCart(carts: map<CartId, StoredCart>, p: Product, newId: CartId)
    requires newId !in carts
    requires Truthy(p.id)
    ensures AddOutcome(carts, Home.AddToCartBody(p), NoActiveCart, true, newId)
      == (Created(StoredCart("2", "active", [Line(CastString(p.id), 1)])),
          carts[newId := StoredCart("2", "active", [Line(CastString(p.id), 1)])])
  {
    ParseIntOfNumber(1);
    assert CastString(Num(2)) == "2";
    NewCartCreated(carts, Home.AddToCartBody(p), newId);
  }

  /** That cart reaches the cart page: its `userId` is "2", so wherever it
      stands in the listing, the product's key has a merged line. */
  lemma HomepageCartOnCartPage(carts: map<CartId, StoredCart>, p: Product, newId: CartId,
                               before: seq<CartMerge.CartDoc>, after: seq<CartMerge.CartDoc>)
    requires newId !in carts
    requires Truthy(p.id) && CastString(p.id) !in CartMerge.PrototypeNames
    ensures var reply := AddOutcome(carts, Home.AddToCartBody(p), NoActiveCart, true, newId).0;
      reply.Created?
      && var m := CartMerge.Merged(Some(before + [AsListed(reply.cart)] + after), CartMerge.CurrentUser);
         exists i :: 0 <= i < |m| && CartMerge.Key(m[i]) == CastString(p.id)
  {
    HomepageCreatesCart(carts, p, newId);
    var k := CastString(p.id);
    var c := AsListed(StoredCart("2", "active", [Line(k, 1)]));
    assert CartMerge.Key(c.items.value[0]) == k;
    CartMerge.UserCartShown(before, c, after, CartMerge.CurrentUser, k);
  }

  /** A product whose id is a number, added twice from the home page: the
      second request finds the cart but its number never matches the stored
      string id, so the cart holds two lines of that product; the cart page
      merges them back into one line of quantity 2. */
  lemma RepeatedHomepageAdds(carts: map<CartId, StoredCart>, p: Product, newId: CartId)
    requires newId !in carts
    requires p.id.Num? && p.id.n != 0
    ensures var k := NumberToString(p.id.n); var first := StoredCart("2", "active", [Line(k, 1)]);
      AddOutcome(carts, Home.AddToCartBody(p), NoActiveCart, true, newId) == (Created(first), carts[newId := first])
    ensures var k := NumberToString(p.id.n); var first := StoredCart("2", "active", [Line(k, 1)]);
      var second := StoredCart("2", "active", [Line(k, 1), Line(k, 1)]);
      AddOutcome(carts[newId := first], Home.AddToCartBody(p), ActiveCart(newId), true, newId).0 == Created(second)
      && var m := CartMerge.Merged(Some([AsListed(second)]), CartMerge.CurrentUser);
         exists i :: 0 <= i < |m| && m[i] == CartMerge.Item(Str(k), Some(2))
  {
    var body := Home.AddToCartBody(p);
    var k := NumberToString(p.id.n);
    assert CastString(p.id) == k;
    var first := StoredCart("2", "active", [Line(k, 1)]);
    var s1 := carts[newId := first];
    assert AddOutcome(carts, body, NoActiveCart, true, newId) == (Created(first), s1) by {
      HomepageCreatesCart(carts, p, newId);
    }
    var second := StoredCart("2", "active", [Line(k, 1), Line(k, 1)]);
    assert AddOutcome(s1, body, ActiveCart(newId), true, newId).0 == Created(second) by {
      SecondHomepageAdd(s1, p, newId);
    }
    assert AsListed(second) == CartMerge.CartDoc(CartMerge.CurrentUser,
      Some([CartMerge.Item(Str(k), Some(1)), CartMerge.Item(Str(k), Some(1))])) by {
      ListedTwoLines(second, k);
    }
    CartMerge.NumericKeyNotInherited(p.id.n);
    SingleCartMerge(AsListed(second), k);
  }

  /** The second request finds the cart and appends a line. */
  lemma SecondHomepageAdd(s1: map<CartId, StoredCart>, p: Product, newId: CartId)
    requires p.id.Num? && p.id.n != 0
    requires newId in s1 && s1[newId] == StoredCart("2", "active", [Line(NumberToString(p.id.n), 1)])
    ensures AddOutcome(s1, Home.AddToCartBody(p), ActiveCart(newId), true, newId).0
      == Created(StoredCart("2", "active", [Line(NumberToString(p.id.n), 1), Line(NumberToString(p.id.n), 1)]))
  {
    var k := NumberToString(p.id.n);
    ParseIntOfNumber(1);
    NumericProductIdAppends([Line(k, 1)], p.id.n, 1);
  }

  /** A stored cart of user "2" with two one-unit lines of `k`, as listed. */
  lemma ListedTwoLines(c: StoredCart, k: string)
    requires c == StoredCart("2", "active", [Line(k, 1), Line(k, 1)])
    ensures AsListed(c) == CartMerge.CartDoc(CartMerge.CurrentUser,
      Some([CartMerge.Item(Str(k), Some(1)), CartMerge.Item(Str(k), Some(1))]))
  {
    var d := AsListed(c);
    assert d.items.value[0] == CartMerge.Item(Str(k), Some(1));
    assert d.items.value[1] == CartMerge.Item(Str(k), Some(1));
    assert d.items.value == [CartMerge.Item(Str(k), Some(1)), CartMerge.Item(Str(k), Some(1))];
  }

  /** The merge of one cart of user "2" holding two one-unit lines of the
      same product. */
  lemma SingleCartMerge(c: CartMerge.CartDoc, k: string)
    requires k !in CartMerge.PrototypeNames
    requires c == CartMerge.CartDoc(CartMerge.CurrentUser, Some([CartMerge.Item(Str(k), Some(1)), CartMerge.Item(Str(k), Some(1))]))
    ensures var m := CartMerge.Merged(Some([c]), CartMerge.CurrentUser);
      exists i :: 0 <= i < |m| && m[i] == CartMerge.Item(Str(k), Some(2))
  {
    var x := CartMerge.Item(Str(k), Some(1));
    var data := Some([c]);
    assert [c][..0] == [];
    assert CartMerge.CartsOf([c], CartMerge.CurrentUser) == [c];
    assert CartMerge.FlattenItems([c]) == [x, x];
    var raw := CartMerge.RawItems(data, CartMerge.CurrentUser);
    assert raw == [x, x];
    assert CartMerge.Key(raw[0]) == k;
    CartMerge.MergedCoversKeys(data, CartMerge.CurrentUser, k);
    CartMerge.MergedQuantities(data, CartMerge.CurrentUser);
    assert CartMerge.FirstIndex(raw, k) == 0;
    assert raw[1..] == [x] && [x][..0] == [];
    assert CartMerge.AddedUnits(raw[1..], k) == 1;
    assert CartMerge.MergedEntry(raw, k) == CartMerge.Item(Str(k), Some(2));
  }
}
