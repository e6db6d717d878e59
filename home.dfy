/** The home page and the routing shell of frontend/src/App.js: the
    `RequireAuth` gate in front of the home, search and cart pages, the
    featured-category sections of the home page (at most twelve products
    each, the first of the catalog in that category), and the body its
    "Add to Cart" and "Buy Now" buttons post to the backend. The catalog
    flattening of the page is `Catalog.FlattenResponse`. */
module Home {
  import opened Js
  import opened Catalog
  import Search
  import CartService

  // ---------------------------------------------------------------------------
  // The login gate and the routes

  /** The router's current location; only the path matters here. */
  datatype Location = Location(pathname: string)

  /** What a gated route shows: a replacing redirect that remembers where the
      visitor came from, or the gated content itself. */
  datatype Gate<T> = Redirect(to: string, from: Location, replace: bool) | Render(children: T)

  /** `localStorage.getItem("token")` is truthy: stored, and not empty. */
  predicate HasToken(token: Option<string>)
  {
    token.Some? && token.value != ""
  }

  /** `RequireAuth`: the children unchanged when a token is stored, a
      redirect to the login page otherwise. */
  function RequireAuth<T>(token: Option<string>, location: Location, children: T): (r: Gate<T>)
    ensures r.Render? <==> HasToken(token)
    ensures r.Render? ==> r.children == children
    ensures r.Redirect? ==> r.to == "/login" && r.from == location && r.replace
  {
    if !HasToken(token) then Redirect("/login", location, true) else Render(children)
  }

  datatype Page = LoginPage | SignupPage | ProfilePage | HomePage | SearchPage | CartPage

  /** The routes of `AppContent`; `None` when no route matches the path. */
  function Route(location: Location, token: Option<string>): (r: Option<Gate<Page>>)
    ensures r.Some? <==> location.pathname in {"/login", "/signup", "/profile", "/", "/search", "/cart"}
  {
    match location.pathname
    case "/login" => Some(Render(LoginPage))
    case "/signup" => Some(Render(SignupPage))
    case "/profile" => Some(Render(ProfilePage))
    case "/" => Some(RequireAuth(token, location, HomePage))
    case "/search" => Some(RequireAuth(token, location, SearchPage))
    case "/cart" => Some(RequireAuth(token, location, CartPage))
    case _ => None
  }

  /** The home, search and cart pages are shown only with a token; without
      one every path to them is a redirect to the login page. */
  lemma GatedPagesNeedToken(location: Location, token: Option<string>)
    ensures Route(location, token).Some? && Route(location, token).value.Render?
      && Route(location, token).value.children in {HomePage, SearchPage, CartPage}
      ==> HasToken(token)
    ensures !HasToken(token) && location.pathname in {"/", "/search", "/cart"} ==>
      Route(location, token) == Some(Redirect("/login", location, true))
  {
  }

  /** The redirect target is itself open: following the redirect shows the
      login page whatever the token, so the gate cannot loop. */
  lemma RedirectLandsOnLogin(location: Location, token: Option<string>)
    requires Route(location, token).Some? && Route(location, token).value.Redirect?
    ensures Route(Location(Route(location, token).value.to), token) == Some(Render(LoginPage))
  {
  }

  // ---------------------------------------------------------------------------
  // Featured categories

  datatype Category = Category(value: string, heading: string)

  const FeaturedCategories: seq<Category> := [
    Category("smartphones", "Smartphones"),
    Category("laptops", "Laptops"),
    Category("fragrances", "Fragrances"),
    Category("mens-shirts", "Mens Shirts")
  ]

  /** The most products a category section lists. */
  const SectionSize: nat := 12

  /** `item.category === value`: strict, so a missing category never matches. */
  predicate InCategory(p: Product, value: string)
  {
    p.category == Some(value)
  }

  /** `products.filter((item) => item.category === value)`. */
  function CategoryMatches(products: seq<Product>, value: string): (r: seq<Product>)
    ensures forall i :: 0 <= i < |r| ==> InCategory(r[i], value)
    ensures Search.IsSubsequence(r, products)
  {
    if products == [] then []
    else
      var rest := CategoryMatches(products[1..], value);
      if InCategory(products[0], value) then
        assert ([products[0]] + rest)[1..] == rest;
        [products[0]] + rest
      else
        rest
  }

  /** `.slice(0, 12)` of the matches: a prefix of them of at most twelve. */
  function Section(products: seq<Product>, value: string): (s: seq<Product>)
    ensures |s| <= SectionSize
    ensures s <= CategoryMatches(products, value)
    ensures var m := CategoryMatches(products, value); |s| == if |m| <= SectionSize then |m| else SectionSize
  {
    var m := CategoryMatches(products, value);
    if |m| <= SectionSize then m else m[..SectionSize]
  }

  /** `productsByCategory`: one entry per featured category, filled in order. */
  method GroupByCategory(products: seq<Product>) returns (byCategory: map<string, seq<Product>>)
    ensures byCategory.Keys == set c | c in FeaturedCategories :: c.value
    ensures forall c :: c in FeaturedCategories ==> byCategory[c.value] == Section(products, c.value)
  {
    byCategory := map[];
    var i := 0;
    while i < |FeaturedCategories|
      invariant 0 <= i <= |FeaturedCategories|
      invariant byCategory.Keys == set j | 0 <= j < i :: FeaturedCategories[j].value
      invariant forall j :: 0 <= j < i ==>
        byCategory[FeaturedCategories[j].value] == Section(products, FeaturedCategories[j].value)
    {
      var cat := FeaturedCategories[i];
      byCategory := byCategory[cat.value := Section(products, cat.value)];
      i := i + 1;
    }
    assert forall c :: c in FeaturedCategories ==> exists j :: 0 <= j < 4 && FeaturedCategories[j] == c;
  }

  /** The categories whose section is drawn, in the order given:
      `productsByCategory[value] && productsByCategory[value].length > 0`. */
  function RenderedSections(cats: seq<Category>, byCategory: map<string, seq<Product>>): (r: seq<Category>)
    ensures forall c :: c in r <==> c in cats && c.value in byCategory && |byCategory[c.value]| > 0
    ensures Search.IsSubsequence(r, cats)
  {
    if cats == [] then []
    else
      var rest := RenderedSections(cats[1..], byCategory);
      assert forall c :: c in cats <==> c == cats[0] || c in cats[1..];
      if cats[0].value in byCategory && |byCategory[cats[0].value]| > 0 then
        assert ([cats[0]] + rest)[1..] == rest;
        [cats[0]] + rest
      else
        rest
  }

  // ---------------------------------------------------------------------------
  // Properties of the sections

  /** A product is a match exactly when it is in the catalog and in the category. */
  lemma {:induction false} CategoryMatchesMembers(products: seq<Product>, value: string, p: Product)
    ensures p in CategoryMatches(products, value) <==> p in products && InCategory(p, value)
  {
    if products != [] {
      CategoryMatchesMembers(products[1..], value, p);
      assert products == [products[0]] + products[1..];
    }
  }

  /** Filtering goes product by product: the matches of `a` precede those of `b`. */
  lemma {:induction false} CategoryMatchesAppend(a: seq<Product>, b: seq<Product>, value: string)
    ensures CategoryMatches(a + b, value) == CategoryMatches(a, value) + CategoryMatches(b, value)
  {
    if a == [] {
      assert a + b == b;
    } else {
      var head := if InCategory(a[0], value) then [a[0]] else [];
      var ra, rb := CategoryMatches(a[1..], value), CategoryMatches(b, value);
      assert CategoryMatches(a + b, value) == head + CategoryMatches(a[1..] + b, value) by {
        assert (a + b)[1..] == a[1..] + b;
        assert (a + b)[0] == a[0];
      }
      assert CategoryMatches(a[1..] + b, value) == ra + rb by {
        CategoryMatchesAppend(a[1..], b, value);
      }
      assert CategoryMatches(a, value) == head + ra;
      assert head + (ra + rb) == (head + ra) + rb;
    }
  }

  /** Every product of a section is from the catalog and in that category. */
  lemma SectionOnlyCategory(products: seq<Product>, value: string, p: Product)
    requires p in Section(products, value)
    ensures p in products && InCategory(p, value)
  {
    CategoryMatchesMembers(products, value, p);
  }

  /** With at most twelve matches, the section lists every one of them. */
  lemma SectionComplete(products: seq<Product>, value: string, p: Product)
    requires |CategoryMatches(products, value)| <= SectionSize
    requires p in products && InCategory(p, value)
    ensures p in Section(products, value)
  {
    CategoryMatchesMembers(products, value, p);
  }

  /** Once twelve products of a category have been seen, the rest of the
      catalog no longer changes its section: the section holds the first
      twelve in catalog order. */
  lemma LaterProductsIgnored(a: seq<Product>, b: seq<Product>, value: string)
    requires |CategoryMatches(a, value)| >= SectionSize
    ensures Section(a + b, value) == Section(a, value)
  {
    CategoryMatchesAppend(a, b, value);
    var m := CategoryMatches(a, value);
    assert (m + CategoryMatches(b, value))[..SectionSize] == m[..SectionSize];
  }

  /** A featured category's section is drawn exactly when the catalog holds
      some product of that category. */
  lemma SectionDrawnIffStocked(products: seq<Product>, byCategory: map<string, seq<Product>>, c: Category)
    requires forall d :: d in FeaturedCategories ==>
      d.value in byCategory && byCategory[d.value] == Section(products, d.value)
    ensures c in RenderedSections(FeaturedCategories, byCategory) <==>
      c in FeaturedCategories && exists p :: p in products && InCategory(p, c.value)
  {
    if c in FeaturedCategories {
      var m := CategoryMatches(products, c.value);
      if exists p :: p in products && InCategory(p, c.value) {
        var p :| p in products && InCategory(p, c.value);
        CategoryMatchesMembers(products, c.value, p);
        assert |Section(products, c.value)| > 0 by {
          assert m[0] == Section(products, c.value)[0];
        }
      } else if |m| > 0 {
        CategoryMatchesMembers(products, c.value, m[0]);
      }
    }
  }

  /** The four featured categories are distinct, so no section overwrites another. */
  lemma FeaturedValuesDistinct()
    ensures forall i, j :: 0 <= i < j < |FeaturedCategories| ==>
      FeaturedCategories[i].value != FeaturedCategories[j].value
  {
  }

  // ---------------------------------------------------------------------------
  // The add-to-cart request

  /** The members of the JSON body the backend reads: `productId` is the
      product's id, `quantity` is 1 and `user` is the number 2. */
  function AddToCartBody(p: Product): (r: CartService.AddRequest)
    ensures r.productId == p.id && r.quantity == Num(1) && r.user == Num(2)
  {
    CartService.AddRequest(p.id, Num(1), Num(2))
  }
}
