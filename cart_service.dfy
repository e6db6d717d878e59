/** The cart service of the backend (backend/cart.js): `POST /cart/add`
    validates the request, finds the user's active cart or starts one, then
    raises the quantity of the first line with the same `productId` or
    appends a new line, and saves; `DELETE /cart/:id` removes one cart. The
    document store is a map from cart id to cart; the store's query and its
    failures are parameters. The schema's casts are modelled: `userId` and
    `productId` are stored as strings, and a `NaN` quantity is refused. */
module CartService {
  import opened Js

  type CartId = string

  /** A stored line item. The schema types `productId` as `String` and
      `quantity` as `Number`, and the `Number` cast refuses `NaN`, so a
      stored quantity is always a number. */
  datatype Line = Line(productId: string, quantity: int)

  /** A stored cart document; the schema types `userId` as `String`. */
  datatype StoredCart = StoredCart(userId: string, status: string, items: seq<Line>)

  /** The fields of the request body the handler reads; an absent field is
      `Undefined`. */
  datatype AddRequest = AddRequest(productId: Value, quantity: Value, user: Value)

  /** What `Cart.findOne({ userId: user, status: "active" })` gives: it
      fails, finds nothing, or finds the stored cart with that id. */
  datatype Lookup = LookupFailed | NoActiveCart | ActiveCart(id: CartId)

  /** The handlers' replies. */
  datatype Reply =
    | Created(cart: StoredCart)
    | MissingFields
    | AddFailed
    | CartNotFound
    | CartDeleted
    | DeleteFailed

  function Status(r: Reply): int
  {
    match r
    case Created(_) => 201
    case MissingFields => 400
    case AddFailed => 500
    case CartNotFound => 404
    case CartDeleted => 200
    case DeleteFailed => 500
  }

  /** The `success` member of the reply body, for the replies that have one. */
  function Success(r: Reply): Option<bool>
  {
    match r
    case Created(_) => Some(true)
    case MissingFields => Some(false)
    case AddFailed => Some(false)
    case _ => None
  }

  /** The store's guarantees for one request: a found cart is stored, and a
      new document's generated `_id` is not the id of a stored cart. */
  predicate Consistent(carts: map<CartId, StoredCart>, lookup: Lookup, newId: CartId)
  {
    (lookup.ActiveCart? ==> lookup.id in carts) && (lookup.NoActiveCart? ==> newId !in carts)
  }

  /** The schema's cast of a value that is neither `null` nor `undefined` to
      a `String` path: the value's `toString()`, which is `String(v)` here.
      A string is kept, and a truthy value never becomes the empty string. */
  function CastString(v: Value): (s: string)
    requires v != Undefined && v != Null
    ensures v.Str? ==> s == v.s
    ensures Truthy(v) ==> s != ""
  {
    ToStr(v)
  }

  /** A number is stored as a numeral that `parseInt` reads back as it. */
  lemma CastNumberReadsBack(n: int)
    ensures ParseInt(Str(CastString(Num(n)))) == Some(n)
  {
    ParseIntOfNumber(n);
  }

  /** `const { quantity = 1 } = req.body`: the default applies only when the
      member is `undefined`. */
  function RequestedQuantity(req: AddRequest): Value
  {
    if req.quantity == Undefined then Num(1) else req.quantity
  }

  /** `parseInt(quantity)`. */
  function Increment(req: AddRequest): Option<int>
  {
    ParseInt(RequestedQuantity(req))
  }

  /** `item.productId === productId`: the stored id is a string, so only a
      string in the request can be strictly equal to it. */
  predicate SameProduct(line: Line, productId: Value)
  {
    productId == Str(line.productId)
  }

  /** `cart.items.findIndex((item) => item.productId === productId)`, with
      `None` for -1. */
  function FindLine(items: seq<Line>, productId: Value): (r: Option<nat>)
    ensures r.None? <==> forall i :: 0 <= i < |items| ==> !SameProduct(items[i], productId)
    ensures r.Some? ==>
      r.value < |items| && SameProduct(items[r.value], productId)
      && forall i :: 0 <= i < r.value ==> !SameProduct(items[i], productId)
  {
    if items == [] then None
    else if SameProduct(items[0], productId) then Some(0)
    else
      match FindLine(items[1..], productId)
      case None =>
        assert forall i :: 1 <= i < |items| ==> items[i] == items[1..][i - 1];
        None
      case Some(i) =>
        assert forall j :: 1 <= j < i + 1 ==> items[j] == items[1..][j - 1];
        Some(i + 1)
  }

  /** The cart's items once the request's line has been added: the first
      matching line grows by the increment, or a line is pushed, its
      `productId` cast to a string. */
  function AddLine(items: seq<Line>, productId: Value, increment: int): seq<Line>
    requires Truthy(productId)
  {
    match FindLine(items, productId)
    case Some(i) => items[i := items[i].(quantity := items[i].quantity + increment)]
    case None => items + [Line(CastString(productId), increment)]
  }

  /** The cart the request works on: the one found, or a new active cart of
      the user, whose `userId` is cast to a string. */
  function Target(carts: map<CartId, StoredCart>, req: AddRequest, lookup: Lookup): StoredCart
    requires Truthy(req.user)
    requires lookup.ActiveCart? ==> lookup.id in carts
  {
    if lookup.ActiveCart? then carts[lookup.id] else StoredCart(CastString(req.user), "active", [])
  }

  /** The reply to `POST /cart/add` and the store afterwards. `saved` says
      whether `cart.save()` succeeds; `newId` is the id a new cart is stored
      under. A `NaN` quantity (`q += NaN`, or a pushed `NaN`) fails the
      schema's `Number` cast, so the save throws. */
  function AddOutcome(carts: map<CartId, StoredCart>, req: AddRequest, lookup: Lookup, saved: bool, newId: CartId)
    : (Reply, map<CartId, StoredCart>)
    requires Consistent(carts, lookup, newId)
  {
    if !Truthy(req.productId) || !Truthy(req.user) then (MissingFields, carts)
    else if lookup.LookupFailed? then (AddFailed, carts)
    else
      match Increment(req)
      case None => (AddFailed, carts)
      case Some(n) =>
        var target := Target(carts, req, lookup);
        var cart := target.(items := AddLine(target.items, req.productId, n));
        if !saved then (AddFailed, carts)
        else (Created(cart), carts[if lookup.ActiveCart? then lookup.id else newId := cart])
  }

  /** The reply to `DELETE /cart/:id` and the store afterwards. `failed`
      says whether `findByIdAndDelete` throws. */
  function DeleteOutcome(carts: map<CartId, StoredCart>, id: CartId, failed: bool): (Reply, map<CartId, StoredCart>)
  {
    if failed then (DeleteFailed, carts)
    else if id !in carts then (CartNotFound, carts)
    else (CartDeleted, carts - {id})
  }

  /** The `findIndex` and then the `+=` or the `push` of the handler. */
  method AddItem(items: seq<Line>, productId: Value, increment: int) returns (r: seq<Line>)
    requires Truthy(productId)
    ensures r == AddLine(items, productId, increment)
  {
    r := items;
    var existing := FindLine(r, productId);
    if existing.Some? {
      var i := existing.value;
      r := r[i := r[i].(quantity := r[i].quantity + increment)];
    } else {
      r := r + [Line(CastString(productId), increment)];
    }
  }

  /** The document store. */
  class CartStore {
    var carts: map<CartId, StoredCart>

    constructor ()
      ensures carts == map[]
    {
      carts := map[];
    }

    /** `POST /cart/add`. */
    method AddToCart(req: AddRequest, lookup: Lookup, saved: bool, newId: CartId) returns (reply: Reply)
      requires Consistent(carts, lookup, newId)
      modifies this
      ensures (reply, carts) == AddOutcome(old(carts), req, lookup, saved, newId)
    {
      var productId := req.productId;
      var quantity := if req.quantity == Undefined then Num(1) else req.quantity;
      if !Truthy(productId) || !Truthy(req.user) {
        return MissingFields;
      }
      if lookup.LookupFailed? {
        return AddFailed;
      }
      var id: CartId;
      var cart: StoredCart;
      if lookup.ActiveCart? {
        id := lookup.id;
        cart := carts[id];
      } else {
        id := newId;
        cart := StoredCart(CastString(req.user), "active", []);
      }
      assert cart == Target(carts, req, lookup);
      var increment := ParseInt(quantity);
      assert increment == Increment(req);
      if increment.None? {
        return AddFailed;
      }
      var items := AddItem(cart.items, productId, increment.value);
      cart := cart.(items := items);
      if !saved {
        return AddFailed;
      }
      carts := carts[id := cart];
      reply := Created(cart);
    }

    /** `DELETE /cart/:id`. */
    method DeleteCart(id: CartId, failed: bool) returns (reply: Reply)
      modifies this
      ensures (reply, carts) == DeleteOutcome(old(carts), id, failed)
    {
      if failed {
        return DeleteFailed;
      }
      if id !in carts {
        return CartNotFound;
      }
      carts := carts - {id};
      reply := CartDeleted;
    }
  }

  // ---------------------------------------------------------------------------
  // Validation and failures

  /** A falsy `productId` or `user` is answered with 400 before the store is
      consulted: neither the query, the save nor the new id matters, and the
      store is unchanged. */
  lemma MissingFieldsRejected(carts: map<CartId, StoredCart>, req: AddRequest, lookup: Lookup, saved: bool, newId: CartId)
    requires Consistent(carts, lookup, newId)
    requires !Truthy(req.productId) || !Truthy(req.user)
    ensures var (reply, after) := AddOutcome(carts, req, lookup, saved, newId);
      reply == MissingFields && Status(reply) == 400 && Success(reply) == Some(false) && after == carts
  {
  }

  /** A failing query, a `NaN` quantity or a failing save is answered with
      500 and `success: false`, and nothing is stored. */
  lemma FailuresAnswer500(carts: map<CartId, StoredCart>, req: AddRequest, lookup: Lookup, saved: bool, newId: CartId)
    requires Consistent(carts, lookup, newId)
    requires Truthy(req.productId) && Truthy(req.user)
    requires lookup.LookupFailed? || Increment(req).None? || !saved
    ensures var (reply, after) := AddOutcome(carts, req, lookup, saved, newId);
      Status(reply) == 500 && Success(reply) == Some(false) && after == carts
  {
  }

  /** A valid request that is saved is answered with 201. The cart is stored
      under the found id, or under the new id as one more cart; no other
      cart changes. */
  lemma SavedAnswer201(carts: map<CartId, StoredCart>, req: AddRequest, lookup: Lookup, newId: CartId)
    requires Consistent(carts, lookup, newId)
    requires Truthy(req.productId) && Truthy(req.user) && !lookup.LookupFailed? && Increment(req).Some?
    ensures var (reply, after) := AddOutcome(carts, req, lookup, true, newId);
      reply.Created? && Status(reply) == 201 && Success(reply) == Some(true)
      && var id := if lookup.ActiveCart? then lookup.id else newId;
         after == carts[id := reply.cart]
         && |after.Keys| == |carts.Keys| + (if lookup.NoActiveCart? then 1 else 0)
         && forall k :: k in carts && k != id ==> k in after && after[k] == carts[k]
  {
    var after := AddOutcome(carts, req, lookup, true, newId).1;
    var id := if lookup.ActiveCart? then lookup.id else newId;
    if lookup.NoActiveCart? {
      assert after.Keys == carts.Keys + {id};
    } else {
      assert after.Keys == carts.Keys;
    }
  }

  // ---------------------------------------------------------------------------
  // Quantities

  /** An absent `quantity` counts as 1. */
  lemma AbsentQuantityIsOne(productId: Value, user: Value)
    ensures Increment(AddRequest(productId, Undefined, user)) == Some(1)
  {
    ParseIntOfNumber(1);
  }

  /** A numeric `quantity` is used as given, zero and negative values included:
      nothing bounds it. */
  lemma NumericQuantityUnchecked(productId: Value, n: int, user: Value)
    ensures Increment(AddRequest(productId, Num(n), user)) == Some(n)
  {
    ParseIntOfNumber(n);
  }

  /** `null` is not `undefined`: the default does not apply and the quantity
      parses to `NaN`. */
  lemma NullQuantityIsNaN(productId: Value, user: Value)
    ensures Increment(AddRequest(productId, Null, user)) == None
  {
  }

  /** A request with `quantity: null` is therefore refused with 500 whatever
      the store holds, and the store keeps no `NaN`. */
  lemma NullQuantityRefused(carts: map<CartId, StoredCart>, productId: Value, user: Value, lookup: Lookup, saved: bool, newId: CartId)
    requires Consistent(carts, lookup, newId)
    requires Truthy(productId) && Truthy(user)
    ensures AddOutcome(carts, AddRequest(productId, Null, user), lookup, saved, newId) == (AddFailed, carts)
  {
    NullQuantityIsNaN(productId, user);
  }

  // ---------------------------------------------------------------------------
  // Adding a line

  /** With no active cart, a new active cart of the user is stored under the
      new id, holding exactly the requested line; both ids are stored as
      strings. */
  lemma NewCartCreated(carts: map<CartId, StoredCart>, req: AddRequest, newId: CartId)
    requires newId !in carts
    requires Truthy(req.productId) && Truthy(req.user) && Increment(req).Some?
    ensures var (reply, after) := AddOutcome(carts, req, NoActiveCart, true, newId);
      var cart := StoredCart(CastString(req.user), "active", [Line(CastString(req.productId), Increment(req).value)]);
      reply == Created(cart) && after == carts[newId := cart]
  {
    assert Target(carts, req, NoActiveCart) == StoredCart(CastString(req.user), "active", []);
    assert FindLine([], req.productId) == None;
    assert AddLine([], req.productId, Increment(req).value) == [Line(CastString(req.productId), Increment(req).value)];
  }

  /** `user: 2` and `user: "2"` start the same cart: the schema stores the
      `userId` as the string "2" either way. */
  lemma UserIdStoredAsString(n: int)
    requires n != 0
    ensures Target(map[], AddRequest(Str("1"), Undefined, Num(n)), NoActiveCart)
      == Target(map[], AddRequest(Str("1"), Undefined, Str(NumberToString(n))), NoActiveCart)
    ensures ParseInt(Str(Target(map[], AddRequest(Str("1"), Undefined, Num(n)), NoActiveCart).userId)) == Some(n)
  {
    assert NumberToString(n) != "" by {
      assert |NumberToString(n)| > 0;
    }
    CastNumberReadsBack(n);
  }

  /** When the cart has a line whose stored id is strictly equal to the
      request's, the first such line's quantity grows by the increment; the
      number of lines and every other line are unchanged. */
  lemma IncrementsFirstMatch(items: seq<Line>, productId: Value, increment: int, i: nat)
    requires Truthy(productId)
    requires i < |items| && SameProduct(items[i], productId)
    requires forall j :: 0 <= j < i ==> !SameProduct(items[j], productId)
    ensures var r := AddLine(items, productId, increment);
      |r| == |items|
      && r[i] == Line(items[i].productId, items[i].quantity + increment)
      && forall j :: 0 <= j < |items| && j != i ==> r[j] == items[j]
  {
  }

  /** When no line matches, the new line is appended at the end and the
      others stay as they were. */
  lemma AppendsWhenNoMatch(items: seq<Line>, productId: Value, increment: int)
    requires Truthy(productId)
    requires forall j :: 0 <= j < |items| ==> !SameProduct(items[j], productId)
    ensures AddLine(items, productId, increment) == items + [Line(CastString(productId), increment)]
  {
  }

  /** A numeric `productId` never matches: the stored ids are strings, so
      every request with a number appends a line, even when a line with the
      same numeral is already there. */
  lemma NumericProductIdAppends(items: seq<Line>, n: int, increment: int)
    requires n != 0
    ensures AddLine(items, Num(n), increment) == items + [Line(NumberToString(n), increment)]
  {
    AppendsWhenNoMatch(items, Num(n), increment);
  }

  /** The lines of a cart keep pairwise distinct `productId`s. */
  predicate DistinctProducts(items: seq<Line>)
  {
    forall i, j :: 0 <= i < j < |items| ==> items[i].productId != items[j].productId
  }

  /** Requests with string ids keep the stored ids distinct, and the product
      is then present. */
  lemma AddLineKeepsProductsDistinct(items: seq<Line>, productId: Value, increment: int)
    requires productId.Str? && Truthy(productId)
    requires DistinctProducts(items)
    ensures DistinctProducts(AddLine(items, productId, increment))
    ensures exists i :: 0 <= i < |AddLine(items, productId, increment)| && AddLine(items, productId, increment)[i].productId == productId.s
  {
    var r := AddLine(items, productId, increment);
    match FindLine(items, productId)
    case Some(i) =>
      assert r[i].productId == productId.s;
    case None =>
      assert r[|items|].productId == productId.s;
  }

  /** A numeric id breaks that: the number 101 does not match the stored
      "101", so a second "101" line is appended. */
  lemma StrictProductMatch(q: int, increment: int)
    ensures AddLine([Line("101", q)], Num(101), increment) == [Line("101", q), Line("101", increment)]
    ensures !DistinctProducts(AddLine([Line("101", q)], Num(101), increment))
  {
    NumericProductIdAppends([Line("101", q)], 101, increment);
    assert NumberToString(101) == "101" by {
      assert NatToDecimal(10) == "10";
    }
    var r := AddLine([Line("101", q)], Num(101), increment);
    assert r[0].productId == r[1].productId;
  }

  /** A request `{productId: "9", user: "5"}` with no quantity and no active
      cart stores one active cart of user "5" holding `{productId: "9", quantity: 1}`. */
  lemma FirstAddScenario(carts: map<CartId, StoredCart>, newId: CartId)
    requires newId !in carts
    ensures var (reply, after) := AddOutcome(carts, AddRequest(Str("9"), Undefined, Str("5")), NoActiveCart, true, newId);
      after == carts[newId := StoredCart("5", "active", [Line("9", 1)])]
      && Status(reply) == 201
  {
    AbsentQuantityIsOne(Str("9"), Str("5"));
    NewCartCreated(carts, AddRequest(Str("9"), Undefined, Str("5")), newId);
  }

  // ---------------------------------------------------------------------------
  // Deleting a cart

  /** An id with no cart is answered with 404; an existing cart is removed
      and the reply is 200; a failing store is answered with 500. In every
      case no other cart is touched. */
  lemma DeleteReplies(carts: map<CartId, StoredCart>, id: CartId, failed: bool)
    ensures var (reply, after) := DeleteOutcome(carts, id, failed);
      (failed ==> Status(reply) == 500 && after == carts)
      && (!failed && id !in carts ==> Status(reply) == 404 && after == carts)
      && (!failed && id in carts ==> Status(reply) == 200 && id !in after)
      && forall k :: k != id ==> (k in after <==> k in carts) && (k in after ==> after[k] == carts[k])
  {
  }
}
