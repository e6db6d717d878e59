/** The cart page's merge of the current user's cart documents
    (frontend/src/Cart.js): keep the carts whose `userId` is strictly equal
    to the user's id, flatten their line items cart by cart, and collapse the
    items that share `String(productId)` into one entry whose quantity sums
    theirs. The entries come out in `Object.values` order. */
module CartMerge {
  import opened Js
  import opened JsObject

  /** A cart line item as listed by `GET /carts`. */
  datatype Item = Item(productId: Value, quantity: Option<int>)

  /** A cart document; `items` is `None` when the member is not an array. */
  datatype CartDoc = CartDoc(userId: Value, items: Option<seq<Item>>)

  /** The user whose cart the page shows: the string "2". */
  const CurrentUser: Value := Str("2")

  /** `String(item.productId)`: the key duplicates are merged under. */
  function Key(item: Item): string
  {
    ToStr(item.productId)
  }

  // ---------------------------------------------------------------------------
  // Selecting and flattening the user's carts

  /** `carts.filter((c) => c.userId === userId)`. */
  function CartsOf(carts: seq<CartDoc>, userId: Value): seq<CartDoc>
  {
    if carts == [] then []
    else
      var last := carts[|carts| - 1];
      CartsOf(carts[..|carts| - 1], userId) + (if last.userId == userId then [last] else [])
  }

  /** The user's carts, or none when the listing's `data` is not an array. */
  function UserCarts(data: Option<seq<CartDoc>>, userId: Value): seq<CartDoc>
  {
    if data.None? then [] else CartsOf(data.value, userId)
  }

  /** The items a cart contributes: its `items` array, if it is one. */
  function ItemsOf(cart: CartDoc): seq<Item>
  {
    if cart.items.Some? then cart.items.value else []
  }

  /** The items of `carts`, cart by cart, each cart's in its own order. */
  function FlattenItems(carts: seq<CartDoc>): seq<Item>
  {
    if carts == [] then [] else FlattenItems(carts[..|carts| - 1]) + ItemsOf(carts[|carts| - 1])
  }

  /** `cartItemsRaw`: every item of every cart of the user. */
  function RawItems(data: Option<seq<CartDoc>>, userId: Value): seq<Item>
  {
    FlattenItems(UserCarts(data, userId))
  }

  // ---------------------------------------------------------------------------
  // Combining duplicates

  /** The properties every plain object inherits from `Object.prototype`:
      `m[k]` is truthy for these keys even when `m` has no own property `k`. */
  const PrototypeNames: set<string> := {
    "constructor", "toString", "toLocaleString", "valueOf", "hasOwnProperty",
    "isPrototypeOf", "propertyIsEnumerable", "__proto__", "__defineGetter__",
    "__defineSetter__", "__lookupGetter__", "__lookupSetter__"}

  /** One step of the combining loop. When `combinedItemsMap[key]` is truthy
      the item's `quantity || 1` is added to that entry's quantity: for an own
      entry that is the merge, for an inherited member the write lands on the
      shared prototype object and the item leaves no entry. Otherwise a copy
      of the item is stored under its key. */
  function MergeStep(o: Object<Item>, item: Item): (r: Object<Item>)
    requires WellFormed(o)
    ensures WellFormed(r)
  {
    var key := Key(item);
    if key in o.fields then
      Put(o, key, o.fields[key].(quantity := Plus(o.fields[key].quantity, Some(OrElse(item.quantity, 1)))))
    else if key in PrototypeNames then
      o
    else
      Put(o, key, item)
  }

  /** `combinedItemsMap` after the loop has run over `raw`. */
  function Combine(raw: seq<Item>): (o: Object<Item>)
    ensures WellFormed(o)
  {
    if raw == [] then Empty() else MergeStep(Combine(raw[..|raw| - 1]), raw[|raw| - 1])
  }

  /** `combinedCartItemsRaw = Object.values(combinedItemsMap)`. */
  function Merged(data: Option<seq<CartDoc>>, userId: Value): seq<Item>
  {
    Values(Combine(RawItems(data, userId)))
  }

  /** The merge as the cart page runs it: collect the user's items, fold
      them into a dictionary, list its values. */
  method MergeUserCarts(data: Option<seq<CartDoc>>, userId: Value) returns (merged: seq<Item>)
    ensures merged == Merged(data, userId)
  {
    var raw := CollectItems(UserCarts(data, userId));
    var combined := CombineItems(raw);
    merged := Values(combined);
  }

  /** The nested loops that push every item of every cart, in order. */
  method CollectItems(carts: seq<CartDoc>) returns (raw: seq<Item>)
    ensures raw == FlattenItems(carts)
  {
    raw := [];
    var i := 0;
    while i < |carts|
      invariant 0 <= i <= |carts|
      invariant raw == FlattenItems(carts[..i])
    {
      var cart := carts[i];
      if cart.items.Some? {
        var items := cart.items.value;
        var j := 0;
        while j < |items|
          invariant 0 <= j <= |items|
          invariant raw == FlattenItems(carts[..i]) + items[..j]
        {
          raw := raw + [items[j]];
          assert items[..j + 1] == items[..j] + [items[j]];
          j := j + 1;
        }
        assert items[..j] == items;
      }
      assert carts[..i + 1][..i] == carts[..i];
      i := i + 1;
    }
    assert carts[..i] == carts;
  }

  /** The loop that folds the items into `combinedItemsMap`. */
  method CombineItems(raw: seq<Item>) returns (combined: Object<Item>)
    ensures combined == Combine(raw)
  {
    combined := Empty();
    var n := 0;
    while n < |raw|
      invariant 0 <= n <= |raw|
      invariant combined == Combine(raw[..n])
    {
      var item := raw[n];
      var key := Key(item);
      ghost var before := combined;
      if key in combined.fields {
        var entry := combined.fields[key];
        combined := Put(combined, key, entry.(quantity := Plus(entry.quantity, Some(OrElse(item.quantity, 1)))));
      } else if key !in PrototypeNames {
        combined := Put(combined, key, item);
      }
      assert combined == MergeStep(before, item);
      CombinePrefix(raw, n);
      n := n + 1;
    }
    assert raw[..n] == raw;
  }

  /** One more item of the prefix is one more step of the fold. */
  lemma CombinePrefix(raw: seq<Item>, n: nat)
    requires n < |raw|
    ensures Combine(raw[..n + 1]) == MergeStep(Combine(raw[..n]), raw[n])
  {
    assert raw[..n + 1][..n] == raw[..n];
  }

  // ---------------------------------------------------------------------------
  // What a merged entry is, stated without the loop

  /** Some item of `raw` has key `k`. */
  predicate HasKey(raw: seq<Item>, k: string)
  {
    exists i :: 0 <= i < |raw| && Key(raw[i]) == k
  }

  /** The position of the first item of `raw` with key `k`. */
  function FirstIndex(raw: seq<Item>, k: string): (f: nat)
    requires HasKey(raw, k)
    ensures f < |raw| && Key(raw[f]) == k
    ensures forall i :: 0 <= i < f ==> Key(raw[i]) != k
  {
    if Key(raw[0]) == k then 0
    else
      var i :| 0 <= i < |raw| && Key(raw[i]) == k;
      assert Key(raw[1..][i - 1]) == k;
      1 + FirstIndex(raw[1..], k)
  }

  /** What the items of `s` with key `k` add: `item.quantity || 1` each. */
  function AddedUnits(s: seq<Item>, k: string): int
  {
    if s == [] then 0
    else AddedUnits(s[..|s| - 1], k) + (if Key(s[|s| - 1]) == k then OrElse(s[|s| - 1].quantity, 1) else 0)
  }

  /** The entry merging promises for key `k`: a copy of the first item with
      that key whose quantity is increased by what the later ones add. */
  function MergedEntry(raw: seq<Item>, k: string): Item
    requires HasKey(raw, k)
  {
    var f := FirstIndex(raw, k);
    raw[f].(quantity := Plus(raw[f].quantity, Some(AddedUnits(raw[f + 1..], k))))
  }

  /** The first occurrence of a key in a prefix is its first occurrence in
      the whole sequence. */
  lemma FirstIndexOfPrefix(raw: seq<Item>, n: nat, k: string)
    requires n <= |raw| && HasKey(raw[..n], k)
    ensures HasKey(raw, k) && FirstIndex(raw, k) == FirstIndex(raw[..n], k)
  {
    var f := FirstIndex(raw[..n], k);
    assert raw[f] == raw[..n][f];
    assert forall i :: 0 <= i < f ==> raw[i] == raw[..n][i];
  }

  /** A key occurs in `p + [x]` when it occurs in `p` or is the key of `x`. */
  lemma HasKeySnoc(p: seq<Item>, x: Item, k: string)
    ensures HasKey(p + [x], k) <==> HasKey(p, k) || Key(x) == k
  {
    var raw := p + [x];
    if HasKey(p, k) {
      var i :| 0 <= i < |p| && Key(p[i]) == k;
      assert raw[i] == p[i];
    }
    if Key(x) == k {
      assert raw[|p|] == x;
    }
    if HasKey(raw, k) && Key(x) != k {
      var i :| 0 <= i < |raw| && Key(raw[i]) == k;
      assert raw[i] == p[i];
    }
  }

  /** A key that first occurs at the end of `p + [x]` adds nothing after it. */
  lemma FirstAtEnd(p: seq<Item>, x: Item)
    requires !HasKey(p, Key(x))
    ensures HasKey(p + [x], Key(x)) && MergedEntry(p + [x], Key(x)) == x.(quantity := Plus(x.quantity, Some(0)))
  {
    var raw := p + [x];
    HasKeySnoc(p, x, Key(x));
    var f := FirstIndex(raw, Key(x));
    assert forall i :: 0 <= i < |p| ==> raw[i] == p[i];
    assert f == |p|;
    assert raw[f + 1..] == [];
  }

  /** A key already present in `p` keeps its first item in `p + [x]`, and
      `x` adds its units when it has that key. */
  lemma FirstInPrefix(p: seq<Item>, x: Item, k: string)
    requires HasKey(p, k)
    ensures HasKey(p + [x], k)
    ensures MergedEntry(p + [x], k) ==
      MergedEntry(p, k).(quantity := Plus(MergedEntry(p, k).quantity,
        Some(if Key(x) == k then OrElse(x.quantity, 1) else 0)))
  {
    var raw := p + [x];
    assert raw[..|p|] == p;
    FirstIndexOfPrefix(raw, |p|, k);
    var f := FirstIndex(p, k);
    assert raw[f] == p[f];
    assert raw[f + 1..] == p[f + 1..] + [x];
    assert raw[f + 1..][..|raw[f + 1..]| - 1] == p[f + 1..];
  }

  /** What one step of the combining loop does to the dictionary. */
  lemma MergeStepFields(o: Object<Item>, x: Item)
    requires WellFormed(o)
    ensures var r := MergeStep(o, x);
      if Key(x) in o.fields then
        r.fields == o.fields[Key(x) := o.fields[Key(x)].(quantity := Plus(o.fields[Key(x)].quantity, Some(OrElse(x.quantity, 1))))]
        && r.order == o.order
      else if Key(x) in PrototypeNames then
        r == o
      else
        r.fields == o.fields[Key(x) := x] && r.order == o.order + [Key(x)]
  {
  }

  /** The keys that end up as own properties of the dictionary: those of
      the items, except the names of inherited members. */
  predicate Stored(raw: seq<Item>, k: string)
  {
    HasKey(raw, k) && k !in PrototypeNames
  }

  /** The dictionary holds exactly the stored keys, each entry being the one
      `MergedEntry` describes. */
  lemma {:induction false} CombineEntries(raw: seq<Item>)
    ensures forall k :: k in Combine(raw).fields <==> Stored(raw, k)
    ensures forall k :: Stored(raw, k) ==> k in Combine(raw).fields && Combine(raw).fields[k] == MergedEntry(raw, k)
  {
    if raw != [] {
      var p := raw[..|raw| - 1];
      var x := raw[|raw| - 1];
      assert raw == p + [x];
      CombineEntries(p);
      CombineEntriesStep(p, x);
    }
  }

  /** One step of `CombineEntries`: appending an item keeps the description. */
  lemma CombineEntriesStep(p: seq<Item>, x: Item)
    requires forall k :: k in Combine(p).fields <==> Stored(p, k)
    requires forall k :: Stored(p, k) ==> k in Combine(p).fields && Combine(p).fields[k] == MergedEntry(p, k)
    ensures forall k :: k in Combine(p + [x]).fields <==> Stored(p + [x], k)
    ensures forall k :: Stored(p + [x], k) ==>
      k in Combine(p + [x]).fields && Combine(p + [x]).fields[k] == MergedEntry(p + [x], k)
  {
    var raw := p + [x];
    assert raw[..|raw| - 1] == p && raw[|raw| - 1] == x;
    MergeStepFields(Combine(p), x);
    forall k
      ensures k in Combine(raw).fields <==> Stored(raw, k)
    {
      HasKeySnoc(p, x, k);
    }
    forall k | Stored(raw, k)
      ensures k in Combine(raw).fields && Combine(raw).fields[k] == MergedEntry(raw, k)
    {
      CombineEntryStep(p, x, k);
    }
  }

  /** The entry for one key after one step. */
  lemma CombineEntryStep(p: seq<Item>, x: Item, k: string)
    requires Stored(p, k) ==> k in Combine(p).fields && Combine(p).fields[k] == MergedEntry(p, k)
    requires k in Combine(p).fields ==> Stored(p, k)
    requires Stored(p + [x], k)
    ensures k in Combine(p + [x]).fields && Combine(p + [x]).fields[k] == MergedEntry(p + [x], k)
  {
    var raw := p + [x];
    assert raw[..|raw| - 1] == p && raw[|raw| - 1] == x;
    MergeStepFields(Combine(p), x);
    HasKeySnoc(p, x, k);
    if HasKey(p, k) {
      FirstInPrefix(p, x, k);
    } else {
      FirstAtEnd(p, x);
    }
  }

  /** A step either leaves the creation order alone or appends the item's
      key, which was neither present nor a prototype name. */
  lemma MergeStepOrder(o: Object<Item>, x: Item)
    requires WellFormed(o)
    ensures MergeStep(o, x).order == o.order
      || (MergeStep(o, x).order == o.order + [Key(x)] && Key(x) !in o.fields && Key(x) !in PrototypeNames)
  {
  }

  /** The dictionary's creation order lists the stored keys by their first
      occurrence among the items. */
  lemma {:induction false} CombineOrder(raw: seq<Item>)
    ensures forall i :: 0 <= i < |Combine(raw).order| ==> HasKey(raw, Combine(raw).order[i])
    ensures forall i, j :: 0 <= i < j < |Combine(raw).order| ==>
      FirstIndex(raw, Combine(raw).order[i]) < FirstIndex(raw, Combine(raw).order[j])
  {
    if raw != [] {
      var p := raw[..|raw| - 1];
      var x := raw[|raw| - 1];
      assert raw == p + [x];
      CombineOrder(p);
      CombineEntries(p);
      MergeStepOrder(Combine(p), x);
      var op := Combine(p).order;
      var o := Combine(raw).order;
      forall i | 0 <= i < |op|
        ensures HasKey(raw, op[i]) && FirstIndex(raw, op[i]) == FirstIndex(p, op[i])
      {
        assert raw[..|p|] == p;
        FirstIndexOfPrefix(raw, |p|, op[i]);
      }
      if o != op {
        assert o == op + [Key(x)];
        FirstAtEnd(p, x);
        assert forall i :: 0 <= i < |op| ==> FirstIndex(p, op[i]) < |p|;
      }
    }
  }

  /** `Object.values` of the dictionary: entry `i` is the one for the `i`-th
      key in `Object.values` order, and carries that key. */
  lemma CombinedValues(raw: seq<Item>)
    ensures var o := Combine(raw); var m := Values(o); var ks := KeyOrder(o.order);
      |m| == |ks|
      && forall i :: 0 <= i < |m| ==>
        Stored(raw, ks[i]) && m[i] == MergedEntry(raw, ks[i]) && Key(m[i]) == ks[i]
  {
    var o := Combine(raw);
    CombineEntries(raw);
    var ks := KeyOrder(o.order);
    var m := Values(o);
    forall i | 0 <= i < |m|
      ensures Stored(raw, ks[i]) && m[i] == MergedEntry(raw, ks[i]) && Key(m[i]) == ks[i]
    {
      var k := ks[i];
      assert k in o.fields && m[i] == o.fields[k];
      MergedEntryKey(raw, k);
    }
  }

  lemma MergedEntryKey(raw: seq<Item>, k: string)
    requires HasKey(raw, k)
    ensures Key(MergedEntry(raw, k)) == k
  {
    var f := FirstIndex(raw, k);
    assert MergedEntry(raw, k).productId == raw[f].productId;
  }

  // ---------------------------------------------------------------------------
  // Properties of the merged list

  /** No two merged entries share a key. */
  lemma MergedKeysUnique(data: Option<seq<CartDoc>>, userId: Value)
    ensures var m := Merged(data, userId);
      forall i, j :: 0 <= i < j < |m| ==> Key(m[i]) != Key(m[j])
  {
    var raw := RawItems(data, userId);
    CombinedValues(raw);
    KeyOrderOfObject(Combine(raw));
  }

  /** A key has a merged entry exactly when one of the user's items has it
      and it is not the name of an inherited member. */
  lemma MergedCoversKeys(data: Option<seq<CartDoc>>, userId: Value, k: string)
    ensures var m := Merged(data, userId);
      Stored(RawItems(data, userId), k) <==> exists i :: 0 <= i < |m| && Key(m[i]) == k
  {
    var raw := RawItems(data, userId);
    var o := Combine(raw);
    CombinedValues(raw);
    CombineEntries(raw);
    KeyOrderOfObject(o);
    var ks := KeyOrder(o.order);
    if Stored(raw, k) {
      var i :| 0 <= i < |ks| && ks[i] == k;
      assert Key(Values(o)[i]) == k;
    }
  }

  /** Each merged entry is the first item with its key, with quantity equal
      to that item's quantity plus `q || 1` for every later item with the key. */
  lemma MergedQuantities(data: Option<seq<CartDoc>>, userId: Value)
    ensures var raw := RawItems(data, userId); var m := Merged(data, userId);
      forall i :: 0 <= i < |m| ==> HasKey(raw, Key(m[i])) && m[i] == MergedEntry(raw, Key(m[i]))
  {
    CombinedValues(RawItems(data, userId));
  }

  /** The merged entries come in `Object.values` order of the dictionary
      (`KeyOrder`: array-index keys ascending, then the others as created),
      and the dictionary's keys were created in order of first occurrence. */
  lemma MergedOrder(data: Option<seq<CartDoc>>, userId: Value)
    ensures var raw := RawItems(data, userId); var m := Merged(data, userId);
      var created := Combine(raw).order;
      |m| == |KeyOrder(created)|
      && (forall i :: 0 <= i < |m| ==> Key(m[i]) == KeyOrder(created)[i])
      && (forall i :: 0 <= i < |created| ==> HasKey(raw, created[i]))
      && (forall i, j :: 0 <= i < j < |created| ==> FirstIndex(raw, created[i]) < FirstIndex(raw, created[j]))
  {
    var raw := RawItems(data, userId);
    CombinedValues(raw);
    CombineOrder(raw);
  }

  /** A cart holding only an item with product id "toString" shows an empty
      cart: `combinedItemsMap["toString"]` is the inherited method. */
  lemma InheritedNameDropped()
    ensures Merged(Some([CartDoc(CurrentUser, Some([Item(Str("toString"), Some(1))]))]), CurrentUser) == []
  {
    var c := CartDoc(CurrentUser, Some([Item(Str("toString"), Some(1))]));
    assert CartsOf([c], CurrentUser) == [c] by {
      assert [c][..0] == [];
    }
    assert FlattenItems([c]) == [Item(Str("toString"), Some(1))] by {
      assert [c][..0] == [];
    }
    var raw := [Item(Str("toString"), Some(1))];
    assert raw[..0] == [];
    assert Combine(raw) == Empty();
  }

  /** Two carts of user "2", `[101 x 2]` and `[101 x 1, 202 x 1]`, merge
      into `[101 x 3, 202 x 1]`. */
  lemma TwoCartsScenario()
    ensures Merged(Some([
        CartDoc(CurrentUser, Some([Item(Str("101"), Some(2))])),
        CartDoc(CurrentUser, Some([Item(Str("101"), Some(1)), Item(Str("202"), Some(1))]))]), CurrentUser)
      == [Item(Str("101"), Some(3)), Item(Str("202"), Some(1))]
  {
    var x := Item(Str("101"), Some(2));
    var y := Item(Str("101"), Some(1));
    var z := Item(Str("202"), Some(1));
    var c1 := CartDoc(CurrentUser, Some([x]));
    var c2 := CartDoc(CurrentUser, Some([y, z]));
    TwoCartsRaw(c1, c2);
    var raw := [x, y, z];
    assert [x] + [y, z] == raw;
    assert Key(x) == "101" && Key(z) == "202";
    assert "101" !in PrototypeNames && "202" !in PrototypeNames;
    CombineThree(x, y, z);
    var x3 := Item(Str("101"), Some(3));
    var o := Combine(raw);
    assert o == Object(map["101" := x3, "202" := z], ["101", "202"]);
    ScenarioKeyOrder();
    ValuesOfTwo(o, "101", "202");
    PairOf(Values(o), x3, z);
  }

  /** "101" and "202" are listed by `Object.values` in that order. */
  lemma ScenarioKeyOrder()
    ensures KeyOrder(["101", "202"]) == ["101", "202"]
  {
    assert NatToDecimal(101) == "101" by {
      assert NatToDecimal(10) == "10";
    }
    assert NatToDecimal(202) == "202" by {
      assert NatToDecimal(20) == "20";
    }
    NumberKeyIsIndex(101);
    NumberKeyIsIndex(202);
    KeyOrderOfTwo("101", "202");
  }

  lemma PairOf<T>(m: seq<T>, a: T, b: T)
    requires |m| == 2 && m[0] == a && m[1] == b
    ensures m == [a, b]
  {
  }

  /** Two carts of the user contribute their items in order. */
  lemma TwoCartsRaw(c1: CartDoc, c2: CartDoc)
    requires c1.userId == CurrentUser && c2.userId == CurrentUser
    requires c1.items.Some? && c2.items.Some?
    ensures RawItems(Some([c1, c2]), CurrentUser) == c1.items.value + c2.items.value
  {
    var carts := [c1, c2];
    assert carts[..1] == [c1] && [c1][..0] == [];
    assert CartsOf([c1], CurrentUser) == [c1];
    assert FlattenItems([c1]) == c1.items.value;
  }

  /** Combining `[x, y, z]` where `y` repeats `x`'s key and `z` has another. */
  lemma CombineThree(x: Item, y: Item, z: Item)
    requires Key(x) == Key(y) && Key(x) != Key(z)
    requires Key(x) !in PrototypeNames && Key(z) !in PrototypeNames
    ensures Combine([x, y, z]) == Object(
      map[Key(x) := x.(quantity := Plus(x.quantity, Some(OrElse(y.quantity, 1)))), Key(z) := z],
      [Key(x), Key(z)])
  {
    var raw := [x, y, z];
    assert raw[..2] == [x, y] && [x, y][..1] == [x] && [x][..0] == [];
    var o1 := Combine([x]);
    assert Combine([x][..0]) == Empty();
    assert o1 == MergeStep(Empty(), x);
    MergeStepFields(Empty(), x);
    assert Empty<Item>().order + [Key(x)] == [Key(x)];
    assert o1 == Object(map[Key(x) := x], [Key(x)]);
    var o2 := Combine([x, y]);
    assert o2 == MergeStep(o1, y);
    MergeStepFields(o1, y);
    assert o2 == Object(map[Key(x) := x.(quantity := Plus(x.quantity, Some(OrElse(y.quantity, 1))))], [Key(x)]);
    assert Combine(raw) == MergeStep(o2, z);
    MergeStepFields(o2, z);
  }

  /** `Object.values` lists two array-index keys by their numeric value. */
  lemma KeyOrderOfTwo(a: string, b: string)
    requires IsArrayIndex(a) && IsArrayIndex(b) && IndexValue(a) < IndexValue(b)
    ensures KeyOrder([a, b]) == [a, b]
  {
    var ks := [a, b];
    assert ks[1..] == [b] && [b][1..] == [];
    assert OtherKeys([]) == [] && IndexKeys([]) == [];
    assert IndexKeys([b]) == [b];
    assert OtherKeys([b]) == [];
    assert IndexKeys(ks) == ks;
    assert OtherKeys(ks) == [];
    var r := KeyOrder(ks);
    assert r[..2] == r;
    SortedPair(r, a, b, Rank);
  }

  // ---------------------------------------------------------------------------
  // When the order of the items matters

  /** Every item carries a non-zero number as its quantity. */
  predicate QuantitiesTruthy(raw: seq<Item>)
  {
    forall i :: 0 <= i < |raw| ==> raw[i].quantity.Some? && raw[i].quantity.value != 0
  }

  lemma {:induction false} AddedUnitsAppend(a: seq<Item>, b: seq<Item>, k: string)
    ensures AddedUnits(a + b, k) == AddedUnits(a, k) + AddedUnits(b, k)
    decreases |b|
  {
    if b == [] {
      assert a + b == a;
    } else {
      AddedUnitsAppend(a, b[..|b| - 1], k);
      assert (a + b)[..|a + b| - 1] == a + b[..|b| - 1];
    }
  }

  lemma {:induction false} AddedUnitsAbsent(s: seq<Item>, k: string)
    requires forall i :: 0 <= i < |s| ==> Key(s[i]) != k
    ensures AddedUnits(s, k) == 0
  {
    if s != [] {
      AddedUnitsAbsent(s[..|s| - 1], k);
    }
  }

  /** When every quantity is a non-zero number, the merged quantity of a key
      is the sum of the quantities of all its items. */
  lemma TruthyEntrySums(raw: seq<Item>, k: string)
    requires QuantitiesTruthy(raw) && HasKey(raw, k)
    ensures MergedEntry(raw, k).quantity == Some(AddedUnits(raw, k))
  {
    var f := FirstIndex(raw, k);
    var x := raw[f];
    var pre := raw[..f];
    var post := raw[f + 1..];
    assert raw == (pre + [x]) + post;
    AddedUnitsAppend(pre + [x], post, k);
    assert (pre + [x])[..|pre + [x]| - 1] == pre;
    assert AddedUnits(pre + [x], k) == AddedUnits(pre, k) + OrElse(x.quantity, 1);
    AddedUnitsAbsent(pre, k);
    assert x.quantity == Some(x.quantity.value) && x.quantity.value != 0;
    assert AddedUnits(raw, k) == x.quantity.value + AddedUnits(post, k);
    assert MergedEntry(raw, k).quantity == Plus(x.quantity, Some(AddedUnits(post, k)));
  }

  lemma TruthyAppend(x: seq<Item>, y: seq<Item>)
    ensures QuantitiesTruthy(x + y) <==> QuantitiesTruthy(x) && QuantitiesTruthy(y)
  {
    if QuantitiesTruthy(x + y) {
      assert forall i :: 0 <= i < |x| ==> x[i] == (x + y)[i];
      assert forall i :: 0 <= i < |y| ==> y[i] == (x + y)[|x| + i];
    }
  }

  lemma HasKeyAppend(x: seq<Item>, y: seq<Item>, k: string)
    ensures HasKey(x + y, k) <==> HasKey(x, k) || HasKey(y, k)
  {
    if HasKey(x, k) {
      var i :| 0 <= i < |x| && Key(x[i]) == k;
      assert (x + y)[i] == x[i];
    }
    if HasKey(y, k) {
      var i :| 0 <= i < |y| && Key(y[i]) == k;
      assert (x + y)[|x| + i] == y[i];
    }
  }

  /** With non-zero quantities, the order of two of the user's carts does
      not change the merged quantity of any product. */
  lemma CartOrderIrrelevant(a: seq<CartDoc>, b: seq<CartDoc>, k: string)
    requires QuantitiesTruthy(FlattenItems(a)) && QuantitiesTruthy(FlattenItems(b))
    requires HasKey(FlattenItems(a), k) || HasKey(FlattenItems(b), k)
    ensures HasKey(FlattenItems(a + b), k) && HasKey(FlattenItems(b + a), k)
    ensures MergedEntry(FlattenItems(a + b), k).quantity == MergedEntry(FlattenItems(b + a), k).quantity
  {
    var fa := FlattenItems(a);
    var fb := FlattenItems(b);
    FlattenAppend(a, b);
    FlattenAppend(b, a);
    TruthyAppend(fa, fb);
    TruthyAppend(fb, fa);
    HasKeyAppend(fa, fb, k);
    HasKeyAppend(fb, fa, k);
    AddedUnitsAppend(fa, fb, k);
    AddedUnitsAppend(fb, fa, k);
    TruthyEntrySums(fa + fb, k);
    TruthyEntrySums(fb + fa, k);
  }

  /** Without that condition the order does matter: an item with no
      quantity followed by one with quantity 1 merges to NaN, the other way
      round to 2. */
  lemma OrderMattersWithoutQuantity(id: Value)
    ensures var k := Key(Item(id, None)); var s := [Item(id, None), Item(id, Some(1))];
      HasKey(s, k) && MergedEntry(s, k).quantity == None
    ensures var k := Key(Item(id, None)); var s := [Item(id, Some(1)), Item(id, None)];
      HasKey(s, k) && MergedEntry(s, k).quantity == Some(2)
  {
    var k := Key(Item(id, None));
    var s1 := [Item(id, None), Item(id, Some(1))];
    var s2 := [Item(id, Some(1)), Item(id, None)];
    assert Key(s1[0]) == k && Key(s2[0]) == k;
    assert FirstIndex(s1, k) == 0 && FirstIndex(s2, k) == 0;
    assert s2[1..] == [Item(id, None)] && [Item(id, None)][..0] == [];
    assert AddedUnits(s2[1..], k) == 1;
  }

  // ---------------------------------------------------------------------------
  // Which carts take part

  lemma {:induction false} CartsOfAppend(a: seq<CartDoc>, b: seq<CartDoc>, userId: Value)
    ensures CartsOf(a + b, userId) == CartsOf(a, userId) + CartsOf(b, userId)
    decreases |b|
  {
    if b == [] {
      assert a + b == a;
    } else {
      CartsOfAppend(a, b[..|b| - 1], userId);
      assert (a + b)[..|a + b| - 1] == a + b[..|b| - 1];
    }
  }

  /** A cart whose `userId` is not strictly equal to the user's id changes
      nothing, wherever it stands in the listing. */
  lemma OtherUserIgnored(a: seq<CartDoc>, c: CartDoc, b: seq<CartDoc>, userId: Value)
    requires c.userId != userId
    ensures Merged(Some(a + [c] + b), userId) == Merged(Some(a + b), userId)
  {
    CartsOfAppend(a + [c], b, userId);
    CartsOfAppend(a, [c], userId);
    CartsOfAppend(a, b, userId);
    assert CartsOf([c], userId) == [] by {
      assert [c][..0] == [];
    }
    assert CartsOf(a + [c] + b, userId) == CartsOf(a + b, userId);
    assert UserCarts(Some(a + [c] + b), userId) == UserCarts(Some(a + b), userId);
  }

  /** A cart stored with the number 2 as its `userId` is not one of user
      "2"'s carts: the comparison is strict. */
  lemma NumericUserIdIgnored(a: seq<CartDoc>, items: Option<seq<Item>>, b: seq<CartDoc>)
    ensures Merged(Some(a + [CartDoc(Num(2), items)] + b), CurrentUser) == Merged(Some(a + b), CurrentUser)
  {
    OtherUserIgnored(a, CartDoc(Num(2), items), b, CurrentUser);
  }

  /** A cart of the user contributes its keys, wherever it stands in the
      listing: each key of its items that is not an inherited name has a
      merged line. */
  lemma UserCartShown(a: seq<CartDoc>, c: CartDoc, b: seq<CartDoc>, userId: Value, k: string)
    requires c.userId == userId && c.items.Some? && HasKey(c.items.value, k) && k !in PrototypeNames
    ensures var m := Merged(Some(a + [c] + b), userId);
      exists i :: 0 <= i < |m| && Key(m[i]) == k
  {
    var data := a + [c] + b;
    CartsOfAppend(a + [c], b, userId);
    CartsOfAppend(a, [c], userId);
    assert CartsOf([c], userId) == [c] by {
      assert [c][..0] == [];
    }
    var ca, cb := CartsOf(a, userId), CartsOf(b, userId);
    assert CartsOf(data, userId) == ca + [c] + cb;
    FlattenAppend(ca + [c], cb);
    FlattenAppend(ca, [c]);
    assert FlattenItems([c]) == c.items.value by {
      assert [c][..0] == [];
    }
    var fa, fb := FlattenItems(ca), FlattenItems(cb);
    HasKeyAppend(fa, c.items.value, k);
    HasKeyAppend(fa + c.items.value, fb, k);
    assert Stored(RawItems(Some(data), userId), k);
    MergedCoversKeys(Some(data), userId, k);
  }

  /** A numeric product id's key is a numeral, never the name of an
      inherited member. */
  lemma NumericKeyNotInherited(n: int)
    ensures NumberToString(n) !in PrototypeNames
  {
    var s := NumberToString(n);
    assert s[0] == '-' || IsDigit(s[0]);
  }

  /** Flattening goes cart by cart: the items of `a` precede those of `b`. */
  lemma {:induction false} FlattenAppend(a: seq<CartDoc>, b: seq<CartDoc>)
    ensures FlattenItems(a + b) == FlattenItems(a) + FlattenItems(b)
    decreases |b|
  {
    if b == [] {
      assert a + b == a;
    } else {
      FlattenAppend(a, b[..|b| - 1]);
      assert (a + b)[..|a + b| - 1] == a + b[..|b| - 1];
    }
  }
}
