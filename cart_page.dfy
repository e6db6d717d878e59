/** The cart page's state (frontend/src/Cart.js): the list of cart lines,
    filled once from the carts listing and the catalog, then changed by the
    quantity buttons and the remove button. */
module CartPage {
  import opened Js
  import opened Catalog
  import opened CartMerge
  import opened CartReconcile
  import opened CartPricing

  /** `handleQuantity(idx, delta)`: the line's `quantity || 1` moves by
      `delta` when the result stays positive; otherwise nothing changes. An
      index past the end throws before anything changes. */
  function Adjusted(lines: seq<CartLine>, idx: nat, delta: int): seq<CartLine>
  {
    if idx < |lines| && Units(lines[idx]) + delta > 0 then
      lines[idx := lines[idx].(quantity := Units(lines[idx]) + delta)]
    else
      lines
  }

  /** `handleRemove(idx)`: `splice(idx, 1)` on a copy of the list. */
  function Spliced(lines: seq<CartLine>, idx: nat): seq<CartLine>
  {
    if idx < |lines| then lines[..idx] + lines[idx + 1..] else lines
  }

  /** Every line carries a non-zero quantity. */
  predicate QuantitiesSet(lines: seq<CartLine>)
  {
    forall i :: 0 <= i < |lines| ==> lines[i].quantity != 0
  }

  class Cart {
    var lines: seq<CartLine>

    ghost predicate Valid()
      reads this
    {
      QuantitiesSet(lines)
    }

    constructor ()
      ensures lines == [] && Valid()
    {
      lines := [];
    }

    /** The page's load effect, given the parsed carts listing and catalog
        response. */
    method Load(carts: Option<seq<CartDoc>>, response: Response)
      modifies this
      ensures lines == Loaded(carts, response) && Valid()
    {
      var merged := MergeUserCarts(carts, CurrentUser);
      var catalog := FlattenCartResponse(response);
      lines := Reconcile(merged, catalog);
    }

    method HandleQuantity(idx: nat, delta: int)
      requires Valid()
      modifies this
      ensures lines == Adjusted(old(lines), idx, delta) && Valid()
    {
      if idx < |lines| {
        var line := lines[idx];
        var current := if line.quantity != 0 then line.quantity else 1;
        if current + delta > 0 {
          lines := lines[idx := line.(quantity := current + delta)];
        }
      }
    }

    method HandleRemove(idx: nat)
      requires Valid()
      modifies this
      ensures lines == Spliced(old(lines), idx) && Valid()
    {
      if idx < |lines| {
        lines := lines[..idx] + lines[idx + 1..];
      }
    }
  }

  // ---------------------------------------------------------------------------
  // What the buttons do

  /** Decrementing a line of quantity 1 changes nothing. */
  lemma DecrementAtOneIsNoop(lines: seq<CartLine>, idx: nat)
    requires idx < |lines| && lines[idx].quantity == 1
    ensures Adjusted(lines, idx, -1) == lines
  {
  }

  /** A quantity change touches only line `idx`, and only its quantity, which
      becomes positive. */
  lemma AdjustedChangesOneQuantity(lines: seq<CartLine>, idx: nat, delta: int)
    ensures var r := Adjusted(lines, idx, delta);
      |r| == |lines|
      && (forall j :: 0 <= j < |lines| && j != idx ==> r[j] == lines[j])
      && (idx < |lines| ==> r[idx] == lines[idx].(quantity := r[idx].quantity))
      && (idx < |lines| && r[idx].quantity != lines[idx].quantity ==> r[idx].quantity > 0)
      && (QuantitiesSet(lines) ==> QuantitiesSet(r))
  {
  }

  /** `+` then `-` on a line with a positive quantity restores the list. */
  lemma IncrementThenDecrement(lines: seq<CartLine>, idx: nat)
    requires idx < |lines| && lines[idx].quantity > 0
    ensures Adjusted(Adjusted(lines, idx, 1), idx, -1) == lines
  {
    var once := Adjusted(lines, idx, 1);
    assert once[idx].quantity == lines[idx].quantity + 1;
    assert once[idx := once[idx].(quantity := lines[idx].quantity)] == lines;
  }

  /** Sum over a list with one line replaced. */
  lemma SumUpdate(lines: seq<CartLine>, idx: nat, x: CartLine, f: CartLine -> int)
    requires idx < |lines|
    ensures Sum(lines[idx := x], f) == Sum(lines, f) - f(lines[idx]) + f(x)
  {
    var pre := lines[..idx];
    var post := lines[idx + 1..];
    assert lines == pre + [lines[idx]] + post;
    assert lines[idx := x] == pre + [x] + post;
    SumAppend(pre + [lines[idx]], post, f);
    SumAppend(pre + [x], post, f);
    SumAppend(pre, [lines[idx]], f);
    SumAppend(pre, [x], f);
    SumOne(lines[idx], f);
    SumOne(x, f);
  }

  /** A quantity change of `delta` that is applied moves the price by the
      line's list price times `delta` and the total by its sale price times
      `delta`. */
  lemma AdjustedPrice(lines: seq<CartLine>, idx: nat, delta: int)
    requires idx < |lines| && lines[idx].quantity != 0 && lines[idx].quantity + delta > 0
    ensures Price(Adjusted(lines, idx, delta)) == Price(lines) + ListPrice(lines[idx]) * delta
    ensures Total(Adjusted(lines, idx, delta)) == Total(lines) + SalePrice(lines[idx]) * delta
  {
    var x := lines[idx];
    var y := x.(quantity := x.quantity + delta);
    assert Adjusted(lines, idx, delta) == lines[idx := y];
    SumUpdate(lines, idx, y, ListAmount);
    SumUpdate(lines, idx, y, SaleAmount);
    AmountsOfAdjustedLine(x, delta);
  }

  /** A line's amounts grow by its unit prices times the change in quantity. */
  lemma AmountsOfAdjustedLine(x: CartLine, delta: int)
    requires x.quantity != 0 && x.quantity + delta > 0
    ensures ListAmount(x.(quantity := x.quantity + delta)) == ListAmount(x) + ListPrice(x) * delta
    ensures SaleAmount(x.(quantity := x.quantity + delta)) == SaleAmount(x) + SalePrice(x) * delta
  {
    var y := x.(quantity := x.quantity + delta);
    assert ListPrice(y) == ListPrice(x) && SalePrice(y) == SalePrice(x);
    assert Units(y) == x.quantity + delta && Units(x) == x.quantity;
    Distribute(ListPrice(x), x.quantity, delta);
    Distribute(SalePrice(x), x.quantity, delta);
  }

  lemma Distribute(a: int, b: int, c: int)
    ensures a * (b + c) == a * b + a * c
  {
  }

  /** Removing deletes exactly line `idx`: the list shrinks by one, the other
      lines keep their order, and nothing else is lost. */
  lemma SplicedRemovesOne(lines: seq<CartLine>, idx: nat)
    requires idx < |lines|
    ensures var r := Spliced(lines, idx);
      |r| == |lines| - 1
      && (forall j :: 0 <= j < idx ==> r[j] == lines[j])
      && (forall j :: idx <= j < |r| ==> r[j] == lines[j + 1])
      && multiset(r) + multiset{lines[idx]} == multiset(lines)
  {
    assert lines == lines[..idx] + [lines[idx]] + lines[idx + 1..];
  }

  /** Removing a line takes its amounts off the price, the discount and the total. */
  lemma SplicedPrice(lines: seq<CartLine>, idx: nat)
    requires idx < |lines|
    ensures Price(Spliced(lines, idx)) == Price(lines) - ListAmount(lines[idx])
    ensures Discount(Spliced(lines, idx)) == Discount(lines) - DiscountAmount(lines[idx])
    ensures Total(Spliced(lines, idx)) == Total(lines) - SaleAmount(lines[idx])
  {
    var pre := lines[..idx];
    var post := lines[idx + 1..];
    assert lines == pre + [lines[idx]] + post;
    forall f: CartLine -> int
      ensures Sum(Spliced(lines, idx), f) == Sum(lines, f) - f(lines[idx])
    {
      SumAppend(pre + [lines[idx]], post, f);
      SumAppend(pre, [lines[idx]], f);
      SumAppend(pre, post, f);
      SumOne(lines[idx], f);
    }
  }

  /** A missing product's line never changes what is charged. */
  lemma RemovingMissingLineKeepsTotal(lines: seq<CartLine>, idx: nat)
    requires idx < |lines| && lines[idx].Missing?
    ensures Price(Spliced(lines, idx)) == Price(lines)
    ensures Total(Spliced(lines, idx)) == Total(lines)
  {
    SplicedPrice(lines, idx);
  }
}
