/** The cart page's price summary (frontend/src/Cart.js): the list price
    total, the discount and the amount payable, each a left fold over the
    cart lines with JavaScript's `||` fallbacks for absent fields. */
module CartPricing {
  import opened Js
  import opened Catalog
  import opened CartReconcile

  /** The fixed platform fee added to every order. */
  const PlatformFee: int := 4

  function OriginalPriceOf(line: CartLine): Option<int>
  {
    if line.Found? then line.product.originalPrice else None
  }

  function PriceOf(line: CartLine): Option<int>
  {
    if line.Found? then line.product.price else None
  }

  /** `item.originalPrice || item.price || 0`. */
  function ListPrice(line: CartLine): int
  {
    OrElse(OriginalPriceOf(line), OrElse(PriceOf(line), 0))
  }

  /** `item.price || 0`. */
  function SalePrice(line: CartLine): int
  {
    OrElse(PriceOf(line), 0)
  }

  /** `item.quantity || 1`. */
  function Units(line: CartLine): int
  {
    if line.quantity != 0 then line.quantity else 1
  }

  function ListAmount(line: CartLine): int
  {
    ListPrice(line) * Units(line)
  }

  function DiscountAmount(line: CartLine): int
  {
    (ListPrice(line) - SalePrice(line)) * Units(line)
  }

  function SaleAmount(line: CartLine): int
  {
    SalePrice(line) * Units(line)
  }

  /** `lines.reduce((sum, item) => sum + f(item), 0)`. */
  function Sum(lines: seq<CartLine>, f: CartLine -> int): int
  {
    if lines == [] then 0 else Sum(lines[..|lines| - 1], f) + f(lines[|lines| - 1])
  }

  /** `price`: the list price total. */
  function Price(lines: seq<CartLine>): int
  {
    Sum(lines, ListAmount)
  }

  /** `discount`. */
  function Discount(lines: seq<CartLine>): int
  {
    Sum(lines, DiscountAmount)
  }

  /** `total = price - discount + platformFee`: what is paid is the sale
      price of every unit plus the fee. */
  function Total(lines: seq<CartLine>): (t: int)
    ensures t == Sum(lines, SaleAmount) + PlatformFee
  {
    PriceMinusDiscount(lines);
    Price(lines) - Discount(lines) + PlatformFee
  }

  lemma {:induction false} PriceMinusDiscount(lines: seq<CartLine>)
    ensures Price(lines) - Discount(lines) == Sum(lines, SaleAmount)
  {
    if lines != [] {
      PriceMinusDiscount(lines[..|lines| - 1]);
      var x := lines[|lines| - 1];
      assert ListAmount(x) - DiscountAmount(x) == SaleAmount(x) by {
        assert ListAmount(x) - DiscountAmount(x) == (ListPrice(x) - (ListPrice(x) - SalePrice(x))) * Units(x);
      }
    }
  }

  /** Summing splits over concatenation. */
  lemma {:induction false} SumAppend(a: seq<CartLine>, b: seq<CartLine>, f: CartLine -> int)
    ensures Sum(a + b, f) == Sum(a, f) + Sum(b, f)
    decreases |b|
  {
    if b == [] {
      assert a + b == a;
    } else {
      SumAppend(a, b[..|b| - 1], f);
      assert (a + b)[..|a + b| - 1] == a + b[..|b| - 1];
    }
  }

  /** A line without an `originalPrice` adds nothing to the discount. */
  lemma NoOriginalPriceNoDiscount(line: CartLine)
    requires OrElse(OriginalPriceOf(line), 0) == 0
    ensures DiscountAmount(line) == 0
  {
  }

  /** A cart whose lines have no `originalPrice` has no discount, and its
      total is its price plus the fee. */
  lemma {:induction false} NoOriginalPricesNoDiscount(lines: seq<CartLine>)
    requires forall i :: 0 <= i < |lines| ==> OrElse(OriginalPriceOf(lines[i]), 0) == 0
    ensures Discount(lines) == 0
    ensures Total(lines) == Price(lines) + PlatformFee
  {
    if lines != [] {
      NoOriginalPricesNoDiscount(lines[..|lines| - 1]);
      NoOriginalPriceNoDiscount(lines[|lines| - 1]);
    }
  }

  /** When no line's list price is below its sale price and every line has a
      positive number of units, the discount is not negative. */
  lemma {:induction false} DiscountNonNegative(lines: seq<CartLine>)
    requires forall i :: 0 <= i < |lines| ==> ListPrice(lines[i]) >= SalePrice(lines[i]) && Units(lines[i]) > 0
    ensures Discount(lines) >= 0
  {
    if lines != [] {
      DiscountNonNegative(lines[..|lines| - 1]);
      var x := lines[|lines| - 1];
      assert DiscountAmount(x) >= 0 by {
        MulNonNegative(ListPrice(x) - SalePrice(x), Units(x));
      }
    }
  }

  lemma MulNonNegative(a: int, b: int)
    requires a >= 0 && b >= 0
    ensures a * b >= 0
  {
  }

  /** Nothing clamps the discount: an `originalPrice` below the `price` makes it negative. */
  lemma NegativeDiscountExample(p: Product, id: Value)
    requires p.originalPrice == Some(900) && p.price == Some(1000)
    ensures Discount([Found(p, id, 1)]) == -100
    ensures Total([Found(p, id, 1)]) == 1004
  {
    var x := Found(p, id, 1);
    SumOne(x, DiscountAmount);
    SumOne(x, SaleAmount);
  }

  /** A product priced 900 with original price 1000, two units: price 2000,
      discount 200, total 1804. */
  lemma TwoUnitsScenario(p: Product, id: Value)
    requires p.originalPrice == Some(1000) && p.price == Some(900)
    ensures Price([Found(p, id, 2)]) == 2000
    ensures Discount([Found(p, id, 2)]) == 200
    ensures Total([Found(p, id, 2)]) == 1804
  {
    var x := Found(p, id, 2);
    SumOne(x, ListAmount);
    SumOne(x, DiscountAmount);
    SumOne(x, SaleAmount);
  }

  lemma SumOne(x: CartLine, f: CartLine -> int)
    ensures Sum([x], f) == f(x)
  {
    assert [x][..0] == [];
  }

  /** An empty cart costs the platform fee alone. */
  lemma EmptyCart()
    ensures Price([]) == 0 && Discount([]) == 0 && Total([]) == PlatformFee
  {
  }

  /** A missing product counts at price 0 whatever its quantity. */
  lemma MissingLineFree(id: Value, q: int)
    ensures ListAmount(Missing(id, q)) == 0 && DiscountAmount(Missing(id, q)) == 0
  {
  }
}
