/** A plain JavaScript object used as a dictionary (`const m = {}; m[k] = v`)
    and the order in which `Object.values` lists its properties: keys that
    are array indices first, in ascending numeric order, then every other key
    in the order it was first created. */
module JsObject {
  import opened Js

  /** The object's own string-keyed properties and their creation order. */
  datatype Object<V> = Object(fields: map<string, V>, order: seq<string>)

  /** No element occurs twice. */
  ghost predicate Distinct(s: seq<string>)
  {
    forall x :: multiset(s)[x] <= 1
  }

  /** The creation order lists every property exactly once. */
  ghost predicate WellFormed<V>(o: Object<V>)
  {
    (forall k :: k in o.fields <==> k in o.order) && Distinct(o.order)
  }

  function Empty<V>(): (o: Object<V>)
    ensures WellFormed(o) && o.fields == map[]
  {
    Object(map[], [])
  }

  /** `o[k] = v`: a new key is appended to the creation order, an existing
      key keeps its place. */
  function Put<V>(o: Object<V>, k: string, v: V): (r: Object<V>)
    requires WellFormed(o)
    ensures WellFormed(r)
  {
    if k in o.fields then Object(o.fields[k := v], o.order)
    else Object(o.fields[k := v], o.order + [k])
  }

  // ---------------------------------------------------------------------------
  // Array-index keys

  /** 2^32 - 2, the largest array index. */
  const MaxArrayIndex: nat := 4294967294

  /** A key that is the canonical numeral of an array index. */
  predicate IsArrayIndex(k: string)
  {
    k != [] && AllDigits(k) && (k[0] == '0' ==> |k| == 1)
    && (forall i :: 0 <= i < |k| ==> CharDigit(k[i]) < 10)
    && RadixValue(k, 10) <= MaxArrayIndex
  }

  function IndexValue(k: string): nat
    requires IsArrayIndex(k)
  {
    RadixValue(k, 10)
  }

  /** The key `String(n)` of a number is an array index exactly when `n` is
      a whole number no larger than 2^32 - 2; it then stands for `n`. */
  lemma NumberKeyIsIndex(n: int)
    ensures IsArrayIndex(ToStr(Num(n))) <==> 0 <= n <= MaxArrayIndex
    ensures 0 <= n <= MaxArrayIndex ==> IndexValue(ToStr(Num(n))) == n
  {
    if n >= 0 {
      DecimalRoundTrip(n);
    } else {
      assert ToStr(Num(n))[0] == '-';
    }
  }

  predicate AllIndices(s: seq<string>)
  {
    forall i :: 0 <= i < |s| ==> IsArrayIndex(s[i])
  }

  /** The numeric value of an array-index key; other keys rank 0 (they are
      never compared). */
  function Rank(k: string): nat
  {
    if IsArrayIndex(k) then IndexValue(k) else 0
  }

  predicate SortedBy<T>(s: seq<T>, rank: T -> nat)
  {
    forall i, j :: 0 <= i < j < |s| ==> rank(s[i]) <= rank(s[j])
  }

  /** The array-index keys of `ks`, in their order in `ks`. */
  function IndexKeys(ks: seq<string>): (r: seq<string>)
    ensures AllIndices(r)
  {
    if ks == [] then []
    else (if IsArrayIndex(ks[0]) then [ks[0]] else []) + IndexKeys(ks[1..])
  }

  /** The other keys of `ks`, in their order in `ks`. */
  function OtherKeys(ks: seq<string>): (r: seq<string>)
    ensures forall i :: 0 <= i < |r| ==> !IsArrayIndex(r[i])
  {
    if ks == [] then []
    else (if IsArrayIndex(ks[0]) then [] else [ks[0]]) + OtherKeys(ks[1..])
  }

  lemma {:induction false} SplitKeys(ks: seq<string>)
    ensures multiset(IndexKeys(ks)) + multiset(OtherKeys(ks)) == multiset(ks)
  {
    if ks != [] {
      SplitKeys(ks[1..]);
      assert ks == [ks[0]] + ks[1..];
    }
  }

  /** Insertion of one element into a list sorted by `rank`. */
  function InsertBy<T>(x: T, s: seq<T>, rank: T -> nat): (r: seq<T>)
    ensures multiset(r) == multiset(s) + multiset{x}
    ensures SortedBy(s, rank) ==> SortedBy(r, rank)
  {
    if s == [] then [x]
    else if rank(x) <= rank(s[0]) then [x] + s
    else
      var rest := InsertBy(x, s[1..], rank);
      assert s == [s[0]] + s[1..];
      InsertAfterHead(x, s, rest, rank);
      [s[0]] + rest
  }

  /** The head of a sorted list stays in front when a larger element is
      inserted into its tail. */
  lemma InsertAfterHead<T>(x: T, s: seq<T>, rest: seq<T>, rank: T -> nat)
    requires s != [] && rank(s[0]) < rank(x)
    requires multiset(rest) == multiset(s[1..]) + multiset{x}
    requires SortedBy(s[1..], rank) ==> SortedBy(rest, rank)
    ensures SortedBy(s, rank) ==> SortedBy([s[0]] + rest, rank)
  {
    if SortedBy(s, rank) {
      assert SortedBy(s[1..], rank) by {
        forall i, j | 0 <= i < j < |s[1..]|
          ensures rank(s[1..][i]) <= rank(s[1..][j])
        {
          assert s[1..][i] == s[i + 1] && s[1..][j] == s[j + 1];
        }
      }
      forall y | y in rest
        ensures rank(s[0]) <= rank(y)
      {
        assert y in multiset(rest);
        if y != x {
          assert y in multiset(s[1..]);
          var k :| 0 <= k < |s[1..]| && s[1..][k] == y;
          assert s[k + 1] == y;
        }
      }
      var r := [s[0]] + rest;
      forall i, j | 0 <= i < j < |r|
        ensures rank(r[i]) <= rank(r[j])
      {
        assert r[j] == rest[j - 1] && rest[j - 1] in rest;
        if i > 0 {
          assert r[i] == rest[i - 1];
        }
      }
    }
  }

  /** Insertion sort by `rank`. */
  function SortBy<T>(s: seq<T>, rank: T -> nat): (r: seq<T>)
    ensures SortedBy(r, rank)
    ensures multiset(r) == multiset(s)
  {
    if s == [] then []
    else
      assert s == [s[0]] + s[1..];
      InsertBy(s[0], SortBy(s[1..], rank), rank)
  }

  /** The only sorted arrangement of two elements of different rank. */
  lemma SortedPair<T>(r: seq<T>, x: T, y: T, rank: T -> nat)
    requires multiset(r) == multiset{x, y} && SortedBy(r, rank) && rank(x) < rank(y)
    ensures r == [x, y]
  {
    assert |r| == 2 by {
      assert |multiset(r)| == 2;
    }
    assert r == [r[0], r[1]];
    assert multiset(r) == multiset{r[0], r[1]};
    assert x in multiset(r) && y in multiset(r);
    assert rank(r[0]) <= rank(r[1]);
  }

  /** The order in which `Object.values` lists the properties created in
      `order`: the array-index keys ascending, then the others as created. */
  function KeyOrder(order: seq<string>): (r: seq<string>)
    ensures multiset(r) == multiset(order)
    ensures var m := |IndexKeys(order)|;
      m <= |r|
      && AllIndices(r[..m]) && SortedBy(r[..m], Rank)
      && r[m..] == OtherKeys(order)
  {
    SplitKeys(order);
    var sorted := SortBy(IndexKeys(order), Rank);
    assert forall i :: 0 <= i < |sorted| ==> sorted[i] in multiset(IndexKeys(order));
    assert |sorted| == |IndexKeys(order)| by {
      assert |multiset(sorted)| == |multiset(IndexKeys(order))|;
    }
    var r := sorted + OtherKeys(order);
    assert r[..|sorted|] == sorted && r[|sorted|..] == OtherKeys(order);
    r
  }

  /** The listing order holds the created keys and nothing else. */
  lemma KeyOrderMembers(order: seq<string>)
    ensures forall i :: 0 <= i < |KeyOrder(order)| ==> KeyOrder(order)[i] in order
  {
    var r := KeyOrder(order);
    forall i | 0 <= i < |r|
      ensures r[i] in order
    {
      assert r[i] in multiset(r);
    }
  }

  /** `Object.values(o)`. */
  function Values<V>(o: Object<V>): (r: seq<V>)
    requires WellFormed(o)
    ensures |r| == |KeyOrder(o.order)|
    ensures forall i :: 0 <= i < |r| ==> KeyOrder(o.order)[i] in o.fields && r[i] == o.fields[KeyOrder(o.order)[i]]
  {
    var ks := KeyOrder(o.order);
    KeyOrderMembers(o.order);
    seq(|ks|, i requires 0 <= i < |ks| => o.fields[ks[i]])
  }

  /** The values of an object whose keys are listed as `a`, then `b`. */
  lemma ValuesOfTwo<V>(o: Object<V>, a: string, b: string)
    requires WellFormed(o) && a in o.fields && b in o.fields
    requires KeyOrder(o.order) == [a, b]
    ensures |Values(o)| == 2 && Values(o)[0] == o.fields[a] && Values(o)[1] == o.fields[b]
  {
  }

  // ---------------------------------------------------------------------------
  // Distinctness

  lemma RepeatCounts(s: seq<string>, i: nat, j: nat)
    requires i < j < |s|
    ensures s[i] == s[j] ==> multiset(s)[s[i]] >= 2
  {
    assert s == s[..j] + s[j..];
    assert s[i] in s[..j];
    assert s[j] == s[j..][0];
    assert multiset(s)[s[i]] == multiset(s[..j])[s[i]] + multiset(s[j..])[s[i]];
  }

  /** No element occurs twice: no two positions hold the same element. */
  lemma DistinctPairwise(s: seq<string>)
    requires Distinct(s)
    ensures forall i, j :: 0 <= i < j < |s| ==> s[i] != s[j]
  {
    forall i, j | 0 <= i < j < |s|
      ensures s[i] != s[j]
    {
      RepeatCounts(s, i, j);
    }
  }

  /** Every key of the object is listed by `Object.values`, once. */
  lemma KeyOrderOfObject<V>(o: Object<V>)
    requires WellFormed(o)
    ensures forall k :: k in o.fields <==> k in KeyOrder(o.order)
    ensures forall i, j :: 0 <= i < j < |KeyOrder(o.order)| ==> KeyOrder(o.order)[i] != KeyOrder(o.order)[j]
  {
    var ks := KeyOrder(o.order);
    assert forall k :: k in ks <==> k in multiset(o.order);
    assert Distinct(ks);
    DistinctPairwise(ks);
  }
}
