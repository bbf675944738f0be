/**
 * The visible product list: the effect in src/App.tsx that filters the catalog
 * by search text and category and orders a copy of the result by unit price.
 */
module View {
  import opened Wrappers
  import opened Catalog
  import Text

  /** The lower-cased product name contains the lower-cased search text. */
  predicate MatchesSearch(p: Product, searchText: string)
    ensures MatchesSearch(p, searchText)
        <==> exists i :: Text.OccursAt(Text.Lower(p.productName), Text.Lower(searchText), i)
  {
    Text.IncludesIffOccurs(Text.Lower(p.productName), Text.Lower(searchText));
    Text.Includes(Text.Lower(p.productName), Text.Lower(searchText))
  }

  /** No category selected (`null`), or the product is in the selected one. */
  predicate MatchesCategory(p: Product, selected: Option<string>) {
    selected.None? || p.category == selected.value
  }

  /** The `filter` callback: both the search text and the category match. */
  predicate Matches(p: Product, searchText: string, selected: Option<string>)
    ensures Matches(p, searchText, selected)
        <==> (exists i :: Text.OccursAt(Text.Lower(p.productName), Text.Lower(searchText), i))
             && (selected.None? || p.category == selected.value)
  {
    MatchesSearch(p, searchText) && MatchesCategory(p, selected)
  }

  /** `jsonData.filter(...)`: the matching products, in catalog order. */
  function Filtered(catalog: seq<Product>, searchText: string, selected: Option<string>): (r: seq<Product>)
    ensures |r| <= |catalog|
    decreases |catalog|
  {
    if catalog == [] then []
    else (if Matches(catalog[0], searchText, selected) then [catalog[0]] else [])
         + Filtered(catalog[1..], searchText, selected)
  }

  /** The comparator handed to `sort`: a negative result puts `a` before `b`. */
  function Compare(a: Product, b: Product, isHighToLow: bool): (r: int)
    ensures r < 0 <==> if isHighToLow then a.unitPrice > b.unitPrice else a.unitPrice < b.unitPrice
    ensures r == 0 <==> a.unitPrice == b.unitPrice
  {
    if isHighToLow then b.unitPrice - a.unitPrice else a.unitPrice - b.unitPrice
  }

  /**
   * Inserts `x`, which comes earlier in the input than every element of `sorted`,
   * in front of the first element the comparator does not put strictly before `x`.
   */
  function Insert(x: Product, sorted: seq<Product>, isHighToLow: bool): (r: seq<Product>)
    ensures |r| == |sorted| + 1
    decreases |sorted|
  {
    if sorted == [] || Compare(sorted[0], x, isHighToLow) >= 0 then [x] + sorted
    else [sorted[0]] + Insert(x, sorted[1..], isHighToLow)
  }

  /** `slice().sort(compare)`: `Array.prototype.sort` is stable, so this is a stable insertion sort. */
  function SortByPrice(s: seq<Product>, isHighToLow: bool): (r: seq<Product>)
    ensures |r| == |s|
    decreases |s|
  {
    if s == [] then [] else Insert(s[0], SortByPrice(s[1..], isHighToLow), isHighToLow)
  }

  /** The list the effect stores as `filteredData`. */
  function Visible(catalog: seq<Product>, searchText: string, selected: Option<string>, isHighToLow: bool): (r: seq<Product>)
    ensures |r| <= |catalog|
    ensures forall i, j :: 0 <= i < j < |r| ==>
      if isHighToLow then r[i].unitPrice >= r[j].unitPrice else r[i].unitPrice <= r[j].unitPrice
  {
    SortOrderedPermutation(Filtered(catalog, searchText, selected), isHighToLow);
    SortByPrice(Filtered(catalog, searchText, selected), isHighToLow)
  }

  /** No later element is put strictly before an earlier one by the comparator. */
  predicate Ordered(s: seq<Product>, isHighToLow: bool) {
    forall i, j :: 0 <= i < j < |s| ==> Compare(s[i], s[j], isHighToLow) <= 0
  }

  /** The products of `s` with the given price, in the order of `s`. */
  function WithPrice(s: seq<Product>, price: int): seq<Product>
    decreases |s|
  {
    if s == [] then [] else (if s[0].unitPrice == price then [s[0]] else []) + WithPrice(s[1..], price)
  }

  // ---------------------------------------------------------------- filter

  /** Each product appears in the filtered list as often as in the catalog if it matches, else never. */
  lemma {:induction false} FilteredCount(catalog: seq<Product>, searchText: string, selected: Option<string>, x: Product)
    ensures multiset(Filtered(catalog, searchText, selected))[x]
         == if Matches(x, searchText, selected) then multiset(catalog)[x] else 0
    decreases |catalog|
  {
    if catalog != [] {
      FilteredCount(catalog[1..], searchText, selected, x);
      assert catalog == [catalog[0]] + catalog[1..];
    }
  }

  /** Filtering commutes with concatenation, so it keeps the catalog's relative order. */
  lemma {:induction false} FilteredAppend(a: seq<Product>, b: seq<Product>, searchText: string, selected: Option<string>)
    ensures Filtered(a + b, searchText, selected) == Filtered(a, searchText, selected) + Filtered(b, searchText, selected)
    decreases |a|
  {
    if a == [] {
      assert a + b == b;
    } else {
      var head := if Matches(a[0], searchText, selected) then [a[0]] else [];
      assert (a + b)[0] == a[0];
      assert (a + b)[1..] == a[1..] + b;
      assert Filtered(a + b, searchText, selected) == head + Filtered(a[1..] + b, searchText, selected);
      FilteredAppend(a[1..], b, searchText, selected);
      assert Filtered(a, searchText, selected) == head + Filtered(a[1..], searchText, selected);
    }
  }

  /** Filtering a list whose every element matches gives the list back. */
  lemma {:induction false} FilteredAllMatching(s: seq<Product>, searchText: string, selected: Option<string>)
    requires forall x :: x in s ==> Matches(x, searchText, selected)
    ensures Filtered(s, searchText, selected) == s
    decreases |s|
  {
    if s != [] {
      assert s[0] in s;
      forall x | x in s[1..] ensures Matches(x, searchText, selected) {
        assert x in s;
      }
      FilteredAllMatching(s[1..], searchText, selected);
      assert s == [s[0]] + s[1..];
    }
  }

  /** With empty search text and no category the filter keeps the whole catalog. */
  lemma {:induction false} FilteredUnrestricted(catalog: seq<Product>)
    ensures Filtered(catalog, "", None) == catalog
  {
    forall x | x in catalog ensures Matches(x, "", None) {
      assert Text.Lower("") == "";
      Text.EmptyIncludedEverywhere(Text.Lower(x.productName));
    }
    FilteredAllMatching(catalog, "", None);
  }

  // ---------------------------------------------------------------- sort

  /** `y` is put no later than any element of `s`. */
  predicate Precedes(y: Product, s: seq<Product>, isHighToLow: bool) {
    forall k :: 0 <= k < |s| ==> Compare(y, s[k], isHighToLow) <= 0
  }

  lemma OrderedCons(y: Product, s: seq<Product>, isHighToLow: bool)
    requires Precedes(y, s, isHighToLow) && Ordered(s, isHighToLow)
    ensures Ordered([y] + s, isHighToLow)
  {
    var r := [y] + s;
    forall i, j | 0 <= i < j < |r| ensures Compare(r[i], r[j], isHighToLow) <= 0 {
      assert r[j] == s[j - 1];
      if i > 0 {
        assert r[i] == s[i - 1];
      }
    }
  }

  lemma OrderedTail(s: seq<Product>, isHighToLow: bool)
    requires s != [] && Ordered(s, isHighToLow)
    ensures Precedes(s[0], s[1..], isHighToLow) && Ordered(s[1..], isHighToLow)
  {
    forall i, j | 0 <= i < j < |s[1..]| ensures Compare(s[1..][i], s[1..][j], isHighToLow) <= 0 {
      assert s[1..][i] == s[i + 1] && s[1..][j] == s[j + 1];
    }
    forall k | 0 <= k < |s[1..]| ensures Compare(s[0], s[1..][k], isHighToLow) <= 0 {
      assert s[1..][k] == s[k + 1];
    }
  }

  lemma {:induction false} InsertPermutation(x: Product, t: seq<Product>, isHighToLow: bool)
    ensures multiset(Insert(x, t, isHighToLow)) == multiset(t) + multiset{x}
    decreases |t|
  {
    if t != [] && Compare(t[0], x, isHighToLow) < 0 {
      InsertPermutation(x, t[1..], isHighToLow);
      assert t == [t[0]] + t[1..];
    }
  }

  lemma InsertPrecedes(y: Product, x: Product, t: seq<Product>, isHighToLow: bool)
    requires Compare(y, x, isHighToLow) <= 0 && Precedes(y, t, isHighToLow)
    ensures Precedes(y, Insert(x, t, isHighToLow), isHighToLow)
  {
    var r := Insert(x, t, isHighToLow);
    InsertPermutation(x, t, isHighToLow);
    forall k | 0 <= k < |r| ensures Compare(y, r[k], isHighToLow) <= 0 {
      assert r[k] in multiset(r);
      if r[k] != x {
        assert r[k] in multiset(t);
        var m :| 0 <= m < |t| && t[m] == r[k];
      }
    }
  }

  lemma {:induction false} InsertOrdered(x: Product, t: seq<Product>, isHighToLow: bool)
    requires Ordered(t, isHighToLow)
    ensures Ordered(Insert(x, t, isHighToLow), isHighToLow)
    decreases |t|
  {
    if t == [] {
      OrderedCons(x, t, isHighToLow);
    } else if Compare(t[0], x, isHighToLow) >= 0 {
      OrderedTail(t, isHighToLow);
      OrderedCons(x, t, isHighToLow);
    } else {
      OrderedTail(t, isHighToLow);
      InsertOrdered(x, t[1..], isHighToLow);
      InsertPrecedes(t[0], x, t[1..], isHighToLow);
      OrderedCons(t[0], Insert(x, t[1..], isHighToLow), isHighToLow);
    }
  }

  /** The sort yields an ordered permutation of its input. */
  lemma {:induction false} SortOrderedPermutation(s: seq<Product>, isHighToLow: bool)
    ensures Ordered(SortByPrice(s, isHighToLow), isHighToLow)
    ensures multiset(SortByPrice(s, isHighToLow)) == multiset(s)
    decreases |s|
  {
    if s != [] {
      SortOrderedPermutation(s[1..], isHighToLow);
      InsertOrdered(s[0], SortByPrice(s[1..], isHighToLow), isHighToLow);
      InsertPermutation(s[0], SortByPrice(s[1..], isHighToLow), isHighToLow);
      assert s == [s[0]] + s[1..];
    }
  }

  lemma {:induction false} InsertWithPrice(x: Product, t: seq<Product>, isHighToLow: bool, price: int)
    ensures WithPrice(Insert(x, t, isHighToLow), price)
         == (if x.unitPrice == price then [x] else []) + WithPrice(t, price)
    decreases |t|
  {
    var own := if x.unitPrice == price then [x] else [];
    if t == [] || Compare(t[0], x, isHighToLow) >= 0 {
      var r := [x] + t;
      assert Insert(x, t, isHighToLow) == r;
      assert r[0] == x && r[1..] == t;
      assert WithPrice(r, price) == own + WithPrice(t, price);
    } else {
      var tail := Insert(x, t[1..], isHighToLow);
      var r := [t[0]] + tail;
      assert Insert(x, t, isHighToLow) == r;
      InsertWithPrice(x, t[1..], isHighToLow, price);
      var first := if t[0].unitPrice == price then [t[0]] else [];
      assert r[0] == t[0] && r[1..] == tail;
      assert WithPrice(r, price) == first + WithPrice(tail, price);
      assert WithPrice(t, price) == first + WithPrice(t[1..], price);
      assert t[0].unitPrice != x.unitPrice;
      assert first == [] || own == [];
    }
  }

  /** The sort is stable: products of equal price keep their relative order. */
  lemma {:induction false} SortStable(s: seq<Product>, isHighToLow: bool, price: int)
    ensures WithPrice(SortByPrice(s, isHighToLow), price) == WithPrice(s, price)
    decreases |s|
  {
    if s != [] {
      SortStable(s[1..], isHighToLow, price);
      InsertWithPrice(s[0], SortByPrice(s[1..], isHighToLow), isHighToLow, price);
    }
  }

  /** Sorting an already ordered list changes nothing. */
  lemma {:induction false} SortOrderedIsIdentity(s: seq<Product>, isHighToLow: bool)
    requires Ordered(s, isHighToLow)
    ensures SortByPrice(s, isHighToLow) == s
    decreases |s|
  {
    if s != [] {
      OrderedTail(s, isHighToLow);
      SortOrderedIsIdentity(s[1..], isHighToLow);
      if |s| > 1 {
        assert Compare(s[0], s[1], isHighToLow) <= 0;
      }
      assert [s[0]] + s[1..] == s;
    }
  }

  // ---------------------------------------------------------------- the visible list

  /** A product is visible exactly when it is in the catalog and matches both filters. */
  lemma VisibleMembers(catalog: seq<Product>, searchText: string, selected: Option<string>, isHighToLow: bool, x: Product)
    ensures x in Visible(catalog, searchText, selected, isHighToLow)
        <==> x in catalog && Matches(x, searchText, selected)
  {
    SortOrderedPermutation(Filtered(catalog, searchText, selected), isHighToLow);
    FilteredCount(catalog, searchText, selected, x);
  }

  /** `VisibleMembers` for every product at once. */
  lemma VisibleExactly(catalog: seq<Product>, searchText: string, selected: Option<string>, isHighToLow: bool)
    ensures forall x :: (x in Visible(catalog, searchText, selected, isHighToLow)
                         <==> x in catalog && Matches(x, searchText, selected))
  {
    forall x ensures x in Visible(catalog, searchText, selected, isHighToLow)
        <==> x in catalog && Matches(x, searchText, selected) {
      VisibleMembers(catalog, searchText, selected, isHighToLow, x);
    }
  }

  /** The visible list is a permutation of the filtered catalog, multiplicities included. */
  lemma VisiblePermutation(catalog: seq<Product>, searchText: string, selected: Option<string>, isHighToLow: bool, x: Product)
    ensures multiset(Visible(catalog, searchText, selected, isHighToLow)) == multiset(Filtered(catalog, searchText, selected))
    ensures multiset(Visible(catalog, searchText, selected, isHighToLow))[x]
         == if Matches(x, searchText, selected) then multiset(catalog)[x] else 0
  {
    SortOrderedPermutation(Filtered(catalog, searchText, selected), isHighToLow);
    FilteredCount(catalog, searchText, selected, x);
  }

  /** Prices never decrease along the list, or never increase when sorting high to low. */
  lemma VisibleSortedByPrice(catalog: seq<Product>, searchText: string, selected: Option<string>, isHighToLow: bool)
    ensures var r := Visible(catalog, searchText, selected, isHighToLow);
      forall i, j :: 0 <= i < j < |r| ==>
        if isHighToLow then r[i].unitPrice >= r[j].unitPrice else r[i].unitPrice <= r[j].unitPrice
  {
    SortOrderedPermutation(Filtered(catalog, searchText, selected), isHighToLow);
  }

  /** Visible products of equal price appear in catalog order. */
  lemma VisibleStable(catalog: seq<Product>, searchText: string, selected: Option<string>, isHighToLow: bool, price: int)
    ensures WithPrice(Visible(catalog, searchText, selected, isHighToLow), price)
         == WithPrice(Filtered(catalog, searchText, selected), price)
  {
    SortStable(Filtered(catalog, searchText, selected), isHighToLow, price);
  }

  /** Recomputing the list from the list itself, with the same inputs, gives it back. */
  lemma VisibleIdempotent(catalog: seq<Product>, searchText: string, selected: Option<string>, isHighToLow: bool)
    ensures var v := Visible(catalog, searchText, selected, isHighToLow);
      Visible(v, searchText, selected, isHighToLow) == v
  {
    var v := Visible(catalog, searchText, selected, isHighToLow);
    forall x | x in v ensures Matches(x, searchText, selected) {
      VisibleMembers(catalog, searchText, selected, isHighToLow, x);
    }
    FilteredAllMatching(v, searchText, selected);
    SortOrderedPermutation(Filtered(catalog, searchText, selected), isHighToLow);
    SortOrderedIsIdentity(v, isHighToLow);
  }

  /** With no search text and no category the whole catalog is visible, reordered. */
  lemma VisibleUnrestricted(catalog: seq<Product>, isHighToLow: bool)
    ensures multiset(Visible(catalog, "", None, isHighToLow)) == multiset(catalog)
  {
    FilteredUnrestricted(catalog);
    SortOrderedPermutation(catalog, isHighToLow);
  }
}
