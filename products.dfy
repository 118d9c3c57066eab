/**
 * The product listing page: narrowing by category and by a case-insensitive
 * title search, then an optional stable sort; and the labels of the category
 * selector.
 */
module Products {
  import opened Types
  import opened Seqs

  // ----- Case mapping (ASCII letters only) -----

  function LowerChar(c: char): char {
    if 'A' <= c <= 'Z' then (c as int + 32) as char else c
  }

  function UpperChar(c: char): char {
    if 'a' <= c <= 'z' then (c as int - 32) as char else c
  }

  function ToLower(s: string): (r: string)
    ensures |r| == |s|
    ensures forall i :: 0 <= i < |s| ==> r[i] == LowerChar(s[i])
  {
    if s == [] then [] else [LowerChar(s[0])] + ToLower(s[1..])
  }

  /** `s.includes(sub)`: `sub` occurs at some position of `s`. */
  predicate Contains(s: string, sub: string) {
    sub <= s || (s != [] && Contains(s[1..], sub))
  }

  lemma {:induction false} ContainsEmpty(s: string)
    ensures Contains(s, "")
  {
  }

  /**
   * Skipping the search filter for an empty term changes nothing: the empty
   * term would have kept every product anyway.
   */
  lemma {:induction false} FilterSearchEmptyTerm(products: seq<Product>)
    ensures FilterSearch(products, "") == products
  {
    if products != [] {
      ContainsEmpty(ToLower(products[0].title));
      assert ToLower("") == "";
      FilterSearchEmptyTerm(products[1..]);
      assert products == [products[0]] + products[1..];
    }
  }

  /** `p.title.toLowerCase().includes(searchTerm.toLowerCase())` */
  predicate MatchesSearch(p: Product, term: string) {
    Contains(ToLower(p.title), ToLower(term))
  }

  // ----- The two filters -----

  function FilterCategory(products: seq<Product>, category: string): (r: seq<Product>)
    ensures |r| <= |products|
    ensures forall i :: 0 <= i < |r| ==> r[i].category == category
  {
    if products == [] then []
    else (if products[0].category == category then [products[0]] else []) + FilterCategory(products[1..], category)
  }

  function FilterSearch(products: seq<Product>, term: string): (r: seq<Product>)
    ensures |r| <= |products|
    ensures forall i :: 0 <= i < |r| ==> MatchesSearch(r[i], term)
  {
    if products == [] then []
    else (if MatchesSearch(products[0], term) then [products[0]] else []) + FilterSearch(products[1..], term)
  }

  lemma {:induction false} FilterCategoryFacts(products: seq<Product>, category: string)
    ensures var r := FilterCategory(products, category);
      && (forall p :: p in r <==> p in products && p.category == category)
      && IsSubsequence(r, products)
  {
    if products != [] {
      FilterCategoryFacts(products[1..], category);
      var rest := FilterCategory(products[1..], category);
      var r := FilterCategory(products, category);
      assert products == [products[0]] + products[1..];
      if products[0].category == category {
        assert r == [products[0]] + rest && r[1..] == rest;
      } else {
        assert r == rest;
      }
    }
  }

  lemma {:induction false} FilterSearchFacts(products: seq<Product>, term: string)
    ensures var r := FilterSearch(products, term);
      && (forall p :: p in r <==> p in products && MatchesSearch(p, term))
      && IsSubsequence(r, products)
  {
    if products != [] {
      FilterSearchFacts(products[1..], term);
      var rest := FilterSearch(products[1..], term);
      var r := FilterSearch(products, term);
      assert products == [products[0]] + products[1..];
      if MatchesSearch(products[0], term) {
        assert r == [products[0]] + rest && r[1..] == rest;
      } else {
        assert r == rest;
      }
    }
  }

  // ----- The stable sort -----

  /** The three orders the page offers, each as an ascending sort key. */
  datatype SortKey = ByPriceAsc | ByPriceDesc | ByRatingDesc

  /** `sortBy` → comparator; any other value leaves the order alone. */
  function SortKeyFor(sortBy: string): (r: Option<SortKey>)
    ensures r == Some(ByPriceAsc) <==> sortBy == "price-low"
    ensures r == Some(ByPriceDesc) <==> sortBy == "price-high"
    ensures r == Some(ByRatingDesc) <==> sortBy == "rating"
  {
    if sortBy == "price-low" then Some(ByPriceAsc)
    else if sortBy == "price-high" then Some(ByPriceDesc)
    else if sortBy == "rating" then Some(ByRatingDesc)
    else None
  }

  /** `a - b` by price, `b - a` by price, `b - a` by rating: ascending in this key. */
  function Key(k: SortKey, p: Product): real {
    match k
    case ByPriceAsc => p.price
    case ByPriceDesc => -p.price
    case ByRatingDesc => -p.rating.rate
  }

  ghost predicate SortedBy(k: SortKey, s: seq<Product>) {
    forall i, j :: 0 <= i < j < |s| ==> Key(k, s[i]) <= Key(k, s[j])
  }

  /** Insert `x` after every element whose key is not greater than its own. */
  function Insert(k: SortKey, x: Product, s: seq<Product>): seq<Product> {
    if s == [] then [x]
    else if Key(k, s[0]) <= Key(k, x) then [s[0]] + Insert(k, x, s[1..])
    else [x] + s
  }

  /** The engine's stable sort, as insertion of each element in turn; it neither adds nor drops elements. */
  function Sort(k: SortKey, s: seq<Product>): (r: seq<Product>)
    ensures multiset(r) == multiset(s)
  {
    if s == [] then []
    else
      var init, last := s[..|s| - 1], s[|s| - 1];
      InsertMultiset(k, last, Sort(k, init));
      assert s == init + [last];
      Insert(k, last, Sort(k, init))
  }

  lemma {:induction false} InsertMultiset(k: SortKey, x: Product, s: seq<Product>)
    ensures multiset(Insert(k, x, s)) == multiset(s) + multiset{x}
  {
    if s != [] {
      InsertMultiset(k, x, s[1..]);
      assert s == [s[0]] + s[1..];
    }
  }

  lemma SortedTail(k: SortKey, s: seq<Product>)
    requires s != [] && SortedBy(k, s)
    ensures SortedBy(k, s[1..])
    ensures forall y :: y in s[1..] ==> Key(k, s[0]) <= Key(k, y)
  {
    var tail := s[1..];
    forall i, j | 0 <= i < j < |tail| ensures Key(k, tail[i]) <= Key(k, tail[j]) {
      assert tail[i] == s[i + 1] && tail[j] == s[j + 1];
    }
    forall y | y in tail ensures Key(k, s[0]) <= Key(k, y) {
      var j :| 0 <= j < |tail| && tail[j] == y;
      assert s[j + 1] == y;
    }
  }

  /** Putting `x` before a sorted list whose elements are all at least `x` keeps it sorted. */
  lemma SortedCons(k: SortKey, x: Product, t: seq<Product>)
    requires SortedBy(k, t)
    requires forall y :: y in t ==> Key(k, x) <= Key(k, y)
    ensures SortedBy(k, [x] + t)
  {
    var r := [x] + t;
    forall i, j | 0 <= i < j < |r| ensures Key(k, r[i]) <= Key(k, r[j]) {
      assert r[j] == t[j - 1];
      if i > 0 {
        assert r[i] == t[i - 1];
      } else {
        assert r[j] in t;
      }
    }
  }

  lemma {:induction false} InsertSorted(k: SortKey, x: Product, s: seq<Product>)
    requires SortedBy(k, s)
    ensures SortedBy(k, Insert(k, x, s))
  {
    if s == [] {
    } else if Key(k, s[0]) <= Key(k, x) {
      SortedTail(k, s);
      InsertSorted(k, x, s[1..]);
      var t := Insert(k, x, s[1..]);
      InsertMultiset(k, x, s[1..]);
      forall y | y in t ensures Key(k, s[0]) <= Key(k, y) {
        assert y in multiset(t);
        if y != x {
          assert y in multiset(s[1..]);
        }
      }
      SortedCons(k, s[0], t);
    } else {
      SortedTail(k, s);
      assert forall y :: y in s ==> Key(k, x) <= Key(k, y) by {
        forall y | y in s ensures Key(k, x) <= Key(k, y) {
          if y != s[0] { assert y in s[1..]; }
        }
      }
      SortedCons(k, x, s);
    }
  }

  /** The sort orders by the key. */
  lemma {:induction false} SortFacts(k: SortKey, s: seq<Product>)
    ensures SortedBy(k, Sort(k, s))
  {
    if s != [] {
      var init, last := s[..|s| - 1], s[|s| - 1];
      SortFacts(k, init);
      InsertSorted(k, last, Sort(k, init));
    }
  }

  /** The elements whose key equals `v`, in order. */
  function WithKey(k: SortKey, s: seq<Product>, v: real): seq<Product> {
    if s == [] then [] else (if Key(k, s[0]) == v then [s[0]] else []) + WithKey(k, s[1..], v)
  }

  lemma {:induction false} WithKeyAppend(k: SortKey, a: seq<Product>, b: seq<Product>, v: real)
    ensures WithKey(k, a + b, v) == WithKey(k, a, v) + WithKey(k, b, v)
  {
    if a != [] {
      assert (a + b)[0] == a[0] && (a + b)[1..] == a[1..] + b;
      WithKeyAppend(k, a[1..], b, v);
    } else {
      assert a + b == b;
    }
  }

  lemma {:induction false} WithKeyAbove(k: SortKey, s: seq<Product>, v: real)
    requires forall i :: 0 <= i < |s| ==> Key(k, s[i]) > v
    ensures WithKey(k, s, v) == []
  {
    if s != [] {
      WithKeyAbove(k, s[1..], v);
    }
  }

  lemma WithKeySingle(k: SortKey, x: Product, v: real)
    ensures WithKey(k, [x], v) == if Key(k, x) == v then [x] else []
  {
    assert [x][1..] == [];
  }

  lemma InsertStableFront(k: SortKey, x: Product, s: seq<Product>, v: real)
    requires s != [] && !(Key(k, s[0]) <= Key(k, x))
    requires SortedBy(k, s)
    ensures WithKey(k, Insert(k, x, s), v) == WithKey(k, s, v) + (if Key(k, x) == v then [x] else [])
  {
    assert Insert(k, x, s) == [x] + s;
    WithKeyAppend(k, [x], s, v);
    WithKeySingle(k, x, v);
    if Key(k, x) == v {
      SortedTail(k, s);
      forall i | 0 <= i < |s| ensures Key(k, s[i]) > v {
        if i > 0 { assert s[i] in s[1..]; }
      }
      WithKeyAbove(k, s, v);
    }
  }

  /** The head's contribution comes first. */
  lemma WithKeyCons(k: SortKey, y: Product, t: seq<Product>, v: real)
    ensures WithKey(k, [y] + t, v) == (if Key(k, y) == v then [y] else []) + WithKey(k, t, v)
  {
    assert ([y] + t)[0] == y && ([y] + t)[1..] == t;
  }

  /** Inserting behind the head: the head's contribution stays in front. */
  lemma InsertStableBehind(k: SortKey, x: Product, s: seq<Product>, v: real)
    requires s != [] && Key(k, s[0]) <= Key(k, x)
    requires WithKey(k, Insert(k, x, s[1..]), v) == WithKey(k, s[1..], v) + (if Key(k, x) == v then [x] else [])
    ensures WithKey(k, Insert(k, x, s), v) == WithKey(k, s, v) + (if Key(k, x) == v then [x] else [])
  {
    var t := Insert(k, x, s[1..]);
    assert Insert(k, x, s) == [s[0]] + t;
    WithKeyCons(k, s[0], t, v);
    WithKeyCons(k, s[0], s[1..], v);
    assert [s[0]] + s[1..] == s;
  }

  lemma {:induction false} InsertStable(k: SortKey, x: Product, s: seq<Product>, v: real)
    requires SortedBy(k, s)
    ensures WithKey(k, Insert(k, x, s), v) == WithKey(k, s, v) + (if Key(k, x) == v then [x] else [])
    decreases |s|
  {
    if s == [] {
      WithKeySingle(k, x, v);
    } else if Key(k, s[0]) <= Key(k, x) {
      SortedTail(k, s);
      InsertStable(k, x, s[1..], v);
      InsertStableBehind(k, x, s, v);
    } else {
      InsertStableFront(k, x, s, v);
    }
  }

  /** Stability: elements with equal keys keep their relative order. */
  lemma {:induction false} SortStable(k: SortKey, s: seq<Product>, v: real)
    ensures WithKey(k, Sort(k, s), v) == WithKey(k, s, v)
  {
    if s != [] {
      var init, last := s[..|s| - 1], s[|s| - 1];
      var sorted := Sort(k, init);
      var single := if Key(k, last) == v then [last] else [];
      calc {
        WithKey(k, Sort(k, s), v);
        WithKey(k, Insert(k, last, sorted), v);
        { SortFacts(k, init); InsertStable(k, last, sorted, v); }
        WithKey(k, sorted, v) + single;
        { SortStable(k, init, v); }
        WithKey(k, init, v) + single;
        { WithKeyAppend(k, init, [last], v); WithKeySingle(k, last, v); }
        WithKey(k, init + [last], v);
        { assert s == init + [last]; }
        WithKey(k, s, v);
      }
    }
  }

  /** What sorting by a key means for each of the page's three orders. */
  lemma SortedOrders(k: SortKey, s: seq<Product>)
    requires SortedBy(k, s)
    ensures k == ByPriceAsc ==> forall i, j :: 0 <= i < j < |s| ==> s[i].price <= s[j].price
    ensures k == ByPriceDesc ==> forall i, j :: 0 <= i < j < |s| ==> s[i].price >= s[j].price
    ensures k == ByRatingDesc ==> forall i, j :: 0 <= i < j < |s| ==> s[i].rating.rate >= s[j].rating.rate
  {
    forall i, j | 0 <= i < j < |s| ensures Key(k, s[i]) <= Key(k, s[j]) {
    }
  }

  /** Everything the sort step promises: same elements, ordered, and stable within equal keys. */
  lemma SortOutcome(k: SortKey, s: seq<Product>)
    ensures forall p :: p in Sort(k, s) <==> p in s
    ensures multiset(Sort(k, s)) == multiset(s)
    ensures SortedBy(k, Sort(k, s))
    ensures forall v :: WithKey(k, Sort(k, s), v) == WithKey(k, s, v)
  {
    SortFacts(k, s);
    forall p ensures p in Sort(k, s) <==> p in s {
      assert p in Sort(k, s) <==> p in multiset(Sort(k, s));
    }
    forall v ensures WithKey(k, Sort(k, s), v) == WithKey(k, s, v) {
      SortStable(k, s, v);
    }
  }

  // ----- The pipeline effect -----

  /** The products left after the two filters, before any sorting. */
  function Narrowed(products: seq<Product>, selectedCategory: string, searchTerm: string): (r: seq<Product>)
    ensures |r| <= |products|
    ensures selectedCategory == "all" && searchTerm == "" ==> r == products
  {
    var byCategory := if selectedCategory != "all" then FilterCategory(products, selectedCategory) else products;
    if searchTerm != "" then FilterSearch(byCategory, searchTerm) else byCategory
  }

  lemma NarrowedFacts(products: seq<Product>, selectedCategory: string, searchTerm: string)
    ensures var r := Narrowed(products, selectedCategory, searchTerm);
      && (forall p :: p in r <==>
            p in products
            && (selectedCategory != "all" ==> p.category == selectedCategory)
            && (searchTerm != "" ==> MatchesSearch(p, searchTerm)))
      && IsSubsequence(r, products)
  {
    var byCategory := if selectedCategory != "all" then FilterCategory(products, selectedCategory) else products;
    if selectedCategory != "all" {
      FilterCategoryFacts(products, selectedCategory);
    } else {
      SubsequenceReflexive(products);
    }
    if searchTerm != "" {
      FilterSearchFacts(byCategory, searchTerm);
      SubsequenceTransitive(FilterSearch(byCategory, searchTerm), byCategory, products);
    }
  }

  /** The second effect of the listing page: the list it stores as `filteredProducts`. */
  method FilterProducts(products: seq<Product>, selectedCategory: string, searchTerm: string, sortBy: string)
    returns (result: seq<Product>)
    ensures forall p :: p in result <==>
      p in products
      && (selectedCategory != "all" ==> p.category == selectedCategory)
      && (searchTerm != "" ==> MatchesSearch(p, searchTerm))
    ensures multiset(result) == multiset(Narrowed(products, selectedCategory, searchTerm))
    ensures SortKeyFor(sortBy).None? ==> IsSubsequence(result, products)
    ensures sortBy == "price-low" ==> forall i, j :: 0 <= i < j < |result| ==> result[i].price <= result[j].price
    ensures sortBy == "price-high" ==> forall i, j :: 0 <= i < j < |result| ==> result[i].price >= result[j].price
    ensures sortBy == "rating" ==> forall i, j :: 0 <= i < j < |result| ==> result[i].rating.rate >= result[j].rating.rate
    ensures SortKeyFor(sortBy).Some? ==>
      forall v :: WithKey(SortKeyFor(sortBy).value, result, v) ==
                  WithKey(SortKeyFor(sortBy).value, Narrowed(products, selectedCategory, searchTerm), v)
    ensures selectedCategory == "all" && searchTerm == "" && SortKeyFor(sortBy).None? ==> result == products
  {
    result := products;
    if selectedCategory != "all" {
      result := FilterCategory(result, selectedCategory);
    }
    if searchTerm != "" {
      result := FilterSearch(result, searchTerm);
    }
    ghost var narrowed := result;
    assert narrowed == Narrowed(products, selectedCategory, searchTerm);
    NarrowedFacts(products, selectedCategory, searchTerm);
    var key := SortKeyFor(sortBy);
    if key.Some? {
      result := Sort(key.value, result);
      SortOutcome(key.value, narrowed);
      SortedOrders(key.value, result);
    }
  }

  // ----- Category labels -----

  datatype CategoryOption = CategoryOption(value: string, labelText: string)

  /** `category.charAt(0).toUpperCase() + category.slice(1)`; the empty string stays empty. */
  function Capitalize(s: string): (r: string)
    ensures |r| == |s|
    ensures s != [] ==> r[0] == UpperChar(s[0]) && r[1..] == s[1..]
  {
    if s == [] then [] else [UpperChar(s[0])] + s[1..]
  }

  lemma CapitalizeIdempotent(s: string)
    ensures Capitalize(Capitalize(s)) == Capitalize(s)
  {
  }

  /** The selector's options: one per category, in order, with the category as value. */
  function FormattedCategories(categories: seq<string>): (r: seq<CategoryOption>)
    ensures |r| == |categories|
    ensures forall i :: 0 <= i < |r| ==> r[i].value == categories[i] && r[i].labelText == Capitalize(categories[i])
  {
    seq(|categories|, i requires 0 <= i < |categories| => CategoryOption(categories[i], Capitalize(categories[i])))
  }

  /** A label differs from its value at most in the case of its first letter. */
  lemma LabelsMatchValues(categories: seq<string>)
    ensures forall o :: o in FormattedCategories(categories) ==> ToLower(o.labelText) == ToLower(o.value)
  {
    forall o | o in FormattedCategories(categories) ensures ToLower(o.labelText) == ToLower(o.value) {
      var s := o.value;
      if s != [] {
        var c := s[0];
        assert LowerChar(UpperChar(c)) == LowerChar(c);
        assert ToLower(o.labelText) == [LowerChar(UpperChar(c))] + ToLower(s[1..]);
        assert ToLower(s) == [LowerChar(c)] + ToLower(s[1..]);
      }
    }
  }
}
