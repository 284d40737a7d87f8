/**
 * Product search (`search_products`) and the filtered product listing
 * (`ProductViewSet.get_queryset`), exbuy/shop/views.py.
 *
 * Both build a queryset by chaining one `.filter(...)` per supplied query
 * parameter. A parameter that is absent or empty applies no filter. The
 * product table is given as its rows in the queryset's ordering.
 */
module Search {
  import opened Results
  import opened Models

  /**
   * Query parameters. The text ones are "" when absent or empty; the price
   * bounds are already converted to cents (None when absent or empty).
   */
  datatype Query = Query(
    q: string,
    category: string,
    minPrice: Option<int>,
    maxPrice: Option<int>,
    inStock: string)

  // ---------- case-insensitive containment (`icontains`) ----------

  /** ASCII case folding. */
  function FoldChar(c: char): char
  {
    if 'A' <= c <= 'Z' then (c as int - 'A' as int + 'a' as int) as char else c
  }

  function FoldCase(s: string): (r: string)
    ensures |r| == |s|
    ensures forall i | 0 <= i < |s| :: r[i] == FoldChar(s[i])
  {
    seq(|s|, i requires 0 <= i < |s| => FoldChar(s[i]))
  }

  /** `needle` occurs in `hay` as a contiguous run. */
  predicate ContainsRun(hay: string, needle: string)
  {
    exists i | 0 <= i <= |hay| :: needle <= hay[i..]
  }

  predicate IContains(hay: string, needle: string)
  {
    ContainsRun(FoldCase(hay), FoldCase(needle))
  }

  /** The needle sits at offset `i` of the haystack, every pair of characters equal up to case. */
  predicate MatchesAt(hay: string, needle: string, i: int)
  {
    0 <= i <= |hay| - |needle| && forall j | 0 <= j < |needle| :: FoldChar(hay[i + j]) == FoldChar(needle[j])
  }

  /** `icontains`, character by character: the needle occurs at some offset, up to case. */
  lemma IContainsMeaning(hay: string, needle: string)
    ensures IContains(hay, needle) <==> exists i :: MatchesAt(hay, needle, i)
  {
    var h, n := FoldCase(hay), FoldCase(needle);
    if IContains(hay, needle) {
      var i :| 0 <= i <= |h| && n <= h[i..];
      assert forall j | 0 <= j < |needle| :: FoldChar(hay[i + j]) == h[i..][j] == n[j];
      assert MatchesAt(hay, needle, i);
    }
    if exists i :: MatchesAt(hay, needle, i) {
      var i :| MatchesAt(hay, needle, i);
      assert forall j | 0 <= j < |n| :: n[j] == h[i..][j];
      assert n <= h[i..];
    }
  }

  /** Case does not matter on either side: `Laptop` finds `LAPTOP` and `laptop`. */
  lemma IContainsIgnoresCase(hay: string, needle: string)
    ensures IContains(FoldCase(hay), needle) == IContains(hay, needle)
    ensures IContains(hay, FoldCase(needle)) == IContains(hay, needle)
  {
    FoldCaseIdempotent(hay);
    FoldCaseIdempotent(needle);
  }

  lemma FoldCaseIdempotent(s: string)
    ensures FoldCase(FoldCase(s)) == FoldCase(s)
  {
  }

  // ---------- one `.filter(...)` call ----------

  datatype Criterion =
    | TextMatch(text: string)      // Q(name__icontains=q) | Q(description__icontains=q)
    | CategoryIs(category: string) // category=...
    | PriceAtLeast(cents: int)     // price__gte=...
    | PriceAtMost(cents: int)      // price__lte=...
    | InStock                      // stock__gt=0

  predicate Holds(c: Criterion, p: Product)
  {
    match c
    case TextMatch(text) => IContains(p.name, text) || IContains(p.description, text)
    case CategoryIs(category) => p.category == category
    case PriceAtLeast(cents) => p.priceCents >= cents
    case PriceAtMost(cents) => p.priceCents <= cents
    case InStock => p.stock > 0
  }

  predicate AllHold(cs: seq<Criterion>, p: Product)
  {
    forall k | 0 <= k < |cs| :: Holds(cs[k], p)
  }

  /** `queryset.filter(c)`: the rows satisfying `c`, in their order. */
  function Keep(rows: seq<Product>, c: Criterion): seq<Product>
  {
    if rows == [] then []
    else (if Holds(c, rows[0]) then [rows[0]] else []) + Keep(rows[1..], c)
  }

  /** A chain of `.filter` calls, applied left to right. */
  function ApplyChain(rows: seq<Product>, cs: seq<Criterion>): seq<Product>
    decreases |cs|
  {
    if cs == [] then rows else ApplyChain(Keep(rows, cs[0]), cs[1..])
  }

  /**
   * Reference definition: one pass keeping the rows that satisfy every
   * criterion at once, in their order.
   */
  function Selected(rows: seq<Product>, cs: seq<Criterion>): (r: seq<Product>)
    ensures forall p :: p in r <==> p in rows && AllHold(cs, p)
    ensures |r| <= |rows|
  {
    if rows == [] then []
    else (if AllHold(cs, rows[0]) then [rows[0]] else []) + Selected(rows[1..], cs)
  }

  // ---------- the two endpoints ----------

  /** The filter each query parameter contributes: none when it is absent or empty. */
  function TextFilter(query: Query): seq<Criterion>
  {
    if query.q != "" then [TextMatch(query.q)] else []
  }

  function CategoryFilter(query: Query): seq<Criterion>
  {
    if query.category != "" then [CategoryIs(query.category)] else []
  }

  function MinPriceFilter(query: Query): seq<Criterion>
  {
    match query.minPrice
    case Some(cents) => [PriceAtLeast(cents)]
    case None => []
  }

  function MaxPriceFilter(query: Query): seq<Criterion>
  {
    match query.maxPrice
    case Some(cents) => [PriceAtMost(cents)]
    case None => []
  }

  /** Only the exact text "true" turns the stock filter on. */
  function StockFilter(query: Query): seq<Criterion>
  {
    if query.inStock == "true" then [InStock] else []
  }

  /** Filters of `search_products`, in the order it applies them. */
  function SearchCriteria(query: Query): seq<Criterion>
  {
    TextFilter(query) + CategoryFilter(query) + MinPriceFilter(query) + MaxPriceFilter(query) + StockFilter(query)
  }

  /** Filters of `ProductViewSet.get_queryset`, in the order it applies them; it has no `in_stock`. */
  function ListingCriteria(query: Query): seq<Criterion>
  {
    CategoryFilter(query) + MinPriceFilter(query) + MaxPriceFilter(query) + TextFilter(query)
  }

  function SearchProducts(rows: seq<Product>, query: Query): seq<Product>
  {
    ApplyChain(rows, SearchCriteria(query))
  }

  function ListProducts(rows: seq<Product>, query: Query): seq<Product>
  {
    ApplyChain(rows, ListingCriteria(query))
  }

  /** What a product must satisfy to be found: every supplied filter. */
  predicate Matches(query: Query, p: Product)
  {
    && (query.q != "" ==> IContains(p.name, query.q) || IContains(p.description, query.q))
    && (query.category != "" ==> p.category == query.category)
    && (query.minPrice.Some? ==> p.priceCents >= query.minPrice.value)
    && (query.maxPrice.Some? ==> p.priceCents <= query.maxPrice.value)
    && (query.inStock == "true" ==> p.stock > 0)
  }

  // ---------- lemmas ----------

  /** Filtering the one-pass selection by one more criterion extends the conjunction. */
  lemma {:induction false} KeepSelected(rows: seq<Product>, cs: seq<Criterion>, c: Criterion)
    ensures Keep(Selected(rows, cs), c) == Selected(rows, cs + [c])
  {
    if rows != [] {
      KeepSelected(rows[1..], cs, c);
      assert AllHold(cs + [c], rows[0]) <==> AllHold(cs, rows[0]) && Holds(c, rows[0]) by {
        if AllHold(cs, rows[0]) && Holds(c, rows[0]) {
          forall k | 0 <= k < |cs + [c]| ensures Holds((cs + [c])[k], rows[0]) {
            if k < |cs| { assert (cs + [c])[k] == cs[k]; }
          }
        }
        if AllHold(cs + [c], rows[0]) {
          forall k | 0 <= k < |cs| ensures Holds(cs[k], rows[0]) {
            assert (cs + [c])[k] == cs[k];
          }
          assert (cs + [c])[|cs|] == c;
        }
      }
      var s := if AllHold(cs, rows[0]) then [rows[0]] else [];
      KeepAppend(s, Selected(rows[1..], cs), c);
    }
  }

  lemma {:induction false} KeepAppend(a: seq<Product>, b: seq<Product>, c: Criterion)
    ensures Keep(a + b, c) == Keep(a, c) + Keep(b, c)
  {
    if a != [] {
      assert (a + b)[1..] == a[1..] + b;
      KeepAppend(a[1..], b, c);
    } else {
      assert a + b == b;
    }
  }

  /** The selection by no criterion is the whole table. */
  lemma {:induction false} SelectedNothing(rows: seq<Product>)
    ensures Selected(rows, []) == rows
  {
    if rows != [] {
      SelectedNothing(rows[1..]);
    }
  }

  /** A chain of filters selects the same rows, in the same order, as their conjunction. */
  lemma {:induction false} ChainIsConjunction(rows: seq<Product>, cs: seq<Criterion>)
    ensures ApplyChain(rows, cs) == Selected(rows, cs)
    decreases |cs|
  {
    if cs == [] {
      SelectedNothing(rows);
    } else {
      var init, last := cs[..|cs| - 1], cs[|cs| - 1];
      assert cs == init + [last];
      ChainIsConjunction(rows, init);
      ChainSnoc(rows, init, last);
      KeepSelected(rows, init, last);
    }
  }

  /** Adding one filter at the end of a chain filters the chain's result. */
  lemma {:induction false} ChainSnoc(rows: seq<Product>, cs: seq<Criterion>, c: Criterion)
    ensures ApplyChain(rows, cs + [c]) == Keep(ApplyChain(rows, cs), c)
    decreases |cs|
  {
    if cs == [] {
      assert [c][1..] == [];
    } else {
      assert (cs + [c])[1..] == cs[1..] + [c];
      ChainSnoc(Keep(rows, cs[0]), cs[1..], c);
    }
  }

  /** Two lists of criteria that accept the same products select the same rows. */
  lemma {:induction false} SelectedCongruent(rows: seq<Product>, cs: seq<Criterion>, ds: seq<Criterion>)
    requires forall p :: AllHold(cs, p) <==> AllHold(ds, p)
    ensures Selected(rows, cs) == Selected(rows, ds)
  {
    if rows != [] {
      SelectedCongruent(rows[1..], cs, ds);
    }
  }

  lemma SingletonHolds(c: Criterion, p: Product)
    ensures AllHold([c], p) <==> Holds(c, p)
  {
    assert [c][0] == c;
  }

  /** What each parameter's filter demands of a product. */
  lemma FilterMeanings(query: Query, p: Product)
    ensures AllHold(TextFilter(query), p) <==> (query.q != "" ==> IContains(p.name, query.q) || IContains(p.description, query.q))
    ensures AllHold(CategoryFilter(query), p) <==> (query.category != "" ==> p.category == query.category)
    ensures AllHold(MinPriceFilter(query), p) <==> (query.minPrice.Some? ==> p.priceCents >= query.minPrice.value)
    ensures AllHold(MaxPriceFilter(query), p) <==> (query.maxPrice.Some? ==> p.priceCents <= query.maxPrice.value)
    ensures AllHold(StockFilter(query), p) <==> (query.inStock == "true" ==> p.stock > 0)
  {
    SingletonHolds(TextMatch(query.q), p);
    SingletonHolds(CategoryIs(query.category), p);
    SingletonHolds(InStock, p);
    if query.minPrice.Some? { SingletonHolds(PriceAtLeast(query.minPrice.value), p); }
    if query.maxPrice.Some? { SingletonHolds(PriceAtMost(query.maxPrice.value), p); }
  }

  lemma AllHoldAppend(cs: seq<Criterion>, ds: seq<Criterion>, p: Product)
    ensures AllHold(cs + ds, p) <==> AllHold(cs, p) && AllHold(ds, p)
  {
    if AllHold(cs, p) && AllHold(ds, p) {
      forall k | 0 <= k < |cs + ds| ensures Holds((cs + ds)[k], p) {
        if k < |cs| { assert (cs + ds)[k] == cs[k]; } else { assert (cs + ds)[k] == ds[k - |cs|]; }
      }
    }
    if AllHold(cs + ds, p) {
      forall k | 0 <= k < |cs| ensures Holds(cs[k], p) { assert (cs + ds)[k] == cs[k]; }
      forall k | 0 <= k < |ds| ensures Holds(ds[k], p) { assert (cs + ds)[|cs| + k] == ds[k]; }
    }
  }

  lemma SearchCriteriaMeaning(query: Query, p: Product)
    ensures AllHold(SearchCriteria(query), p) <==> Matches(query, p)
  {
    var a, b, c, d, e := TextFilter(query), CategoryFilter(query), MinPriceFilter(query), MaxPriceFilter(query), StockFilter(query);
    AllHoldAppend(a + b + c + d, e, p);
    AllHoldAppend(a + b + c, d, p);
    AllHoldAppend(a + b, c, p);
    AllHoldAppend(a, b, p);
    FilterMeanings(query, p);
  }

  lemma ListingCriteriaMeaning(query: Query, p: Product)
    ensures AllHold(ListingCriteria(query), p) <==> Matches(query.(inStock := ""), p)
  {
    var a, b, c, d := TextFilter(query), CategoryFilter(query), MinPriceFilter(query), MaxPriceFilter(query);
    AllHoldAppend(b + c + d, a, p);
    AllHoldAppend(b + c, d, p);
    AllHoldAppend(b, c, p);
    FilterMeanings(query, p);
  }

  /**
   * `search_products` returns exactly the rows that satisfy every supplied
   * filter, in table order, and nothing outside the table.
   */
  lemma SearchFindsExactlyMatches(rows: seq<Product>, query: Query)
    ensures forall p :: p in SearchProducts(rows, query) <==> p in rows && Matches(query, p)
    ensures |SearchProducts(rows, query)| <= |rows|
  {
    ChainIsConjunction(rows, SearchCriteria(query));
    forall p ensures AllHold(SearchCriteria(query), p) <==> Matches(query, p) {
      SearchCriteriaMeaning(query, p);
    }
  }

  /**
   * The listing applies the same filters in another order and ignores
   * `in_stock`; the order of the filters does not change the result.
   */
  lemma ListingIsSearchWithoutStockFilter(rows: seq<Product>, query: Query)
    ensures ListProducts(rows, query) == SearchProducts(rows, query.(inStock := ""))
  {
    var query' := query.(inStock := "");
    ChainIsConjunction(rows, ListingCriteria(query));
    ChainIsConjunction(rows, SearchCriteria(query'));
    forall p ensures AllHold(ListingCriteria(query), p) <==> AllHold(SearchCriteria(query'), p) {
      ListingCriteriaMeaning(query, p);
      SearchCriteriaMeaning(query', p);
    }
    SelectedCongruent(rows, ListingCriteria(query), SearchCriteria(query'));
  }
}
