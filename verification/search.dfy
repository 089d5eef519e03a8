/**
 * The two product filters the screens compute inline: the search screen's
 * (ui/screens/search/SearchScreen.kt), which also looks at tags and shows nothing
 * for an empty query, and the home screen's (ui/screens/home/HomeScreen.kt), which
 * looks at name, description and category only and shows everything for an empty
 * query. Both screens filter `SampleData.products`; here the list is a parameter.
 */
module ProductSearch {
  import opened Seqs
  import opened Text
  import opened Products

  /** Some tag of `p` contains the query, ignoring case (`tags.any { … }`). */
  predicate SomeTagContains(p: Product, query: string) {
    exists t :: 0 <= t < |p.tags| && ContainsIgnoreCase(p.tags[t], query)
  }

  /** The search screen's test: name, description, category or a tag contains the query. */
  predicate MatchesSearch(p: Product, query: string) {
    || ContainsIgnoreCase(p.name, query)
    || ContainsIgnoreCase(p.description, query)
    || ContainsIgnoreCase(p.category, query)
    || SomeTagContains(p, query)
  }

  /** The home screen's test: name, description or category contains the query. */
  predicate MatchesHome(p: Product, query: string) {
    || ContainsIgnoreCase(p.name, query)
    || ContainsIgnoreCase(p.description, query)
    || ContainsIgnoreCase(p.category, query)
  }

  function SearchTest(query: string): Product -> bool {
    (p: Product) => MatchesSearch(p, query)
  }

  function HomeTest(query: string): Product -> bool {
    (p: Product) => MatchesHome(p, query)
  }

  /**
   * The search screen's `filteredProducts`: nothing for an empty query; otherwise exactly
   * the matching products, in list order.
   */
  function SearchResults(products: seq<Product>, query: string): (r: seq<Product>)
    ensures query == [] ==> r == []
    ensures forall i :: 0 <= i < |r| ==> r[i] in products && MatchesSearch(r[i], query)
    ensures query != [] ==>
              forall i :: 0 <= i < |products| && MatchesSearch(products[i], query) ==> products[i] in r
    ensures query != [] ==>
              forall p :: multiset(r)[p] == if MatchesSearch(p, query) then multiset(products)[p] else 0
    ensures IsSubsequence(r, products) && |r| <= |products|
  {
    if query != [] then
      FilterCounts(products, SearchTest(query));
      Filter(products, SearchTest(query))
    else []
  }

  /**
   * The home screen's `filteredProducts`: the whole list for an empty query; otherwise
   * exactly the products whose name, description or category matches, in list order.
   */
  function HomeResults(products: seq<Product>, query: string): (r: seq<Product>)
    ensures query == [] ==> r == products
    ensures forall i :: 0 <= i < |r| ==> r[i] in products && (query != [] ==> MatchesHome(r[i], query))
    ensures forall i :: 0 <= i < |products| && MatchesHome(products[i], query) ==> products[i] in r
    ensures query != [] ==>
              forall p :: multiset(r)[p] == if MatchesHome(p, query) then multiset(products)[p] else 0
    ensures IsSubsequence(r, products) && |r| <= |products|
  {
    if query != [] then
      FilterCounts(products, HomeTest(query));
      Filter(products, HomeTest(query))
    else
      SubsequenceReflexive(products);
      products
  }

  /** A product that matches a query also matches every query the first contains. */
  lemma MatchesSearchNarrowing(p: Product, shorter: string, longer: string)
    requires ContainsIgnoreCase(longer, shorter)
    requires MatchesSearch(p, longer)
    ensures MatchesSearch(p, shorter)
  {
    if ContainsIgnoreCase(p.name, longer) {
      ContainsTransitive(p.name, longer, shorter);
    } else if ContainsIgnoreCase(p.description, longer) {
      ContainsTransitive(p.description, longer, shorter);
    } else if ContainsIgnoreCase(p.category, longer) {
      ContainsTransitive(p.category, longer, shorter);
    } else {
      var t :| 0 <= t < |p.tags| && ContainsIgnoreCase(p.tags[t], longer);
      ContainsTransitive(p.tags[t], longer, shorter);
    }
  }

  /**
   * Narrowing: typing more characters can only remove results. If the non-empty query
   * `shorter` occurs (ignoring case) in `longer`, the results for `longer` are a
   * subsequence of those for `shorter`.
   */
  lemma SearchNarrowing(products: seq<Product>, shorter: string, longer: string)
    requires shorter != []
    requires ContainsIgnoreCase(longer, shorter)
    ensures IsSubsequence(SearchResults(products, longer), SearchResults(products, shorter))
  {
    ContainsNonEmpty(longer, shorter);
    forall p: Product | SearchTest(longer)(p) ensures SearchTest(shorter)(p) {
      MatchesSearchNarrowing(p, shorter, longer);
    }
    FilterMonotone(products, SearchTest(longer), SearchTest(shorter));
  }

  /**
   * For the same non-empty query, the home screen shows a subsequence of what the search
   * screen shows: it applies the same tests except the one on tags.
   */
  lemma HomeWithinSearch(products: seq<Product>, query: string)
    requires query != []
    ensures IsSubsequence(HomeResults(products, query), SearchResults(products, query))
  {
    FilterMonotone(products, HomeTest(query), SearchTest(query));
  }

  /** Without tags the two screens agree on every non-empty query. */
  lemma HomeEqualsSearchWithoutTags(products: seq<Product>, query: string)
    requires query != []
    requires forall i :: 0 <= i < |products| ==> products[i].tags == []
    ensures HomeResults(products, query) == SearchResults(products, query)
  {
    FilterAgree(products, HomeTest(query), SearchTest(query));
  }
}
