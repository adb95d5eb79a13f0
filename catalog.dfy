/**
 * The catalog page (CatalogPage.tsx): search and category filtering of
 * the fetched catalog, the category choices, and the mapping from a shown
 * card back to its position in the catalog.
 */
module Catalog {
  import opened Domain
  import opened Strings
  import App
  import SweetCard
  import SweetDetail

  /** The category selector's value: `'all'` or one category. */
  datatype CategoryFilter = All | Only(category: Category)

  /**
   * The filter predicate: the lower-cased query occurs in the lower-cased
   * name or description, and the category selection admits the sweet.
   */
  predicate Matches(s: Sweet, query: string, filter: CategoryFilter)
    ensures Matches(s, query, filter) ==> filter.All? || filter.category == s.category
    ensures Matches(s, query, filter) ==> |query| <= |s.name| || |query| <= |s.description|
    ensures query == "" ==> (Matches(s, query, filter) <==> filter.All? || filter.category == s.category)
  {
    var matchesSearch := Includes(Lower(s.name), Lower(query)) || Includes(Lower(s.description), Lower(query));
    var matchesCategory := filter.All? || filter.category == s.category;
    matchesSearch && matchesCategory
  }

  /** The search ignores the case of the query: a lower-cased query matches the same sweets. */
  lemma SearchIgnoresQueryCase(s: Sweet, query: string, filter: CategoryFilter)
    ensures Matches(s, Lower(query), filter) <==> Matches(s, query, filter)
  {
    LowerIdempotent(query);
  }

  /** `sweets.filter(...)`: the matching sweets, in catalog order. */
  function Filter(sweets: seq<Sweet>, query: string, filter: CategoryFilter): (r: seq<Sweet>)
    ensures |r| <= |sweets|
    ensures forall s :: s in r ==> Matches(s, query, filter)
  {
    if sweets == [] then []
    else (if Matches(sweets[0], query, filter) then [sweets[0]] else []) + Filter(sweets[1..], query, filter)
  }

  /** `filteredSweets`: nothing until the catalog has loaded, then the filter. */
  function FilteredSweets(sweets: Option<seq<Sweet>>, query: string, filter: CategoryFilter): (r: seq<Sweet>)
    ensures sweets.None? ==> r == []
    ensures sweets.Some? ==> |r| <= |sweets.value|
  {
    match sweets
    case None => []
    case Some(s) => Filter(s, query, filter)
  }

  /** `a` is `b` with some elements left out and the rest kept in order. */
  predicate IsSubsequence<T(==)>(a: seq<T>, b: seq<T>)
    decreases |b|
  {
    if a == [] then true
    else if b == [] then false
    else (a[0] == b[0] && IsSubsequence(a[1..], b[1..])) || IsSubsequence(a, b[1..])
  }

  /** The filtered list is an order-preserving subsequence of the catalog. */
  lemma {:induction false} FilterIsSubsequence(sweets: seq<Sweet>, query: string, filter: CategoryFilter)
    ensures IsSubsequence(Filter(sweets, query, filter), sweets)
  {
    if sweets != [] {
      FilterIsSubsequence(sweets[1..], query, filter);
      var rest := Filter(sweets[1..], query, filter);
      if Matches(sweets[0], query, filter) {
        assert Filter(sweets, query, filter) == [sweets[0]] + rest;
        assert ([sweets[0]] + rest)[1..] == rest;
      } else {
        assert Filter(sweets, query, filter) == rest;
        SubsequenceDropHead(rest, sweets);
      }
    }
  }

  /** A subsequence of a list's tail is a subsequence of the list. */
  lemma SubsequenceDropHead<T>(a: seq<T>, b: seq<T>)
    requires b != [] && IsSubsequence(a, b[1..])
    ensures IsSubsequence(a, b)
  {
  }

  /**
   * The filter keeps every copy of a matching sweet and no copy of any
   * other: a sweet is kept if and only if it is in the catalog and matches.
   */
  lemma {:induction false} FilterCount(sweets: seq<Sweet>, query: string, filter: CategoryFilter, s: Sweet)
    ensures multiset(Filter(sweets, query, filter))[s] == if Matches(s, query, filter) then multiset(sweets)[s] else 0
    ensures s in Filter(sweets, query, filter) <==> s in sweets && Matches(s, query, filter)
  {
    if sweets != [] {
      FilterCount(sweets[1..], query, filter, s);
      var head := if Matches(sweets[0], query, filter) then [sweets[0]] else [];
      var rest := Filter(sweets[1..], query, filter);
      assert Filter(sweets, query, filter) == head + rest;
      assert multiset(head + rest) == multiset(head) + multiset(rest);
      assert sweets == [sweets[0]] + sweets[1..];
      assert multiset(sweets) == multiset([sweets[0]]) + multiset(sweets[1..]);
    }
  }

  /** An empty search with every category selected keeps the whole catalog. */
  lemma {:induction false} EmptySearchKeepsAll(sweets: seq<Sweet>)
    ensures Filter(sweets, "", All) == sweets
  {
    if sweets != [] {
      assert Matches(sweets[0], "", All) by {
        assert Lower("") == "";
      }
      EmptySearchKeepsAll(sweets[1..]);
    }
  }

  /** Filtering the filtered list again with the same settings changes nothing. */
  lemma {:induction false} FilterIdempotent(sweets: seq<Sweet>, query: string, filter: CategoryFilter)
    ensures Filter(Filter(sweets, query, filter), query, filter) == Filter(sweets, query, filter)
  {
    if sweets != [] {
      FilterIdempotent(sweets[1..], query, filter);
      var rest := Filter(sweets[1..], query, filter);
      if Matches(sweets[0], query, filter) {
        var once := [sweets[0]] + rest;
        assert Filter(sweets, query, filter) == once;
        assert once[0] == sweets[0] && once[1..] == rest;
        assert Filter(once, query, filter) == [sweets[0]] + Filter(rest, query, filter);
      } else {
        assert Filter(sweets, query, filter) == rest;
      }
    }
  }

  /**
   * `findIndex` by name: the first position holding a sweet with that
   * name, or -1 when there is none.
   */
  function FindIndexByName(sweets: seq<Sweet>, name: string): (r: int)
    ensures -1 <= r < |sweets|
    ensures r == -1 <==> forall i :: 0 <= i < |sweets| ==> sweets[i].name != name
    ensures r >= 0 ==> sweets[r].name == name && forall i :: 0 <= i < r ==> sweets[i].name != name
  {
    if sweets == [] then -1
    else if sweets[0].name == name then 0
    else
      var k := FindIndexByName(sweets[1..], name);
      if k == -1 then -1 else k + 1
  }

  /**
   * `originalIndex` of the card at position `index` of the filtered list:
   * the catalog position found by name, or the filtered position when the
   * catalog is missing.
   */
  function OriginalIndex(sweets: Option<seq<Sweet>>, sweet: Sweet, index: int): (r: int)
    ensures sweets.None? ==> r == index
    ensures sweets.Some? ==> -1 <= r < |sweets.value|
    ensures sweets.Some? && r >= 0 ==> sweets.value[r].name == sweet.name
    ensures sweets.Some? && sweet in sweets.value ==> r >= 0
  {
    match sweets
    case Some(s) => FindIndexByName(s, sweet.name)
    case None => index
  }

  /**
   * Every shown card maps back into the catalog: its `originalIndex` is in
   * bounds, is the first position with that card's name, and when names
   * are unique it holds exactly the sweet on the card.
   */
  lemma ShownCardIndex(sweets: seq<Sweet>, query: string, filter: CategoryFilter, k: nat)
    requires k < |FilteredSweets(Some(sweets), query, filter)|
    ensures var shown := FilteredSweets(Some(sweets), query, filter)[k];
            var idx := OriginalIndex(Some(sweets), shown, k);
            && 0 <= idx < |sweets|
            && sweets[idx].name == shown.name
            && (forall i :: 0 <= i < idx ==> sweets[i].name != shown.name)
            && (UniqueNames(sweets) ==> sweets[idx] == shown)
  {
    var filtered := Filter(sweets, query, filter);
    var shown := filtered[k];
    FilterCount(sweets, query, filter, shown);
    assert shown in sweets;
    var j :| 0 <= j < |sweets| && sweets[j] == shown;
    var idx := FindIndexByName(sweets, shown.name);
    assert idx != -1;
    assert idx <= j;
    if UniqueNames(sweets) {
      assert !(idx < j);
    }
  }

  /** Clicking a shown card opens the detail page at its `originalIndex`. */
  function CardNavigation(sweets: Option<seq<Sweet>>, shown: seq<Sweet>, k: nat): (r: (App.Page, Option<int>))
    requires k < |shown|
    ensures r.0 == App.SweetDetail && r.1.Some?
  {
    (App.SweetDetail, Some(OriginalIndex(sweets, shown[k], k)))
  }

  /**
   * Opening a shown card, with the catalog loaded and no error, mounts the
   * detail page at a position where the detail page finds a sweet of that
   * name, and when names are unique exactly the sweet on the card.
   */
  lemma OpenedCardShowsItsSweet(sweets: seq<Sweet>, query: string, filter: CategoryFilter, k: nat)
    requires k < |FilteredSweets(Some(sweets), query, filter)|
    ensures var shown := FilteredSweets(Some(sweets), query, filter);
            var nav := CardNavigation(Some(sweets), shown, k);
            var view := SweetDetail.ViewFor(false, false, Some(sweets), nav.1.value);
            && App.Rendered(nav.0, nav.1.value) == [App.SweetDetailPage(nav.1.value)]
            && view.Found?
            && view.sweet.name == shown[k].name
            && (UniqueNames(sweets) ==> view.sweet == shown[k])
  {
    ShownCardIndex(sweets, query, filter, k);
  }

  /** The parts of the page below the filters. */
  datatype Section = Spinner | ErrorMessage | NoMatches | Grid

  /**
   * The sections the page shows: each of the spinner and the error message
   * shows on its own condition, and once the catalog has settled without an
   * error, either "no sweets found" or the grid of cards.
   */
  function Sections(isLoading: bool, hasError: bool, shown: seq<Sweet>): (r: set<Section>)
    ensures Spinner in r <==> isLoading
    ensures ErrorMessage in r <==> hasError
    ensures NoMatches in r <==> !isLoading && !hasError && shown == []
    ensures Grid in r <==> !isLoading && !hasError && shown != []
  {
    (if isLoading then {Spinner} else {})
    + (if hasError then {ErrorMessage} else {})
    + (if !isLoading && !hasError && shown == [] then {NoMatches} else {})
    + (if !isLoading && !hasError && shown != [] then {Grid} else {})
  }

  /**
   * A settled, error-free page shows exactly one of "no sweets found" and
   * the grid, and the grid never shares the page with the spinner or the
   * error message.
   */
  lemma SettledPageShowsOneResult(isLoading: bool, hasError: bool, shown: seq<Sweet>)
    ensures var r := Sections(isLoading, hasError, shown);
            && (!isLoading && !hasError ==> (NoMatches in r <==> Grid !in r))
            && (Grid in r ==> Spinner !in r && ErrorMessage !in r && NoMatches !in r)
            && (!isLoading && !hasError ==> r == {NoMatches} || r == {Grid})
  {
  }

  /** One entry of the category selector. */
  datatype CategoryOption = CategoryOption(value: CategoryFilter, caption: string)

  /** The selector's entries, in display order. */
  const CategoryOptions: seq<CategoryOption> := [
    CategoryOption(All, "All Categories"),
    CategoryOption(Only(Chocolate), "Chocolate"),
    CategoryOption(Only(Cake), "Cake"),
    CategoryOption(Only(Candy), "Candy"),
    CategoryOption(Only(Glucose), "Glucose"),
    CategoryOption(Only(Toffee), "Toffee"),
    CategoryOption(Only(Other), "Other")
  ]

  /**
   * The selector offers `'all'` first and then each of the six categories
   * exactly once, each labelled as its card badge is.
   */
  lemma CategoryOptionsComplete(c: Category)
    ensures |CategoryOptions| == 7 && CategoryOptions[0].value == All
    ensures forall i :: 1 <= i < 7 ==> CategoryOptions[i].value.Only?
    ensures forall i :: 1 <= i < 7 ==> CategoryOptions[i].caption == SweetCard.CategoryLabel(CategoryOptions[i].value.category)
    ensures forall i, j :: 0 <= i < j < 7 ==> CategoryOptions[i].value != CategoryOptions[j].value
    ensures exists i :: 1 <= i < 7 && CategoryOptions[i].value == Only(c)
  {
    match c
    case Chocolate => assert CategoryOptions[1].value == Only(c);
    case Cake => assert CategoryOptions[2].value == Only(c);
    case Candy => assert CategoryOptions[3].value == Only(c);
    case Glucose => assert CategoryOptions[4].value == Only(c);
    case Toffee => assert CategoryOptions[5].value == Only(c);
    case Other => assert CategoryOptions[6].value == Only(c);
  }
}
