/** The search and category filter of frontend/src/pages/Menu.js. */
module MenuPage {
  import opened Seqs
  import opened Text
  import opened MenuCatalog

  const AllCategories := "All"

  /** The category buttons, `All` first. */
  const Categories: seq<string> := [AllCategories, "Classic", "Sweet", "Fruit", "Premium", "Savory", "Dessert"]

  /** The name or the description contains the term, ignoring case. */
  predicate MatchesSearch(item: MenuItem, term: string) {
    Contains(ToLower(item.name), ToLower(term)) || Contains(ToLower(item.description), ToLower(term))
  }

  function SearchHit(term: string): MenuItem -> bool {
    (item: MenuItem) => MatchesSearch(item, term)
  }

  function InCategory(category: string): MenuItem -> bool {
    (item: MenuItem) => item.category == category
  }

  /** The rule an item must meet to be shown: an empty term matches every
      item, and so does the `All` category. */
  predicate Selected(item: MenuItem, term: string, category: string) {
    (term == "" || MatchesSearch(item, term)) && (category == AllCategories || item.category == category)
  }

  /** `filterItems`: the text filter when a term is typed, then the
      category filter unless `All` is selected. The result keeps the
      menu's order. */
  function FilterItems(items: seq<MenuItem>, term: string, category: string): (r: seq<MenuItem>)
    ensures IsSubsequence(r, items)
    ensures term == "" && category == AllCategories ==> r == items
  {
    var searched := if term != "" then Filter(items, SearchHit(term)) else items;
    var shown := if category != AllCategories then Filter(searched, InCategory(category)) else searched;
    FilterIsSubsequence(items, SearchHit(term));
    FilterIsSubsequence(searched, InCategory(category));
    SubsequenceRefl(items);
    SubsequenceRefl(searched);
    SubsequenceTrans(shown, searched, items);
    shown
  }

  /** An item is shown exactly when it is on the menu and meets both
      conditions. */
  lemma FilterItemsExactly(items: seq<MenuItem>, term: string, category: string)
    ensures forall x :: x in FilterItems(items, term, category) ==> x in items && Selected(x, term, category)
    ensures forall x :: x in items && Selected(x, term, category) ==> x in FilterItems(items, term, category)
  {
    var searched := if term != "" then Filter(items, SearchHit(term)) else items;
    FilterMembership(items, SearchHit(term));
    FilterMembership(searched, InCategory(category));
  }

  /** With an empty term only the category filter applies. */
  lemma EmptyTermOnlyFiltersCategory(items: seq<MenuItem>, category: string)
    ensures FilterItems(items, "", category) ==
              if category == AllCategories then items else Filter(items, InCategory(category))
  {
  }

  /** Filtering the shown items again with the same inputs changes
      nothing. */
  lemma FilterItemsIdempotent(items: seq<MenuItem>, term: string, category: string)
    ensures FilterItems(FilterItems(items, term, category), term, category) == FilterItems(items, term, category)
  {
    var shown := FilterItems(items, term, category);
    FilterItemsExactly(items, term, category);
    if term != "" {
      FilterAllPass(shown, SearchHit(term));
    }
    if category != AllCategories {
      FilterAllPass(shown, InCategory(category));
    }
  }
}
