/** The list-view logic that the documents, tableaux and diagrammes pages
    each write out inline: the case-insensitive search, the search combined
    with the category selection, and the grouping of rows by category for
    the accordion. */
module Library {
  import opened Seqs
  import opened Text
  import opened Records

  /** The search test: the lower-cased name or category contains the
      lower-cased search term. */
  predicate MatchesSearch(x: Item, term: string) {
    Includes(Lower(x.name), Lower(term)) || Includes(Lower(x.category), Lower(term))
  }

  /** `allCategories`, `[...new Set(items.map(d => d.category))]`: every
      category once, in the order of first appearance. */
  function AllCategories(items: seq<Item>): (cs: seq<string>)
    ensures NoDup(cs)
    ensures forall c :: c in cs <==> c in Categories(items)
    ensures forall i, j :: 0 <= i < j < |cs| ==>
              FirstIndex(Categories(items), cs[i]) < FirstIndex(Categories(items), cs[j])
    ensures items != [] ==> cs != [] && cs[0] == items[0].category
  {
    var cs := Distinct(Categories(items));
    assert items != [] ==> cs != [] && cs[0] == items[0].category by {
      if items != [] {
        DistinctHead(Categories(items));
      }
    }
    cs
  }

  /** `filteredDocuments` / `filteredTableaux`: the rows that match the
      search and whose category is selected, in their original order. */
  function FilterSelected(items: seq<Item>, term: string, selected: seq<string>): (r: seq<Item>)
    ensures forall x :: x in r <==> x in items && MatchesSearch(x, term) && x.category in selected
    ensures forall x :: multiset(r)[x] ==
              if MatchesSearch(x, term) && x.category in selected then multiset(items)[x] else 0
    ensures IsSubsequence(r, items)
  {
    Filter(items, (x: Item) => MatchesSearch(x, term) && x.category in selected)
  }

  /** `filteredDiagrams`: the rows that match the search, in their original
      order; there is no category selection on that page. */
  function FilterSearch(items: seq<Item>, term: string): (r: seq<Item>)
    ensures forall x :: x in r <==> x in items && MatchesSearch(x, term)
    ensures forall x :: multiset(r)[x] == if MatchesSearch(x, term) then multiset(items)[x] else 0
    ensures IsSubsequence(r, items)
  {
    Filter(items, (x: Item) => MatchesSearch(x, term))
  }

  /** The empty search term matches every row. */
  lemma EmptyTermMatches(x: Item)
    ensures MatchesSearch(x, "")
  {
    assert Lower("") == "";
    IncludesEmpty(Lower(x.name));
  }

  /** With an empty search term and every category selected, the filtered
      view is the whole list, in order. */
  lemma EmptySearchAllSelected(items: seq<Item>, selected: seq<string>)
    requires forall c :: c in AllCategories(items) ==> c in selected
    ensures FilterSelected(items, "", selected) == items
  {
    var p := (x: Item) => MatchesSearch(x, "") && x.category in selected;
    forall x | x in items ensures p(x) {
      EmptyTermMatches(x);
      CategoryListed(items, x);
    }
    FilterKeepsAll(items, p);
  }

  /** Right after loading, with every category selected, the empty search
      lists everything. */
  lemma EmptySearchAllCategories(items: seq<Item>)
    ensures FilterSelected(items, "", AllCategories(items)) == items
  {
    EmptySearchAllSelected(items, AllCategories(items));
  }

  /** An empty selection hides every row, whatever the search term. */
  lemma NothingSelected(items: seq<Item>, term: string)
    ensures FilterSelected(items, term, []) == []
  {
    FilterDropsAll(items, (x: Item) => MatchesSearch(x, term) && x.category in []);
  }

  /** The empty search term shows every diagram, in order. */
  lemma EmptySearchShowsAll(items: seq<Item>)
    ensures FilterSearch(items, "") == items
  {
    var p := (x: Item) => MatchesSearch(x, "");
    forall x | x in items ensures p(x) {
      EmptyTermMatches(x);
    }
    FilterKeepsAll(items, p);
  }

  /** The search ignores the case of the term: searching for its lower-cased
      form selects the same rows. */
  lemma SearchIgnoresCase(x: Item, term: string)
    ensures MatchesSearch(x, Lower(term)) == MatchesSearch(x, term)
  {
    LowerIdempotent(term);
  }

  /** The rows of one category, in their original order. */
  function ByCategory(items: seq<Item>, c: string): (r: seq<Item>)
    ensures forall x :: x in r <==> x in items && x.category == c
    ensures forall x :: multiset(r)[x] == if x.category == c then multiset(items)[x] else 0
    ensures IsSubsequence(r, items)
    ensures c !in Categories(items) ==> r == []
  {
    var p := (x: Item) => x.category == c;
    assert c !in Categories(items) ==> Filter(items, p) == [] by {
      if c !in Categories(items) {
        forall x | x in items ensures !p(x) {
          CategoryListed(items, x);
        }
        FilterDropsAll(items, p);
      }
    }
    Filter(items, p)
  }

  /** Appending a row extends exactly the group of its category. */
  lemma ByCategoryAppend(items: seq<Item>, x: Item, c: string)
    ensures ByCategory(items + [x], c) == ByCategory(items, c) + (if x.category == c then [x] else [])
  {
    assert (items + [x])[..|items + [x]| - 1] == items;
  }

  /** The dictionary the accordion's `reduce` builds: each category maps to
      its rows, in the order they were pushed. */
  function Grouping(items: seq<Item>): (g: map<string, seq<Item>>)
    ensures forall c :: c in g <==> c in Categories(items)
  {
    if items == [] then map[]
    else
      var init, x := items[..|items| - 1], items[|items| - 1];
      var g := Grouping(init);
      assert Categories(items) == Categories(init) + [x.category];
      g[x.category := (if x.category in g then g[x.category] else []) + [x]]
  }

  /** One more row is pushed onto its category's entry. */
  lemma GroupingAppend(items: seq<Item>, x: Item)
    ensures Grouping(items + [x]) ==
            Grouping(items)[x.category := (if x.category in Grouping(items) then Grouping(items)[x.category] else []) + [x]]
  {
    assert (items + [x])[..|items + [x]| - 1] == items;
  }

  /** `GroupingAppend` at the `i`-th row of `items`. */
  lemma GroupingPrefix(items: seq<Item>, i: nat)
    requires i < |items|
    ensures Grouping(items[..i + 1]) ==
            var g, x := Grouping(items[..i]), items[i];
            g[x.category := (if x.category in g then g[x.category] else []) + [x]]
  {
    assert items[..i + 1] == items[..i] + [items[i]];
    GroupingAppend(items[..i], items[i]);
  }

  /** Each entry of the dictionary is the category's rows in their original
      order. */
  lemma {:induction false} GroupingByCategory(items: seq<Item>, c: string)
    requires c in Grouping(items)
    ensures Grouping(items)[c] == ByCategory(items, c)
  {
    var init, x := items[..|items| - 1], items[|items| - 1];
    assert items == init + [x];
    ByCategoryAppend(init, x, c);
    if c in Grouping(init) {
      GroupingByCategory(init, c);
    } else {
      assert c == x.category;
    }
  }

  /** The accordion groups of `groupedDocuments` / `groupedDiagrams`: one
      group per category, keyed in first-seen order, each holding that
      category's rows in their original order. The `reduce` that pushes into
      a dictionary is written as the loop it performs. */
  method GroupByCategory(items: seq<Item>) returns (groups: map<string, seq<Item>>, keys: seq<string>)
    ensures groups == Grouping(items)
    ensures keys == AllCategories(items)
    ensures forall c :: c in groups <==> c in keys
    ensures forall c :: c in groups ==> groups[c] == ByCategory(items, c)
  {
    groups, keys := map[], [];
    var i := 0;
    while i < |items|
      invariant 0 <= i <= |items|
      invariant groups == Grouping(items[..i])
      invariant keys == Distinct(Categories(items[..i]))
    {
      var x := items[i];
      GroupingPrefix(items, i);
      DistinctCategoriesPrefix(items, i);
      var pushed := (if x.category in groups then groups[x.category] else []) + [x];
      if x.category !in groups {
        keys := keys + [x.category];
      }
      groups := groups[x.category := pushed];
      i := i + 1;
    }
    assert items[..i] == items;
    forall c | c in groups ensures groups[c] == ByCategory(items, c) {
      GroupingByCategory(items, c);
    }
  }

  /** The first-seen category list grows by a row's category exactly when
      that category is new. */
  lemma DistinctCategoriesAppend(items: seq<Item>, x: Item)
    ensures Distinct(Categories(items + [x])) ==
            if x.category in Categories(items) then Distinct(Categories(items))
            else Distinct(Categories(items)) + [x.category]
  {
    var cs := Categories(items + [x]);
    assert cs[..|cs| - 1] == Categories(items);
  }

  /** `DistinctCategoriesAppend` at the `i`-th row of `items`. */
  lemma DistinctCategoriesPrefix(items: seq<Item>, i: nat)
    requires i < |items|
    ensures Distinct(Categories(items[..i + 1])) ==
            if items[i].category in Categories(items[..i]) then Distinct(Categories(items[..i]))
            else Distinct(Categories(items[..i])) + [items[i].category]
  {
    assert items[..i + 1] == items[..i] + [items[i]];
    DistinctCategoriesAppend(items[..i], items[i]);
  }

  /** The category list after the `i`-th row. */
  lemma AllCategoriesPrefix(items: seq<Item>, i: nat)
    requires i < |items|
    ensures AllCategories(items[..i + 1]) ==
            if items[i].category in AllCategories(items[..i]) then AllCategories(items[..i])
            else AllCategories(items[..i]) + [items[i].category]
  {
    DistinctCategoriesPrefix(items, i);
  }

  /** Total size of the groups named by `keys`. */
  function GroupSizes(items: seq<Item>, keys: seq<string>): nat {
    if keys == [] then 0
    else GroupSizes(items, keys[..|keys| - 1]) + |ByCategory(items, keys[|keys| - 1])|
  }

  /** Adding one row adds one to the total for each time its category is
      named. */
  lemma {:induction false} GroupSizesAppend(items: seq<Item>, x: Item, keys: seq<string>)
    ensures GroupSizes(items + [x], keys) == GroupSizes(items, keys) + multiset(keys)[x.category]
  {
    if keys != [] {
      var ks, k := keys[..|keys| - 1], keys[|keys| - 1];
      assert keys == ks + [k];
      GroupSizesAppend(items, x, ks);
      ByCategoryAppend(items, x, k);
    }
  }

  /** A duplicate-free sequence names each of its elements once. */
  lemma {:induction false} NoDupOnce<T(!new)>(s: seq<T>, x: T)
    requires NoDup(s) && x in s
    ensures multiset(s)[x] == 1
  {
    var init, y := s[..|s| - 1], s[|s| - 1];
    assert s == init + [y];
    assert NoDup(init);
    if y == x {
      assert x !in init;
    } else {
      NoDupOnce(init, x);
    }
  }

  /** Group sizes over distinct keys that cover every category add up to the
      number of rows. */
  lemma {:induction false} GroupSizesCover(items: seq<Item>, keys: seq<string>)
    requires NoDup(keys)
    requires forall c :: c in Categories(items) ==> c in keys
    ensures GroupSizes(items, keys) == |items|
  {
    if items == [] {
      GroupSizesEmpty(keys);
    } else {
      var init, x := items[..|items| - 1], items[|items| - 1];
      assert items == init + [x];
      forall c | c in Categories(init) ensures c in keys {
        var j :| 0 <= j < |init| && Categories(init)[j] == c;
        assert Categories(items)[j] == c;
      }
      GroupSizesCover(init, keys);
      GroupSizesAppend(init, x, keys);
      CategoryListed(items, x);
      NoDupOnce(keys, x.category);
    }
  }

  /** With no rows every group is empty. */
  lemma {:induction false} GroupSizesEmpty(keys: seq<string>)
    ensures GroupSizes([], keys) == 0
  {
    if keys != [] {
      GroupSizesEmpty(keys[..|keys| - 1]);
    }
  }

  /** The groups partition the rows: their sizes sum to the number of rows. */
  lemma GroupsPartition(items: seq<Item>)
    ensures GroupSizes(items, AllCategories(items)) == |items|
  {
    GroupSizesCover(items, AllCategories(items));
  }
}
