/** The diagrammes page: the fetched diagrams, the search box and the
    expanded accordion groups; there is no category filter. */
module Diagrammes {
  import opened Seqs
  import opened Records
  import opened Library
  import opened Sheets

  class DiagrammesPage {
    var diagrams: seq<Item>
    var loading: bool
    var searchTerm: string
    /** Accordion groups that are open. */
    var expandedCategories: seq<string>

    ghost predicate Valid()
      reads this
    {
      NoDup(expandedCategories)
    }

    constructor ()
      ensures Valid()
      ensures diagrams == [] && loading && searchTerm == "" && expandedCategories == []
    {
      diagrams := [];
      loading := true;
      searchTerm := "";
      expandedCategories := [];
    }

    /** The diagrams that pass the search, in list order. */
    function FilteredDiagrams(): (r: seq<Item>)
      reads this
      ensures forall x :: x in r <==> x in diagrams && MatchesSearch(x, searchTerm)
      ensures forall x :: multiset(r)[x] == if MatchesSearch(x, searchTerm) then multiset(diagrams)[x] else 0
      ensures IsSubsequence(r, diagrams)
    {
      FilterSearch(diagrams, searchTerm)
    }

    /** The loading effect: the fetched diagrams replace the list, and when
        there is at least one, exactly the first one's category is expanded;
        otherwise the expanded groups stay as they were. */
    method Load(fetched: Fetch<Item>)
      modifies this
      requires Valid()
      ensures Valid()
      ensures diagrams == (if fetched.Fetched? then fetched.data else old(diagrams))
      ensures fetched.Fetched? && fetched.data != [] ==> expandedCategories == [fetched.data[0].category]
      ensures fetched.FetchFailed? || fetched.data == [] ==> expandedCategories == old(expandedCategories)
      ensures searchTerm == old(searchTerm)
      ensures !loading
    {
      if fetched.Fetched? {
        var data := fetched.data;
        diagrams := data;
        if |data| > 0 {
          var categories := AllCategories(data);
          if |categories| > 0 {
            expandedCategories := [categories[0]];
          }
        }
      }
      loading := false;
    }

    /** The search box's `onChange`. */
    method SetSearchTerm(term: string)
      modifies this
      ensures old(Valid()) ==> Valid()
      ensures searchTerm == term
      ensures diagrams == old(diagrams) && expandedCategories == old(expandedCategories)
      ensures loading == old(loading)
    {
      searchTerm := term;
    }

    /** `clearSearch`. */
    method ClearSearch()
      modifies this
      ensures old(Valid()) ==> Valid()
      ensures searchTerm == ""
      ensures diagrams == old(diagrams) && expandedCategories == old(expandedCategories)
      ensures loading == old(loading)
    {
      searchTerm := "";
    }

    /** `toggleCategory`: open or close one accordion group. */
    method ToggleCategory(category: string)
      modifies this
      requires Valid()
      ensures Valid()
      ensures expandedCategories == Toggle(old(expandedCategories), category)
      ensures diagrams == old(diagrams) && searchTerm == old(searchTerm)
      ensures loading == old(loading)
    {
      expandedCategories := Toggle(expandedCategories, category);
    }

    /** `groupedDiagrams`: the listed diagrams by category; the state is only
        read. */
    method GroupedDiagrams() returns (groups: map<string, seq<Item>>, keys: seq<string>)
      ensures keys == AllCategories(FilteredDiagrams())
      ensures forall c :: c in groups <==> c in keys
      ensures forall c :: c in groups ==> groups[c] == ByCategory(FilteredDiagrams(), c)
      ensures GroupSizes(FilteredDiagrams(), keys) == |FilteredDiagrams()|
    {
      groups, keys := GroupByCategory(FilteredDiagrams());
      GroupsPartition(FilteredDiagrams());
    }
  }
}
