/** The documents page: the fetched documents, the search box, the category
    filter and the expanded accordion groups. */
module Documents {
  import opened Seqs
  import opened Records
  import opened Library
  import opened Sheets

  class DocumentsPage {
    var documents: seq<Item>
    var loading: bool
    var searchTerm: string
    /** Accordion groups that are open. */
    var expandedCategories: seq<string>
    /** Categories the filter lets through. */
    var selectedCategories: seq<string>

    /** Both category lists are free of duplicates. */
    ghost predicate Valid()
      reads this
    {
      NoDup(expandedCategories) && NoDup(selectedCategories)
    }

    constructor ()
      ensures Valid()
      ensures documents == [] && loading && searchTerm == ""
      ensures expandedCategories == [] && selectedCategories == []
    {
      documents := [];
      loading := true;
      searchTerm := "";
      expandedCategories := [];
      selectedCategories := [];
    }

    /** The documents currently listed. */
    function FilteredDocuments(): (r: seq<Item>)
      reads this
      ensures forall x :: x in r <==> x in documents && MatchesSearch(x, searchTerm) && x.category in selectedCategories
      ensures forall x :: multiset(r)[x] ==
                if MatchesSearch(x, searchTerm) && x.category in selectedCategories then multiset(documents)[x] else 0
      ensures IsSubsequence(r, documents)
    {
      FilterSelected(documents, searchTerm, selectedCategories)
    }

    /** The loading effect: the fetched documents replace the list, every
        category is selected, and the first category's group is opened when
        there is one. A failed fetch changes nothing but `loading`. */
    method Load(fetched: Fetch<Item>)
      modifies this
      requires Valid()
      ensures Valid()
      ensures fetched.FetchFailed? ==>
                documents == old(documents) && selectedCategories == old(selectedCategories) &&
                expandedCategories == old(expandedCategories)
      ensures fetched.Fetched? ==>
                documents == fetched.data && selectedCategories == AllCategories(fetched.data)
      ensures fetched.Fetched? && fetched.data != [] ==> expandedCategories == [fetched.data[0].category]
      ensures fetched.Fetched? && fetched.data == [] ==> expandedCategories == old(expandedCategories)
      ensures searchTerm == old(searchTerm)
      ensures !loading
    {
      if fetched.Fetched? {
        var data := fetched.data;
        var categories := AllCategories(data);
        documents, selectedCategories := data, categories;
        if |categories| > 0 {
          expandedCategories := [categories[0]];
        }
      }
      loading := false;
    }

    /** The search box's `onChange`. */
    method SetSearchTerm(term: string)
      modifies this
      ensures old(Valid()) ==> Valid()
      ensures searchTerm == term
      ensures documents == old(documents) && selectedCategories == old(selectedCategories)
      ensures expandedCategories == old(expandedCategories) && loading == old(loading)
    {
      searchTerm := term;
    }

    /** `clearSearch`. */
    method ClearSearch()
      modifies this
      ensures old(Valid()) ==> Valid()
      ensures searchTerm == ""
      ensures documents == old(documents) && selectedCategories == old(selectedCategories)
      ensures expandedCategories == old(expandedCategories) && loading == old(loading)
    {
      searchTerm := "";
    }

    /** `toggleCategory`: open or close one accordion group; the filter is
        not touched. */
    method ToggleCategory(category: string)
      modifies this
      requires Valid()
      ensures Valid()
      ensures expandedCategories == Toggle(old(expandedCategories), category)
      ensures documents == old(documents) && selectedCategories == old(selectedCategories)
      ensures searchTerm == old(searchTerm) && loading == old(loading)
    {
      expandedCategories := Toggle(expandedCategories, category);
    }

    /** `toggleCategoryFilter`: let one category through or hold it back. */
    method ToggleCategoryFilter(category: string)
      modifies this
      requires Valid()
      ensures Valid()
      ensures selectedCategories == Toggle(old(selectedCategories), category)
      ensures documents == old(documents) && expandedCategories == old(expandedCategories)
      ensures searchTerm == old(searchTerm) && loading == old(loading)
    {
      selectedCategories := Toggle(selectedCategories, category);
    }

    /** `selectAllCategories`: the filter is set to `allCategories`. */
    method SelectAllCategories()
      modifies this
      requires Valid()
      ensures Valid()
      ensures selectedCategories == AllCategories(documents)
      ensures documents == old(documents) && expandedCategories == old(expandedCategories)
      ensures searchTerm == old(searchTerm) && loading == old(loading)
    {
      selectedCategories := AllCategories(documents);
    }

    /** `clearAllCategories`: nothing is listed any more, whatever the search. */
    method ClearAllCategories()
      modifies this
      requires Valid()
      ensures Valid()
      ensures selectedCategories == []
      ensures FilteredDocuments() == []
      ensures documents == old(documents) && expandedCategories == old(expandedCategories)
      ensures searchTerm == old(searchTerm) && loading == old(loading)
    {
      selectedCategories := [];
      NothingSelected(documents, searchTerm);
    }

    /** `groupedDocuments`: the listed documents by category; the state is
        only read. */
    method GroupedDocuments() returns (groups: map<string, seq<Item>>, keys: seq<string>)
      ensures keys == AllCategories(FilteredDocuments())
      ensures forall c :: c in groups <==> c in keys
      ensures forall c :: c in groups ==> groups[c] == ByCategory(FilteredDocuments(), c)
      ensures GroupSizes(FilteredDocuments(), keys) == |FilteredDocuments()|
    {
      groups, keys := GroupByCategory(FilteredDocuments());
      GroupsPartition(FilteredDocuments());
    }
  }
}
