/** The tableaux page: the fetched tableaux, the search box, the category
    filter, the name sort and the details dialog. */
module Tableaux {
  import opened Seqs
  import opened Records
  import opened Library
  import opened Sorting
  import opened Sheets

  /** The sort direction, `"asc" | "desc"`. */
  datatype SortOrder = Asc | Desc

  /** `toggleSortOrder`'s update: the other direction. */
  function Flip(order: SortOrder): (r: SortOrder)
    ensures r != order
  {
    if order == Asc then Desc else Asc
  }

  /** Flipping twice is the identity. */
  lemma FlipTwice(order: SortOrder)
    ensures Flip(Flip(order)) == order
  {
    assert Flip(order) != order && Flip(Flip(order)) != Flip(order);
  }

  /** The comparator `asc ? a.name.localeCompare(b.name) : -...` as the
      relation "may come before", given the collation `le` of names
      (`le(x, y)` is `x.localeCompare(y) <= 0`). */
  function NameOrder(order: SortOrder, le: (string, string) -> bool): (before: (Item, Item) -> bool)
    ensures order == Asc ==> forall a, b :: before(a, b) == le(a.name, b.name)
    ensures order == Desc ==> forall a, b :: before(a, b) == le(b.name, a.name)
  {
    if order == Asc then (a: Item, b: Item) => le(a.name, b.name)
    else (a: Item, b: Item) => le(b.name, a.name)
  }

  /** A collation that is a total preorder gives a total preorder on items in
      either direction. */
  lemma NameOrderTotal(order: SortOrder, le: (string, string) -> bool)
    requires TotalPreorder(le)
    ensures TotalPreorder(NameOrder(order, le))
  {
    var before := NameOrder(order, le);
    assert Total(le) && Transitive(le);
    forall a: Item, b: Item ensures before(a, b) || before(b, a) {
      assert le(a.name, b.name) || le(b.name, a.name);
    }
    forall a: Item, b: Item, c: Item | before(a, b) && before(b, c) ensures before(a, c) {
      if order == Asc {
        assert le(a.name, b.name) && le(b.name, c.name);
      } else {
        assert le(c.name, b.name) && le(b.name, a.name);
      }
    }
  }

  /** `sortedTableaux`: the stable sort of a copy of the list by name. The
      result is a permutation of the list; with `Asc` names never decrease,
      with `Desc` they never increase; rows with equal names keep their
      relative order. */
  function SortByName(items: seq<Item>, order: SortOrder, le: (string, string) -> bool): (r: seq<Item>)
    requires TotalPreorder(le)
    ensures multiset(r) == multiset(items)
    ensures order == Asc ==> forall i :: 0 < i < |r| ==> le(r[i - 1].name, r[i].name)
    ensures order == Desc ==> forall i :: 0 < i < |r| ==> le(r[i].name, r[i - 1].name)
    ensures forall k :: TiesOf(r, k, NameOrder(order, le)) == TiesOf(items, k, NameOrder(order, le))
  {
    NameOrderTotal(order, le);
    var r := StableSort(items, NameOrder(order, le));
    assert forall k :: TiesOf(r, k, NameOrder(order, le)) == TiesOf(items, k, NameOrder(order, le)) by {
      forall k ensures TiesOf(r, k, NameOrder(order, le)) == TiesOf(items, k, NameOrder(order, le)) {
        SortIsStable(items, k, NameOrder(order, le));
      }
    }
    assert Sorted(r, NameOrder(order, le));
    r
  }

  /** A name-ascending list read back to front is sorted descending. */
  lemma ReverseSortedDesc(asc: seq<Item>, le: (string, string) -> bool)
    requires forall i :: 0 < i < |asc| ==> le(asc[i - 1].name, asc[i].name)
    ensures Sorted(Reverse(asc), NameOrder(Desc, le))
  {
    var r, n := Reverse(asc), |asc|;
    forall i | 0 < i < |r| ensures NameOrder(Desc, le)(r[i - 1], r[i]) {
      assert r[i] == asc[n - 1 - i] && r[i - 1] == asc[(n - 1 - i) + 1];
    }
  }

  /** A list whose names never increase is sorted by the descending order. */
  lemma NamesDescSorted(desc: seq<Item>, le: (string, string) -> bool)
    requires forall i :: 0 < i < |desc| ==> le(desc[i].name, desc[i - 1].name)
    ensures Sorted(desc, NameOrder(Desc, le))
  {
  }

  /** A rearrangement of rows that no name ties keeps that property under the
      descending order. */
  lemma NoTiesCarry(items: seq<Item>, r: seq<Item>, le: (string, string) -> bool)
    requires multiset(r) == multiset(items)
    requires forall a, b :: a in items && b in items && le(a.name, b.name) && le(b.name, a.name) ==> a == b
    ensures forall a, b :: a in r && b in r && NameOrder(Desc, le)(a, b) && NameOrder(Desc, le)(b, a) ==> a == b
  {
    forall a, b | a in r && b in r && NameOrder(Desc, le)(a, b) && NameOrder(Desc, le)(b, a) ensures a == b {
      assert a in multiset(r) && b in multiset(r);
      assert a in items && b in items;
    }
  }

  /** When the collation ties no two different rows by name, sorting
      descending gives exactly the ascending order reversed. */
  lemma DescReversesAsc(items: seq<Item>, le: (string, string) -> bool)
    requires TotalPreorder(le)
    requires forall a, b :: a in items && b in items && le(a.name, b.name) && le(b.name, a.name) ==> a == b
    ensures SortByName(items, Desc, le) == Reverse(SortByName(items, Asc, le))
  {
    var asc, desc := SortByName(items, Asc, le), SortByName(items, Desc, le);
    var r := Reverse(asc);
    NameOrderTotal(Desc, le);
    ReverseSortedDesc(asc, le);
    NamesDescSorted(desc, le);
    ReverseMultiset(asc);
    NoTiesCarry(items, r, le);
    SortedUnique(r, desc, NameOrder(Desc, le));
  }

  class TableauxPage {
    var tableaux: seq<Item>
    var loading: bool
    var searchTerm: string
    var selectedCategories: seq<string>
    var sortOrder: SortOrder
    /** The tableau shown in the details dialog. */
    var selectedTableau: Option<Item>

    ghost predicate Valid()
      reads this
    {
      NoDup(selectedCategories)
    }

    /** The initial state: ascending, no dialog open. */
    constructor ()
      ensures Valid()
      ensures tableaux == [] && loading && searchTerm == "" && selectedCategories == []
      ensures sortOrder == Asc && selectedTableau.None?
    {
      tableaux := [];
      loading := true;
      searchTerm := "";
      selectedCategories := [];
      sortOrder := Asc;
      selectedTableau := None;
    }

    /** The tableaux that pass the search and the filter, in list order. */
    function FilteredTableaux(): (r: seq<Item>)
      reads this
      ensures forall x :: x in r <==> x in tableaux && MatchesSearch(x, searchTerm) && x.category in selectedCategories
      ensures forall x :: multiset(r)[x] ==
                if MatchesSearch(x, searchTerm) && x.category in selectedCategories then multiset(tableaux)[x] else 0
      ensures IsSubsequence(r, tableaux)
    {
      FilterSelected(tableaux, searchTerm, selectedCategories)
    }

    /** The tableaux as displayed: the filtered list sorted by name in the
        current direction. Only reads the state. */
    function SortedTableaux(le: (string, string) -> bool): (r: seq<Item>)
      reads this
      requires TotalPreorder(le)
      ensures multiset(r) == multiset(FilteredTableaux())
      ensures sortOrder == Asc ==> forall i :: 0 < i < |r| ==> le(r[i - 1].name, r[i].name)
      ensures sortOrder == Desc ==> forall i :: 0 < i < |r| ==> le(r[i].name, r[i - 1].name)
      ensures forall k :: TiesOf(r, k, NameOrder(sortOrder, le)) == TiesOf(FilteredTableaux(), k, NameOrder(sortOrder, le))
    {
      SortByName(FilteredTableaux(), sortOrder, le)
    }

    /** The loading effect: the fetched tableaux replace the list and every
        category is selected. A failed fetch changes nothing but `loading`. */
    method Load(fetched: Fetch<Item>)
      modifies this
      requires Valid()
      ensures Valid()
      ensures fetched.FetchFailed? ==>
                tableaux == old(tableaux) && selectedCategories == old(selectedCategories)
      ensures fetched.Fetched? ==>
                tableaux == fetched.data && selectedCategories == AllCategories(fetched.data)
      ensures searchTerm == old(searchTerm) && sortOrder == old(sortOrder)
      ensures selectedTableau == old(selectedTableau)
      ensures !loading
    {
      if fetched.Fetched? {
        tableaux, selectedCategories := fetched.data, AllCategories(fetched.data);
      }
      loading := false;
    }

    /** The search box's `onChange`. */
    method SetSearchTerm(term: string)
      modifies this
      ensures old(Valid()) ==> Valid()
      ensures searchTerm == term
      ensures tableaux == old(tableaux) && selectedCategories == old(selectedCategories)
      ensures sortOrder == old(sortOrder) && selectedTableau == old(selectedTableau)
      ensures loading == old(loading)
    {
      searchTerm := term;
    }

    /** `clearSearch`. */
    method ClearSearch()
      modifies this
      ensures old(Valid()) ==> Valid()
      ensures searchTerm == ""
      ensures tableaux == old(tableaux) && selectedCategories == old(selectedCategories)
      ensures sortOrder == old(sortOrder) && selectedTableau == old(selectedTableau)
      ensures loading == old(loading)
    {
      searchTerm := "";
    }

    /** `toggleSortOrder`: only the direction changes. */
    method ToggleSortOrder()
      modifies this
      ensures old(Valid()) ==> Valid()
      ensures sortOrder == Flip(old(sortOrder))
      ensures tableaux == old(tableaux) && selectedCategories == old(selectedCategories)
      ensures searchTerm == old(searchTerm) && selectedTableau == old(selectedTableau)
      ensures loading == old(loading)
    {
      sortOrder := Flip(sortOrder);
    }

    /** `toggleCategoryFilter`. */
    method ToggleCategoryFilter(category: string)
      modifies this
      requires Valid()
      ensures Valid()
      ensures selectedCategories == Toggle(old(selectedCategories), category)
      ensures tableaux == old(tableaux) && searchTerm == old(searchTerm)
      ensures sortOrder == old(sortOrder) && selectedTableau == old(selectedTableau)
      ensures loading == old(loading)
    {
      selectedCategories := Toggle(selectedCategories, category);
    }

    /** `selectAllCategories`. */
    method SelectAllCategories()
      modifies this
      ensures Valid()
      ensures selectedCategories == AllCategories(tableaux)
      ensures tableaux == old(tableaux) && searchTerm == old(searchTerm)
      ensures sortOrder == old(sortOrder) && selectedTableau == old(selectedTableau)
      ensures loading == old(loading)
    {
      selectedCategories := AllCategories(tableaux);
    }

    /** `clearAllCategories`: nothing is listed any more. */
    method ClearAllCategories()
      modifies this
      ensures Valid()
      ensures selectedCategories == []
      ensures FilteredTableaux() == []
      ensures tableaux == old(tableaux) && searchTerm == old(searchTerm)
      ensures sortOrder == old(sortOrder) && selectedTableau == old(selectedTableau)
      ensures loading == old(loading)
    {
      selectedCategories := [];
      NothingSelected(tableaux, searchTerm);
    }

    /** `viewTableauDetails`: only the dialog's tableau changes. */
    method ViewDetails(t: Item)
      modifies this
      ensures old(Valid()) ==> Valid()
      ensures selectedTableau == Some(t)
      ensures tableaux == old(tableaux) && selectedCategories == old(selectedCategories)
      ensures searchTerm == old(searchTerm) && sortOrder == old(sortOrder)
      ensures loading == old(loading)
    {
      selectedTableau := Some(t);
    }

    /** `closeTableauDetails`: only the dialog's tableau changes. */
    method CloseDetails()
      modifies this
      ensures old(Valid()) ==> Valid()
      ensures selectedTableau.None?
      ensures tableaux == old(tableaux) && selectedCategories == old(selectedCategories)
      ensures searchTerm == old(searchTerm) && sortOrder == old(sortOrder)
      ensures loading == old(loading)
    {
      selectedTableau := None;
    }
  }
}
