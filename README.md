# Sheetguard navigator: a Dafny model of the page logic

The navigator is a small password-gated web application for a process
validation project. It has four pages:

- **Dashboard**: summary statistics above a task table the user can edit.
- **Documents**: a searchable, category-filtered document library, grouped
  into accordion sections by category.
- **Tableaux**: a searchable, filterable spreadsheet list that can be sorted
  by name in either direction, with a details dialog.
- **Diagrammes**: a searchable diagram library grouped by category.

All the data comes from a stub spreadsheet accessor. It returns one of three
mock datasets, chosen by the configured range, and accepts every update.

This project models the logic behind those pages as Dafny:

- the records and the mock data;
- the accessor's dispatch;
- the dashboard statistics, the id minted for a new task, and the list
  patches applied by save, add and delete;
- the choice between Add and Save on an editor row;
- each page's state and handlers, as classes whose methods update fields;
- the shared search, the category filter, first-seen category lists, the
  grouping into accordion sections, and the stable name sort;
- the password check and the authentication flag in browser storage.

Modules:

| module | what it holds |
|---|---|
| `Seqs` | Sequence helpers: `Filter`, `Distinct`, `Toggle`. |
| `Text` | ASCII lower-casing, `includes`, and `Number()` / `String()` on decimal naturals. |
| `Records` | `Task` and `Item`. |
| `Library` | Search, filters and grouping. |
| `Sorting` | A stable insertion sort over a total preorder. |
| `SheetRanges`, `Sheets` | The configuration and the accessor. |
| `Tasks` | The dashboard's pure expressions. |
| `Dashboard`, `Documents`, `Tableaux`, `Diagrammes` | One page class each. |
| `Auth` | The authentication helpers. |
| `Scenarios` | Results on the mock data. |

Some things the pages do are not computed here; they become parameters.

- **Awaited accessor calls.** The settled result becomes a parameter: `Fetch` for
  a fetch, `Update` for an update. `Update` is either resolved with a
  boolean or rejected.
- **`window.confirm`.** Its answer is the parameter `confirmed`.
- **`localeCompare`.** It becomes a collation parameter `le`, assumed to be a total preorder.

## Model

| member | source | states |
|---|---|---|
| Tasks.CalculateStats | src/pages/Dashboard.tsx:80-95 | An empty list gives all zeros, with no division. Otherwise: the completed count is the number of tasks whose status is "Completed"; the in-progress count covers "In Progress" and "In Review"; the not-started count covers "Not Started"; the overall figure k satisfies k - 1/2 <= mean progress < k + 1/2. |
| Tasks.WithStatus | src/pages/Dashboard.tsx:83-85 | The filter keeps exactly the tasks whose status is in the set, with their multiplicities, and is never longer than the list. |
| Tasks.DisjointCounts | src/pages/Dashboard.tsx:83-85 | Counts over disjoint status sets add up to the count over their union. |
| Tasks.AllCounted | src/pages/Dashboard.tsx:83-85 | When every task's status is in the set, the count is the list length. |
| Tasks.StatsCountsBounded | src/pages/Dashboard.tsx:83-85 | The three counts sum to at most the number of tasks. They sum to exactly that number when every status is one of the four the status selector offers. |
| Tasks.RoundedMean | src/pages/Dashboard.tsx:93 | `Math.round(sum / n)` is the unique integer k with 2nk - n <= 2·sum < 2nk + n. |
| Tasks.RoundedMeanUnique | src/pages/Dashboard.tsx:93 | Any integer within half a unit of the mean equals the rounded mean, so the rounding is determined. |
| Tasks.SumProgressBounds | src/pages/Dashboard.tsx:87-91 | When every progress value is in 0..100, the sum is between 0 and 100·n. |
| Tasks.SumProgress | src/pages/Dashboard.tsx:87 | The `reduce` that adds up every task's progress from 0. It is a definition; `SumProgressAppend` and `SumProgressBounds` state its properties. |
| Tasks.RoundedMeanRange | src/pages/Dashboard.tsx:93 | The rounded mean of a sum in 0..100·n lies in 0..100. |
| Tasks.OverallInRange | src/pages/Dashboard.tsx:87-93 | With every progress value in 0..100, the overall figure is in 0..100. |
| Tasks.MaxId | src/pages/Dashboard.tsx:190 | `Math.max(...ids.map(Number), 0)`: the result is a number exactly when every id is decimal. It is then at least every id's value, and when non-zero it equals some id's value. |
| Tasks.MaxIdAppend | src/pages/Dashboard.tsx:190 | Appending a task takes the larger of the running maximum and the new id. A NaN stays NaN. |
| Tasks.NewTaskId | src/pages/Dashboard.tsx:190 | `String(max + 1)`: "1" for an empty list, "NaN" once an id is not a number, otherwise a string whose number is one more than the maximum. |
| Tasks.NewTaskIdFresh | src/pages/Dashboard.tsx:189-195 | When every id is decimal, the minted id is decimal and differs from every existing id. |
| Tasks.NewTaskFor | src/pages/Dashboard.tsx:191-197 | The task literal `handleNewTask` builds: the minted id, name "New Task", status "Not Started", progress 0, empty assignee. It is a definition; `NewTaskIdFresh` makes its id fresh. |
| Tasks.ReplaceById | src/pages/Dashboard.tsx:129-131 | Every entry carrying the saved task's id becomes that task. The length, the order, every other entry and every id are kept. |
| Tasks.ReplaceIdempotent | src/pages/Dashboard.tsx:129-131 | Saving the same task twice gives the list that one save gives. |
| Tasks.ReplaceAbsentPresent | src/pages/Dashboard.tsx:129-131 | A task whose id is absent leaves the list unchanged; a task whose id is present ends up in the list. |
| Tasks.HasId | src/pages/Dashboard.tsx:477 | `tasks.some(t => t.id === id)`: some entry carries the id. It is a definition used by `RowCommit` and the patch lemmas. |
| Tasks.RemoveById | src/pages/Dashboard.tsx:171 | No entry with the deleted id remains. Every other entry keeps its multiplicity, and the order is kept. |
| Tasks.RemoveAbsent | src/pages/Dashboard.tsx:171 | Deleting an id that is not in the list changes nothing. |
| Tasks.RemoveAppended | src/pages/Dashboard.tsx:171 | Deleting a task just appended under a fresh id gives back the earlier list. |
| Tasks.RowCommit | src/pages/Dashboard.tsx:474-487 | A row shows editor controls exactly when the edited task has the row's id. It shows Add exactly when, in addition, the pending copy carries that id and no task in the list carries it. |
| Tasks.ListedRowNeverAdds | src/pages/Dashboard.tsx:406-409 | As written, the row drawn for any task in the list never offers Add. |
| Tasks.EditedRowOffersSave | src/pages/Dashboard.tsx:474-487 | The row of a listed task put in edit mode by `handleEdit` offers Save. |
| Tasks.NewTaskHasNoEditorRow | src/pages/Dashboard.tsx:406-409 | As written, after `handleNewTask` on a list of decimal ids, no drawn row is in edit mode. |
| Tasks.RenderedRows | src/pages/Dashboard.tsx:406-409 | Corrected row list: every task is drawn. A pending task gets a row of its own when no task carries its id; otherwise the rows are exactly the tasks. |
| Tasks.PendingRowOffersAdd | src/pages/Dashboard.tsx:477-481 | With the corrected rows, the new task is drawn and its row offers Add. |
| Tasks.NewTaskEnabled | src/pages/Dashboard.tsx:255 | "Add Task" is disabled while `loading` or `!!editingTask` holds: it is enabled exactly when nothing is loading and the slot is empty. It is a definition used by `NewTaskLocksPage`. |
| Tasks.RowButtonsEnabled | src/pages/Dashboard.tsx:494-497 | `disabled={!!editingTask}` on Edit and Delete: enabled exactly when the slot is empty. It is a definition used by `NewTaskLocksPage`. |
| Dashboard.DashboardPage.constructor | src/pages/Dashboard.tsx:49-52 | The page starts with no tasks, loading, and nothing being edited. |
| Dashboard.DashboardPage.Load | src/pages/Dashboard.tsx:55-78 | Resolved rows replace the list; a thrown fetch keeps it. Loading ends either way, and the edit slot is untouched, so it stays consistent. |
| Dashboard.DashboardPage.Edit | src/pages/Dashboard.tsx:109-112 | The task and its copy go into the edit slot; the list is untouched. |
| Dashboard.DashboardPage.Save | src/pages/Dashboard.tsx:114-148 | With no pending copy, nothing changes. Otherwise a successful update applies `ReplaceById`, and a false or thrown update keeps the list. In both of those cases loading ends and the slot is cleared. The edit slot stays consistent. |
| Dashboard.DashboardPage.Cancel | src/pages/Dashboard.tsx:150-153 | The slot is cleared; the list and loading are untouched. |
| Dashboard.DashboardPage.Delete | src/pages/Dashboard.tsx:155-187 | A declined confirmation changes nothing. Otherwise a successful update applies `RemoveById` and loading ends. The edit slot is never touched and stays consistent. |
| Dashboard.DashboardPage.NewTask | src/pages/Dashboard.tsx:189-201 | A task with the minted id, name "New Task", status "Not Started", progress 0 and an empty assignee fills the slot. |
| Dashboard.DashboardPage.AddTask | src/pages/Dashboard.tsx:203-237 | With no pending copy, nothing changes. Otherwise a successful update appends the copy, loading ends, and the slot is cleared. The edit slot stays consistent. |
| Dashboard.DashboardPage.Commit | src/pages/Dashboard.tsx:477-487 | Corrected commit button: a pending task whose id no entry carries is appended; one whose id is present replaces those entries. Either way the slot is cleared. |
| Dashboard.DashboardPage.EditName | src/pages/Dashboard.tsx:412 | Only the copy's name changes; its id and the edit-slot invariant are kept. |
| Dashboard.DashboardPage.EditStatus | src/pages/Dashboard.tsx:422 | Only the copy's status changes. |
| Dashboard.DashboardPage.EditProgress | src/pages/Dashboard.tsx:455 | Only the copy's progress changes. |
| Dashboard.DashboardPage.EditAssignee | src/pages/Dashboard.tsx:468 | Only the copy's assignee changes. |
| Dashboard.NewTaskLocksPage | src/pages/Dashboard.tsx:255 | As written, after `handleNewTask` the "Add Task" button is disabled, Edit and Delete are disabled (lines 494 and 497), and no drawn row shows Add or Cancel. |
| Seqs.Filter | src/pages/DocumentsPage.tsx:81-85 | `Array.filter`: keeps exactly the elements that pass, with their multiplicities and in order. |
| Seqs.Distinct | src/pages/DocumentsPage.tsx:78 | `[...new Set(xs)]`: no duplicates, the same elements, a subsequence, in order of first appearance. |
| Seqs.DistinctAppend | src/pages/DocumentsPage.tsx:78 | One more element extends the set's list exactly when the element is new. |
| Seqs.DistinctHead | src/pages/DocumentsPage.tsx:59-61 | The first element of the set's list is the first element of the input. |
| Seqs.Without | src/pages/DocumentsPage.tsx:119 | `prev.filter(c => c !== x)`, as in every category toggle: the element is gone, every other element keeps its presence, the result is a subsequence, and its length drops by the element's multiplicity. |
| Seqs.Toggle | src/pages/DocumentsPage.tsx:116-122 | The element is in the result exactly when it was not in the input; every other element keeps its presence. A new element is appended; a present one is removed. No duplicates are introduced. |
| Seqs.ToggleTwice | src/pages/TableauxPage.tsx:106-112 | Toggling twice restores membership, and restores the list itself when the element was absent. |
| Seqs.FilterKeepsAll | src/pages/DocumentsPage.tsx:81-85 | A filter that every element passes returns the list itself. |
| Seqs.FilterDropsAll | src/pages/DocumentsPage.tsx:81-85 | A filter that no element passes returns the empty list. |
| Text.Lower | src/pages/DocumentsPage.tsx:82 | `toLowerCase` on ASCII letters: same length, each letter lower-cased, no upper-case letter left. |
| Text.LowerIdempotent | src/pages/DocumentsPage.tsx:82 | Lower-casing twice is lower-casing once. |
| Text.Includes | src/pages/DocumentsPage.tsx:82-83 | `String.includes`, used by every page's search and by the accessor's range dispatch: holds exactly when the needle occurs at some offset (stated by `Text.IncludesAt`). |
| Text.IncludesAt | src/pages/DocumentsPage.tsx:82 | `includes` holds exactly when the needle occurs at some position. |
| Text.IncludesEmpty | src/pages/DocumentsPage.tsx:82 | Every string includes the empty string. |
| Text.NumberOf | src/pages/Dashboard.tsx:190 | `Number(id)`: "" is 0; the result is a number exactly for digit strings, and then it is the decimal value of the digits. |
| Text.NatToString | src/pages/Dashboard.tsx:190 | `String(n)` for a natural number: a non-empty digit string without a leading zero, which `Number` reads back as n (stated by `Text.NumberOfNatToString`). |
| Text.NumberOfNatToString | src/pages/Dashboard.tsx:190 | `Number(String(n))` is n. |
| Records.Categories | src/pages/DocumentsPage.tsx:78 | `items.map(d => d.category)`: same length, the i-th entry is the i-th item's category. |
| Library.AllCategories | src/pages/DocumentsPage.tsx:78 | Each category once, exactly the categories present, in order of first appearance. It is non-empty for a non-empty list, and then begins with the first item's category. |
| Library.FilterSelected | src/pages/DocumentsPage.tsx:81-85 | The listed rows are exactly those matching the search in name or category, ignoring case, whose category is selected. Multiplicities and order are kept. |
| Library.FilterSearch | src/pages/DiagrammesPage.tsx:68-71 | The listed diagrams are exactly those matching the search in name or category, ignoring case; order is kept. |
| Library.MatchesSearch | src/pages/DocumentsPage.tsx:82-83 | The search test shared by all three library pages: the lower-cased name or the lower-cased category includes the lower-cased term. It is a definition; `SearchIgnoresCase` and `EmptyTermMatches` state its properties. |
| Library.EmptySearchAllSelected | src/pages/TableauxPage.tsx:78-82 | With an empty search and every category selected, the filtered view is the whole list. |
| Library.EmptySearchAllCategories | src/pages/DocumentsPage.tsx:81-85 | Right after loading, every category is selected, and the empty search lists every document in order. |
| Library.NothingSelected | src/pages/DocumentsPage.tsx:130-132 | With no category selected, nothing is listed, whatever the search term. |
| Library.EmptySearchShowsAll | src/pages/DiagrammesPage.tsx:97-99 | After the search is cleared, every diagram is listed in order. |
| Library.SearchIgnoresCase | src/pages/DocumentsPage.tsx:82-84 | Searching for a term or for its lower-cased form selects the same rows. |
| Library.ByCategory | src/pages/DocumentsPage.tsx:88-94 | A category's group holds exactly its rows, each as many times as the list holds it (duplicates are kept), in their original order. It is empty for a category that does not occur. |
| Library.Grouping | src/pages/DocumentsPage.tsx:88-94 | The dictionary built by `reduce` has a key exactly for each category that occurs. |
| Library.GroupingAppend | src/pages/DocumentsPage.tsx:90-92 | One more row is pushed onto its category's entry, which is created empty first. |
| Library.GroupingByCategory | src/pages/DocumentsPage.tsx:88-94 | Each dictionary entry equals that category's rows, in order. |
| Library.GroupByCategory | src/pages/DiagrammesPage.tsx:74-80 | The loop builds the `reduce`'s dictionary and the first-seen key list, one group per category, holding that category's rows. |
| Library.GroupsPartition | src/pages/DocumentsPage.tsx:88-94 | The group sizes sum to the number of rows, so every row is in exactly one group. |
| Sorting.InsertStable | src/pages/TableauxPage.tsx:85-88 | One insertion step: a permutation that keeps sortedness. |
| Sorting.StableSort | src/pages/TableauxPage.tsx:85-88 | The sort of the copy is a permutation of the filtered list in which each row may come before the next. |
| Sorting.SortIsStable | src/pages/TableauxPage.tsx:85-88 | Rows that compare equal keep their relative order. |
| Sorting.SortedUnique | src/pages/TableauxPage.tsx:85-88 | Two sorted arrangements of the same rows are equal when the comparator ties no two different rows, so the displayed order is determined. |
| Sorting.SortedAllPairs | src/pages/TableauxPage.tsx:85-88 | In the sorted list every row may come before every later one. |
| Tableaux.SortByName | src/pages/TableauxPage.tsx:85-88 | The displayed list is a permutation of the filtered one. Names never decrease with `asc` and never increase with `desc`. Rows with equal names keep their relative order. |
| Tableaux.DescReversesAsc | src/pages/TableauxPage.tsx:85-93 | When the collation ties no two different rows by name, the descending list is exactly the ascending list reversed. |
| Tableaux.ReverseSortedDesc | src/pages/TableauxPage.tsx:85-88 | A name-ascending list read back to front is sorted by the descending comparator. |
| Tableaux.NameOrderTotal | src/pages/TableauxPage.tsx:86-87 | The comparator is a total preorder in either direction. |
| Tableaux.NameOrder | src/pages/TableauxPage.tsx:86-87 | The comparator as "may come before": `asc` compares names by the collation, `desc` compares them the other way round. |
| Tableaux.Flip | src/pages/TableauxPage.tsx:91-93 | Toggling always changes the direction. |
| Tableaux.FlipTwice | src/pages/TableauxPage.tsx:91-93 | Toggling twice restores the direction. |
| Tableaux.TableauxPage.constructor | src/pages/TableauxPage.tsx:36-41 | Empty list, loading, empty search, no selection, ascending, no dialog. |
| Tableaux.TableauxPage.FilteredTableaux | src/pages/TableauxPage.tsx:78-82 | `filteredTableaux`: exactly the tableaux that match the search and whose category is selected, each with its multiplicity, in list order. |
| Tableaux.TableauxPage.SortedTableaux | src/pages/TableauxPage.tsx:85-88 | `sortedTableaux`, the list the page displays: a permutation of the filtered tableaux whose names never decrease with `asc` and never increase with `desc`; rows with equal names keep their relative order (the sort is stable). |
| Tableaux.TableauxPage.Load | src/pages/TableauxPage.tsx:45-72 | Resolved rows replace the list and every category is selected. A thrown fetch keeps the list and the selection. Loading ends either way. |
| Tableaux.TableauxPage.SetSearchTerm | src/pages/TableauxPage.tsx:158 | Only the search term changes. |
| Tableaux.TableauxPage.ClearSearch | src/pages/TableauxPage.tsx:101-103 | Only the search term changes, to "". |
| Tableaux.TableauxPage.ToggleSortOrder | src/pages/TableauxPage.tsx:91-93 | Only the direction changes, to the other one. |
| Tableaux.TableauxPage.ToggleCategoryFilter | src/pages/TableauxPage.tsx:106-112 | Only the selection changes, by `Toggle`, and it stays free of duplicates. |
| Tableaux.TableauxPage.SelectAllCategories | src/pages/TableauxPage.tsx:115-117 | The selection becomes the list's categories. |
| Tableaux.TableauxPage.ClearAllCategories | src/pages/TableauxPage.tsx:120-122 | The selection is emptied and nothing is listed any more. |
| Tableaux.TableauxPage.ViewDetails | src/pages/TableauxPage.tsx:125-127 | Only the dialog's tableau changes, to the given one. |
| Tableaux.TableauxPage.CloseDetails | src/pages/TableauxPage.tsx:130-132 | Only the dialog's tableau changes, to none. |
| Documents.DocumentsPage.constructor | src/pages/DocumentsPage.tsx:35-39 | Empty list, loading, empty search, no group open, nothing selected. |
| Documents.DocumentsPage.FilteredDocuments | src/pages/DocumentsPage.tsx:81-85 | `filteredDocuments`: exactly the documents that match the search and whose category is selected, each with its multiplicity, in list order. |
| Documents.DocumentsPage.Load | src/pages/DocumentsPage.tsx:43-75 | Resolved rows replace the list and every category is selected. Exactly the first document's category is expanded when there is a document. A thrown fetch keeps the list and both category lists. |
| Documents.DocumentsPage.SetSearchTerm | src/pages/DocumentsPage.tsx:158 | Only the search term changes. |
| Documents.DocumentsPage.ClearSearch | src/pages/DocumentsPage.tsx:111-113 | Only the search term changes, to "". |
| Documents.DocumentsPage.ToggleCategory | src/pages/DocumentsPage.tsx:97-103 | Only the expanded groups change, by `Toggle`; the filter is not touched. |
| Documents.DocumentsPage.ToggleCategoryFilter | src/pages/DocumentsPage.tsx:116-122 | Only the selection changes, by `Toggle`; the expanded groups are not touched. |
| Documents.DocumentsPage.SelectAllCategories | src/pages/DocumentsPage.tsx:125-127 | The selection becomes the list's categories. |
| Documents.DocumentsPage.ClearAllCategories | src/pages/DocumentsPage.tsx:130-132 | The selection is emptied and nothing is listed, whatever the search. |
| Documents.DocumentsPage.GroupedDocuments | src/pages/DocumentsPage.tsx:88-94 | One group per listed category, in first-seen order, each holding that category's listed rows. The groups together hold every listed row. |
| Diagrammes.DiagrammesPage.constructor | src/pages/DiagrammesPage.tsx:27-30 | Empty list, loading, empty search, no group open. |
| Diagrammes.DiagrammesPage.FilteredDiagrams | src/pages/DiagrammesPage.tsx:68-71 | `filteredDiagrams`: exactly the diagrams that match the search, each with its multiplicity, in list order. |
| Diagrammes.DiagrammesPage.Load | src/pages/DiagrammesPage.tsx:34-65 | Resolved rows replace the list. With at least one row, exactly the first row's category is expanded; otherwise the expanded groups are kept. |
| Diagrammes.DiagrammesPage.SetSearchTerm | src/pages/DiagrammesPage.tsx:124 | Only the search term changes. |
| Diagrammes.DiagrammesPage.ClearSearch | src/pages/DiagrammesPage.tsx:97-99 | Only the search term changes, to "". |
| Diagrammes.DiagrammesPage.ToggleCategory | src/pages/DiagrammesPage.tsx:83-89 | Only the expanded groups change, by `Toggle`. |
| Diagrammes.DiagrammesPage.GroupedDiagrams | src/pages/DiagrammesPage.tsx:74-80 | One group per listed category, each holding that category's rows. The groups together hold every listed diagram. |
| Auth.ValidatePassword | src/utils/authUtils.ts:15-17 | The password passes exactly when it equals the secret. |
| Auth.OnlyTheSecretPasses | src/utils/authUtils.ts:8 | "cbe425" passes. A different case, a leading blank, a prefix and the empty string do not. |
| Auth.BoolString | src/utils/authUtils.ts:24 | `toString` of a boolean is "true" or "false". |
| Auth.AuthStateOf | src/utils/authUtils.ts:32 | `getItem('isAuthenticated') === 'true'`: the flag is set exactly when the key is present and holds "true". It is a definition; `SetThenGet` and `ClearedOrNeverSet` state its properties. |
| Auth.SetThenGet | src/utils/authUtils.ts:23-33 | After writing the flag b, reading it gives b. |
| Auth.ClearedOrNeverSet | src/utils/authUtils.ts:31-40 | After the key is removed, or when it was never written, the flag reads false. |
| Auth.AuthStore.constructor | src/utils/authUtils.ts:23-40 | The store starts from the given storage. |
| Auth.AuthStore.SetAuthState | src/utils/authUtils.ts:23-25 | Only the flag's key is written, with "true" or "false"; reading it back gives the value written. |
| Auth.AuthStore.GetAuthState | src/utils/authUtils.ts:31-33 | The flag is true exactly when the key holds "true"; nothing changes. |
| Auth.AuthStore.ClearAuthState | src/utils/authUtils.ts:38-40 | Only the flag's key is removed, and the flag then reads false. |
| Sheets.FetchSheetData | src/utils/googleSheetsUtils.ts:21-36 | A range mentioning "documents" gets the documents mock, even when it also mentions "tableaux". Otherwise a range mentioning "tableaux" gets the tableaux mock, and every other range gets the dashboard mock. |
| Sheets.UpdateSheetData | src/utils/googleSheetsUtils.ts:44-53 | Every payload, including the deletion tombstone, is accepted for every sheet. |
| Sheets.ConfiguredRanges | src/configs/appConfig.ts:13-35 | The documents range gets the documents mock and the tableaux range the tableaux mock. The dashboard and diagrammes ranges both get the dashboard's task mock. |
| SheetRanges.TableauxRangeLacksDocuments | src/configs/appConfig.ts:28 | The tableaux range does not mention "documents". |
| SheetRanges.TableauxRangeHasTableaux | src/configs/appConfig.ts:28 | The tableaux range mentions "tableaux". |
| SheetRanges.DashboardRangeLacksDocuments | src/configs/appConfig.ts:16 | The dashboard range does not mention "documents". |
| SheetRanges.DashboardRangeLacksTableaux | src/configs/appConfig.ts:16 | The dashboard range does not mention "tableaux". |
| SheetRanges.DiagrammesRangeLacksDocuments | src/configs/appConfig.ts:34 | The diagrammes range does not mention "documents". |
| SheetRanges.DiagrammesRangeLacksTableaux | src/configs/appConfig.ts:34 | The diagrammes range does not mention "tableaux". |
| Scenarios.DashboardLoadsMockTasks | src/utils/googleSheetsUtils.ts:56-62 | The dashboard's configured fetch yields the five mock tasks. |
| Scenarios.MockTaskFields | src/utils/googleSheetsUtils.ts:56-62 | The dashboard mock holds five tasks with ids 1 to 5, statuses In Progress, Completed, Not Started, In Progress, In Review and progress 75, 100, 0, 30, 90. |
| Scenarios.MockDashboardStats | src/utils/googleSheetsUtils.ts:56-62 | On the mock tasks the cards show 1 completed, 3 in progress, 1 not started, and 59% overall. |
| Scenarios.MockDashboardNextId | src/utils/googleSheetsUtils.ts:56-62 | A new task on the mock data gets the id "6". |
| Scenarios.MockDocumentsCategoryColumn | src/utils/googleSheetsUtils.ts:64-121 | The categories of the eight mock documents, row by row. |
| Scenarios.MockDocumentsCategories | src/utils/googleSheetsUtils.ts:64-121 | The eight mock documents have the categories Protocols, Reports, Technical and Testing, in that order. |
| Scenarios.MockTableauxFields | src/utils/googleSheetsUtils.ts:123-159 | The tableaux mock holds five spreadsheets, each with its own category, with the names and categories the source lists. |

## Left out

- `toLowerCase` is modelled on ASCII letters only. Non-ASCII case mappings are not modelled.
- `localeCompare` is not computed. It is the parameter `le` (`le(x, y)` when `x.localeCompare(y) <= 0`), assumed to be a total preorder. The source sorts descending by negating `a.localeCompare(b)`; the model instead compares b with a, as `le(b, a)`. The two agree on the assumption that `localeCompare(a, b)` and `localeCompare(b, a)` always have opposite signs (or are both 0). `Array.sort`'s algorithm is modelled by a stable insertion sort, because only the result's properties are relied on.
- Text.NumberOf: `Number(id)` is modelled for the empty string and for digit strings; every other string reads as NaN. JavaScript would read signs, blanks, decimals, exponents and hexadecimal differently. Number precision beyond 2^53 is not modelled.
- Tasks.RoundedMean: `Math.round(sum / n)` is taken to round the exact quotient. This assumes the floating-point division is exact enough, which holds for progress sums well below 2^52; rounding error in the division is not modelled.
- Dashboard.DashboardPage.EditProgress takes the number the progress input parsed to. `Number(e.target.value)` on the raw text and the input's min/max are not modelled.
- Task progress is an integer percentage. The source's `number` could also hold a fraction.
- Asynchrony is not modelled: delays, interleaving of handlers, and the interim `loading := true` as other handlers would see it. Each handler is one atomic step, and the settled result of the awaited call is a parameter.
- Toasts, console logging and error messages are not modelled; only the state changes are.
- `window.confirm` is the parameter `confirmed`.
- Opening a link in a new tab is not modelled: `openDocument`, `openTableau` and `openDiagram` call `window.open` and change no state.
- The accordion's dictionary is a Dafny map with a separate first-seen key list. JavaScript's `Object.entries` key order (integer-like keys first) and inherited keys are not modelled.
- The diagrammes page receives task-shaped rows from the accessor, and those rows have no `category`; `Sheets.ConfiguredRanges` states that the range dispatches to the dashboard mock. The page class types its rows as items, so it does not capture what the source does with such rows: with a non-empty search term, any row whose name does not match makes `diagram.category.toLowerCase()` (src/pages/DiagrammesPage.tsx:70) throw, and the grouping (src/pages/DiagrammesPage.tsx:74-80) files every row under the key "undefined".
- Rendering, the charts, the theme toggle, routing, the layout component and the login page's form handling are not modelled. Only the authentication helpers they call are.
- The Google Sheets API itself is not modelled. The accessor is the stub it is in the source.

## Findings

| source | as written | input that shows it | evidently intended | confidence | as-written member | corrected member |
|---|---|---|---|---|---|---|
| src/pages/Dashboard.tsx:406-409 | Rows are drawn only for `tasks`. The task that `handleNewTask` puts in the edit slot has a fresh id, so no row is in edit mode and the Add button (line 477) is never drawn. While the slot is full, "Add Task", Edit and Delete are disabled, and no Cancel is on screen, so the page is locked. | Any task list with decimal ids, e.g. the mock data, followed by a click on "Add Task". | The pending new task gets an editor row of its own whose commit button is Add, and Add appends it. | not executed | Tasks.NewTaskHasNoEditorRow, Dashboard.NewTaskLocksPage | Tasks.RenderedRows, Tasks.PendingRowOffersAdd, Dashboard.DashboardPage.Commit |
