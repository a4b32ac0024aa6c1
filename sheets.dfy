/** The configured sheet locations (`googleSheetsConfig`) and which of the
    accessor's dispatch keywords each range contains. */
module SheetRanges {
  import opened Text

  /** `GoogleSheetsConfig`. */
  datatype SheetConfig = SheetConfig(apiKey: string, spreadsheetId: string, range: string)

  const ApiKey := "REPLACE_WITH_YOUR_API_KEY"
  const DashboardSheet := SheetConfig(ApiKey, "REPLACE_WITH_DASHBOARD_SPREADSHEET_ID", "dashboard!A1:Z1000")
  const DocumentsSheet := SheetConfig(ApiKey, "REPLACE_WITH_DOCUMENTS_SPREADSHEET_ID", "documents!A1:Z1000")
  const TableauxSheet := SheetConfig(ApiKey, "REPLACE_WITH_TABLEAUX_SPREADSHEET_ID", "tableaux!A1:Z1000")
  const DiagrammesSheet := SheetConfig(ApiKey, "REPLACE_WITH_DIAGRAMMES_SPREADSHEET_ID", "diagrammes!A1:Z1000")

  /** The tableaux range does not mention "documents". */
  lemma TableauxRangeLacksDocuments()
    ensures !Includes(TableauxSheet.range, "documents")
  {
    AbsentFirstChar(TableauxSheet.range, "documents");
  }

  /** The tableaux range mentions "tableaux". */
  lemma TableauxRangeHasTableaux()
    ensures Includes(TableauxSheet.range, "tableaux")
  {
    assert TableauxSheet.range[..8] == "tableaux";
  }

  /** The dashboard range does not mention "documents". */
  lemma DashboardRangeLacksDocuments()
    ensures !Includes("dashboard!A1:Z1000", "documents")
  {
    var h := "dashboard!A1:Z1000";
    assert h[..9][1] != "documents"[1];
    SkipPrefix(h[1..], "documents", 7);
    assert h[1..][7..] == h[8..];
    assert h[8..][..9][1] != "documents"[1];
    AbsentFirstChar(h[9..], "documents");
  }

  /** The dashboard range does not mention "tableaux". */
  lemma DashboardRangeLacksTableaux()
    ensures !Includes("dashboard!A1:Z1000", "tableaux")
  {
    AbsentFirstChar("dashboard!A1:Z1000", "tableaux");
  }

  /** The diagrammes range does not mention "documents". */
  lemma DiagrammesRangeLacksDocuments()
    ensures !Includes("diagrammes!A1:Z1000", "documents")
  {
    var g := "diagrammes!A1:Z1000";
    assert g[..9][1] != "documents"[1];
    AbsentFirstChar(g[1..], "documents");
  }

  /** The diagrammes range does not mention "tableaux". */
  lemma DiagrammesRangeLacksTableaux()
    ensures !Includes("diagrammes!A1:Z1000", "tableaux")
  {
    AbsentFirstChar("diagrammes!A1:Z1000", "tableaux");
  }
}

/** The stub spreadsheet accessor: `fetchSheetData` picks a mock dataset by
    the configured range, `updateSheetData` accepts everything. The awaited
    delays and the logging are not modelled. */
module Sheets {
  import opened Text
  import opened Records
  import opened SheetRanges

  /** What `fetchSheetData` resolves to: task rows or library rows. */
  datatype SheetData = TaskRows(tasks: seq<Task>) | ItemRows(items: seq<Item>)

  /** What a page hands to `updateSheetData`: a task, or the deletion
      tombstone `{ id, deleted: true }`. */
  datatype Payload = TaskPayload(task: Task) | Tombstone(id: string)

  /** How an awaited fetch settled: resolved with rows, or thrown. */
  datatype Fetch<T> = Fetched(data: seq<T>) | FetchFailed

  /** How an awaited update settled: resolved with the accessor's boolean,
      or thrown. */
  datatype Update = Resolved(success: bool) | Rejected {
    predicate Succeeded() {
      Resolved? && success
    }
  }

  const MockDashboardData: seq<Task> := [
    Task("1", "Task 1", "In Progress", 75, "John Doe"),
    Task("2", "Task 2", "Completed", 100, "Jane Smith"),
    Task("3", "Task 3", "Not Started", 0, "Bob Johnson"),
    Task("4", "Task 4", "In Progress", 30, "Alice Brown"),
    Task("5", "Task 5", "In Review", 90, "Charlie White")
  ]

  const MockDocumentsData: seq<Item> := [
    Item("1", "Process Validation Protocol", "Protocols", "https://docs.google.com/document/d/example1", "google-doc"),
    Item("2", "Risk Assessment Report", "Reports", "https://docs.google.com/document/d/example2", "google-doc"),
    Item("3", "Technical Specifications", "Technical", "https://example.com/specs.pdf", "pdf"),
    Item("4", "Validation Summary Report", "Reports", "https://example.com/validation.pdf", "pdf"),
    Item("5", "User Requirements Specification", "Technical", "https://docs.google.com/document/d/example3", "google-doc"),
    Item("6", "Functional Specification", "Technical", "https://example.com/functional.pdf", "pdf"),
    Item("7", "Test Script", "Testing", "https://docs.google.com/document/d/example4", "google-doc"),
    Item("8", "Qualification Report", "Reports", "https://example.com/qualification.pdf", "pdf")
  ]

  const MockTableauxData: seq<Item> := [
    Item("1", "Process Flow Diagram", "Process Flows", "https://docs.google.com/spreadsheets/d/example1", "google-sheet"),
    Item("2", "Risk Assessment Matrix", "Risk Management", "https://docs.google.com/spreadsheets/d/example2", "google-sheet"),
    Item("3", "Quality Metrics Dashboard", "Quality Management", "https://docs.google.com/spreadsheets/d/example3", "google-sheet"),
    Item("4", "Validation Test Results", "Testing", "https://docs.google.com/spreadsheets/d/example4", "google-sheet"),
    Item("5", "Project Schedule Gantt Chart", "Project Management", "https://docs.google.com/spreadsheets/d/example5", "google-sheet")
  ]

  /** `fetchSheetData`: the documents mock when the range mentions
      "documents" (checked first), else the tableaux mock when it mentions
      "tableaux", else the dashboard mock. */
  function FetchSheetData(config: SheetConfig): (r: SheetData)
    ensures Includes(config.range, "documents") ==> r == ItemRows(MockDocumentsData)
    ensures !Includes(config.range, "documents") && Includes(config.range, "tableaux") ==>
              r == ItemRows(MockTableauxData)
    ensures !Includes(config.range, "documents") && !Includes(config.range, "tableaux") ==>
              r == TaskRows(MockDashboardData)
  {
    if Includes(config.range, "documents") then ItemRows(MockDocumentsData)
    else if Includes(config.range, "tableaux") then ItemRows(MockTableauxData)
    else TaskRows(MockDashboardData)
  }

  /** `updateSheetData`: the stub accepts every payload for every sheet. */
  function UpdateSheetData(config: SheetConfig, payload: Payload): (ok: bool)
    ensures ok
  {
    true
  }

  /** The four configured ranges: documents and tableaux get their own mock;
      dashboard and diagrammes match neither keyword and both get the
      dashboard (task) mock. */
  lemma ConfiguredRanges()
    ensures FetchSheetData(DocumentsSheet) == ItemRows(MockDocumentsData)
    ensures FetchSheetData(TableauxSheet) == ItemRows(MockTableauxData)
    ensures FetchSheetData(DashboardSheet) == TaskRows(MockDashboardData)
    ensures FetchSheetData(DiagrammesSheet) == TaskRows(MockDashboardData)
  {
    assert "documents!A1:Z1000"[..9] == "documents";
    TableauxRangeLacksDocuments();
    TableauxRangeHasTableaux();
    DashboardRangeLacksDocuments();
    DashboardRangeLacksTableaux();
    DiagrammesRangeLacksDocuments();
    DiagrammesRangeLacksTableaux();
  }
}
