/** What the pages compute on the stub accessor's fixed data. */
module Scenarios {
  import opened Seqs
  import opened Text
  import opened Records
  import opened Library
  import opened Tasks
  import opened SheetRanges
  import opened Sheets

  /** The dashboard loads the five mock tasks. */
  lemma DashboardLoadsMockTasks()
    ensures FetchSheetData(DashboardSheet).TaskRows?
    ensures FetchSheetData(DashboardSheet).tasks == MockDashboardData
  {
    ConfiguredRanges();
  }

  /** The mock tasks as five appended rows. */
  lemma MockTaskRows()
    ensures |MockDashboardData| == 5
    ensures MockDashboardData ==
            [MockDashboardData[0]] + [MockDashboardData[1]] + [MockDashboardData[2]] +
            [MockDashboardData[3]] + [MockDashboardData[4]]
  {
  }

  /** The mock tasks, field by field as far as the statistics and the id
      minting look at them. */
  lemma MockTaskFields()
    ensures |MockDashboardData| == 5
    ensures MockDashboardData[0].status == InProgressStatus && MockDashboardData[1].status == CompletedStatus
    ensures MockDashboardData[2].status == NotStartedStatus && MockDashboardData[3].status == InProgressStatus
    ensures MockDashboardData[4].status == InReviewStatus
    ensures MockDashboardData[0].progress == 75 && MockDashboardData[1].progress == 100
    ensures MockDashboardData[2].progress == 0 && MockDashboardData[3].progress == 30
    ensures MockDashboardData[4].progress == 90
    ensures MockDashboardData[0].id == "1" && MockDashboardData[1].id == "2" && MockDashboardData[2].id == "3"
    ensures MockDashboardData[3].id == "4" && MockDashboardData[4].id == "5"
  {
  }

  /** 1 for a task that is counted, 0 for one that is not. */
  function OneIf(b: bool): nat {
    if b then 1 else 0
  }

  /** Appending a task counts it when its status is among `statuses`. */
  lemma CountStep(p: seq<Task>, t: Task, statuses: set<string>)
    ensures |WithStatus(p + [t], statuses)| == |WithStatus(p, statuses)| + OneIf(t.status in statuses)
  {
    WithStatusAppend(p, t, statuses);
  }

  /** The count over five appended tasks, task by task. */
  lemma CountOfFive(t0: Task, t1: Task, t2: Task, t3: Task, t4: Task, statuses: set<string>)
    ensures |WithStatus([t0] + [t1] + [t2] + [t3] + [t4], statuses)| ==
            OneIf(t0.status in statuses) + OneIf(t1.status in statuses) + OneIf(t2.status in statuses) +
            OneIf(t3.status in statuses) + OneIf(t4.status in statuses)
  {
    CountStep([], t0, statuses);
    assert [] + [t0] == [t0];
    CountStep([t0], t1, statuses);
    CountStep([t0] + [t1], t2, statuses);
    CountStep([t0] + [t1] + [t2], t3, statuses);
    CountStep([t0] + [t1] + [t2] + [t3], t4, statuses);
  }

  /** The progress over five appended tasks. */
  lemma SumOfFive(t0: Task, t1: Task, t2: Task, t3: Task, t4: Task)
    ensures SumProgress([t0] + [t1] + [t2] + [t3] + [t4]) ==
            t0.progress + t1.progress + t2.progress + t3.progress + t4.progress
  {
    SumProgressAppend([], t0);
    assert [] + [t0] == [t0];
    SumProgressAppend([t0], t1);
    SumProgressAppend([t0] + [t1], t2);
    SumProgressAppend([t0] + [t1] + [t2], t3);
    SumProgressAppend([t0] + [t1] + [t2] + [t3], t4);
  }

  /** Five tasks with the ids "1" to "5": the largest id is 5. */
  lemma MaxOfFive(t0: Task, t1: Task, t2: Task, t3: Task, t4: Task)
    requires t0.id == "1" && t1.id == "2" && t2.id == "3" && t3.id == "4" && t4.id == "5"
    ensures MaxId([t0] + [t1] + [t2] + [t3] + [t4]) == Value(5)
  {
    NumberOfDigit('1');
    NumberOfDigit('2');
    NumberOfDigit('3');
    NumberOfDigit('4');
    NumberOfDigit('5');
    MaxIdAppend([], t0);
    assert [] + [t0] == [t0];
    MaxIdAppend([t0], t1);
    MaxIdAppend([t0] + [t1], t2);
    MaxIdAppend([t0] + [t1] + [t2], t3);
    MaxIdAppend([t0] + [t1] + [t2] + [t3], t4);
  }

  /** The mock tasks by status: one completed, two in progress, one in
      review, one not started. */
  lemma MockCounts()
    ensures |WithStatus(MockDashboardData, {CompletedStatus})| == 1
    ensures |WithStatus(MockDashboardData, {InProgressStatus, InReviewStatus})| == 3
    ensures |WithStatus(MockDashboardData, {NotStartedStatus})| == 1
  {
    var ts := MockDashboardData;
    MockTaskRows();
    MockTaskFields();
    StatusNamesDiffer();
    CountOfFive(ts[0], ts[1], ts[2], ts[3], ts[4], {CompletedStatus});
    CountOfFive(ts[0], ts[1], ts[2], ts[3], ts[4], {InProgressStatus, InReviewStatus});
    CountOfFive(ts[0], ts[1], ts[2], ts[3], ts[4], {NotStartedStatus});
  }

  /** Statistics of the mock tasks: one completed, three in progress or in
      review, one not started, and the 295 points of progress average to 59. */
  lemma MockDashboardStats()
    ensures CalculateStats(MockDashboardData) == Stats(1, 3, 1, 59)
  {
    var ts := MockDashboardData;
    MockTaskRows();
    MockTaskFields();
    MockCounts();
    SumOfFive(ts[0], ts[1], ts[2], ts[3], ts[4]);
    RoundedMeanUnique(295, 5, 59);
  }

  /** The mock tasks have the ids "1" to "5", so the next one is "6". */
  lemma MockDashboardNextId()
    ensures NewTaskId(MockDashboardData) == "6"
  {
    var ts := MockDashboardData;
    MockTaskRows();
    MockTaskFields();
    MaxOfFive(ts[0], ts[1], ts[2], ts[3], ts[4]);
  }

  /** The first categories of the mock documents are different strings. */
  lemma DocumentCategoriesDiffer()
    ensures "Protocols" != "Reports" && "Protocols" != "Technical" && "Protocols" != "Testing"
    ensures "Reports" != "Technical" && "Reports" != "Testing" && "Technical" != "Testing"
  {
    assert "Protocols"[0] != "Reports"[0] && "Protocols"[0] != "Technical"[0];
    assert "Protocols"[0] != "Testing"[0] && "Reports"[0] != "Technical"[0];
    assert "Reports"[0] != "Testing"[0] && "Technical"[2] != "Testing"[2];
  }

  /** The duplicate-free list of a sequence shaped like the mock documents'
      categories: four different values, in order of first appearance. */
  lemma DistinctOfEight<T(!new)>(s: seq<T>, a: T, b: T, c: T, d: T)
    requires a != b && a != c && a != d && b != c && b != d && c != d
    requires s == [a] + [b] + [c] + [b] + [c] + [c] + [d] + [b]
    ensures Distinct(s) == [a, b, c, d]
  {
    var s3 := [a] + [b] + [c];
    var s6 := s3 + [b] + [c] + [c];
    assert b in s3 && c in s3 && d !in s3;
    assert d !in s6 && b in s6;
    DistinctOfThree(a, b, c);
    DistinctRepeats(s3, b, c);
    DistinctNewThenOld(s6, d, b);
    FourElements(a, b, c, d);
  }

  /** Three different values are their own duplicate-free list. */
  lemma DistinctOfThree<T(!new)>(a: T, b: T, c: T)
    requires a != b && a != c && b != c
    ensures Distinct([a] + [b] + [c]) == [a] + [b] + [c]
  {
    assert Distinct([a]) == [a] by {
      DistinctAppend([], a);
      assert [] + [a] == [a];
    }
    assert b !in [a];
    DistinctAppend([a], b);
    assert c !in [a] + [b];
    DistinctAppend([a] + [b], c);
  }

  /** Values seen before add nothing. */
  lemma DistinctRepeats<T(!new)>(p: seq<T>, b: T, c: T)
    requires b in p && c in p
    ensures Distinct(p + [b] + [c] + [c]) == Distinct(p)
  {
    DistinctAppend(p, b);
    DistinctAppend(p + [b], c);
    DistinctAppend(p + [b] + [c], c);
  }

  /** A new value is added, a value seen before is not. */
  lemma DistinctNewThenOld<T(!new)>(p: seq<T>, d: T, b: T)
    requires d !in p && b in p
    ensures Distinct(p + [d] + [b]) == Distinct(p) + [d]
  {
    DistinctAppend(p, d);
    DistinctAppend(p + [d], b);
  }

  lemma FourElements<T>(a: T, b: T, c: T, d: T)
    ensures [a] + [b] + [c] + [d] == [a, b, c, d]
  {
  }

  /** The categories of the mock documents, row by row. */
  lemma MockDocumentsCategoryColumn()
    ensures Categories(MockDocumentsData) ==
            ["Protocols"] + ["Reports"] + ["Technical"] + ["Reports"] + ["Technical"] + ["Technical"] +
            ["Testing"] + ["Reports"]
  {
  }

  /** The five mock spreadsheets, field by field as far as the tableaux page
      looks at them: names and categories, one category per row. */
  lemma MockTableauxFields()
    ensures |MockTableauxData| == 5
    ensures MockTableauxData[0].name == "Process Flow Diagram" && MockTableauxData[0].category == "Process Flows"
    ensures MockTableauxData[1].name == "Risk Assessment Matrix" && MockTableauxData[1].category == "Risk Management"
    ensures MockTableauxData[2].name == "Quality Metrics Dashboard" && MockTableauxData[2].category == "Quality Management"
    ensures MockTableauxData[3].name == "Validation Test Results" && MockTableauxData[3].category == "Testing"
    ensures MockTableauxData[4].name == "Project Schedule Gantt Chart" && MockTableauxData[4].category == "Project Management"
  {
  }

  /** The eight mock documents fall into four categories, in the order
      Protocols, Reports, Technical, Testing. */
  lemma MockDocumentsCategories()
    ensures |MockDocumentsData| == 8
    ensures AllCategories(MockDocumentsData) == ["Protocols", "Reports", "Technical", "Testing"]
  {
    DocumentCategoriesDiffer();
    MockDocumentsCategoryColumn();
    DistinctOfEight(Categories(MockDocumentsData), "Protocols", "Reports", "Technical", "Testing");
  }
}
