/** The pure expressions of the dashboard page: the statistics over the task
    list, the id minted for a new task, the array patches that the save, add
    and delete handlers apply, and which commit button an editor row shows. */
module Tasks {
  import opened Seqs
  import opened Text
  import opened Records

  // ----- Statistics -------------------------------------------------------

  /** `tasks.filter(t => statuses includes t.status)`. */
  function WithStatus(tasks: seq<Task>, statuses: set<string>): (r: seq<Task>)
    ensures forall t :: t in r <==> t in tasks && t.status in statuses
    ensures forall t :: multiset(r)[t] == if t.status in statuses then multiset(tasks)[t] else 0
    ensures |r| <= |tasks|
  {
    Filter(tasks, (t: Task) => t.status in statuses)
  }

  /** Appending a task adds it to the filter exactly when its status is
      counted. */
  lemma WithStatusAppend(tasks: seq<Task>, t: Task, statuses: set<string>)
    ensures WithStatus(tasks + [t], statuses) ==
            WithStatus(tasks, statuses) + (if t.status in statuses then [t] else [])
  {
    assert (tasks + [t])[..|tasks + [t]| - 1] == tasks;
  }

  /** Counts over disjoint status sets add up. */
  lemma {:induction false} DisjointCounts(tasks: seq<Task>, a: set<string>, b: set<string>)
    requires a !! b
    ensures |WithStatus(tasks, a)| + |WithStatus(tasks, b)| == |WithStatus(tasks, a + b)|
  {
    if tasks != [] {
      var init, t := tasks[..|tasks| - 1], tasks[|tasks| - 1];
      assert tasks == init + [t];
      DisjointCounts(init, a, b);
      WithStatusAppend(init, t, a);
      WithStatusAppend(init, t, b);
      WithStatusAppend(init, t, a + b);
    }
  }

  /** When every status is counted, the count is the number of tasks. */
  lemma AllCounted(tasks: seq<Task>, statuses: set<string>)
    requires forall t :: t in tasks ==> t.status in statuses
    ensures |WithStatus(tasks, statuses)| == |tasks|
  {
    FilterKeepsAll(tasks, (t: Task) => t.status in statuses);
  }

  /** `tasks.reduce((sum, task) => sum + task.progress, 0)`. */
  function SumProgress(tasks: seq<Task>): int {
    if tasks == [] then 0
    else SumProgress(tasks[..|tasks| - 1]) + tasks[|tasks| - 1].progress
  }

  /** Appending a task adds its progress. */
  lemma SumProgressAppend(tasks: seq<Task>, t: Task)
    ensures SumProgress(tasks + [t]) == SumProgress(tasks) + t.progress
  {
    assert (tasks + [t])[..|tasks|] == tasks;
  }

  /** When every progress is a percentage, so is their average. */
  lemma {:induction false} SumProgressBounds(tasks: seq<Task>)
    requires forall t :: t in tasks ==> 0 <= t.progress <= 100
    ensures 0 <= SumProgress(tasks) <= 100 * |tasks|
  {
    if tasks != [] {
      var init := tasks[..|tasks| - 1];
      assert forall t :: t in init ==> t in tasks;
      assert tasks[|tasks| - 1] in tasks;
      SumProgressBounds(init);
    }
  }

  /** `Math.round(sum / n)`: the integer nearest to the mean, halves rounded
      up. The quotient of two integers is exact enough in floating point for
      this to be the rounded exact mean. */
  function RoundedMean(sum: int, n: nat): (k: int)
    requires n > 0
    ensures 2 * n * k - n <= 2 * sum < 2 * n * k + n
  {
    var k := (2 * sum + n) / (2 * n);
    assert 2 * sum + n == 2 * n * k + (2 * sum + n) % (2 * n);
    k
  }

  /** A positive multiple of `d` below `p` means `d < 1`. */
  lemma MultipleBelow(p: int, d: int)
    requires p > 0 && p * d < p
    ensures d < 1
  {
    assert p * (d - 1) == p * d - p;
  }

  /** Only one integer is that close to the mean. */
  lemma RoundedMeanUnique(sum: int, n: nat, k: int)
    requires n > 0
    requires 2 * n * k - n <= 2 * sum < 2 * n * k + n
    ensures k == RoundedMean(sum, n)
  {
    var m, p := RoundedMean(sum, n), 2 * n;
    assert p * k - p * m < p && p * m - p * k < p;
    assert p * (k - m) == p * k - p * m && p * (m - k) == p * m - p * k;
    MultipleBelow(p, k - m);
    MultipleBelow(p, m - k);
  }

  /** The status names the dashboard counts. */
  const CompletedStatus := "Completed"
  const InProgressStatus := "In Progress"
  const InReviewStatus := "In Review"
  const NotStartedStatus := "Not Started"

  /** The four status names are different strings. */
  lemma StatusNamesDiffer()
    ensures CompletedStatus != InProgressStatus && CompletedStatus != InReviewStatus
    ensures CompletedStatus != NotStartedStatus && InProgressStatus != InReviewStatus
    ensures InProgressStatus != NotStartedStatus && InReviewStatus != NotStartedStatus
  {
    assert CompletedStatus[0] != InProgressStatus[0] && CompletedStatus[0] != InReviewStatus[0];
    assert CompletedStatus[0] != NotStartedStatus[0] && InProgressStatus[3] != InReviewStatus[3];
    assert InProgressStatus[0] != NotStartedStatus[0] && InReviewStatus[0] != NotStartedStatus[0];
  }

  /** The four statistics the cards and charts show. */
  datatype Stats = Stats(completed: nat, inProgress: nat, notStarted: nat, overall: int)

  /** `calculateStats`: zero for an empty list (no division happens);
      otherwise the per-status counts and the rounded mean progress. */
  function CalculateStats(tasks: seq<Task>): (s: Stats)
    ensures tasks == [] ==> s == Stats(0, 0, 0, 0)
    ensures s.completed == |WithStatus(tasks, {CompletedStatus})|
    ensures s.inProgress == |WithStatus(tasks, {InProgressStatus, InReviewStatus})|
    ensures s.notStarted == |WithStatus(tasks, {NotStartedStatus})|
    ensures tasks != [] ==>
              2 * |tasks| * s.overall - |tasks| <= 2 * SumProgress(tasks) < 2 * |tasks| * s.overall + |tasks|
  {
    if |tasks| == 0 then Stats(0, 0, 0, 0)
    else
      Stats(|WithStatus(tasks, {CompletedStatus})|,
            |WithStatus(tasks, {InProgressStatus, InReviewStatus})|,
            |WithStatus(tasks, {NotStartedStatus})|,
            RoundedMean(SumProgress(tasks), |tasks|))
  }

  /** The three counts never exceed the number of tasks, and cover every task
      when each status is one of the four the status selector offers. */
  lemma StatsCountsBounded(tasks: seq<Task>)
    ensures var s := CalculateStats(tasks);
            s.completed + s.inProgress + s.notStarted <= |tasks|
    ensures (forall t :: t in tasks ==>
               t.status in {CompletedStatus, InProgressStatus, InReviewStatus, NotStartedStatus}) ==>
            var s := CalculateStats(tasks);
            s.completed + s.inProgress + s.notStarted == |tasks|
  {
    var c, p, n := {CompletedStatus}, {InProgressStatus, InReviewStatus}, {NotStartedStatus};
    StatusNamesDiffer();
    DisjointCounts(tasks, c, p);
    DisjointCounts(tasks, c + p, n);
    assert c + p + n == {CompletedStatus, InProgressStatus, InReviewStatus, NotStartedStatus};
    if forall t :: t in tasks ==> t.status in c + p + n {
      AllCounted(tasks, c + p + n);
    }
  }

  /** The rounded mean of percentages is a percentage. */
  lemma RoundedMeanRange(sum: int, n: nat)
    requires n > 0 && 0 <= sum <= 100 * n
    ensures 0 <= RoundedMean(sum, n) <= 100
  {
    var k, p := RoundedMean(sum, n), 2 * n;
    assert p * (0 - k) == 0 - p * k;
    MultipleBelow(p, 0 - k);
    assert p * (k - 100) == p * k - 100 * p;
    MultipleBelow(p, k - 100);
  }

  /** With every progress in 0..100, the overall figure is in 0..100. */
  lemma OverallInRange(tasks: seq<Task>)
    requires forall t :: t in tasks ==> 0 <= t.progress <= 100
    ensures 0 <= CalculateStats(tasks).overall <= 100
  {
    if tasks != [] {
      SumProgressBounds(tasks);
      RoundedMeanRange(SumProgress(tasks), |tasks|);
    }
  }

  // ----- Id minting -------------------------------------------------------

  /** `Math.max(...tasks.map(t => Number(t.id)), 0)`: `NaN` as soon as one id
      is not a number, otherwise the largest id value, and 0 for no tasks. */
  function MaxId(tasks: seq<Task>): (m: Num)
    ensures m.Value? <==> forall i :: 0 <= i < |tasks| ==> AllDigits(tasks[i].id)
    ensures m.Value? ==> forall i :: 0 <= i < |tasks| ==> DigitsValue(tasks[i].id) <= m.n
    ensures m.Value? && m.n != 0 ==> exists i :: 0 <= i < |tasks| && DigitsValue(tasks[i].id) == m.n
  {
    if tasks == [] then Value(0)
    else
      var init, t := tasks[..|tasks| - 1], tasks[|tasks| - 1];
      assert forall i :: 0 <= i < |init| ==> init[i] == tasks[i];
      match (MaxId(init), NumberOf(t.id))
      case (Value(a), Value(b)) => if a < b then Value(b) else Value(a)
      case _ => NaN
  }

  /** Appending a task takes the larger of the running maximum and its id,
      and `NaN` stays `NaN`. */
  lemma MaxIdAppend(tasks: seq<Task>, t: Task)
    ensures MaxId(tasks + [t]) ==
            match (MaxId(tasks), NumberOf(t.id))
            case (Value(a), Value(b)) => if a < b then Value(b) else Value(a)
            case _ => NaN
  {
    assert (tasks + [t])[..|tasks|] == tasks;
  }

  /** The id `handleNewTask` mints: `String(max + 1)`, where `NaN + 1` is
      `NaN`. */
  function NewTaskId(tasks: seq<Task>): (id: string)
    ensures tasks == [] ==> id == "1"
    ensures MaxId(tasks).NaN? ==> id == "NaN"
    ensures MaxId(tasks).Value? ==> NumberOf(id) == Value(MaxId(tasks).n + 1)
  {
    match MaxId(tasks)
    case Value(m) => NumberOfNatToString(m + 1); NatToString(m + 1)
    case NaN => "NaN"
  }

  /** When every id is a decimal natural, the minted id is one too and
      differs from every existing id. */
  lemma NewTaskIdFresh(tasks: seq<Task>)
    requires forall t :: t in tasks ==> AllDigits(t.id)
    ensures AllDigits(NewTaskId(tasks))
    ensures forall t :: t in tasks ==> t.id != NewTaskId(tasks)
  {
    var id := NewTaskId(tasks);
    assert forall i :: 0 <= i < |tasks| ==> AllDigits(tasks[i].id) by {
      forall i | 0 <= i < |tasks| ensures AllDigits(tasks[i].id) {
        assert tasks[i] in tasks;
      }
    }
    var m := MaxId(tasks).n;
    NumberOfNatToString(m + 1);
    forall t | t in tasks ensures t.id != id {
      var i :| 0 <= i < |tasks| && tasks[i] == t;
      assert DigitsValue(tasks[i].id) <= m;
      assert DigitsValue(id) == m + 1;
    }
  }

  /** The task `handleNewTask` puts in the edit slot. */
  function NewTaskFor(tasks: seq<Task>): Task {
    Task(NewTaskId(tasks), "New Task", NotStartedStatus, 0, "")
  }

  // ----- Array patches ----------------------------------------------------

  /** `tasks.some(t => t.id === id)`. */
  predicate HasId(tasks: seq<Task>, id: string) {
    exists i :: 0 <= i < |tasks| && tasks[i].id == id
  }

  /** `tasks.map(task => task.id === t.id ? t : task)`: every entry carrying
      `t`'s id becomes `t`; the length, the order and every other entry are
      unchanged. */
  function ReplaceById(tasks: seq<Task>, t: Task): (r: seq<Task>)
    ensures |r| == |tasks|
    ensures forall i :: 0 <= i < |tasks| ==> r[i] == if tasks[i].id == t.id then t else tasks[i]
    ensures forall i :: 0 <= i < |tasks| ==> r[i].id == tasks[i].id
  {
    seq(|tasks|, i requires 0 <= i < |tasks| => if tasks[i].id == t.id then t else tasks[i])
  }

  /** Replacing twice is replacing once. */
  lemma ReplaceIdempotent(tasks: seq<Task>, t: Task)
    ensures ReplaceById(ReplaceById(tasks, t), t) == ReplaceById(tasks, t)
  {
  }

  /** A task whose id is not in the list changes nothing; one whose id is
      shows up in the result. */
  lemma ReplaceAbsentPresent(tasks: seq<Task>, t: Task)
    ensures !HasId(tasks, t.id) ==> ReplaceById(tasks, t) == tasks
    ensures HasId(tasks, t.id) ==> t in ReplaceById(tasks, t)
  {
    if HasId(tasks, t.id) {
      var i :| 0 <= i < |tasks| && tasks[i].id == t.id;
      assert ReplaceById(tasks, t)[i] == t;
    }
  }

  /** `tasks.filter(task => task.id !== id)`: no entry with that id remains,
      every other entry keeps its multiplicity, and the order is kept. */
  function RemoveById(tasks: seq<Task>, id: string): (r: seq<Task>)
    ensures forall t :: t in r ==> t.id != id
    ensures forall t: Task :: t.id != id ==> multiset(r)[t] == multiset(tasks)[t]
    ensures IsSubsequence(r, tasks)
  {
    Filter(tasks, (t: Task) => t.id != id)
  }

  /** Removing an id that is not present changes nothing. */
  lemma RemoveAbsent(tasks: seq<Task>, id: string)
    requires !HasId(tasks, id)
    ensures RemoveById(tasks, id) == tasks
  {
    forall t | t in tasks ensures t.id != id {
      var i :| 0 <= i < |tasks| && tasks[i] == t;
    }
    FilterKeepsAll(tasks, (t: Task) => t.id != id);
  }

  /** Deleting a task just added under a fresh id gives back the old list. */
  lemma RemoveAppended(tasks: seq<Task>, t: Task)
    requires !HasId(tasks, t.id)
    ensures RemoveById(tasks + [t], t.id) == tasks
  {
    assert (tasks + [t])[..|tasks + [t]| - 1] == tasks;
    RemoveAbsent(tasks, t.id);
  }

  // ----- Editor row ------------------------------------------------------

  /** The commit button of an editor row. */
  datatype CommitButton = AddButton | SaveButton

  /** The controls the row of `task` shows: `None` outside edit mode
      (`editingTask?.id !== task.id`); in edit mode, Add when the pending
      task's id matches the edited one and no task carries it, else Save. */
  function RowCommit(tasks: seq<Task>, task: Task, editing: Option<Task>, temp: Option<Task>): (b: Option<CommitButton>)
    ensures b.Some? <==> editing.Some? && editing.value.id == task.id
    ensures b == Some(AddButton) <==>
              editing.Some? && editing.value.id == task.id && temp.Some? && temp.value.id == task.id &&
              !HasId(tasks, temp.value.id)
  {
    if editing.Some? && editing.value.id == task.id then
      if temp.Some? && temp.value.id == editing.value.id && !HasId(tasks, temp.value.id) then Some(AddButton)
      else Some(SaveButton)
    else None
  }

  /** As written, rows are only drawn for the tasks in the list, and the row
      of any of them never offers Add. */
  lemma ListedRowNeverAdds(tasks: seq<Task>, task: Task, editing: Option<Task>, temp: Option<Task>)
    requires task in tasks
    ensures RowCommit(tasks, task, editing, temp) != Some(AddButton)
  {
    var i :| 0 <= i < |tasks| && tasks[i] == task;
    assert temp.Some? && temp.value.id == task.id ==> HasId(tasks, temp.value.id);
  }

  /** As written, after `handleNewTask` on a list with numeric ids no drawn
      row is in edit mode: neither Add nor Cancel is on screen. */
  lemma NewTaskHasNoEditorRow(tasks: seq<Task>)
    requires forall t :: t in tasks ==> AllDigits(t.id)
    ensures forall task :: task in tasks ==>
              RowCommit(tasks, task, Some(NewTaskFor(tasks)), Some(NewTaskFor(tasks))).None?
  {
    NewTaskIdFresh(tasks);
  }

  /** `disabled={loading || !!editingTask}` on "New Task" and
      `disabled={!!editingTask}` on Edit and Delete. */
  predicate NewTaskEnabled(loading: bool, editing: Option<Task>) {
    !loading && editing.None?
  }

  predicate RowButtonsEnabled(editing: Option<Task>) {
    editing.None?
  }

  /** The rows to draw, with the pending row that the page needs: the tasks,
      followed by the task in the edit slot when no task carries its id. */
  function RenderedRows(tasks: seq<Task>, editing: Option<Task>): (rows: seq<Task>)
    ensures forall t :: t in tasks ==> t in rows
    ensures editing.Some? ==> HasId(rows, editing.value.id)
    ensures editing.None? || HasId(tasks, editing.value.id) ==> rows == tasks
  {
    if editing.Some? && !HasId(tasks, editing.value.id) then
      var rows := tasks + [editing.value];
      assert rows[|tasks|] == editing.value;
      rows
    else tasks
  }

  /** With the pending row drawn, the new task's row offers Add, while the
      row of a task being edited offers Save. */
  lemma PendingRowOffersAdd(tasks: seq<Task>)
    requires forall t :: t in tasks ==> AllDigits(t.id)
    ensures NewTaskFor(tasks) in RenderedRows(tasks, Some(NewTaskFor(tasks)))
    ensures RowCommit(tasks, NewTaskFor(tasks), Some(NewTaskFor(tasks)), Some(NewTaskFor(tasks))) == Some(AddButton)
  {
    var nt := NewTaskFor(tasks);
    NewTaskIdFresh(tasks);
    assert !HasId(tasks, nt.id) by {
      forall i | 0 <= i < |tasks| ensures tasks[i].id != nt.id {
        assert tasks[i] in tasks;
      }
    }
    assert RenderedRows(tasks, Some(nt)) == tasks + [nt];
    assert (tasks + [nt])[|tasks|] == nt;
  }

  /** The row of a listed task put in the slot by `handleEdit` offers Save. */
  lemma EditedRowOffersSave(tasks: seq<Task>, task: Task)
    requires task in tasks
    ensures RowCommit(tasks, task, Some(task), Some(task)) == Some(SaveButton)
  {
    ListedRowNeverAdds(tasks, task, Some(task), Some(task));
  }
}
