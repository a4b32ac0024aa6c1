/** The dashboard page's state and its handlers. Each handler is one atomic
    step; the settled outcome of the awaited accessor call and the answer to
    the confirmation dialog are parameters. */
module Dashboard {
  import opened Records
  import opened Tasks
  import opened Sheets

  class DashboardPage {
    var tasks: seq<Task>
    var loading: bool
    /** The task whose row is in edit mode, and the edited copy. */
    var editingTask: Option<Task>
    var tempTask: Option<Task>

    /** The edit slot: both fields are set together, for the same id. */
    ghost predicate Valid()
      reads this
    {
      (editingTask.Some? <==> tempTask.Some?) &&
      (editingTask.Some? ==> editingTask.value.id == tempTask.value.id)
    }

    /** The initial state: no tasks, loading, nothing being edited. */
    constructor ()
      ensures Valid()
      ensures tasks == [] && loading
      ensures editingTask.None? && tempTask.None?
    {
      tasks := [];
      loading := true;
      editingTask := None;
      tempTask := None;
    }

    /** The loading effect: the fetched rows replace the list; a failed fetch
        keeps it; loading ends either way. */
    method Load(fetched: Fetch<Task>)
      modifies this
      ensures tasks == (if fetched.Fetched? then fetched.data else old(tasks))
      ensures !loading
      ensures editingTask == old(editingTask) && tempTask == old(tempTask)
      ensures old(Valid()) ==> Valid()
    {
      loading := true;
      if fetched.Fetched? {
        tasks := fetched.data;
      }
      loading := false;
    }

    /** `handleEdit`: put the task and a copy of it in the edit slot. */
    method Edit(task: Task)
      modifies this
      ensures Valid()
      ensures editingTask == Some(task) && tempTask == Some(task)
      ensures tasks == old(tasks) && loading == old(loading)
    {
      editingTask := Some(task);
      tempTask := Some(task);
    }

    /** `handleSave`: without a pending copy nothing happens. Otherwise the copy
        replaces the entries with its id when the update succeeds, the list is
        kept when it fails or throws, and loading and the slot are cleared. */
    method Save(outcome: Update)
      modifies this
      ensures old(tempTask).None? ==>
                tasks == old(tasks) && loading == old(loading) &&
                editingTask == old(editingTask) && tempTask == old(tempTask)
      ensures old(tempTask).Some? ==>
                tasks == (if outcome.Succeeded() then ReplaceById(old(tasks), old(tempTask).value) else old(tasks)) &&
                !loading && editingTask.None? && tempTask.None?
      ensures old(Valid()) ==> Valid()
      ensures old(tempTask).Some? ==> Valid()
    {
      if tempTask.None? {
        return;
      }
      loading := true;
      if outcome.Succeeded() {
        tasks := ReplaceById(tasks, tempTask.value);
      }
      loading := false;
      editingTask := None;
      tempTask := None;
    }

    /** `handleCancel`: empty the slot; the list is untouched. */
    method Cancel()
      modifies this
      ensures Valid()
      ensures editingTask.None? && tempTask.None?
      ensures tasks == old(tasks) && loading == old(loading)
    {
      editingTask := None;
      tempTask := None;
    }

    /** `handleDelete`: a declined confirmation changes nothing; otherwise
        every entry with the id goes when the update succeeds, and loading
        ends. The edit slot is never touched. */
    method Delete(id: string, confirmed: bool, outcome: Update)
      modifies this
      ensures !confirmed ==> tasks == old(tasks) && loading == old(loading)
      ensures confirmed ==>
                tasks == (if outcome.Succeeded() then RemoveById(old(tasks), id) else old(tasks)) && !loading
      ensures editingTask == old(editingTask) && tempTask == old(tempTask)
      ensures old(Valid()) ==> Valid()
    {
      if !confirmed {
        return;
      }
      loading := true;
      if outcome.Succeeded() {
        tasks := RemoveById(tasks, id);
      }
      loading := false;
    }

    /** `handleNewTask`: a fresh task with the next id goes into the slot. */
    method NewTask()
      modifies this
      ensures Valid()
      ensures editingTask == Some(NewTaskFor(old(tasks))) && tempTask == editingTask
      ensures tasks == old(tasks) && loading == old(loading)
    {
      var t := NewTaskFor(tasks);
      editingTask := Some(t);
      tempTask := Some(t);
    }

    /** `handleAddTask`: without a pending copy nothing happens. Otherwise the
        copy is appended when the update succeeds, and loading and the slot
        are cleared. */
    method AddTask(outcome: Update)
      modifies this
      ensures old(tempTask).None? ==>
                tasks == old(tasks) && loading == old(loading) &&
                editingTask == old(editingTask) && tempTask == old(tempTask)
      ensures old(tempTask).Some? ==>
                tasks == (if outcome.Succeeded() then old(tasks) + [old(tempTask).value] else old(tasks)) &&
                !loading && editingTask.None? && tempTask.None?
      ensures old(Valid()) ==> Valid()
      ensures old(tempTask).Some? ==> Valid()
    {
      if tempTask.None? {
        return;
      }
      loading := true;
      if outcome.Succeeded() {
        tasks := tasks + [tempTask.value];
      }
      loading := false;
      editingTask := None;
      tempTask := None;
    }

    /** The commit button of the row drawn for the pending task, with the
        pending row drawn (`RenderedRows`): Add for a task no entry carries
        the id of, Save otherwise. */
    method Commit(outcome: Update)
      modifies this
      requires Valid() && tempTask.Some?
      ensures !HasId(old(tasks), old(tempTask).value.id) ==>
                tasks == (if outcome.Succeeded() then old(tasks) + [old(tempTask).value] else old(tasks))
      ensures HasId(old(tasks), old(tempTask).value.id) ==>
                tasks == (if outcome.Succeeded() then ReplaceById(old(tasks), old(tempTask).value) else old(tasks))
      ensures Valid() && !loading && editingTask.None? && tempTask.None?
    {
      var t := tempTask.value;
      if RowCommit(tasks, t, editingTask, tempTask) == Some(AddButton) {
        AddTask(outcome);
      } else {
        Save(outcome);
      }
    }

    /** The name input: only the copy's name changes. */
    method EditName(name: string)
      modifies this
      requires tempTask.Some?
      ensures tempTask == Some(old(tempTask).value.(name := name))
      ensures tasks == old(tasks) && loading == old(loading) && editingTask == old(editingTask)
      ensures old(Valid()) ==> Valid()
    {
      tempTask := Some(tempTask.value.(name := name));
    }

    /** The status selector: only the copy's status changes. */
    method EditStatus(status: string)
      modifies this
      requires tempTask.Some?
      ensures tempTask == Some(old(tempTask).value.(status := status))
      ensures tasks == old(tasks) && loading == old(loading) && editingTask == old(editingTask)
      ensures old(Valid()) ==> Valid()
    {
      tempTask := Some(tempTask.value.(status := status));
    }

    /** The progress input, given the number it parsed to: only the copy's
        progress changes. */
    method EditProgress(progress: int)
      modifies this
      requires tempTask.Some?
      ensures tempTask == Some(old(tempTask).value.(progress := progress))
      ensures tasks == old(tasks) && loading == old(loading) && editingTask == old(editingTask)
      ensures old(Valid()) ==> Valid()
    {
      tempTask := Some(tempTask.value.(progress := progress));
    }

    /** The assignee input: only the copy's assignee changes. */
    method EditAssignee(assignee: string)
      modifies this
      requires tempTask.Some?
      ensures tempTask == Some(old(tempTask).value.(assignee := assignee))
      ensures tasks == old(tasks) && loading == old(loading) && editingTask == old(editingTask)
      ensures old(Valid()) ==> Valid()
    {
      tempTask := Some(tempTask.value.(assignee := assignee));
    }
  }

  /** As written, once `handleNewTask` has run on a list with numeric ids,
      the page offers no way out of the edit slot: "New Task", Edit and Delete
      are disabled, and no drawn row is in edit mode, so neither Add nor
      Cancel is on screen. */
  lemma NewTaskLocksPage(tasks: seq<Task>, loading: bool)
    requires forall t :: t in tasks ==> Text.AllDigits(t.id)
    ensures !NewTaskEnabled(loading, Some(NewTaskFor(tasks)))
    ensures !RowButtonsEnabled(Some(NewTaskFor(tasks)))
    ensures forall task :: task in tasks ==>
              RowCommit(tasks, task, Some(NewTaskFor(tasks)), Some(NewTaskFor(tasks))).None?
  {
    NewTaskHasNoEditorRow(tasks);
  }
}
