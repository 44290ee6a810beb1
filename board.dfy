/** The task list manager of script.js: the module-level `tasks`, `editIndex` and
    `draggedIndex`, the copy of the list in localStorage under the key "tasks", and
    the handlers that change them. The outside world comes in as parameters: the
    form the user filled in, the file picked in the image input, the answer to
    `confirm` and whether `localStorage.setItem` succeeds. */
module Board {
  import opened Tasks
  import opened Render

  datatype SaveOutcome =
    | Saved              // written to storage, re-rendered, modal closed
    | NotAnImage         // "Only image files allowed": nothing saved
    | StorageFull        // "Storage full! …": create rolled back, edit kept in memory

  /** The modal's fields after "Add task": all blank, colour #7a66ff. */
  const BlankForm: Form := Form("", "", "", "", DefaultColor)

  /** The modal's fields when editing a task: the task's own values, so saving
      them unchanged with no new file gives back the task, its completed flag
      cleared. */
  function FormOf(t: Task): (f: Form)
    ensures t.title != "" ==> NewTask(f, t.image) == t.(completed := false)
  {
    Form(t.title, t.description, t.start, t.end, t.color)
  }

  class TaskBoard {
    var tasks: seq<Task>
    /** What localStorage holds under "tasks" (an absent key reads as []). */
    var stored: seq<Task>
    /** Some(i) while the modal edits task i, None while it creates. */
    var editIndex: Option<nat>
    /** The position of the card being dragged, if any. */
    var draggedIndex: Option<nat>
    var modalOpen: bool
    /** The image input's selection, `fileInput.files[0]` (line 152). Only "Add
        task" clears it (line 53): a file picked for one save is still selected at
        the next edit. */
    var chosenFile: Option<ImageFile>

    /** Memory and storage agree, as after every successful write. */
    predicate InSync()
      reads this
    {
      stored == tasks
    }

    /** The cards renderTasks shows for the current list. */
    function Cards(): seq<Card>
      reads this
    {
      RenderCards(tasks)
    }

    /** Start-up: `JSON.parse(localStorage.getItem("tasks") || "[]")`. A stored
        value that does not parse is not modelled (the source does not catch it). */
    constructor Load(persisted: Option<seq<Task>>)
      ensures tasks == (match persisted case Some(s) => s case None => [])
      ensures stored == tasks && InSync()
      ensures editIndex == None && draggedIndex == None && !modalOpen && chosenFile == None
    {
      tasks := match persisted case Some(s) => s case None => [];
      stored := match persisted case Some(s) => s case None => [];
      editIndex := None;
      draggedIndex := None;
      modalOpen := false;
      chosenFile := None;
    }

    /** `addTaskBtn.onclick`: the modal creates a new task from blank fields and an
        empty image input. */
    method OpenCreateModal() returns (prefill: Form)
      modifies this
      ensures editIndex == None && modalOpen && prefill == BlankForm && chosenFile == None
      ensures tasks == old(tasks) && stored == old(stored) && draggedIndex == old(draggedIndex)
    {
      editIndex := None;
      modalOpen := true;
      prefill := BlankForm;
      chosenFile := None;
    }

    /** The user picks a file in the image input, or clears it (a browser event
        with no handler in script.js). */
    method ChooseFile(f: Option<ImageFile>)
      modifies this
      ensures chosenFile == f
      ensures tasks == old(tasks) && stored == old(stored) && modalOpen == old(modalOpen)
      ensures editIndex == old(editIndex) && draggedIndex == old(draggedIndex)
    {
      chosenFile := f;
    }

    /** `openEditModal(i)`: the modal edits task i, its fields filled from it. The
        edit index is set first (line 200), so a card still on screen after a
        failed delete write, whose index is past the end, leaves `editIndex` out of
        range and throws at line 204 before the modal opens (prefill None). */
    method OpenEditModal(i: nat) returns (prefill: Option<Form>)
      modifies this
      ensures editIndex == Some(i)
      ensures i < |old(tasks)| ==> modalOpen && prefill == Some(FormOf(old(tasks)[i]))
      ensures i >= |old(tasks)| ==> modalOpen == old(modalOpen) && prefill == None
      ensures tasks == old(tasks) && stored == old(stored) && draggedIndex == old(draggedIndex)
      ensures chosenFile == old(chosenFile)
    {
      editIndex := Some(i);
      if i < |tasks| {
        modalOpen := true;
        prefill := Some(FormOf(tasks[i]));
      } else {
        prefill := None;
      }
    }

    /** `cancelTask.onclick`: hides the modal; `editIndex` is left as it was. */
    method CancelModal()
      modifies this
      ensures !modalOpen
      ensures tasks == old(tasks) && stored == old(stored)
      ensures editIndex == old(editIndex) && draggedIndex == old(draggedIndex) && chosenFile == old(chosenFile)
    {
      modalOpen := false;
    }

    /** `saveTask.onclick` with `saveWithImage`, on the file still selected in the
        image input. That file has already been read (the FileReader callback is not
        modelled); its data URI is used, as the code evidently intends (see
        ImageAsWritten for what line 165 does). */
    method Save(form: Form, writeOk: bool) returns (outcome: SaveOutcome)
      requires editIndex.Some? ==> editIndex.value < |tasks|
      modifies this
      ensures editIndex == old(editIndex) && draggedIndex == old(draggedIndex) && chosenFile == old(chosenFile)
      ensures var file := old(chosenFile);
      // a file that is not an image aborts before anything changes
        file.Some? && !IsImageType(file.value.mimeType) ==>
        outcome == NotAnImage && tasks == old(tasks) && stored == old(stored) && modalOpen == old(modalOpen)
      ensures var file := old(chosenFile);
        !(file.Some? && !IsImageType(file.value.mimeType)) ==>
        var t := NewTask(form, ResolveImage(file, EditedImage(old(tasks), old(editIndex))));
        (writeOk ==>
          outcome == Saved && tasks == Place(old(tasks), old(editIndex), t) && InSync() && !modalOpen
          && Cards() == Place(old(Cards()), old(editIndex), CardOf(t)))
        && (!writeOk ==>
          outcome == StorageFull && stored == old(stored) && modalOpen == old(modalOpen)
          && tasks == (if old(editIndex).None? then old(tasks) else Place(old(tasks), old(editIndex), t)))
    {
      var file := chosenFile;
      if file.Some? && !IsImageType(file.value.mimeType) {
        return NotAnImage;
      }
      var t := NewTask(form, ResolveImage(file, EditedImage(tasks, editIndex)));
      ghost var before := tasks;
      tasks := Place(tasks, editIndex, t);
      if writeOk {
        stored := tasks;
        modalOpen := false;
        outcome := Saved;
        match editIndex
        case None => RenderAppend(before, t);
        case Some(k) => RenderReplace(before, k, t);
      } else {
        if editIndex.None? {
          tasks := Pop(tasks);
          PopUndoesCreate(before, t);
        }
        outcome := StorageFull;
      }
    }

    /** `deleteTask(i)`: on confirmation, `tasks.splice(i, 1)` and a write. The
        write is not guarded: if it throws, the list has already changed. */
    method Delete(i: nat, confirmed: bool, writeOk: bool)
      modifies this
      ensures editIndex == old(editIndex) && draggedIndex == old(draggedIndex) && modalOpen == old(modalOpen)
      ensures chosenFile == old(chosenFile)
      ensures !confirmed ==> tasks == old(tasks) && stored == old(stored)
      ensures confirmed ==> tasks == RemoveAt(old(tasks), i)
      ensures confirmed ==> stored == if writeOk then tasks else old(stored)
      ensures confirmed && writeOk ==> Cards() == RemoveAt(old(Cards()), i)
    {
      if confirmed {
        RenderRemove(tasks, i);
        tasks := RemoveAt(tasks, i);
        if writeOk {
          stored := tasks;
        }
      }
    }

    /** The `dragstart` handler of card i. */
    method DragStart(i: nat)
      modifies this
      ensures draggedIndex == Some(i)
      ensures tasks == old(tasks) && stored == old(stored)
      ensures editIndex == old(editIndex) && modalOpen == old(modalOpen) && chosenFile == old(chosenFile)
    {
      draggedIndex := Some(i);
    }

    /** The `dragend` handler: the drag source is cleared, nothing else changes. */
    method DragEnd()
      modifies this
      ensures draggedIndex == None
      ensures tasks == old(tasks) && stored == old(stored)
      ensures editIndex == old(editIndex) && modalOpen == old(modalOpen) && chosenFile == old(chosenFile)
    {
      draggedIndex := None;
    }

    /** The `drop` handler of card i: with a drag source other than i, the two
        records swap places and the list is written. It does not clear
        `draggedIndex`; only `dragend` does. */
    method Drop(i: nat, writeOk: bool)
      requires draggedIndex.Some? && draggedIndex.value != i ==> draggedIndex.value < |tasks| && i < |tasks|
      modifies this
      ensures draggedIndex == old(draggedIndex) && editIndex == old(editIndex) && modalOpen == old(modalOpen)
      ensures chosenFile == old(chosenFile)
      ensures old(draggedIndex) == None || old(draggedIndex) == Some(i) ==>
        tasks == old(tasks) && stored == old(stored)
      ensures old(draggedIndex).Some? && old(draggedIndex) != Some(i) ==>
        tasks == Swap(old(tasks), i, old(draggedIndex).value)
        && multiset(tasks) == multiset(old(tasks))
        && stored == (if writeOk then tasks else old(stored))
        && (writeOk ==> Cards() == Swap(old(Cards()), i, old(draggedIndex).value))
    {
      if draggedIndex == None || draggedIndex == Some(i) {
        return;
      }
      var d := draggedIndex.value;
      ghost var before := tasks;
      tasks := Swap(tasks, i, d);
      if writeOk {
        stored := tasks;
      }
      SwapPermutes(before, i, d);
      RenderSwap(before, i, d);
    }
  }

  /** Two drags of the same pair put two tasks back where they were. */
  method DropTwiceRestores(b: TaskBoard, i: nat, j: nat)
    requires i < |b.tasks| && j < |b.tasks| && i != j
    modifies b
    ensures b.tasks == old(b.tasks) && b.stored == b.tasks
  {
    ghost var start := b.tasks;
    b.DragStart(j);
    b.Drop(i, true);
    b.DragEnd();
    b.DragStart(j);
    b.Drop(i, true);
    SwapTwice(start, i, j);
  }

  /** The image input is not cleared by a save or by opening an edit: after a
      create with an uploaded image, saving an edit of task 0 without touching the
      input gives task 0 that upload in place of its own image. */
  method LeftoverFileReachesEdit(b: TaskBoard, f: ImageFile, created: Form, edited: Form)
    requires |b.tasks| > 0 && IsImageType(f.mimeType)
    modifies b
    ensures |b.tasks| == |old(b.tasks)| + 1 && b.InSync()
    ensures b.tasks[0].image == f.dataUri
  {
    var prefill := b.OpenCreateModal();
    b.ChooseFile(Some(f));
    var outcome := b.Save(created, true);
    var editing := b.OpenEditModal(0);
    outcome := b.Save(edited, true);
  }

  /** Saving "Gym" on an empty board, saving "X" when storage is full, then creating
      a second task and dragging it onto the first. */
  method Scenario(gym: Form, second: Form)
    requires gym.title == "Gym" && second.title == "B"
  {
    var b := new TaskBoard.Load(None);
    var prefill := b.OpenCreateModal();
    var outcome := b.Save(gym, true);
    assert outcome == Saved;
    assert |b.tasks| == 1 && b.tasks[0].title == "Gym" && b.tasks[0].image == Placeholder;
    var gymTask := b.tasks[0];

    prefill := b.OpenCreateModal();
    outcome := b.Save(gym.(title := "X"), false);
    assert outcome == StorageFull && b.tasks == [gymTask] && b.InSync();

    outcome := b.Save(second, true);
    var bTask := b.tasks[1];
    assert b.tasks == [gymTask, bTask];
    b.DragStart(0);
    b.Drop(1, true);
    assert b.tasks == [bTask, gymTask] && b.InSync();
  }
}
