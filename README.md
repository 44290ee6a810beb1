# Daily planner task list, modelled in Dafny

This project models the task list manager of the Daily-planner web page
(`script.js`). The page keeps:

- an ordered list of task cards, each with a title, an HTML description, a start
  and end time, a colour, an image and a completed flag;
- a copy of that list in the browser's localStorage;
- `editIndex`, which says whether the task modal is creating a task or editing one;
- `draggedIndex`, the card being dragged.

A task's only identity is its position in the list.

Files:

- `tasks.dfy` (module `Tasks`): the task record and the pure rules of a save.
  These are the blank-field defaults, image resolution, append-or-replace and
  the pop that undoes a failed create. It also holds the drop handler's swap and
  the delete handler's splice, with their permutation properties.
- `render.dfy` (module `Render`): `renderTasks` as a pure function from the list
  to the cards it shows. Each card has a title, colour, time text
  `start – end`, description, completed flag and an optional icon.
- `times.dfy` (module `Times`): `generateCosmicTimes`. Its nested loops are a
  method, proved against a specification function of the 48 options. Lemmas
  prove the options' format, the time of day each names and their string order.
- `board.dfy` (module `Board`): the class `TaskBoard`. Its fields are `tasks`,
  `stored` (the localStorage copy), `editIndex`, `draggedIndex`, `modalOpen`
  and `chosenFile`, the image input's selection (its MIME type and data URI).
  Its methods are the event handlers. The outside world comes in as
  parameters: the form contents, the file the user picks, the answer to
  `confirm` and whether `localStorage.setItem` succeeds.

Behaviour of `script.js` that the model keeps as written, although a tidier
design would differ:

- A stored list that does not parse is not recovered: `JSON.parse` at line 36
  is unguarded.
- Editing does not check that `editIndex` is in range. The model makes this a
  precondition.
- `drop` does not clear the drag source; only `dragend` does (line 78).
- `drop` checks neither position for range.
- An edit replaces the whole record, so the completed flag is reset.
- The image input is cleared only by "Add task" (line 53). A save and
  `openEditModal` leave the file selected, so the next edit saves it again.
- A storage failure in delete or drop is not caught. The list has already
  changed in memory, and storage keeps the old copy.

## Model

| member | source | states |
|---|---|---|
| Tasks.Or | script.js:160-163 | JavaScript's logical or on two strings, as the field defaults use it: a non-empty `a` wins, otherwise `b`; the result is empty only when both are |
| Tasks.IsImageType | script.js:183 | `startsWith("image/")`: true exactly when the first six characters of the MIME type are "image/" |
| Tasks.NewTask | script.js:159-166 | a saved record's title is never empty: a blank title becomes "Untitled" and a non-blank one is kept; start and end are kept as typed; the record has no completed flag |
| Tasks.EditedImage | script.js:165 | while editing, the previous image is exactly that of the record at editIndex; while creating there is none |
| Tasks.ResolveImage | script.js:165 | a new file gives its data URI; no file while editing keeps the old record's image; no file while creating gives "images/light-bulb.gif" |
| Tasks.ResolvedImageNonEmpty | script.js:165 | the resolved image is never the empty reference when its sources are not |
| Tasks.ImageAsWritten | script.js:165 | as written, any chosen file makes the image expression fail (no image, no save); without a file it agrees with ResolveImage |
| Tasks.UploadLostAsWritten | script.js:183-190 | for an accepted image file the as-written save is lost, while the intended resolution gives the file's data URI |
| Tasks.Place | script.js:168-169 | a create appends exactly one record at the end and leaves every earlier position unchanged; an edit replaces only position editIndex and keeps the length |
| Tasks.Pop | script.js:177 | pop removes the last record and keeps every other position |
| Tasks.PopUndoesCreate | script.js:169-177 | popping after a create's push gives back exactly the list before the save |
| Tasks.Swap | script.js:84 | the two positions exchange their records, the length is kept and every other position is unchanged |
| Tasks.SwapPermutes | script.js:84 | a swap keeps the multiset of tasks |
| Tasks.SwapTwice | script.js:84 | swapping the same pair twice restores the original order |
| Tasks.SwapSymmetric | script.js:84 | dropping i on j and j on i give the same order |
| Tasks.RemoveAt | script.js:215 | splice(i, 1) shortens the list by one, keeps positions before i and shifts later ones down one; past the end it changes nothing |
| Tasks.RemoveAtMultiset | script.js:215 | a delete takes out exactly one occurrence of the deleted record |
| Render.CardOf | script.js:63-143 | a card shows the task's title, colour, description and completed flag; the time text is start, " – ", end; an icon is shown exactly when the image is non-empty, with that image as its source |
| Render.RenderCards | script.js:61-147 | one card per task, in list order |
| Render.RenderAppend | script.js:61-147 | after a create, the cards are the old ones plus the new task's card at the end |
| Render.RenderSwap | script.js:61-147 | after a drop, the cards are the old ones with the two positions swapped |
| Render.RenderRemove | script.js:61-147 | after a delete, the cards are the old ones with the deleted card spliced out |
| Render.RenderReplace | script.js:61-147 | after an edit, only the edited position's card changes |
| Times.Digit | script.js:228 | a digit character is '0' to '9' and encodes its value |
| Times.DigitValue | script.js:228 | reading a digit character back gives the value Digit encodes |
| Times.DecimalString | script.js:228 | String(h) is a non-empty run of digits with one digit exactly when h < 10 |
| Times.PadStartShape | script.js:228 | padStart keeps the string at the end and fills in front with the fill character up to the width; a string already that long is unchanged |
| Times.TimeOption | script.js:228 | the option text for hour h below 100 and minute mark m is the two hour digits, a colon, then m |
| Times.CosmicTimes | script.js:226-233 | the options in the order the loops append them (option k is hour k / 2 with mark "00" or "30" by k % 2); there are 48 |
| Times.HourDigits | script.js:228 | padStart(2, "0") of String(h) is the two-digit hour with a leading zero |
| Times.GenerateCosmicTimes | script.js:225-235 | the nested loops append exactly the 48 options of CosmicTimes, in order, after what the select already holds |
| Times.CosmicTimesExact | script.js:226-233 | there are exactly 48 options; option k has the form HH:MM with an hour below 24 and MM "00" or "30", and names minute 30·k of the day |
| Times.CosmicTimesEnds | script.js:226-233 | the first option is "00:00" and the last is "23:30" |
| Times.CosmicTimesAscending | script.js:226-233 | the options are in strictly ascending string order |
| Board.FormOf | script.js:204-208 | the edit modal's fields hold the task's values, so for a task with a non-empty title, saving them unchanged with no new file rebuilds the task with its completed flag cleared |
| Board.TaskBoard.Load | script.js:36-38 | start-up reads the stored list, or an empty one when none is stored; memory and storage agree; not editing, not dragging, no file selected |
| Board.TaskBoard.OpenCreateModal | script.js:45-55 | the modal opens in create mode with blank fields, colour #7a66ff and an empty image input; the list is unchanged |
| Board.TaskBoard.ChooseFile | script.js:152 | picking a file, or clearing the input, sets the selection that the next save reads and changes nothing else |
| Board.TaskBoard.OpenEditModal | script.js:199-211 | editIndex becomes i; for a task on the list the modal opens with its fields; for a stale card past the end (still on screen after a failed delete write) it throws at line 204 and the modal does not open; the list and the image input's selection are unchanged |
| Board.TaskBoard.CancelModal | script.js:58 | the modal closes; editIndex and the list are left as they were |
| Board.TaskBoard.Save | script.js:150-196 | the file read is the one still selected in the image input, which the save leaves selected; a non-image file aborts with nothing changed; otherwise the record is placed as Place says; a successful write makes storage equal the list and closes the modal; after a successful write the cards are the old ones with the new card appended or at editIndex; a failed write leaves storage alone, gives back the exact old list on a create and keeps the replaced record on an edit |
| Board.TaskBoard.Delete | script.js:213-219 | without confirmation nothing changes; with it the element at i is spliced out (nothing past the end), and a successful write makes storage equal the list and splices the same card out of the cards |
| Board.TaskBoard.DragStart | script.js:73-76 | dragstart records card i, whatever its index, as the drag source and changes nothing else |
| Board.TaskBoard.DragEnd | script.js:77-80 | dragend clears the drag source and changes nothing else |
| Board.TaskBoard.Drop | script.js:82-87 | a drop with no drag source, or on the source card itself, changes nothing; otherwise exactly the two positions swap and the multiset of tasks is kept; a successful write makes storage equal the list and swaps the same two cards; the drag source stays set |
| Board.DropTwiceRestores | script.js:82-87 | dragging the same card onto the same target twice restores the list, with storage equal to it |
| Board.LeftoverFileReachesEdit | script.js:150-211 | after a create with an uploaded image, an edit of task 0 that does not touch the image input replaces task 0's image with that upload |

## Left out

- Board.TaskBoard.Save: it requires an in-range `editIndex`, which the code does not check. Without a file, the code then throws at line 194 reading the image of a missing record, and nothing changes. With a file, the intended resolution never reads that record, so the save would reach line 168 and assign past the end of the list: at index `|tasks|` this appends, and a larger index leaves holes. The requires excludes both cases.
- Board.TaskBoard.Save: as written, a file still selected from an earlier save makes every later edit throw at line 165 (see Findings) until "Add task" clears the input. The model shows the intended behaviour, in which that file replaces the edited task's image.
- Board.TaskBoard.Save: the file comes in already read. The asynchronous `FileReader` callback (lines 188-190) is not modelled.
- Board.TaskBoard.Drop: when it swaps (a drag source other than the target card), it requires both positions to be in range. A drop with no source, or onto its own source card, has no requires, whatever the index. One way to get an out-of-range index is a stale `draggedIndex`. Another is a card still on screen after a failed delete write. When one position is in range and the other is not, the in-range position gets `undefined` and its record lands at the out-of-range index: at `|tasks|` it is appended, and past that it leaves holes. When both are out of range, both indexes get `undefined` and the array grows. The model's list holds tasks only, so it does not capture that state.
- Board.TaskBoard.Load: a stored value that is not valid JSON is not modelled. The code does not catch that case.
- Storage is the `stored` sequence plus a success flag for each write. JSON serialisation and the storage quota are not modelled.
- Rendering: the model does not track the page's DOM. After a failed write, `renderTasks` is not called in the code, so the page keeps showing the old cards.
- The `alert` and `confirm` dialogs are not modelled: `confirm` is the `confirmed` argument, and the alerts change no state. The `dragover` `preventDefault` and the cards' opacity styling are not modelled either.
- Description sanitising: the description is an opaque string. The code injects it with `innerHTML` at line 142 without sanitising, a latent cross-site-scripting risk.
- Background video rotation (lines 1-25) is media control and a timer. Its `(i + 1) % length` index stays in range.
- The date header (lines 41-42) depends on the locale.
- Confetti (lines 241-263) uses random floats, CSS and a timer.
- The auto-bullet key handler (lines 266-273) relies on the browser's `execCommand`.

## Findings

| source | as written | input that shows it | evidently intended | confidence | as-written member | corrected member |
|---|---|---|---|---|---|---|
| script.js:165 | the image is `file ? reader.result : …`, but `reader` is a `const` of the `if (file)` block at line 188 and is not in scope inside `saveWithImage`, so reading it throws a ReferenceError; the `imageData` argument passed at line 189 is ignored | saving any task with a chosen file of type "image/png" | the file's data URI (`imageData`) becomes the task's image | high, not executed | Tasks.ImageAsWritten | Tasks.ResolveImage |
