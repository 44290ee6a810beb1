/** The task record of the daily planner (script.js) and the pure rules that the
    save, delete and drop handlers apply to the task list. */
module Tasks {

  datatype Option<T> = None | Some(value: T)

  /** One task. A task has no identity of its own: it is known by its position in
      the list. `completed` is never set by script.js; a record without it reads as
      false. `description` is an HTML fragment kept verbatim (it is rendered with
      innerHTML at script.js:142 without sanitising, a latent cross-site-scripting
      risk). */
  datatype Task = Task(
    title: string,
    description: string,
    start: string,
    end: string,
    color: string,
    image: string,
    completed: bool)

  /** The values of the modal's title, description, start, end and colour fields
      at the moment Save is clicked. */
  datatype Form = Form(title: string, description: string, start: string, end: string, color: string)

  /** A file chosen in the image input: its MIME type and the data URI that
      FileReader.readAsDataURL yields for it. */
  datatype ImageFile = ImageFile(mimeType: string, dataUri: string)

  const Placeholder: string := "images/light-bulb.gif"
  const Untitled: string := "Untitled"
  const DefaultColor: string := "#7a66ff"
  const ImagePrefix: string := "image/"

  /** JavaScript `a || b` on two strings: the empty string is falsy. */
  function Or(a: string, b: string): (r: string)
    ensures r == a || r == b
    ensures r == "" <==> a == "" && b == ""
    ensures a != "" ==> r == a
  {
    if a != "" then a else b
  }

  /** `file.type.startsWith("image/")` */
  predicate IsImageType(mimeType: string): (b: bool)
    ensures b <==> |mimeType| >= 6 && mimeType[..6] == "image/"
  {
    ImagePrefix <= mimeType
  }

  /** The record saveWithImage builds from the form and the resolved image. The
      object literal has no `completed` property, so an edit does not carry the old
      flag over. */
  function NewTask(f: Form, image: string): (t: Task)
    ensures t.title != ""
    ensures f.title == "" ==> t.title == Untitled
    ensures f.title != "" ==> t.title == f.title
    ensures t.start == f.start && t.end == f.end
    ensures t.description == f.description && t.color == f.color
    ensures t.image == image && !t.completed
  {
    Task(Or(f.title, Untitled), f.description, Or(f.start, ""), Or(f.end, ""), f.color, image, false)
  }

  /** The image of the record being edited, if the modal is editing. */
  function EditedImage(tasks: seq<Task>, editIndex: Option<nat>): (prev: Option<string>)
    requires editIndex.Some? ==> editIndex.value < |tasks|
    ensures prev.Some? <==> editIndex.Some?
    ensures prev.Some? ==> prev.value == tasks[editIndex.value].image
  {
    match editIndex
    case None => None
    case Some(i) => Some(tasks[i].image)
  }

  /** Image resolution: a new file gives its data URI; otherwise an edit keeps the
      previous record's image and a create falls back to the placeholder. (As
      written, script.js reads the data URI from a `reader` that is out of scope;
      see ImageAsWritten.) */
  function ResolveImage(file: Option<ImageFile>, previous: Option<string>): (r: string)
    ensures file.Some? ==> r == file.value.dataUri
    ensures file.None? && previous.Some? ==> r == previous.value
    ensures file.None? && previous.None? ==> r == Placeholder
  {
    match file
    case Some(f) => f.dataUri
    case None => (match previous case Some(p) => p case None => Placeholder)
  }

  /** Line 165 as written: `file ? reader.result : …` names `reader`, which is a
      `const` of the `if (file)` block (line 188) and not in scope inside
      saveWithImage, so with a file the expression throws a ReferenceError and the
      save never reaches the list (None). */
  function ImageAsWritten(file: Option<ImageFile>, previous: Option<string>): (r: Option<string>)
    ensures file.Some? ==> r.None?
    ensures file.None? ==> r == Some(ResolveImage(file, previous))
  {
    if file.Some? then None
    else Some(match previous case Some(p) => p case None => Placeholder)
  }

  /** Every new image, upload or not, is a non-empty reference provided the old
      record's image and the data URI are. */
  lemma ResolvedImageNonEmpty(file: Option<ImageFile>, previous: Option<string>)
    requires file.Some? ==> file.value.dataUri != ""
    requires previous.Some? ==> previous.value != ""
    ensures ResolveImage(file, previous) != ""
  {
  }

  /** The upload is lost as written and kept once `reader.result` is in scope. */
  lemma UploadLostAsWritten(f: ImageFile, previous: Option<string>)
    requires IsImageType(f.mimeType)
    ensures ImageAsWritten(Some(f), previous) == None
    ensures ResolveImage(Some(f), previous) == f.dataUri
  {
  }

  /** Where the saved record goes: appended when creating, at `editIndex` when
      editing (script.js:168-169). */
  function Place<T>(s: seq<T>, editIndex: Option<nat>, t: T): (r: seq<T>)
    requires editIndex.Some? ==> editIndex.value < |s|
    ensures editIndex.None? ==> |r| == |s| + 1 && r[..|s|] == s && r[|s|] == t
    ensures editIndex.Some? ==> |r| == |s| && r[editIndex.value] == t
    ensures editIndex.Some? ==> forall k :: 0 <= k < |s| && k != editIndex.value ==> r[k] == s[k]
  {
    match editIndex
    case None => s + [t]
    case Some(i) => s[i := t]
  }

  /** `tasks.pop()` */
  function Pop<T>(s: seq<T>): (r: seq<T>)
    requires |s| > 0
    ensures |r| == |s| - 1 && forall k :: 0 <= k < |r| ==> r[k] == s[k]
  {
    s[..|s| - 1]
  }

  /** The rollback of a failed create: popping what was pushed gives back the list. */
  lemma PopUndoesCreate<T>(s: seq<T>, t: T)
    ensures Pop(Place(s, None, t)) == s
  {
  }

  /** The destructuring swap `[s[i], s[j]] = [s[j], s[i]]` of the drop handler. */
  function Swap<T>(s: seq<T>, i: nat, j: nat): (r: seq<T>)
    requires i < |s| && j < |s|
    ensures |r| == |s| && r[i] == s[j] && r[j] == s[i]
    ensures forall k :: 0 <= k < |s| && k != i && k != j ==> r[k] == s[k]
  {
    seq(|s|, k requires 0 <= k < |s| => if k == i then s[j] else if k == j then s[i] else s[k])
  }

  /** A swap only reorders: the same records, as many times each. */
  lemma SwapPermutes<T>(s: seq<T>, i: nat, j: nat)
    requires i < |s| && j < |s|
    ensures multiset(Swap(s, i, j)) == multiset(s)
  {
    assert Swap(s, i, j) == s[i := s[j]][j := s[i]];
  }

  /** Swapping the same pair twice restores the original order. */
  lemma SwapTwice<T>(s: seq<T>, i: nat, j: nat)
    requires i < |s| && j < |s|
    ensures Swap(Swap(s, i, j), i, j) == s
  {
  }

  /** Dropping card i on card j and card j on card i reorder alike. */
  lemma SwapSymmetric<T>(s: seq<T>, i: nat, j: nat)
    requires i < |s| && j < |s|
    ensures Swap(s, i, j) == Swap(s, j, i)
  {
  }

  /** `s.splice(i, 1)`: removes the element at i and shifts the later ones down
      one place; an index past the end removes nothing. */
  function RemoveAt<T>(s: seq<T>, i: nat): (r: seq<T>)
    ensures i < |s| ==> |r| == |s| - 1
    ensures i < |s| ==> forall k :: 0 <= k < i ==> r[k] == s[k]
    ensures i < |s| ==> forall k :: i <= k < |r| ==> r[k] == s[k + 1]
    ensures i >= |s| ==> r == s
  {
    if i < |s| then s[..i] + s[i + 1..] else s
  }

  /** Deleting takes exactly one occurrence of the deleted record out of the list. */
  lemma RemoveAtMultiset<T>(s: seq<T>, i: nat)
    requires i < |s|
    ensures multiset(RemoveAt(s, i)) + multiset{s[i]} == multiset(s)
  {
    assert s == s[..i] + [s[i]] + s[i + 1..];
  }
}
