/** renderTasks (script.js:61-147) as a pure mapping from the task list to the
    cards it shows, in list order. Element creation, the SVG buttons, opacity and
    event wiring are not part of the mapping. */
module Render {
  import opened Tasks

  /** What one card shows. `icon` is the image source when an <img> is added. */
  datatype Card = Card(
    title: string,
    color: string,
    timeText: string,
    description: string,
    completed: bool,
    icon: Option<string>)

  /** The separator of the time line, " – " with an en dash. */
  const TimeSeparator: string := " \U{2013} "

  /** The card of one task. The icon is shown only when `task.image` is truthy, so
      the `|| "images/light-bulb.gif"` fallback of line 120 never applies. */
  function CardOf(t: Task): (c: Card)
    ensures c.title == t.title && c.color == t.color && c.description == t.description
    ensures c.completed == t.completed
    ensures c.icon.Some? <==> t.image != ""
    ensures c.icon.Some? ==> c.icon.value == t.image
    ensures |c.timeText| == |t.start| + |TimeSeparator| + |t.end|
    ensures c.timeText[..|t.start|] == t.start
    ensures c.timeText[|t.start|..|t.start| + |TimeSeparator|] == TimeSeparator
    ensures c.timeText[|t.start| + |TimeSeparator|..] == t.end
  {
    Card(t.title, t.color, t.start + TimeSeparator + t.end, t.description, t.completed,
         if t.image != "" then Some(if t.image != "" then t.image else Placeholder) else None)
  }

  /** `tasks.forEach(...)` appending one card per task. */
  function RenderCards(ts: seq<Task>): (cs: seq<Card>)
    ensures |cs| == |ts|
    ensures forall k :: 0 <= k < |ts| ==> cs[k] == CardOf(ts[k])
  {
    if ts == [] then [] else RenderCards(ts[..|ts| - 1]) + [CardOf(ts[|ts| - 1])]
  }

  /** A created task shows up as one more card at the end. */
  lemma RenderAppend(ts: seq<Task>, t: Task)
    ensures RenderCards(ts + [t]) == RenderCards(ts) + [CardOf(t)]
  {
  }

  /** A drop re-renders the same cards with the two swapped. */
  lemma RenderSwap(ts: seq<Task>, i: nat, j: nat)
    requires i < |ts| && j < |ts|
    ensures RenderCards(Swap(ts, i, j)) == Swap(RenderCards(ts), i, j)
  {
  }

  /** A delete re-renders the remaining cards, the later ones one place up. */
  lemma RenderRemove(ts: seq<Task>, i: nat)
    ensures RenderCards(RemoveAt(ts, i)) == RemoveAt(RenderCards(ts), i)
  {
  }

  /** An edit re-renders only the card at the edited position. */
  lemma RenderReplace(ts: seq<Task>, i: nat, t: Task)
    requires i < |ts|
    ensures RenderCards(ts[i := t]) == RenderCards(ts)[i := CardOf(t)]
  {
  }
}
