/** What the editor forms share: a handler either calls the store or does
    not, and leaves a draft behind; and every reorderable list handles the end
    of a drag with the same two `splice` calls. */
module Editor {
  import opened Wrappers
  import Sequences

  /** The observable effect of a form handler: the argument of the store call
      it makes, if it makes one, and the draft the form shows afterwards. A
      rejected submission only raises a toast, which is not modelled. */
  datatype Step<C, D> = Step(call: Option<C>, draft: D)

  /** The drag library's report: where the item was picked up, and where it
      was dropped, if it was dropped on the list at all. */
  datatype DropResult = DropResult(source: nat, destination: Option<nat>)

  /** `handleDragEnd`: with no destination nothing is sent; otherwise the
      item at `source` is cut out and put back at `destination`, and the
      resulting list is sent to the store's reorder function. */
  function DragEnd<T>(items: seq<T>, drop: DropResult): (r: Option<seq<T>>)
    requires drop.source < |items|
    ensures r.None? <==> drop.destination.None?
    ensures r.Some? ==> |r.value| == |items|
    ensures r.Some? ==> multiset(r.value) == multiset(items)
    ensures r.Some? ==>
      var at := Sequences.Clamp(drop.destination.value, |items| - 1);
      r.value[at] == items[drop.source]
      && Sequences.RemoveAt(r.value, at) == Sequences.RemoveAt(items, drop.source)
  {
    match drop.destination
    case None => None
    case Some(to) => Some(Sequences.Move(items, drop.source, to))
  }

  /** Dragging the item back from where it was dropped to where it came from
      restores the list, and dropping it where it was picked up sends the
      list unchanged. */
  lemma DragBack<T>(items: seq<T>, from: nat, to: nat)
    requires from < |items| && to < |items|
    ensures DragEnd(items, DropResult(from, Some(to))).Some?
    ensures DragEnd(DragEnd(items, DropResult(from, Some(to))).value, DropResult(to, Some(from)))
      == Some(items)
    ensures DragEnd(items, DropResult(from, Some(from))) == Some(items)
  {
    Sequences.MoveUndo(items, from, to);
    Sequences.MoveInPlace(items, from);
  }

  /** The submit handler of a list form: an accepted draft is sent as it is
      and the form is cleared to `blank`; a rejected one is kept for the user
      to complete. */
  function Submit<D>(draft: D, accepted: bool, blank: D): (s: Step<D, D>)
    ensures s.call.Some? <==> accepted
    ensures s.call.Some? ==> s.call.value == draft && s.draft == blank
    ensures s.call.None? ==> s.draft == draft
  {
    if accepted then Step(Some(draft), blank) else Step(None, draft)
  }
}
