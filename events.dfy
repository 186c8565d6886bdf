/** The values the event management page works with: an event record, the
    page selector's three values, and the entries the home page lists. */
module Events {

  /** An event as the forms submit it: `{title, description}`. */
  datatype Event = Event(title: string, description: string)

  /** A nullable value; `None` stands for the source's `null`. */
  datatype Option<T> = None | Some(value: T)

  /** The three values the page selector takes. */
  const HOME: string := "home"
  const CREATE: string := "create"
  const EDIT: string := "edit"

  /** One box of the home page: the event's title and description and the
      index its Edit button hands to the edit callback. */
  datatype Entry = Entry(title: string, description: string, editIndex: nat)

  /** The home page's list: one entry per event, in list order, each Edit
      button carrying the position of the event it shows. */
  function HomeEntries(events: seq<Event>): (r: seq<Entry>)
    ensures |r| == |events|
    ensures forall k :: 0 <= k < |r| ==>
      && r[k].editIndex < |events|
      && r[k].title == events[r[k].editIndex].title
      && r[k].description == events[r[k].editIndex].description
    ensures forall k :: 0 <= k < |r| ==> r[k].editIndex == k
  {
    seq(|events|, k requires 0 <= k < |events| => Entry(events[k].title, events[k].description, k))
  }

  /** Every index the home page offers for editing is a position of the list,
      and every position is offered. */
  lemma EditTargetsAreExactlyPositions(events: seq<Event>, i: nat)
    ensures (exists k :: 0 <= k < |HomeEntries(events)| && HomeEntries(events)[k].editIndex == i)
            <==> i < |events|
  {
    if i < |events| {
      assert HomeEntries(events)[i].editIndex == i;
    }
  }
}
