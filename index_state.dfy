/** The `Index` component's state as a value, the transitions its handlers
    make, which of them the rendered views can trigger, what is rendered,
    and what holds along every sequence of user actions. */
module IndexState {
  import opened Events

  /** The three pieces of state `Index` keeps: the event list, the page
      selector and the (possibly null) selected index. */
  datatype AppState = AppState(events: seq<Event>, currentPage: string, selectedEventIndex: Option<nat>)

  /** What the page looks like on first render: no events, the home page,
      nothing selected. */
  const INITIAL: AppState := AppState([], HOME, None)

  /** The invariant every reachable state keeps: the page is one of the three
      known values, a selected index is a position of the list, and the edit
      page always has one. */
  ghost predicate Inv(s: AppState) {
    && s.currentPage in {HOME, CREATE, EDIT}
    && (s.selectedEventIndex.Some? ==> s.selectedEventIndex.value < |s.events|)
    && (s.currentPage == EDIT ==> s.selectedEventIndex.Some?)
  }

  /** A call of one of the component's handlers. */
  datatype Action =
    | AddEvent(newEvent: Event)         // handleAddEvent
    | EditEvent(index: nat)             // handleEditEvent
    | UpdateEvent(updatedEvent: Event)  // handleUpdateEvent
    | ClickCreate                       // the header's Create Event button

  /** The handler is defined on the state: editing names a position of the
      list, and updating has a selected index to write to. */
  predicate Applicable(s: AppState, a: Action) {
    match a
    case EditEvent(i) => i < |s.events|
    case UpdateEvent(_) => s.selectedEventIndex.Some? && s.selectedEventIndex.value < |s.events|
    case _ => true
  }

  /** The handler is reachable from what is on screen: the create view saves
      through handleAddEvent, each home entry's Edit button calls
      handleEditEvent with its own index, the edit view saves through
      handleUpdateEvent, and the header's button is always present. */
  predicate Offered(s: AppState, a: Action) {
    match a
    case AddEvent(_) => s.currentPage == CREATE
    case EditEvent(i) =>
      && s.currentPage == HOME
      && exists k :: 0 <= k < |HomeEntries(s.events)| && HomeEntries(s.events)[k].editIndex == i
    case UpdateEvent(_) => s.currentPage == EDIT
    case ClickCreate => true
  }

  /** Under the invariant, everything the screen offers is applicable. */
  lemma OfferedIsApplicable(s: AppState, a: Action)
    requires Inv(s) && Offered(s, a)
    ensures Applicable(s, a)
  {
  }

  /** One handler call as an atomic transition. */
  function Step(s: AppState, a: Action): (t: AppState)
    requires Inv(s) && Applicable(s, a)
    ensures Inv(t)
    ensures |t.events| == |s.events| + (if a.AddEvent? then 1 else 0)
    // Adding appends: the earlier events keep their order, the new one is last.
    ensures a.AddEvent? ==>
      && t.events[..|s.events|] == s.events
      && t.events[|s.events|] == a.newEvent
      && t.currentPage == HOME
      && t.selectedEventIndex == s.selectedEventIndex
    // Selecting for edit records the index and touches no event.
    ensures a.EditEvent? ==>
      && t.events == s.events
      && t.currentPage == EDIT
      && t.selectedEventIndex == Some(a.index)
    // Updating overwrites exactly the selected position.
    ensures a.UpdateEvent? ==>
      && t.events[s.selectedEventIndex.value] == a.updatedEvent
      && (forall k :: 0 <= k < |s.events| && k != s.selectedEventIndex.value ==> t.events[k] == s.events[k])
      && t.currentPage == HOME
      && t.selectedEventIndex == s.selectedEventIndex
    // The Create button only switches the page.
    ensures a.ClickCreate? ==>
      && t.events == s.events
      && t.currentPage == CREATE
      && t.selectedEventIndex == s.selectedEventIndex
  {
    match a
    case AddEvent(e) => AppState(s.events + [e], HOME, s.selectedEventIndex)
    case EditEvent(i) => AppState(s.events, EDIT, Some(i))
    case UpdateEvent(e) => AppState(s.events[s.selectedEventIndex.value := e], HOME, s.selectedEventIndex)
    case ClickCreate => AppState(s.events, CREATE, s.selectedEventIndex)
  }

  /** The state after a sequence of user actions, or `None` as soon as one of
      them is not offered by the screen it is attempted on. */
  function Run(s: AppState, acts: seq<Action>): (r: Option<AppState>)
    requires Inv(s)
    ensures r.Some? ==> Inv(r.value)
    ensures r.Some? ==> |s.events| <= |r.value.events|
    decreases |acts|
  {
    if acts == [] then Some(s)
    else if Offered(s, acts[0]) then
      OfferedIsApplicable(s, acts[0]);
      Run(Step(s, acts[0]), acts[1..])
    else None
  }

  /** One view per page value whose guard holds, in the order the component
      tests them. */
  datatype View = HomeView(entries: seq<Entry>) | CreateView | EditView(event: Event)

  /** What `Index` renders below its header; the edit view is handed the
      selected event, so it needs a selected index in range. */
  function Render(s: AppState): (r: seq<View>)
    requires s.currentPage == EDIT ==> s.selectedEventIndex.Some? && s.selectedEventIndex.value < |s.events|
    ensures |r| <= 1
    ensures |r| == 1 <==> s.currentPage in {HOME, CREATE, EDIT}
    ensures forall v :: v in r ==>
      && (v.HomeView? <==> s.currentPage == HOME)
      && (v.CreateView? <==> s.currentPage == CREATE)
      && (v.EditView? <==> s.currentPage == EDIT)
    ensures forall v :: v in r && v.HomeView? ==> v.entries == HomeEntries(s.events)
    ensures forall v :: v in r && v.EditView? ==> v.event == s.events[s.selectedEventIndex.value]
  {
    (if s.currentPage == HOME then [HomeView(HomeEntries(s.events))] else [])
    + (if s.currentPage == CREATE then [CreateView] else [])
    + (if s.currentPage == EDIT then [EditView(s.events[s.selectedEventIndex.value])] else [])
  }

  /** Every state the user can reach from the first render renders exactly
      one view, and on the edit page that view shows the selected event. */
  lemma ReachableRendersOneView(acts: seq<Action>)
    requires Run(INITIAL, acts).Some?
    ensures var s := Run(INITIAL, acts).value;
      && s.currentPage in {HOME, CREATE, EDIT}
      && |Render(s)| == 1
      && (s.currentPage == EDIT ==> Render(s) == [EditView(s.events[s.selectedEventIndex.value])])
  {
  }

  /** How many of the actions add an event. */
  function AddCount(acts: seq<Action>): (n: nat) {
    if acts == [] then 0 else (if acts[0].AddEvent? then 1 else 0) + AddCount(acts[1..])
  }

  /** The list grows by exactly one per save on the create page and by
      nothing else. */
  lemma {:induction false} EventCount(s: AppState, acts: seq<Action>)
    requires Inv(s) && Run(s, acts).Some?
    ensures |Run(s, acts).value.events| == |s.events| + AddCount(acts)
    decreases |acts|
  {
    if acts != [] {
      OfferedIsApplicable(s, acts[0]);
      EventCount(Step(s, acts[0]), acts[1..]);
    }
  }

  /** The events the actions carry in. */
  function Payloads(acts: seq<Action>): (es: set<Event>) {
    if acts == [] then {}
    else
      (match acts[0]
       case AddEvent(e) => {e}
       case UpdateEvent(e) => {e}
       case _ => {})
      + Payloads(acts[1..])
  }

  /** A single step only keeps events or writes the one it carries. */
  lemma StepEventsFrom(s: AppState, a: Action, e: Event)
    requires Inv(s) && Applicable(s, a) && e in Step(s, a).events
    ensures e in s.events || (a.AddEvent? && e == a.newEvent) || (a.UpdateEvent? && e == a.updatedEvent)
  {
  }

  /** Nothing invents events: whatever is listed after a run was listed
      before it or was submitted by one of its saves. */
  lemma {:induction false} NoInventedEvents(s: AppState, acts: seq<Action>, e: Event)
    requires Inv(s) && Run(s, acts).Some?
    requires e in Run(s, acts).value.events
    ensures e in s.events || e in Payloads(acts)
    decreases |acts|
  {
    if acts != [] {
      OfferedIsApplicable(s, acts[0]);
      var t := Step(s, acts[0]);
      NoInventedEvents(t, acts[1..], e);
      if e in t.events {
        StepEventsFrom(s, acts[0], e);
      }
    }
  }
}
