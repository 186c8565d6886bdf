/** The `Index` component as an object whose handlers update its three state
    slots in place, and the wiring of the two forms to those handlers. */
module IndexComponent {
  import opened Events
  import opened IndexState
  import opened EventForms

  class Index {
    var events: seq<Event>
    var currentPage: string
    var selectedEventIndex: Option<nat>

    /** The component's state as a value. */
    function State(): (s: AppState)
      reads this
    {
      AppState(events, currentPage, selectedEventIndex)
    }

    ghost predicate Valid()
      reads this
    {
      Inv(State())
    }

    /** First render: no events, the home page, nothing selected. */
    constructor ()
      ensures Valid()
      ensures State() == INITIAL
      ensures events == [] && currentPage == HOME && selectedEventIndex == None
    {
      events := [];
      currentPage := HOME;
      selectedEventIndex := None;
    }

    /** handleAddEvent: the new event goes to the end, then back home. */
    method HandleAddEvent(newEvent: Event)
      requires Valid()
      modifies this
      ensures Valid()
      ensures State() == Step(old(State()), AddEvent(newEvent))
      ensures events == old(events) + [newEvent]
      ensures currentPage == HOME && selectedEventIndex == old(selectedEventIndex)
    {
      events := events + [newEvent];
      currentPage := HOME;
    }

    /** handleEditEvent: remember which position is edited and show the
        edit page. Its only caller is a home-page entry, which passes the
        entry's own position. */
    method HandleEditEvent(index: nat)
      requires Valid()
      requires index < |events|
      modifies this
      ensures Valid()
      ensures State() == Step(old(State()), EditEvent(index))
      ensures events == old(events)
      ensures currentPage == EDIT && selectedEventIndex == Some(index)
    {
      selectedEventIndex := Some(index);
      currentPage := EDIT;
    }

    /** handleUpdateEvent: copy the list, overwrite the selected position in
        the copy, install the copy and go home. Its only caller is the edit
        page, which is shown only with a selected index. */
    method HandleUpdateEvent(updatedEvent: Event)
      requires Valid()
      requires selectedEventIndex.Some?
      modifies this
      ensures Valid()
      ensures State() == Step(old(State()), UpdateEvent(updatedEvent))
      ensures |events| == |old(events)|
      ensures events[old(selectedEventIndex).value] == updatedEvent
      ensures forall k :: 0 <= k < |events| && k != old(selectedEventIndex).value ==> events[k] == old(events)[k]
      ensures currentPage == HOME && selectedEventIndex == old(selectedEventIndex)
    {
      var current := events;
      var i := selectedEventIndex.value;
      var updatedEvents := new Event[|current|](k requires 0 <= k < |current| => current[k]);
      updatedEvents[i] := updatedEvent;
      assert updatedEvents[..] == current[i := updatedEvent];
      events := updatedEvents[..];
      currentPage := HOME;
    }

    /** The header's Create Event button. */
    method ShowCreatePage()
      requires Valid()
      modifies this
      ensures Valid()
      ensures State() == Step(old(State()), ClickCreate)
      ensures events == old(events) && selectedEventIndex == old(selectedEventIndex)
      ensures currentPage == CREATE
    {
      currentPage := CREATE;
    }

    /** The event the edit page is handed: the selected one. */
    method SelectedEvent() returns (event: Event)
      requires Valid()
      requires currentPage == EDIT
      ensures event in events
      ensures event == events[selectedEventIndex.value]
    {
      event := events[selectedEventIndex.value];
    }
  }

  /** Saving the create form: its values reach handleAddEvent, the list gains
      exactly that event at its end, and the form is cleared. */
  method SaveNewEvent(app: Index, form: CreateEventForm)
    requires app.Valid() && app.currentPage == CREATE
    modifies app, form
    ensures app.Valid()
    ensures app.events == old(app.events) + [Event(old(form.title), old(form.description))]
    ensures app.currentPage == HOME && app.selectedEventIndex == old(app.selectedEventIndex)
    ensures form.title == "" && form.description == ""
  {
    var saved := form.HandleSubmit();
    app.HandleAddEvent(saved);
  }

  /** Clicking Edit on the home entry at `index`: the edit page opens with a
      form seeded from that event. */
  method OpenEditor(app: Index, index: nat) returns (form: EditEventForm)
    requires app.Valid() && app.currentPage == HOME
    requires index < |app.events|
    modifies app
    ensures app.Valid() && app.currentPage == EDIT
    ensures app.events == old(app.events) && app.selectedEventIndex == Some(index)
    ensures fresh(form)
    ensures form.title == app.events[index].title && form.description == app.events[index].description
  {
    app.HandleEditEvent(index);
    var event := app.SelectedEvent();
    form := new EditEventForm(event);
  }

  /** Saving the edit form: its current values replace the selected event
      and nothing else. */
  method SaveEditedEvent(app: Index, form: EditEventForm)
    requires app.Valid() && app.currentPage == EDIT
    modifies app
    ensures app.Valid() && app.currentPage == HOME
    ensures app.events == old(app.events)[old(app.selectedEventIndex).value := Event(form.title, form.description)]
    ensures app.selectedEventIndex == old(app.selectedEventIndex)
  {
    var saved := form.HandleSubmit();
    app.HandleUpdateEvent(saved);
  }

  /** Opening the editor and saving without typing leaves the list as it
      was: the form is seeded with the selected event and submits it back. */
  method EditWithoutChanges(app: Index, index: nat)
    requires app.Valid() && app.currentPage == HOME
    requires index < |app.events|
    modifies app
    ensures app.Valid() && app.currentPage == HOME
    ensures app.events == old(app.events)
    ensures app.selectedEventIndex == Some(index)
  {
    var form := OpenEditor(app, index);
    SaveEditedEvent(app, form);
  }
}
