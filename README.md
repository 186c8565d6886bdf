# Eventify: the event page's state machine

Eventify is a single-page event manager. Its `Index` page keeps three pieces
of in-memory state: the list of events (each a `{title, description}`
record), a page selector whose values are `"home"`, `"create"` and `"edit"`,
and the index of the event chosen for editing (initially `null`). Four
handlers change that state: adding an event, selecting one for editing,
writing the edited event back, and the header's Create Event button. Two
form components supply the events: the create form starts empty and clears
itself after saving, and the edit form is seeded from the selected event.

The model has four modules:

- `Events` (`events.dfy`): the event record, the page constants, an `Option`
  for the nullable index, and the home page's list of entries.
- `IndexState` (`index_state.dfy`): the state as a value. It defines the
  invariant `Inv`, one transition `Step` per handler call, the set of
  handler calls the rendered views can actually make (`Offered`), runs of
  such calls from the first render (`Run`), and what gets rendered
  (`Render`). It also holds the lemmas about whole runs.
- `EventForms` (`event_forms.dfy`): the two form components as objects
  with their two field slots.
- `IndexComponent` (`index_component.dfy`): the `Index` component as an
  object whose handlers reassign its three fields. Each handler is proved
  to keep `Inv` and to equal `Step`. The module also wires the forms to
  the handlers, as the page does when it renders a form with an `onSave`.

The page selector is kept as a string, as in the component. So "the page is
always one of three values" is an invariant that has to be proved; the type
alone does not give it. A handler call is one atomic transition.

## Model

| member | source | states |
|---|---|---|
| `Events.HomeEntries` | src/pages/Index.jsx:10-20 | the home page lists one entry per event in list order; each entry shows its event's title and description, and its Edit button carries that event's position, which is always in range |
| `Events.EditTargetsAreExactlyPositions` | src/pages/Index.jsx:10-16 | an index is offered by some Edit button if and only if it is a position of the event list |
| `IndexState.OfferedIsApplicable` | src/pages/Index.jsx:108-110 | under the invariant, every handler call a rendered view can make is defined on the current state (an edit index names an event; an update has a selected index) |
| `IndexState.Step` | src/pages/Index.jsx:83-104 | every handler keeps the invariant. Add appends the new event after the unchanged old list and goes home. Edit records the index, shows the edit page and keeps the list. Update keeps the length, writes the selected position only and goes home. Create switches to the create page and changes nothing else |
| `IndexState.Run` | src/pages/Index.jsx:78-110 | along any sequence of user actions the screen offers, the invariant holds and the event list never shrinks |
| `IndexState.Render` | src/pages/Index.jsx:108-110 | at most one view is rendered, and exactly one when the page is one of the three values; it matches the page; the home view is the home page's list of the current events; the edit view is given the event at the selected index |
| `IndexState.ReachableRendersOneView` | src/pages/Index.jsx:79-110 | every state reachable from the first render has a known page, renders exactly one view, and on the edit page hands the edit view the selected event |
| `IndexState.EventCount` | src/pages/Index.jsx:83-98 | after a run, the number of events equals the starting number plus the number of saves on the create page |
| `IndexState.StepEventsFrom` | src/pages/Index.jsx:83-98 | a single handler call lists only events that were already listed or the one event it carries |
| `IndexState.NoInventedEvents` | src/pages/Index.jsx:83-98 | after a run, every listed event was listed at the start or was submitted by one of the run's saves |
| `IndexComponent.Index.constructor` | src/pages/Index.jsx:79-81 | the first render has an empty list, the home page and no selected index, and satisfies the invariant |
| `IndexComponent.Index.HandleAddEvent` | src/pages/Index.jsx:83-86 | the list becomes the old list with the new event appended; the page becomes home; the selection is kept; the invariant is kept |
| `IndexComponent.Index.HandleEditEvent` | src/pages/Index.jsx:88-91 | the selected index becomes the given position, the page becomes edit, and the list is unchanged |
| `IndexComponent.Index.HandleUpdateEvent` | src/pages/Index.jsx:93-98 | works on a copy of the list: the length is kept, the selected position holds the updated event, every other position is unchanged, and the page becomes home |
| `IndexComponent.Index.ShowCreatePage` | src/pages/Index.jsx:104 | the page becomes create; the list and the selection are unchanged |
| `IndexComponent.Index.SelectedEvent` | src/pages/Index.jsx:110 | on the edit page, the event handed to the edit view exists: it is the list's element at the selected index |
| `IndexComponent.SaveNewEvent` | src/pages/Index.jsx:109 | saving the create form appends exactly the typed title and description to the list, goes home, keeps the selected index and clears the form |
| `IndexComponent.OpenEditor` | src/pages/Index.jsx:110 | clicking Edit on an entry opens the edit page with a new form holding that event's title and description |
| `IndexComponent.SaveEditedEvent` | src/pages/Index.jsx:56-58 | saving the edit form replaces the selected event with the form's current values and nothing else, keeps the selected index and goes home |
| `IndexComponent.EditWithoutChanges` | src/pages/Index.jsx:53-58 | opening the editor and saving without typing leaves the list unchanged and the edited position selected |
| `EventForms.CreateEventForm.constructor` | src/pages/Index.jsx:25-26 | the create form's title and description start empty |
| `EventForms.CreateEventForm.SetTitle` | src/pages/Index.jsx:41 | typing sets the title and keeps the description |
| `EventForms.CreateEventForm.SetDescription` | src/pages/Index.jsx:45 | typing sets the description and keeps the title |
| `EventForms.CreateEventForm.HandleSubmit` | src/pages/Index.jsx:28-32 | save hands over exactly the current title and description, then resets both fields to empty |
| `EventForms.EditEventForm.constructor` | src/pages/Index.jsx:53-54 | the edit form's fields start as the given event's title and description |
| `EventForms.EditEventForm.SetTitle` | src/pages/Index.jsx:67 | typing sets the title and keeps the description |
| `EventForms.EditEventForm.SetDescription` | src/pages/Index.jsx:71 | typing sets the description and keeps the title |
| `EventForms.EditEventForm.HandleSubmit` | src/pages/Index.jsx:56-58 | save hands over the current title and description |

## Left out

- Rendering: the JSX markup, the Chakra UI layout components and the icons are not modelled. `Render` records only which view is shown and what data it receives.
- React's hook scheduling, re-rendering and batching of `useState` setters are not modelled. Each handler is one atomic transition that reads the current state.
- The React list `key` and the `onAddEvent` prop passed to the home page are not modelled. The home page never calls that prop, so `Offered` does not let the home page add events.
- `IndexComponent.Index.HandleUpdateEvent` requires a selected index. Its only caller is the edit page, which is rendered only on `"edit"`, where the invariant guarantees a selected index in range. The model does not cover the JavaScript behaviour of writing at a `null` or out-of-range index, which is unreachable.
- `IndexComponent.Index.HandleEditEvent` requires an index in range. Its only caller is a home-page entry, which passes its own position.
- The REST gateway is not modelled. The component as written keeps its events only in memory, edits them by array position, patches the list locally on update, and calls the fields `title` and `description`. It has no fetching, error-message slot, backend identifiers or re-fetch after update, so the model follows the code rather than the later gateway-based design.
- The create page can be left only by saving; pressing Create Event again stays on it, so no "cancel" transition exists to model.
