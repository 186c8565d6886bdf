/** The two form components: their field state and what their Save button
    passes to `onSave`. */
module EventForms {
  import opened Events

  /** `CreateEventPage`: two fields that start empty and are cleared after
      each save. */
  class CreateEventForm {
    var title: string
    var description: string

    constructor ()
      ensures title == "" && description == ""
    {
      title := "";
      description := "";
    }

    /** The title input's change handler. */
    method SetTitle(value: string)
      modifies this
      ensures title == value && description == old(description)
    {
      title := value;
    }

    /** The description textarea's change handler. */
    method SetDescription(value: string)
      modifies this
      ensures description == value && title == old(title)
    {
      description := value;
    }

    /** Save: hands over exactly what was typed, then empties both fields. */
    method HandleSubmit() returns (saved: Event)
      modifies this
      ensures saved.title == old(title) && saved.description == old(description)
      ensures title == "" && description == ""
    {
      saved := Event(title, description);
      title := "";
      description := "";
    }
  }

  /** `EditEventPage`: two fields seeded from the event being edited. */
  class EditEventForm {
    var title: string
    var description: string

    constructor (event: Event)
      ensures title == event.title && description == event.description
    {
      title := event.title;
      description := event.description;
    }

    /** The title input's change handler. */
    method SetTitle(value: string)
      modifies this
      ensures title == value && description == old(description)
    {
      title := value;
    }

    /** The description textarea's change handler. */
    method SetDescription(value: string)
      modifies this
      ensures description == value && title == old(title)
    {
      description := value;
    }

    /** Save: hands over the current field values and keeps them. */
    method HandleSubmit() returns (saved: Event)
      ensures saved.title == title && saved.description == description
    {
      saved := Event(title, description);
    }
  }
}
