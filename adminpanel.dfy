/** The back-office panel: which of its three views is shown and which
    property the form edits. Saving goes through the application's
    `handleSaveProperty`. */
module AdminPanel {
  import opened JsValues
  import opened Types
  import App
  import PropertyForm

  datatype AdminView = List | Form | Instructions

  class AdminPanel {
    /** The application whose `handleSaveProperty` is the panel's `onSave`. */
    const app: App.AppState
    var view: AdminView
    var selected: Option<Property>

    constructor(app: App.AppState)
      ensures this.app == app && view == List && selected == None
    {
      this.app := app;
      view := List;
      selected := None;
    }

    /** The "new property" button is highlighted. */
    predicate NewPropertyActive()
      reads this
    {
      view == Form && selected == None
    }

    /** `handleEdit`: the form, on the chosen property. */
    method HandleEdit(p: Property)
      modifies this
      ensures view == Form && selected == Some(p)
      ensures !NewPropertyActive()
    {
      selected := Some(p);
      view := Form;
    }

    /** `handleAddNew`: the form, on a new draft. */
    method HandleAddNew()
      modifies this
      ensures view == Form && selected == None
      ensures NewPropertyActive()
    {
      selected := None;
      view := Form;
    }

    /** `handleSave`: hands the record to `onSave` once, then back to the
        list with nothing selected. */
    method HandleSave(p: Property)
      modifies this, app
      ensures app.properties == App.SaveProperty(old(app.properties), p)
      ensures app.OnlyPropertiesChanged()
      ensures view == List && selected == None
    {
      app.HandleSaveProperty(p);
      view := List;
      selected := None;
    }

    /** The "list" navigation button: only the view changes. */
    method ShowList()
      modifies this
      ensures view == List && selected == old(selected)
    {
      view := List;
    }

    /** The "instructions" navigation button: only the view changes. */
    method ShowInstructions()
      modifies this
      ensures view == Instructions && selected == old(selected)
    {
      view := Instructions;
    }

    /** The form's `onCancel`: back to the list; the selection stays. */
    method Cancel()
      modifies this
      ensures view == List && selected == old(selected)
    {
      view := List;
    }

    /** Editing a property whose required fields are filled and submitting
        the form untouched at time `now` stores the same record with only
        its date refreshed, in its place. */
    method EditAndSubmitUnchanged(p: Property, form: PropertyForm.PropertyForm, openedAt: nat, now: int)
      requires form != app as object
      requires PropertyForm.RequiredFilled(p)
      modifies this, app, form
      ensures app.properties == App.SaveProperty(old(app.properties), p.(fecha_publicacion := now))
      ensures App.HasId(old(app.properties), p.id) ==> |app.properties| == |old(app.properties)|
      ensures view == List && selected == None
    {
      HandleEdit(p);
      form.Open(selected, openedAt);
      var saved := form.HandleSubmit(now);
      HandleSave(saved);
    }
  }
}
