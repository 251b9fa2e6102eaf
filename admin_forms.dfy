/** The two creation forms of the admin page. Each submission is a fixed
    sequence of steps: optional validation, an image upload, an insert, then
    a reset of the form and a reload of the panel's list. Each store call is
    a parameter giving its outcome, and the submission returns the calls it
    made, in order, as a list of effects. */
module AdminForms {
  import opened Outcomes
  import opened Records
  import Categories
  import Tags

  const MsgNoImage: string := "Por favor selecciona una imagen."
  const MsgCardUploadFailed: string := "Error al subir la imagen. Verifica que el bucket 'highlight-images' existe en Supabase."
  const MsgCardInsertFailed: string := "Error al crear la tarjeta."
  const MsgEventUploadFailed: string := "Error al subir la imagen."
  const MsgEventInsertFailed: string := "Error al crear el evento."
  const MsgUnexpected: string := "Error inesperado."

  /** The row the card form asks the store to insert. */
  datatype CardDraft = CardDraft(section: Section, title: string, description: string, imageUrl: string)

  /** The row the event form asks the store to insert. */
  datatype EventDraft = EventDraft(
    title: string,
    description: string,
    date: string,
    category: string,
    tags: seq<string>,
    imageUrl: Option<string>)

  /** A call a submission makes: an image upload, an insert, or the panel's
      reload (`onCardAdded` / `onEventAdded`). */
  datatype Effect = UploadImage(file: File) | InsertCard(card: CardDraft) | InsertEvent(event: EventDraft) | Reload

  /** `if (!imageUrl)`: the upload failed when it gave null or the empty
      string. */
  predicate Uploaded(upload: Call<Option<string>>) {
    upload.Returned? && upload.value.Some? && upload.value.value != ""
  }

  /* ─── Card form ─── */

  datatype CardForm = CardForm(
    title: string,
    description: string,
    file: Option<File>,
    preview: Option<string>,
    saving: bool,
    error: string)

  const EmptyCardForm: CardForm := CardForm("", "", None, None, false, "")

  /** The card form reaches the end of its submission. */
  predicate CardSaved(f: CardForm, upload: Call<Option<string>>, insert: Call<bool>) {
    f.file.Some? && Uploaded(upload) && insert == Returned(true)
  }

  /** A submission of the card form, given the outcome of the upload and of
      the insert (`true` when the store returned the new row). */
  function SubmitCard(f: CardForm, section: Section, upload: Call<Option<string>>, insert: Call<bool>): (r: (CardForm, seq<Effect>))
    // without an image nothing is sent and only the error changes
    ensures f.file.None? ==> r.1 == [] && r.0 == f.(error := MsgNoImage)
    // with an image, the upload is the first call and the only upload; then
    // come the insert once the upload gave a URL, and the reload once the
    // insert gave a row
    ensures f.file.Some? ==> r.1 != [] && r.1[0] == UploadImage(f.file.value)
    ensures forall k :: 0 < k < |r.1| ==> !r.1[k].UploadImage?
    ensures f.file.Some? ==>
              |r.1| == if !Uploaded(upload) then 1 else if CardSaved(f, upload, insert) then 3 else 2
    // an insert happens only after a successful upload, and carries its URL
    ensures forall k :: 0 <= k < |r.1| && r.1[k].InsertCard? ==>
              k == 1 && Uploaded(upload)
              && r.1[k].card == CardDraft(section, f.title, f.description, upload.value.value)
    ensures f.file.Some? && Uploaded(upload) ==> |r.1| >= 2 && r.1[1].InsertCard?
    // the form is cleared and the list reloaded exactly when the insert succeeded
    ensures Reload in r.1 <==> CardSaved(f, upload, insert)
    ensures CardSaved(f, upload, insert) ==> r.0 == EmptyCardForm && r.1[|r.1| - 1] == Reload
    // any other outcome keeps what was typed and reports an error
    ensures f.file.Some? && !CardSaved(f, upload, insert) ==>
              r.0.title == f.title && r.0.description == f.description
              && r.0.file == f.file && r.0.preview == f.preview && r.0.error != ""
    // once the store was involved, the form is never left saving
    ensures f.file.Some? ==> !r.0.saving
  {
    if f.file.None? then (f.(error := MsgNoImage), [])
    else
      var up := [UploadImage(f.file.value)];
      if upload.Threw? then (f.(saving := false, error := MsgUnexpected), up)
      else if !Uploaded(upload) then (f.(saving := false, error := MsgCardUploadFailed), up)
      else
        var calls := up + [InsertCard(CardDraft(section, f.title, f.description, upload.value.value))];
        if insert.Threw? then (f.(saving := false, error := MsgUnexpected), calls)
        else if !insert.value then (f.(saving := false, error := MsgCardInsertFailed), calls)
        else (EmptyCardForm, calls + [Reload])
  }

  /** `AddCardForm`: the card form's state. */
  class AddCardForm {
    var title: string
    var description: string
    var file: Option<File>
    var preview: Option<string>
    var saving: bool
    var error: string

    function State(): CardForm
      reads this
    {
      CardForm(title, description, file, preview, saving, error)
    }

    constructor ()
      ensures State() == EmptyCardForm
    {
      title, description, file, preview, saving, error := "", "", None, None, false, "";
    }

    /** `handleFileSelect`: `previewUrl` stands for the object URL the browser
        makes for the file. */
    method SelectFile(f: File, previewUrl: string)
      modifies this`file, this`preview
      ensures file == Some(f) && preview == Some(previewUrl)
    {
      file := Some(f);
      preview := Some(previewUrl);
    }

    /** `handleSubmit`. */
    method HandleSubmit(section: Section, upload: Call<Option<string>>, insert: Call<bool>) returns (effects: seq<Effect>)
      modifies this
      ensures (State(), effects) == SubmitCard(old(State()), section, upload, insert)
    {
      effects := [];
      if file.None? {
        error := MsgNoImage;
        return;
      }
      var form := State();
      saving := true;
      error := "";
      assert State() == form.(saving := true, error := "");
      effects := [UploadImage(form.file.value)];
      if upload.Threw? {
        Fail(MsgUnexpected);
        return;
      }
      var imageUrl := upload.value;
      if imageUrl.None? || imageUrl.value == "" {
        Fail(MsgCardUploadFailed);
        return;
      }
      effects := effects + [InsertCard(CardDraft(section, form.title, form.description, imageUrl.value))];
      if insert.Threw? {
        Fail(MsgUnexpected);
        return;
      }
      if !insert.value {
        Fail(MsgCardInsertFailed);
        return;
      }
      title, description, file, preview := "", "", None, None;
      effects := effects + [Reload];
      saving := false;
    }

    /** `setError(msg)` followed by the `finally` block's `setSaving(false)`. */
    method Fail(msg: string)
      modifies this`saving, this`error
      ensures State() == old(State()).(saving := false, error := msg)
    {
      error := msg;
      saving := false;
    }
  }

  /* ─── Event form ─── */

  datatype EventForm = EventForm(
    title: string,
    description: string,
    date: string,
    category: string,
    tagsInput: string,
    file: Option<File>,
    preview: Option<string>,
    saving: bool,
    error: string)

  const EmptyEventForm: EventForm := EventForm("", "", "", Categories.Default, "", None, None, false, "")

  /** The optional image did not stop the submission. */
  predicate ImageStepPassed(f: EventForm, upload: Call<Option<string>>) {
    f.file.None? || Uploaded(upload)
  }

  /** The event form reaches the end of its submission. `isoDate` is the
      date field converted to ISO text, `None` when the conversion throws. */
  predicate EventSaved(f: EventForm, upload: Call<Option<string>>, isoDate: Option<string>, insert: Call<bool>) {
    ImageStepPassed(f, upload) && isoDate.Some? && insert == Returned(true)
  }

  /** The row a submission inserts once the image step passed and the date
      converted: what was typed, the parsed tags, and the uploaded URL or
      null without a file. */
  function EventDraftFor(f: EventForm, upload: Call<Option<string>>, isoDate: Option<string>): (d: EventDraft)
    requires ImageStepPassed(f, upload) && isoDate.Some?
    ensures d.title == f.title && d.description == f.description && d.category == f.category
    ensures d.date == isoDate.value
    ensures d.tags == Tags.ParseTags(f.tagsInput)
    ensures d.imageUrl.None? <==> f.file.None?
    ensures d.imageUrl.Some? ==> d.imageUrl == upload.value && d.imageUrl.value != ""
  {
    EventDraft(f.title, f.description, isoDate.value, f.category, Tags.ParseTags(f.tagsInput),
               if f.file.None? then None else upload.value)
  }

  /** A submission of the event form, given the outcome of the upload (used
      only when a file was chosen), of the date conversion and of the insert. */
  function SubmitEvent(f: EventForm, upload: Call<Option<string>>, isoDate: Option<string>, insert: Call<bool>): (r: (EventForm, seq<Effect>))
    // without a file nothing is uploaded
    ensures f.file.None? ==> forall k :: 0 <= k < |r.1| ==> !r.1[k].UploadImage?
    ensures f.file.Some? ==> r.1 != [] && r.1[0] == UploadImage(f.file.value)
    ensures forall k :: 0 < k < |r.1| ==> !r.1[k].UploadImage?
    // the upload, if any, then the insert once the image step passed and the
    // date converted, then the reload as the last call once the insert gave
    // a row
    ensures |r.1| == (if f.file.Some? then 1 else 0)
                     + (if ImageStepPassed(f, upload) && isoDate.Some? then 1 else 0)
                     + (if EventSaved(f, upload, isoDate, insert) then 1 else 0)
    ensures EventSaved(f, upload, isoDate, insert) ==> r.1[|r.1| - 1] == Reload
    // an insert happens only when the image step passed, and carries the
    // parsed tags and the uploaded URL, or null without a file
    ensures forall k :: 0 <= k < |r.1| && r.1[k].InsertEvent? ==>
              ImageStepPassed(f, upload) && isoDate.Some?
              && r.1[k].event == EventDraftFor(f, upload, isoDate)
    ensures ImageStepPassed(f, upload) && isoDate.Some? ==> InsertEvent(EventDraftFor(f, upload, isoDate)) in r.1
    // every field resets, the category back to "ecoturismo", and the list
    // reloads exactly when the insert succeeded
    ensures Reload in r.1 <==> EventSaved(f, upload, isoDate, insert)
    ensures EventSaved(f, upload, isoDate, insert) ==> r.0 == EmptyEventForm
    ensures !EventSaved(f, upload, isoDate, insert) ==>
              r.0 == f.(saving := false, error := r.0.error) && r.0.error != ""
    ensures !r.0.saving
  {
    var up := if f.file.Some? then [UploadImage(f.file.value)] else [];
    if f.file.Some? && upload.Threw? then (f.(saving := false, error := MsgUnexpected), up)
    else if f.file.Some? && !Uploaded(upload) then (f.(saving := false, error := MsgEventUploadFailed), up)
    else if isoDate.None? then (f.(saving := false, error := MsgUnexpected), up)
    else
      var calls := up + [InsertEvent(EventDraftFor(f, upload, isoDate))];
      if insert.Threw? then (f.(saving := false, error := MsgUnexpected), calls)
      else if !insert.value then (f.(saving := false, error := MsgEventInsertFailed), calls)
      else (EmptyEventForm, calls + [Reload])
  }

  /** `AddEventForm`: the event form's state. */
  class AddEventForm {
    var title: string
    var description: string
    var date: string
    var category: string
    var tagsInput: string
    var file: Option<File>
    var preview: Option<string>
    var saving: bool
    var error: string

    function State(): EventForm
      reads this
    {
      EventForm(title, description, date, category, tagsInput, file, preview, saving, error)
    }

    constructor ()
      ensures State() == EmptyEventForm
    {
      title, description, date, tagsInput := "", "", "", "";
      category := Categories.Default;
      file, preview, saving, error := None, None, false, "";
    }

    /** `handleFileSelect`. */
    method SelectFile(f: File, previewUrl: string)
      modifies this`file, this`preview
      ensures file == Some(f) && preview == Some(previewUrl)
    {
      file := Some(f);
      preview := Some(previewUrl);
    }

    /** `handleSubmit`. Like the handler, it works on the values the form
        held when the submission started (`form`); the assignments below
        replace the component's state. */
    method HandleSubmit(upload: Call<Option<string>>, isoDate: Option<string>, insert: Call<bool>) returns (effects: seq<Effect>)
      modifies this
      ensures (State(), effects) == SubmitEvent(old(State()), upload, isoDate, insert)
    {
      var form := State();
      saving := true;
      error := "";
      assert State() == form.(saving := true, error := "");
      var uploads: seq<Effect> := [];
      if form.file.Some? {
        uploads := [UploadImage(form.file.value)];
        if upload.Threw? {
          Fail(MsgUnexpected);
          return uploads;
        }
        var imageUrl := upload.value;
        if imageUrl.None? || imageUrl.value == "" {
          Fail(MsgEventUploadFailed);
          return uploads;
        }
      }
      if isoDate.None? {
        Fail(MsgUnexpected);
        return uploads;
      }
      effects := uploads + [InsertEvent(EventDraftFor(form, upload, isoDate))];
      if insert.Threw? {
        Fail(MsgUnexpected);
        return;
      }
      if !insert.value {
        Fail(MsgEventInsertFailed);
        return;
      }
      Reset();
      effects := effects + [Reload];
    }

    /** `setError(msg)` followed by the `finally` block's `setSaving(false)`. */
    method Fail(msg: string)
      modifies this`saving, this`error
      ensures State() == old(State()).(saving := false, error := msg)
    {
      error := msg;
      saving := false;
    }

    /** The setters a successful submission calls: every field back to its
        initial value. */
    method Reset()
      modifies this
      ensures State() == EmptyEventForm
    {
      title, description, date, tagsInput := "", "", "", "";
      category := Categories.Default;
      file, preview, saving, error := None, None, false, "";
    }
  }
}
