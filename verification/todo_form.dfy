/** The add / edit form of the board: field validation, the submit rule and
    per-field error clearing. The clock is a parameter; submission outcome is
    a parameter. */
module TodoForm {
  import opened TodoTypes
  import opened Text

  const MaxTitleLength := 100
  const MaxDescriptionLength := 500

  /** The fields that can carry a validation error. */
  datatype Field = TitleField | DescriptionField | DueDateField

  /** A field's message. `Cleared` is the empty message a field's error is
      overwritten with when the user edits the field. */
  datatype FieldError = TitleRequired | TitleTooLong | DescriptionTooLong | DueDateInPast | Cleared

  /** The error record: an entry per field, or none. */
  datatype Errors = Errors(title: Option<FieldError>, description: Option<FieldError>, dueDate: Option<FieldError>) {
    function Get(f: Field): Option<FieldError> {
      match f
      case TitleField => title
      case DescriptionField => description
      case DueDateField => dueDate
    }

    function Set(f: Field, v: FieldError): Errors {
      match f
      case TitleField => this.(title := Some(v))
      case DescriptionField => this.(description := Some(v))
      case DueDateField => this.(dueDate := Some(v))
    }
  }

  const NoErrors := Errors(None, None, None)

  /** The field has an entry. */
  predicate Has(e: Errors, f: Field) {
    e.Get(f).Some?
  }

  /** The field shows an error: it has an entry and the entry is not empty. */
  predicate HasError(e: Errors, f: Field) {
    e.Get(f).Some? && e.Get(f).value != Cleared
  }

  /** `Partial<TodoFormData>` the form may be opened with. */
  datatype InitialData = InitialData(
    title: Option<string>,
    description: Option<string>,
    priority: Option<Priority>,
    dueDate: Option<Time>)

  datatype FormState = FormState(data: FormData, errors: Errors, submitting: bool)

  /** The initial form: each supplied field of `init`, and otherwise an
      empty title and description, medium priority, no due date. */
  function Init(init: Option<InitialData>): (s: FormState)
    ensures s.errors == NoErrors && !s.submitting
    ensures s.data.description.Some?
    ensures init.None? ==> s.data == FormData("", Some(""), Medium, None)
    ensures init.Some? && init.value.title.Some? ==> s.data.title == init.value.title.value
    ensures init.Some? && init.value.title.None? ==> s.data.title == ""
    ensures init.Some? && init.value.description.Some? ==> s.data.description == init.value.description
    ensures init.Some? && init.value.description.None? ==> s.data.description == Some("")
    ensures init.Some? && init.value.priority.Some? ==> s.data.priority == init.value.priority.value
    ensures init.Some? && init.value.priority.None? ==> s.data.priority == Medium
    ensures init.Some? ==> s.data.dueDate == init.value.dueDate
  {
    match init
    case None => FormState(FormData("", Some(""), Medium, None), NoErrors, false)
    case Some(d) =>
      FormState(FormData(d.title.GetOr(""), Some(d.description.GetOr("")), d.priority.GetOr(Medium), d.dueDate),
                NoErrors, false)
  }

  /** The title rule: required after trimming, at most 100 UTF-16 code
      units as typed. */
  function TitleError(title: string): (r: Option<FieldError>)
    ensures r.Some? <==> IsBlank(title) || Utf16Length(title) > MaxTitleLength
    ensures r.Some? ==> r.value == (if IsBlank(title) then TitleRequired else TitleTooLong)
  {
    if IsBlank(title) then Some(TitleRequired)
    else if Utf16Length(title) > MaxTitleLength then Some(TitleTooLong)
    else None
  }

  /** The description rule: at most 500 UTF-16 code units; an empty
      description always passes. */
  function DescriptionError(description: Option<string>): (r: Option<FieldError>)
    ensures r.Some? <==> description.Some? && Utf16Length(description.value) > MaxDescriptionLength
    ensures r.Some? ==> r.value == DescriptionTooLong
  {
    if description.Some? && description.value != "" && Utf16Length(description.value) > MaxDescriptionLength
    then Some(DescriptionTooLong) else None
  }

  /** `validateForm`: the error map for the current data. The title is checked
      for blankness after trimming but measured untrimmed, in UTF-16 code
      units; an empty description passes; a due date equal to `now` passes. */
  function Validate(d: FormData, now: Time): (e: Errors)
    ensures Has(e, TitleField) <==> IsBlank(d.title) || Utf16Length(d.title) > MaxTitleLength
    ensures Has(e, TitleField) ==> e.title.value == (if IsBlank(d.title) then TitleRequired else TitleTooLong)
    ensures Has(e, DescriptionField) <==> d.description.Some? && Utf16Length(d.description.value) > MaxDescriptionLength
    ensures Has(e, DueDateField) <==> d.dueDate.Some? && d.dueDate.value < now
    ensures forall f :: Has(e, f) ==> HasError(e, f)
  {
    Errors(
      TitleError(d.title),
      DescriptionError(d.description),
      if d.dueDate.Some? && d.dueDate.value < now then Some(DueDateInPast) else None)
  }

  /** `Object.keys(newErrors).length === 0`. */
  predicate IsValid(d: FormData, now: Time) {
    Validate(d, now) == NoErrors
  }

  /** The form is valid exactly when all three field rules hold. */
  lemma ValidIff(d: FormData, now: Time)
    ensures IsValid(d, now) <==>
      && !IsBlank(d.title) && Utf16Length(d.title) <= MaxTitleLength
      && (d.description.None? || Utf16Length(d.description.value) <= MaxDescriptionLength)
      && (d.dueDate.None? || d.dueDate.value >= now)
  {
  }

  /** The boundaries: a non-blank title of 100 code units passes and one of
      101 fails; a due date equal to now passes and one a millisecond earlier
      fails. */
  lemma ValidationBoundaries(title: string, now: Time)
    requires !IsBlank(title) && Utf16Length(title) == MaxTitleLength
    ensures IsValid(FormData(title, None, Medium, Some(now)), now)
    ensures Validate(FormData(title + "x", None, Medium, None), now).title == Some(TitleTooLong)
    ensures Validate(FormData(title, None, Medium, Some(now - 1)), now).dueDate == Some(DueDateInPast)
  {
    assert !IsBlank(title + "x") by {
      BlankIffAllWhitespace(title);
      BlankIffAllWhitespace(title + "x");
      var k :| 0 <= k < |title| && !IsWhitespace(title[k]);
      assert (title + "x")[k] == title[k];
    }
    assert (title + "x")[..|title|] == title;
  }

  /** The limit counts code units, not characters: a title of 51 emoji (or
      any 51 characters outside the Basic Multilingual Plane) is refused as
      too long. */
  lemma AstralTitleTooLong(title: string)
    requires |title| == 51 && forall i :: 0 <= i < |title| ==> Astral(title[i])
    ensures TitleError(title) == Some(TitleTooLong)
  {
    Utf16LengthPlanes(title);
    BlankIffAllWhitespace(title);
    assert !IsWhitespace(title[0]);
  }

  datatype SubmitResult = SubmitResult(form: FormState, sent: Option<FormData>)

  /** `handleSubmit`: an invalid form shows its errors and sends nothing;
      a valid one sends its data. When the `onSubmit` promise resolves in add
      mode the form returns to its initial empty state; in edit mode, or when
      the promise rejects, it keeps its data. Submitting is over either way.
      `resolved` says whether the promise resolved; whether the write behind
      it succeeded is for the caller's handler to turn into that. */
  function Submit(s: FormState, addMode: bool, now: Time, resolved: bool): (r: SubmitResult)
    ensures r.form.errors == Validate(s.data, now)
    ensures r.sent.Some? ==> !r.form.submitting
    ensures r.sent.None? ==> r.form.submitting == s.submitting
    ensures r.sent.Some? <==> IsValid(s.data, now)
    ensures r.sent.Some? ==> r.sent.value == s.data
    ensures r.sent.Some? && resolved && addMode ==> r.form.data == Init(None).data
    ensures r.sent.None? || !resolved || !addMode ==> r.form.data == s.data
  {
    var errors := Validate(s.data, now);
    if errors != NoErrors then SubmitResult(s.(errors := errors), None)
    else
      var data := if resolved && addMode then FormData("", Some(""), Medium, None) else s.data;
      SubmitResult(FormState(data, errors, false), Some(s.data))
  }

  /** Removes the message of one field, keeping its key, when it shows one. */
  function ClearFieldError(e: Errors, f: Field): (r: Errors)
    ensures !HasError(r, f)
    ensures forall g :: Has(r, g) <==> Has(e, g)
    ensures forall g :: g != f ==> r.Get(g) == e.Get(g)
  {
    if HasError(e, f) then e.Set(f, Cleared) else e
  }

  /** `handleInputChange("title")`: the title changes and only its error is cleared. */
  function ChangeTitle(s: FormState, title: string): (r: FormState)
    ensures r.data == s.data.(title := title) && r.submitting == s.submitting
    ensures !HasError(r.errors, TitleField)
    ensures forall g :: g != TitleField ==> (HasError(r.errors, g) <==> HasError(s.errors, g))
  {
    s.(data := s.data.(title := title), errors := ClearFieldError(s.errors, TitleField))
  }

  /** `handleInputChange("description")`: the description changes and only its
      error is cleared. */
  function ChangeDescription(s: FormState, description: string): (r: FormState)
    ensures r.data == s.data.(description := Some(description)) && r.submitting == s.submitting
    ensures !HasError(r.errors, DescriptionField)
    ensures forall g :: g != DescriptionField ==> (HasError(r.errors, g) <==> HasError(s.errors, g))
  {
    s.(data := s.data.(description := Some(description)),
       errors := ClearFieldError(s.errors, DescriptionField))
  }

  /** `handleDateChange`: the due date changes (an empty input clears it) and
      only its error is cleared. */
  function ChangeDueDate(s: FormState, dueDate: Option<Time>): (r: FormState)
    ensures r.data == s.data.(dueDate := dueDate) && r.submitting == s.submitting
    ensures !HasError(r.errors, DueDateField)
    ensures forall g :: g != DueDateField ==> (HasError(r.errors, g) <==> HasError(s.errors, g))
  {
    s.(data := s.data.(dueDate := dueDate), errors := ClearFieldError(s.errors, DueDateField))
  }

  /** `handlePriorityChange`: the priority changes, the errors do not. */
  function ChangePriority(s: FormState, p: Priority): (r: FormState)
    ensures r.data == s.data.(priority := p) && r.errors == s.errors && r.submitting == s.submitting
  {
    s.(data := s.data.(priority := p))
  }

  /** Editing a field clears only its displayed message; submission does not
      look at the old messages at all. Submitting after an edit is the same as
      submitting a form that held the edited data all along. */
  lemma EditsReachSubmitOnlyThroughData(s: FormState, title: string, description: string,
                                        dueDate: Option<Time>, addMode: bool, now: Time, resolved: bool)
    ensures Submit(ChangeTitle(s, title), addMode, now, resolved)
      == Submit(s.(data := s.data.(title := title)), addMode, now, resolved)
    ensures Submit(ChangeDescription(s, description), addMode, now, resolved)
      == Submit(s.(data := s.data.(description := Some(description))), addMode, now, resolved)
    ensures Submit(ChangeDueDate(s, dueDate), addMode, now, resolved)
      == Submit(s.(data := s.data.(dueDate := dueDate)), addMode, now, resolved)
  {
  }
}
