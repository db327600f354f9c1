/**
 * The notification form of src/components/series/NotificationModal.jsx:
 * the form state (`formData`, `errors`, `isSubmitting`), the reset made when
 * the modal opens, the input handler, the validation and the control flow of
 * the submit handler.
 *
 * The component's state is a `NotificationForm` object whose handlers are
 * methods. An error entry is an `Option<string>`: `None` is the `null` the
 * input handler writes, `Some(message)` a validation message. The caller's
 * `onSubmit` promise is an input (`Resolves` or `Rejects`); `onSubmit` and
 * `onClose` appear as what the handler returns.
 */
module NotificationModal {
  import opened Wrappers
  import opened Text

  const TitleKey: string := "notification_title"
  const ContentKey: string := "notification_content"
  const TitleRequired: string := "Tiêu đề thông báo không được để trống"
  const ContentRequired: string := "Nội dung thông báo không được để trống"

  /** How the caller's `onSubmit` promise settles. */
  datatype Outcome = Resolves | Rejects

  /** `errors[name]` is truthy: a message that is not "" (a missing key or `null` is falsy). */
  predicate Truthy(errors: map<string, Option<string>>, name: string)
  {
    name in errors && errors[name].Some? && errors[name].value != ""
  }

  /**
   * The errors after an edit of `name`: its entry becomes `null` if it was
   * truthy, and otherwise the record is returned as it was.
   */
  function ClearedOnEdit(errors: map<string, Option<string>>, name: string): (r: map<string, Option<string>>)
    ensures !Truthy(r, name)
    ensures forall k :: k in r <==> k in errors
    ensures forall k :: k in r && k != name ==> r[k] == errors[k]
    ensures Truthy(errors, name) ==> r[name] == None
    ensures !Truthy(errors, name) ==> r == errors
  {
    if Truthy(errors, name) then errors[name := None] else errors
  }

  /** `initialData?.[key] || ''`: the initial value of a field, "" without initial data. */
  function Initial(initialData: Option<map<string, string>>, key: string): string
  {
    if initialData.Some? && key in initialData.value then initialData.value[key] else ""
  }

  /** The errors `validateForm` finds: a message for each field that is blank after trimming. */
  function ValidationErrors(title: string, content: string): (errors: map<string, Option<string>>)
    ensures forall k :: k in errors ==> Truthy(errors, k)
  {
    var withTitle: map<string, Option<string>> := if Trim(title) == "" then map[TitleKey := Some(TitleRequired)] else map[];
    if Trim(content) == "" then withTitle[ContentKey := Some(ContentRequired)] else withTitle
  }

  /**
   * A field has an error exactly when it holds nothing but white space, and
   * the form is valid exactly when neither field is blank.
   */
  lemma ValidationRules(title: string, content: string)
    ensures var errors := ValidationErrors(title, content);
      && (TitleKey in errors <==> AllSpace(title))
      && (TitleKey in errors ==> errors[TitleKey] == Some(TitleRequired))
      && (ContentKey in errors <==> AllSpace(content))
      && (ContentKey in errors ==> errors[ContentKey] == Some(ContentRequired))
      && (forall k :: k in errors ==> k == TitleKey || k == ContentKey)
      && (errors == map[] <==> !AllSpace(title) && !AllSpace(content))
  {
    TrimEmpty(title);
    TrimEmpty(content);
    var errors := ValidationErrors(title, content);
    assert TitleKey != ContentKey by {
      assert TitleKey[13] != ContentKey[13];
    }
    if AllSpace(content) {
      assert ContentKey in errors;
    } else if AllSpace(title) {
      assert TitleKey in errors;
    }
  }

  /**
   * Editing a field that failed validation clears its message to `null` and
   * leaves the other field's message in place.
   */
  lemma EditClearsOnlyThatMessage(title: string, content: string)
    requires AllSpace(title) && AllSpace(content)
    ensures ClearedOnEdit(ValidationErrors(title, content), TitleKey) ==
      map[TitleKey := None, ContentKey := Some(ContentRequired)]
  {
    ValidationRules(title, content);
    var errors := ValidationErrors(title, content);
    assert TitleKey != ContentKey by {
      assert TitleKey[13] != ContentKey[13];
    }
    assert errors == map[TitleKey := Some(TitleRequired), ContentKey := Some(ContentRequired)];
  }

  class NotificationForm {
    var formData: map<string, string>
    var errors: map<string, Option<string>>
    var isSubmitting: bool

    /** Both fields are always present: every handler that replaces `formData` keeps them. */
    predicate Valid()
      reads this
    {
      TitleKey in formData && ContentKey in formData
    }

    /** The initial state: both fields empty, no errors, not submitting. */
    constructor ()
      ensures Valid()
      ensures formData == map[TitleKey := "", ContentKey := ""]
      ensures errors == map[] && !isSubmitting
    {
      formData := map[TitleKey := "", ContentKey := ""];
      errors := map[];
      isSubmitting := false;
    }

    /**
     * The effect run when `isOpen` or `initialData` changes: on opening,
     * each field takes its initial value or "" and the errors are cleared.
     */
    method ResetOnOpen(isOpen: bool, initialData: Option<map<string, string>>)
      modifies this`formData, this`errors
      ensures Valid() <==> isOpen || old(Valid())
      ensures isOpen ==> formData == map[TitleKey := Initial(initialData, TitleKey),
                                         ContentKey := Initial(initialData, ContentKey)]
      ensures isOpen ==> errors == map[]
      ensures !isOpen ==> formData == old(formData) && errors == old(errors)
    {
      if isOpen {
        formData := map[TitleKey := Initial(initialData, TitleKey), ContentKey := Initial(initialData, ContentKey)];
        errors := map[];
      }
    }

    /**
     * `handleInputChange`: the named field takes the new value and its error,
     * if truthy, becomes `null`; nothing else changes.
     */
    method HandleInputChange(name: string, value: string)
      requires Valid()
      modifies this`formData, this`errors
      ensures Valid()
      ensures formData == old(formData)[name := value]
      ensures errors == ClearedOnEdit(old(errors), name)
    {
      formData := formData[name := value];
      if Truthy(errors, name) {
        errors := errors[name := None];
      }
    }

    /**
     * `validateForm`: builds the new errors field by field, stores them and
     * reports whether there are none (`Object.keys(newErrors).length === 0`).
     */
    method ValidateForm() returns (valid: bool)
      requires Valid()
      modifies this`errors
      ensures errors == ValidationErrors(formData[TitleKey], formData[ContentKey])
      ensures valid <==> errors == map[]
    {
      var newErrors: map<string, Option<string>> := map[];
      if Trim(formData[TitleKey]) == "" {
        newErrors := newErrors[TitleKey := Some(TitleRequired)];
      }
      if Trim(formData[ContentKey]) == "" {
        newErrors := newErrors[ContentKey := Some(ContentRequired)];
      }
      errors := newErrors;
      valid := |newErrors| == 0;
    }

    /**
     * `handleSubmit`: nothing is submitted unless the form validates; the
     * form data is submitted, the modal is closed when the submission
     * resolves, and `isSubmitting` is reset on every path that set it.
     */
    method HandleSubmit(outcome: Outcome) returns (submitted: Option<map<string, string>>, closed: bool)
      requires Valid()
      modifies this`errors, this`isSubmitting
      ensures errors == ValidationErrors(formData[TitleKey], formData[ContentKey])
      ensures submitted.Some? <==> errors == map[]
      ensures submitted.Some? ==> submitted.value == formData
      ensures closed <==> submitted.Some? && outcome == Resolves
      ensures submitted.Some? ==> !isSubmitting
      ensures submitted.None? ==> isSubmitting == old(isSubmitting)
    {
      var valid := ValidateForm();
      if !valid {
        return None, false;
      }
      isSubmitting := true;
      submitted := Some(formData);
      match outcome {
        case Resolves =>
          closed := true;
        case Rejects =>
          closed := false;
      }
      isSubmitting := false;
    }
  }

  /**
   * Opening the modal on a notification whose title and content are not
   * blank gives a form that validates; opening it without initial data gives
   * one that reports both fields.
   */
  lemma ResetThenValidate(initialData: Option<map<string, string>>)
    ensures var title, content := Initial(initialData, TitleKey), Initial(initialData, ContentKey);
      ValidationErrors(title, content) == map[] <==> !AllSpace(title) && !AllSpace(content)
    ensures initialData.None? ==>
      ValidationErrors(Initial(initialData, TitleKey), Initial(initialData, ContentKey)) ==
        map[TitleKey := Some(TitleRequired), ContentKey := Some(ContentRequired)]
  {
    ValidationRules(Initial(initialData, TitleKey), Initial(initialData, ContentKey));
  }
}
