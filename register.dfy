/**
 * The registration form of src/components/auth/Register.jsx: the form state
 * (`formData`, `formErrors`, `tempErrors`, `confirmationCode`), the submit-time
 * validation, the live checks made while the user types, and the guard in
 * front of the confirmation-code submission.
 *
 * The component's state is a `RegisterForm` object whose handlers are
 * methods. A record is a `map<string, string>`; a missing key reads as ""
 * (JavaScript `undefined`, which is falsy like "").
 */
module Register {
  import opened Text

  const FullNameRequired: string := "Full name is required"
  const EmailRequired: string := "Email is required"
  const EmailInvalid: string := "Email address is invalid"
  const BirthdateRequired: string := "Birth date is required"
  const GenderRequired: string := "Gender is required"
  const PasswordRequired: string := "Password is required"
  const PasswordTooShort: string := "Password must be at least 8 characters"
  const ConfirmRequired: string := "Please confirm your password"
  const PasswordsMismatch: string := "Passwords do not match"
  const EmailLiveInvalid: string := "Please enter a valid email address"
  const CodeRequired: string := "Confirmation code is required"

  /** The fields `validateForm` checks. */
  const Fields: set<string> := {"fullName", "email", "birthdate", "gender", "password", "confirmPassword"}

  /** A record entry, "" when the key is missing. */
  function Get(m: map<string, string>, key: string): string
  {
    if key in m then m[key] else ""
  }

  /**
   * A match of `/\S+@\S+\.\S+/` with its `@` at `i` and its `.` at `j`: a
   * non-space before the `@`, a non-empty run of non-spaces between the two,
   * and a non-space after the `.`.
   */
  predicate EmailAt(s: string, i: nat, j: nat)
    requires 0 < i < j < |s| - 1
  {
    s[i] == '@' && s[j] == '.' && i + 1 < j && !IsSpace(s[i - 1]) && !IsSpace(s[j + 1]) &&
    forall k :: i < k < j ==> !IsSpace(s[k])
  }

  /** `/\S+@\S+\.\S+/.test(s)`: the pattern is not anchored, so a match anywhere in `s` will do. */
  predicate EmailMatches(s: string)
  {
    exists i: nat, j: nat :: 0 < i < j < |s| - 1 && EmailAt(s, i, j)
  }

  /** A local part, `@`, a domain without spaces, `.` and a top-level part match the pattern. */
  lemma EmailOfParts(local: string, domain: string, tld: string)
    requires local != [] && !IsSpace(local[|local| - 1])
    requires domain != [] && forall k :: 0 <= k < |domain| ==> !IsSpace(domain[k])
    requires tld != [] && !IsSpace(tld[0])
    ensures EmailMatches(local + "@" + domain + "." + tld)
  {
    var s := local + "@" + domain + "." + tld;
    var i, j := |local|, |local| + 1 + |domain|;
    assert s[i - 1] == local[|local| - 1];
    assert s[j + 1] == tld[0];
    forall k | i < k < j ensures !IsSpace(s[k]) {
      assert s[k] == domain[k - i - 1];
    }
    assert EmailAt(s, i, j);
  }

  /** A matching address holds an `@` and a `.` and has at least five characters (`a@b.c`). */
  lemma EmailNeedsAtAndDot(s: string)
    requires EmailMatches(s)
    ensures '@' in s && '.' in s && |s| >= 5
  {
    var i: nat, j: nat :| 0 < i < j < |s| - 1 && EmailAt(s, i, j);
    assert s[i] == '@' && s[j] == '.';
  }

  /** Because the pattern is not anchored, text around a matching address does not stop the match. */
  lemma EmailUnanchored(before: string, s: string, after: string)
    requires EmailMatches(s)
    ensures EmailMatches(before + s + after)
  {
    var i: nat, j: nat :| 0 < i < j < |s| - 1 && EmailAt(s, i, j);
    var t := before + s + after;
    var n := |before|;
    assert t[n + i] == s[i] && t[n + j] == s[j] && t[n + i - 1] == s[i - 1] && t[n + j + 1] == s[j + 1];
    forall k | n + i < k < n + j ensures !IsSpace(t[k]) {
      assert t[k] == s[k - n];
    }
    assert EmailAt(t, n + i, n + j);
  }

  /**
   * The message `validateForm` gives one field, "" for none: each field is
   * required; a present email must match the pattern, a present password must
   * have at least 8 characters, and a present confirmation must equal the
   * password.
   */
  function FieldError(data: map<string, string>, field: string): (message: string)
    ensures message != "" ==> field in Fields
    ensures field in Fields && Get(data, field) == "" ==> message != ""
  {
    var v := Get(data, field);
    if field == "fullName" then
      if v == "" then FullNameRequired else ""
    else if field == "email" then
      if v == "" then EmailRequired else if !EmailMatches(v) then EmailInvalid else ""
    else if field == "birthdate" then
      if v == "" then BirthdateRequired else ""
    else if field == "gender" then
      if v == "" then GenderRequired else ""
    else if field == "password" then
      if v == "" then PasswordRequired else if |v| < 8 then PasswordTooShort else ""
    else if field == "confirmPassword" then
      if v == "" then ConfirmRequired else if Get(data, "password") != v then PasswordsMismatch else ""
    else
      ""
  }

  /** The error record of `validateForm`, built field by field in the order the source checks them. */
  function Validate(data: map<string, string>): map<string, string>
  {
    var afterName := Add(map[], "fullName", FieldError(data, "fullName"));
    var afterEmail := Add(afterName, "email", FieldError(data, "email"));
    var afterBirthdate := Add(afterEmail, "birthdate", FieldError(data, "birthdate"));
    var afterGender := Add(afterBirthdate, "gender", FieldError(data, "gender"));
    var afterPassword := Add(afterGender, "password", FieldError(data, "password"));
    Add(afterPassword, "confirmPassword", FieldError(data, "confirmPassword"))
  }

  /** A field's message recorded under its name, when there is one. */
  function Add(errors: map<string, string>, field: string, message: string): map<string, string>
  {
    if message != "" then errors[field := message] else errors
  }

  /** Recording a message adds exactly that entry; an empty message changes nothing. */
  lemma AddEntry(errors: map<string, string>, field: string, message: string, f: string)
    ensures f in Add(errors, field, message) <==> f in errors || (f == field && message != "")
    ensures f in Add(errors, field, message) ==>
      Add(errors, field, message)[f] == if f == field && message != "" then message else errors[f]
  {
  }

  /** The record stays empty exactly while every message so far is empty. */
  lemma AddEmpty(errors: map<string, string>, field: string, message: string)
    ensures Add(errors, field, message) == map[] <==> errors == map[] && message == ""
  {
    if message != "" {
      assert field in Add(errors, field, message);
    }
  }

  /** The record is empty exactly when no field has a message. */
  lemma ValidateEmpty(data: map<string, string>)
    ensures Validate(data) == map[] <==>
      FieldError(data, "fullName") == "" && FieldError(data, "email") == "" && FieldError(data, "birthdate") == "" &&
      FieldError(data, "gender") == "" && FieldError(data, "password") == "" && FieldError(data, "confirmPassword") == ""
  {
    var afterName := Add(map[], "fullName", FieldError(data, "fullName"));
    var afterEmail := Add(afterName, "email", FieldError(data, "email"));
    var afterBirthdate := Add(afterEmail, "birthdate", FieldError(data, "birthdate"));
    var afterGender := Add(afterBirthdate, "gender", FieldError(data, "gender"));
    var afterPassword := Add(afterGender, "password", FieldError(data, "password"));
    AddEmpty(map[], "fullName", FieldError(data, "fullName"));
    AddEmpty(afterName, "email", FieldError(data, "email"));
    AddEmpty(afterEmail, "birthdate", FieldError(data, "birthdate"));
    AddEmpty(afterBirthdate, "gender", FieldError(data, "gender"));
    AddEmpty(afterGender, "password", FieldError(data, "password"));
    AddEmpty(afterPassword, "confirmPassword", FieldError(data, "confirmPassword"));
  }

  /** The record holds exactly the failing fields, each with its message. */
  lemma ValidateEntries(data: map<string, string>)
    ensures forall f :: f in Validate(data) <==> f in Fields && FieldError(data, f) != ""
    ensures forall f :: f in Validate(data) ==> Validate(data)[f] == FieldError(data, f)
  {
    var afterName := Add(map[], "fullName", FieldError(data, "fullName"));
    var afterEmail := Add(afterName, "email", FieldError(data, "email"));
    var afterBirthdate := Add(afterEmail, "birthdate", FieldError(data, "birthdate"));
    var afterGender := Add(afterBirthdate, "gender", FieldError(data, "gender"));
    var afterPassword := Add(afterGender, "password", FieldError(data, "password"));
    forall f
      ensures f in Validate(data) <==> f in Fields && FieldError(data, f) != ""
      ensures f in Validate(data) ==> Validate(data)[f] == FieldError(data, f)
    {
      AddEntry(map[], "fullName", FieldError(data, "fullName"), f);
      AddEntry(afterName, "email", FieldError(data, "email"), f);
      AddEntry(afterEmail, "birthdate", FieldError(data, "birthdate"), f);
      AddEntry(afterBirthdate, "gender", FieldError(data, "gender"), f);
      AddEntry(afterGender, "password", FieldError(data, "password"), f);
      AddEntry(afterPassword, "confirmPassword", FieldError(data, "confirmPassword"), f);
    }
  }

  /**
   * Each rule of `validateForm`: every field is required, with its own
   * "required" message taking precedence; a present email must match the
   * pattern, a present password must be at least 8 characters long and a
   * present confirmation must equal the password.
   */
  lemma ValidateRules(data: map<string, string>)
    ensures var errors := Validate(data);
      && ("fullName" in errors <==> Get(data, "fullName") == "")
      && ("email" in errors <==> !EmailMatches(Get(data, "email")))
      && (Get(data, "email") == "" ==> errors["email"] == EmailRequired)
      && (Get(data, "email") != "" && !EmailMatches(Get(data, "email")) ==> errors["email"] == EmailInvalid)
      && ("birthdate" in errors <==> Get(data, "birthdate") == "")
      && ("gender" in errors <==> Get(data, "gender") == "")
      && ("password" in errors <==> |Get(data, "password")| < 8)
      && (Get(data, "password") == "" ==> errors["password"] == PasswordRequired)
      && (Get(data, "password") != "" && |Get(data, "password")| < 8 ==> errors["password"] == PasswordTooShort)
      && ("confirmPassword" in errors <==> Get(data, "confirmPassword") == "" || Get(data, "password") != Get(data, "confirmPassword"))
      && (Get(data, "confirmPassword") == "" ==> errors["confirmPassword"] == ConfirmRequired)
      && (Get(data, "confirmPassword") != "" && Get(data, "password") != Get(data, "confirmPassword") ==>
            errors["confirmPassword"] == PasswordsMismatch)
  {
    var errors := Validate(data);
    ValidateEntries(data);
    if EmailMatches(Get(data, "email")) {
      EmailNeedsAtAndDot(Get(data, "email"));
    }
  }

  /**
   * The form is valid exactly when the name, birth date and gender are
   * filled in, the email matches the pattern, the password has at least 8
   * characters and the confirmation repeats it.
   */
  lemma ValidIffAllRulesHold(data: map<string, string>)
    ensures Validate(data) == map[] <==>
      Get(data, "fullName") != "" && EmailMatches(Get(data, "email")) && Get(data, "birthdate") != "" &&
      Get(data, "gender") != "" && |Get(data, "password")| >= 8 && Get(data, "confirmPassword") == Get(data, "password")
  {
    ValidateRules(data);
    var errors := Validate(data);
    if errors != map[] {
      var f :| f in errors;
      assert f in Fields;
    }
  }

  /** An entry set to "" when it held a message (the error disappears as the user types). */
  function ClearedError(errors: map<string, string>, id: string): map<string, string>
  {
    if Get(errors, id) != "" then errors[id := ""] else errors
  }

  /** Clearing touches only the entry of the edited field, and only when it held a message. */
  lemma ClearedErrorOnlyThatField(errors: map<string, string>, id: string)
    ensures Get(ClearedError(errors, id), id) == ""
    ensures forall k :: k in ClearedError(errors, id) <==> k in errors
    ensures forall k :: k != id && k in errors ==> ClearedError(errors, id)[k] == errors[k]
    ensures Get(errors, id) == "" ==> ClearedError(errors, id) == errors
  {
  }

  /**
   * The live checks of `handleChange` on `tempErrors`: a non-empty email is
   * checked against the pattern, and a non-empty confirmation is compared with
   * a non-empty password (from the form data before the change).
   */
  function LiveChecked(temp: map<string, string>, data: map<string, string>, id: string, value: string): map<string, string>
  {
    var afterEmail :=
      if id == "email" && value != "" then temp["email" := if EmailMatches(value) then "" else EmailLiveInvalid]
      else temp;
    if id == "confirmPassword" && Get(data, "password") != "" && value != "" then
      afterEmail["confirmPassword" := if Get(data, "password") != value then PasswordsMismatch else ""]
    else
      afterEmail
  }

  /**
   * Each live check writes only its own entry, only for its own field and a
   * non-empty value, and the entry it writes is "" exactly when the check
   * passes.
   */
  lemma LiveChecksOwnEntries(temp: map<string, string>, data: map<string, string>, id: string, value: string)
    ensures var t := LiveChecked(temp, data, id, value);
      forall k :: k != "email" && k != "confirmPassword" ==> (k in t <==> k in temp) && (k in temp ==> t[k] == temp[k])
    ensures var t := LiveChecked(temp, data, id, value);
      !(id == "email" && value != "") ==> Get(t, "email") == Get(temp, "email") && ("email" in t <==> "email" in temp)
    ensures var t := LiveChecked(temp, data, id, value);
      id == "email" && value != "" ==> "email" in t && (t["email"] == "" <==> EmailMatches(value))
    ensures var t := LiveChecked(temp, data, id, value);
      !(id == "confirmPassword" && Get(data, "password") != "" && value != "") ==>
        Get(t, "confirmPassword") == Get(temp, "confirmPassword") && ("confirmPassword" in t <==> "confirmPassword" in temp)
    ensures var t := LiveChecked(temp, data, id, value);
      id == "confirmPassword" && Get(data, "password") != "" && value != "" ==>
        "confirmPassword" in t && (t["confirmPassword"] == "" <==> value == Get(data, "password"))
  {
  }

  /** What `handleConfirmSubmit` does: stop with the code error, or call `confirmSignUp(email, code)`. */
  datatype ConfirmAction = MissingCode | ConfirmSignUp(email: string, code: string)

  /** What `handleSubmit` does after validation: stop, or call `signUp` with these fields. */
  datatype SubmitAction = Invalid | SignUp(email: string, password: string, name: string, birthdate: string, gender: string)

  class RegisterForm {
    var formData: map<string, string>
    var formErrors: map<string, string>
    var tempErrors: map<string, string>
    var confirmationCode: string

    /** The initial state: empty fields except gender "male", no errors, no code. */
    constructor ()
      ensures formData == map["fullName" := "", "email" := "", "birthdate" := "", "gender" := "male",
                              "password" := "", "confirmPassword" := ""]
      ensures formErrors == map[] && tempErrors == map[] && confirmationCode == ""
    {
      formData := map["fullName" := "", "email" := "", "birthdate" := "", "gender" := "male",
                      "password" := "", "confirmPassword" := ""];
      formErrors := map[];
      tempErrors := map[];
      confirmationCode := "";
    }

    /**
     * `handleChange`: stores the value under the input's id, clears that
     * field's error if it had one, and runs the live checks.
     */
    method HandleChange(id: string, value: string)
      modifies this`formData, this`formErrors, this`tempErrors
      ensures formData == old(formData)[id := value]
      ensures formErrors == ClearedError(old(formErrors), id)
      ensures tempErrors == LiveChecked(old(tempErrors), old(formData), id, value)
    {
      var password := Get(formData, "password");
      formData := formData[id := value];
      if Get(formErrors, id) != "" {
        formErrors := formErrors[id := ""];
      }
      if id == "email" && value != "" {
        if !EmailMatches(value) {
          tempErrors := tempErrors["email" := EmailLiveInvalid];
        } else {
          tempErrors := tempErrors["email" := ""];
        }
      }
      if id == "confirmPassword" && password != "" && value != "" {
        if password != value {
          tempErrors := tempErrors["confirmPassword" := PasswordsMismatch];
        } else {
          tempErrors := tempErrors["confirmPassword" := ""];
        }
      }
    }

    /** The debounced effect: the live-check entries are copied over `formErrors`. */
    method FlushTempErrors()
      modifies this`formErrors
      ensures formErrors == old(formErrors) + tempErrors
    {
      formErrors := formErrors + tempErrors;
    }

    /**
     * `validateForm`: checks the fields in the source's order, recording one
     * message per failing field (`FieldError` is the field's if/else-if
     * chain), stores the record and reports whether there was none.
     */
    method ValidateForm() returns (isValid: bool)
      modifies this`formErrors
      ensures formErrors == Validate(formData)
      ensures isValid <==> formErrors == map[]
    {
      var errors: map<string, string> := map[];
      isValid := true;
      var fullNameMessage := FieldError(formData, "fullName");
      if fullNameMessage != "" {
        errors := errors["fullName" := fullNameMessage];
        isValid := false;
      }
      assert errors == Add(map[], "fullName", fullNameMessage);
      ghost var afterName := errors;
      var emailMessage := FieldError(formData, "email");
      if emailMessage != "" {
        errors := errors["email" := emailMessage];
        isValid := false;
      }
      assert errors == Add(afterName, "email", emailMessage);
      ghost var afterEmail := errors;
      var birthdateMessage := FieldError(formData, "birthdate");
      if birthdateMessage != "" {
        errors := errors["birthdate" := birthdateMessage];
        isValid := false;
      }
      assert errors == Add(afterEmail, "birthdate", birthdateMessage);
      ghost var afterBirthdate := errors;
      var genderMessage := FieldError(formData, "gender");
      if genderMessage != "" {
        errors := errors["gender" := genderMessage];
        isValid := false;
      }
      assert errors == Add(afterBirthdate, "gender", genderMessage);
      ghost var afterGender := errors;
      var passwordMessage := FieldError(formData, "password");
      if passwordMessage != "" {
        errors := errors["password" := passwordMessage];
        isValid := false;
      }
      assert errors == Add(afterGender, "password", passwordMessage);
      ghost var afterPassword := errors;
      var confirmPasswordMessage := FieldError(formData, "confirmPassword");
      if confirmPasswordMessage != "" {
        errors := errors["confirmPassword" := confirmPasswordMessage];
        isValid := false;
      }
      assert errors == Add(afterPassword, "confirmPassword", confirmPasswordMessage);
      ValidateEmpty(formData);
      formErrors := errors;
    }

    /** `handleSubmit`, up to the `signUp` call: nothing is sent unless the form validates. */
    method HandleSubmit() returns (action: SubmitAction)
      modifies this`formErrors
      ensures formErrors == Validate(formData)
      ensures action.SignUp? <==> Validate(formData) == map[]
      ensures action.SignUp? ==> action == SignUp(Get(formData, "email"), Get(formData, "password"),
                                                   Get(formData, "fullName"), Get(formData, "birthdate"), Get(formData, "gender"))
    {
      var ok := ValidateForm();
      if !ok {
        return Invalid;
      }
      action := SignUp(Get(formData, "email"), Get(formData, "password"),
                       Get(formData, "fullName"), Get(formData, "birthdate"), Get(formData, "gender"));
    }

    /** The code input's `onChange`: stores the code and clears its error if it had one. */
    method SetConfirmationCode(value: string)
      modifies this`confirmationCode, this`formErrors
      ensures confirmationCode == value
      ensures formErrors == ClearedError(old(formErrors), "confirmationCode")
    {
      confirmationCode := value;
      if Get(formErrors, "confirmationCode") != "" {
        formErrors := formErrors["confirmationCode" := ""];
      }
    }

    /**
     * `handleConfirmSubmit`, up to the `confirmSignUp` call: an empty code
     * records the code error and stops; otherwise nothing is recorded and the
     * email and code are sent.
     */
    method HandleConfirmSubmit() returns (action: ConfirmAction)
      modifies this`formErrors
      ensures confirmationCode == "" ==> action == MissingCode && formErrors == old(formErrors)["confirmationCode" := CodeRequired]
      ensures confirmationCode != "" ==> action == ConfirmSignUp(Get(formData, "email"), confirmationCode) && formErrors == old(formErrors)
    {
      if confirmationCode == "" {
        formErrors := formErrors["confirmationCode" := CodeRequired];
        return MissingCode;
      }
      action := ConfirmSignUp(Get(formData, "email"), confirmationCode);
    }
  }
}
