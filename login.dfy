/**
 * The login form: its fields, the validation that fills in the error messages, the change handler
 * that clears a field's error as the user types, and the submit guard.
 */
module Login {
  import opened Text

  /** The form fields by input name, and the error messages by field name. */
  type Fields = map<string, string>
  type Errors = map<string, string>

  /** The form as it opens. */
  const InitialFields: Fields := map["username" := "", "password" := ""]

  /** The two fields every form state holds. */
  predicate HasCredentials(form: Fields) {
    "username" in form && "password" in form
  }

  /**
   * The errors `validateForm` records: the username when it trims to nothing, the password when it
   * is empty (it is not trimmed), and nothing else.
   */
  function ValidationErrors(form: Fields): (errors: Errors)
    requires HasCredentials(form)
    ensures "username" in errors <==> Trim(form["username"]) == ""
    ensures "password" in errors <==> form["password"] == ""
    ensures errors.Keys <= {"username", "password"}
    ensures "username" in errors ==> errors["username"] == "Username is required"
    ensures "password" in errors ==> errors["password"] == "Password is required"
  {
    var e: Errors := if Trim(form["username"]) == "" then map["username" := "Username is required"] else map[];
    if form["password"] == "" then e["password" := "Password is required"] else e
  }

  /** `validateForm`: fills `newErrors` one check at a time; true exactly when none was recorded. */
  method ValidateForm(form: Fields) returns (errors: Errors, valid: bool)
    requires HasCredentials(form)
    ensures errors == ValidationErrors(form)
    ensures valid <==> errors == map[]
  {
    errors := map[];
    if Trim(form["username"]) == "" {
      errors := errors["username" := "Username is required"];
    }
    if form["password"] == "" {
      errors := errors["password" := "Password is required"];
    }
    valid := |errors.Keys| == 0;
    assert valid <==> errors == map[] by {
      if errors != map[] {
        var k :| k in errors;
        assert k in errors.Keys;
      }
    }
  }

  /** The form passes validation exactly when the username has a non-blank character and the password is not empty. */
  lemma ValidIff(form: Fields)
    requires HasCredentials(form)
    ensures ValidationErrors(form) == map[] <==> !AllSpace(form["username"]) && form["password"] != ""
  {
    TrimEmptyIff(form["username"]);
    if "username" in ValidationErrors(form) {
      assert ValidationErrors(form) != map[];
    }
    if "password" in ValidationErrors(form) {
      assert ValidationErrors(form) != map[];
    }
  }

  /** `handleChange`: sets the named field and blanks that field's error when it has a message. */
  function HandleChange(form: Fields, errors: Errors, name: string, value: string): (r: (Fields, Errors))
    ensures r.0 == form[name := value]
    ensures name in errors && errors[name] != "" ==> r.1 == errors[name := ""]
    ensures !(name in errors && errors[name] != "") ==> r.1 == errors
  {
    (form[name := value], if name in errors && errors[name] != "" then errors[name := ""] else errors)
  }

  /** A change keeps every other field and every other error, and leaves the changed field without a message. */
  lemma ChangeTouchesOneField(form: Fields, errors: Errors, name: string, value: string, other: string)
    requires other != name
    ensures var (f, e) := HandleChange(form, errors, name, value);
      (other in f <==> other in form) && (other in form ==> f[other] == form[other]) &&
      (other in e <==> other in errors) && (other in errors ==> e[other] == errors[other]) &&
      (name in e ==> e[name] == "") && (HasCredentials(form) ==> HasCredentials(f))
  {
  }

  /** What a submit does: show the validation errors, or call `login` with the form. */
  datatype SubmitOutcome = ShowErrors(errors: Errors) | AttemptLogin(credentials: Fields)

  /** `handleSubmit`: login is attempted only when validation passes. */
  function HandleSubmit(form: Fields): (r: SubmitOutcome)
    requires HasCredentials(form)
    ensures r.AttemptLogin? <==> ValidationErrors(form) == map[]
    ensures r.AttemptLogin? ==> r.credentials == form
    ensures r.ShowErrors? ==> r.errors == ValidationErrors(form) && r.errors != map[]
  {
    if ValidationErrors(form) == map[] then AttemptLogin(form) else ShowErrors(ValidationErrors(form))
  }

  /** The form as it opens cannot be submitted, and reports both fields. */
  lemma InitialFormRefused()
    ensures HandleSubmit(InitialFields) == ShowErrors(map["username" := "Username is required", "password" := "Password is required"])
  {
    assert Trim("") == "";
  }

  /** A username of ideographic spaces (U+3000) alone is blank to `trim`, so the form reports it. */
  lemma BlankUnicodeUsernameRefused(password: string)
    ensures "username" in ValidationErrors(map["username" := "\U{3000}\U{3000}", "password" := password])
  {
    TrimEmptyIff("\U{3000}\U{3000}");
  }
}
