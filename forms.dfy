/**
 * The sign-in and registration forms, which the login and register pages
 * share: the two controls and their validators, the errors a control
 * reports, the message `getErrorMessage` picks for them, and the toasts a
 * submission shows.
 *
 * The validators are Angular's `Validators.required`, `Validators.email`,
 * `Validators.minLength` and `Validators.maxLength`, plus the pages' own
 * whitespace check. `Validators.email` tests a regular expression, which is
 * a parameter here (`isEmail`).
 */
module Forms {
  import opened Wrappers
  import opened Text
  import opened Domain

  /** What a validator reports under its key: `true`, or `{ requiredLength, actualLength }`. */
  datatype ErrorValue = Flag | Lengths(requiredLength: nat, actualLength: nat)

  /** A control's `errors` object. */
  type Errors = map<string, ErrorValue>

  /** The validators attached to one control. */
  datatype Rules = Rules(required: bool, email: bool, minLength: Option<nat>, maxLength: Option<nat>, noWhitespace: bool)

  /** `email`: required, an e-mail address, at most 100 characters, not only whitespace. */
  const EmailRules: Rules := Rules(true, true, None, Some(100), true)
  /** `password`: required, 6 to 30 characters, not only whitespace. */
  const PasswordRules: Rules := Rules(true, false, Some(6), Some(30), true)

  /** `null`, `undefined` or the empty string: the values Angular's validators treat as empty. */
  predicate EmptyInput(value: Option<string>) {
    value.None? || value.value == ""
  }

  /** `noWhitespaceValidator`: the value, or `''` when absent, trims to nothing. */
  function NoWhitespaceValidator(value: Option<string>): (flagged: bool)
    ensures flagged <==> value.None? || AllWhitespace(value.value)
  {
    TrimEmptyIff(value.GetOr(""));
    Trim(value.GetOr("")) == []
  }

  /** Whether the validator behind `key` reports an error for the value. */
  predicate Fails(rules: Rules, value: Option<string>, isEmail: string -> bool, key: string) {
    if key == "required" then rules.required && EmptyInput(value)
    else if key == "email" then rules.email && !EmptyInput(value) && !isEmail(value.value)
    else if key == "minlength" then
      rules.minLength.Some? && !EmptyInput(value) && |value.value| < rules.minLength.value
    else if key == "maxlength" then
      rules.maxLength.Some? && value.Some? && |value.value| > rules.maxLength.value
    else key == "whitespace" && rules.noWhitespace && NoWhitespaceValidator(value)
  }

  /** What the validator behind `key` reports: the limit and the actual length for the length checks, `true` otherwise. */
  function Detail(rules: Rules, value: Option<string>, key: string): ErrorValue {
    if key == "minlength" && rules.minLength.Some? && value.Some? then Lengths(rules.minLength.value, |value.value|)
    else if key == "maxlength" && rules.maxLength.Some? && value.Some? then Lengths(rules.maxLength.value, |value.value|)
    else Flag
  }

  /** The errors of each validator, merged; `null` when none reports one. */
  function ControlErrors(rules: Rules, value: Option<string>, isEmail: string -> bool): (errs: Option<Errors>)
    ensures errs.Some? ==> errs.value != map[]
    ensures errs.Some? ==> forall k :: k in errs.value ==> k in ErrorKeys
    ensures ("required" in errs.GetOr(map[])) <==> rules.required && EmptyInput(value)
    ensures ("email" in errs.GetOr(map[])) <==> rules.email && !EmptyInput(value) && !isEmail(value.value)
    ensures ("minlength" in errs.GetOr(map[])) <==>
              rules.minLength.Some? && !EmptyInput(value) && |value.value| < rules.minLength.value
    ensures ("maxlength" in errs.GetOr(map[])) <==>
              rules.maxLength.Some? && value.Some? && |value.value| > rules.maxLength.value
    ensures ("whitespace" in errs.GetOr(map[])) <==> rules.noWhitespace && NoWhitespaceValidator(value)
    ensures "minlength" in errs.GetOr(map[]) ==>
              errs.value["minlength"] == Lengths(rules.minLength.value, |value.value|)
    ensures "maxlength" in errs.GetOr(map[]) ==>
              errs.value["maxlength"] == Lengths(rules.maxLength.value, |value.value|)
  {
    var all := AllErrors(rules, value, isEmail);
    RequiredReported(rules, value, isEmail);
    EmailReported(rules, value, isEmail);
    MinLengthReported(rules, value, isEmail);
    MaxLengthReported(rules, value, isEmail);
    WhitespaceReported(rules, value, isEmail);
    if all == map[] then None else Some(all)
  }

  /** Every key whose validator fails, with what that validator reports. */
  function AllErrors(rules: Rules, value: Option<string>, isEmail: string -> bool): (all: Errors)
    ensures forall k :: k in all ==> k in ErrorKeys
  {
    map k | k in ErrorKeys && Fails(rules, value, isEmail, k) :: Detail(rules, value, k)
  }

  lemma RequiredReported(rules: Rules, value: Option<string>, isEmail: string -> bool)
    ensures "required" in AllErrors(rules, value, isEmail) <==> rules.required && EmptyInput(value)
  {
    assert ErrorKeys[0] == "required";
  }

  lemma EmailReported(rules: Rules, value: Option<string>, isEmail: string -> bool)
    ensures "email" in AllErrors(rules, value, isEmail) <==> rules.email && !EmptyInput(value) && !isEmail(value.value)
  {
    assert ErrorKeys[1] == "email";
  }

  lemma MinLengthReported(rules: Rules, value: Option<string>, isEmail: string -> bool)
    ensures "minlength" in AllErrors(rules, value, isEmail) <==>
              rules.minLength.Some? && !EmptyInput(value) && |value.value| < rules.minLength.value
    ensures "minlength" in AllErrors(rules, value, isEmail) ==>
              AllErrors(rules, value, isEmail)["minlength"] == Lengths(rules.minLength.value, |value.value|)
  {
    assert ErrorKeys[2] == "minlength";
  }

  lemma MaxLengthReported(rules: Rules, value: Option<string>, isEmail: string -> bool)
    ensures "maxlength" in AllErrors(rules, value, isEmail) <==>
              rules.maxLength.Some? && value.Some? && |value.value| > rules.maxLength.value
    ensures "maxlength" in AllErrors(rules, value, isEmail) ==>
              AllErrors(rules, value, isEmail)["maxlength"] == Lengths(rules.maxLength.value, |value.value|)
  {
    assert ErrorKeys[3] == "maxlength";
  }

  lemma WhitespaceReported(rules: Rules, value: Option<string>, isEmail: string -> bool)
    ensures "whitespace" in AllErrors(rules, value, isEmail) <==> rules.noWhitespace && NoWhitespaceValidator(value)
  {
    assert ErrorKeys[4] == "whitespace";
  }

  /** An e-mail value passes exactly when it is a non-blank address of at most 100 characters. */
  lemma EmailControlValid(v: string, isEmail: string -> bool)
    ensures ControlErrors(EmailRules, Some(v), isEmail).None? <==>
              v != "" && isEmail(v) && |v| <= 100 && !AllWhitespace(v)
  {
  }

  /** A password passes exactly when it has 6 to 30 characters, not all of them whitespace. */
  lemma PasswordControlValid(v: string, isEmail: string -> bool)
    ensures ControlErrors(PasswordRules, Some(v), isEmail).None? <==> 6 <= |v| <= 30 && !AllWhitespace(v)
  {
  }

  /** The keys `getErrorMessage` looks at, in the order it looks at them. */
  const ErrorKeys: seq<string> := ["required", "email", "minlength", "maxlength", "whitespace"]

  const EmailRequiredMessage: string := "El correo es obligatorio"
  const PasswordRequiredMessage: string := "La contraseña es obligatoria"
  const EmailFormatMessage: string := "Formato de correo inválido"
  const WhitespaceMessage: string := "No puede contener solo espacios"
  const InvalidFieldMessage: string := "Campo inválido"

  /** `${v.requiredLength}`: the length, or `undefined` when the value is a bare `true`. */
  function RequiredLengthText(v: ErrorValue): (s: string)
    ensures s != ""
    ensures v.Lengths? <==> forall i :: 0 <= i < |s| ==> IsDigit(s[i])
    ensures v.Lengths? ==> s == NatToString(v.requiredLength)
  {
    match v
    case Lengths(n, _) => NatToString(n)
    case Flag => assert !IsDigit("undefined"[0]); "undefined"
  }

  /** The text names the limit: two length errors with the same text carry the same required length. */
  lemma RequiredLengthTextNamesLimit(u: ErrorValue, v: ErrorValue)
    requires u.Lengths? && v.Lengths?
    requires RequiredLengthText(u) == RequiredLengthText(v)
    ensures u.requiredLength == v.requiredLength
  {
    NatToStringInjective(u.requiredLength, v.requiredLength);
  }

  /** The message for a control's errors: the first reported key in `ErrorKeys` decides it; no errors, no message. */
  function ErrorMessage(controlName: string, errs: Option<Errors>): (msg: string)
    ensures msg == "" <==> errs.None?
    ensures errs.Some? && "required" in errs.value ==>
              msg == (if controlName == "email" then EmailRequiredMessage else PasswordRequiredMessage)
  {
    if errs.None? then ""
    else
      var m := errs.value;
      if "required" in m then
        (if controlName == "email" then EmailRequiredMessage else PasswordRequiredMessage)
      else if "email" in m then EmailFormatMessage
      else if "minlength" in m then "Debe tener al menos " + RequiredLengthText(m["minlength"]) + " caracteres"
      else if "maxlength" in m then "No puede superar " + RequiredLengthText(m["maxlength"]) + " caracteres"
      else if "whitespace" in m then WhitespaceMessage
      else InvalidFieldMessage
  }

  /** A key reported after an earlier one in `ErrorKeys` never changes the message. */
  lemma {:induction false} LaterErrorIsHidden(controlName: string, m: Errors, i: nat, j: nat, v: ErrorValue)
    requires i < j < |ErrorKeys| && ErrorKeys[i] in m
    ensures ErrorMessage(controlName, Some(m[ErrorKeys[j] := v])) == ErrorMessage(controlName, Some(m))
  {
    var m' := m[ErrorKeys[j] := v];
    var k := ErrorKeys[j];
    forall l | 0 <= l < j ensures (ErrorKeys[l] in m') == (ErrorKeys[l] in m) {
      assert ErrorKeys[l] != k;
    }
    assert "required" in m' <==> "required" in m by { assert ErrorKeys[0] == "required"; }
    if j > 1 {
      assert "email" in m' <==> "email" in m by { assert ErrorKeys[1] == "email"; }
    }
    if j > 2 {
      assert ("minlength" in m' <==> "minlength" in m) by { assert ErrorKeys[2] == "minlength"; }
      assert "minlength" in m ==> m'["minlength"] == m["minlength"];
    }
    if j > 3 {
      assert ("maxlength" in m' <==> "maxlength" in m) by { assert ErrorKeys[3] == "maxlength"; }
      assert "maxlength" in m ==> m'["maxlength"] == m["maxlength"];
    }
  }

  /** The values of the two controls. */
  datatype FormValues = FormValues(email: string, password: string)

  /** The form `ngOnInit` builds: both controls start empty. */
  const InitialForm: FormValues := FormValues("", "")

  /** `form.get(controlName).errors`; a control the form does not have has none. */
  function FieldErrors(form: FormValues, controlName: string, isEmail: string -> bool): (errs: Option<Errors>)
    ensures controlName != "email" && controlName != "password" ==> errs.None?
  {
    if controlName == "email" then ControlErrors(EmailRules, Some(form.email), isEmail)
    else if controlName == "password" then ControlErrors(PasswordRules, Some(form.password), isEmail)
    else None
  }

  /** `getErrorMessage`: the message for one control of the form. */
  function GetErrorMessage(form: FormValues, controlName: string, isEmail: string -> bool): (msg: string)
    ensures msg == "" <==> FieldErrors(form, controlName, isEmail).None?
    ensures controlName != "email" && controlName != "password" ==> msg == ""
  {
    ErrorMessage(controlName, FieldErrors(form, controlName, isEmail))
  }

  /** `form.invalid`: some control reports an error. */
  predicate FormInvalid(form: FormValues, isEmail: string -> bool) {
    FieldErrors(form, "email", isEmail).Some? || FieldErrors(form, "password", isEmail).Some?
  }

  /** The submit guard and the messages agree: the form is invalid exactly when one of its controls shows a message. */
  lemma FormInvalidIffMessage(form: FormValues, isEmail: string -> bool)
    ensures FormInvalid(form, isEmail) <==>
              GetErrorMessage(form, "email", isEmail) != "" || GetErrorMessage(form, "password", isEmail) != ""
  {
  }

  /** The form is valid exactly when the e-mail is a non-blank address of at most 100 characters and the password a non-blank 6 to 30 characters. */
  lemma FormValidIff(form: FormValues, isEmail: string -> bool)
    ensures !FormInvalid(form, isEmail) <==>
              form.email != "" && isEmail(form.email) && |form.email| <= 100 && !AllWhitespace(form.email)
              && 6 <= |form.password| <= 30 && !AllWhitespace(form.password)
  {
    EmailControlValid(form.email, isEmail);
    PasswordControlValid(form.password, isEmail);
  }

  /** The freshly built form is invalid, and each control asks to be filled in. */
  lemma InitialFormMessages(isEmail: string -> bool)
    ensures FormInvalid(InitialForm, isEmail)
    ensures GetErrorMessage(InitialForm, "email", isEmail) == EmailRequiredMessage
    ensures GetErrorMessage(InitialForm, "password", isEmail) == PasswordRequiredMessage
  {
    assert "required" in ControlErrors(EmailRules, Some(""), isEmail).GetOr(map[]);
    assert "required" in ControlErrors(PasswordRules, Some(""), isEmail).GetOr(map[]);
  }

  /** A short blank password is reported by its length, not as blank: the length check comes first. */
  lemma ShortBlankPasswordMessage(v: string, isEmail: string -> bool)
    requires v != "" && |v| < 6 && AllWhitespace(v)
    ensures GetErrorMessage(FormValues("", v), "password", isEmail) == "Debe tener al menos 6 caracteres"
  {
    var errs := ControlErrors(PasswordRules, Some(v), isEmail);
    assert "minlength" in errs.GetOr(map[]);
    assert !("required" in errs.value) && !("email" in errs.value);
    MinLengthOnlyMessage("password", errs.value, |v|);
  }

  /** Errors whose first reported key is `minlength` of limit 6 give the 6-character message. */
  lemma MinLengthOnlyMessage(controlName: string, m: Errors, actual: nat)
    requires "minlength" in m && m["minlength"] == Lengths(6, actual)
    requires "required" !in m && "email" !in m
    ensures ErrorMessage(controlName, Some(m)) == "Debe tener al menos 6 caracteres"
  {
    assert RequiredLengthText(m["minlength"]) == "6";
  }

  /** A blank password of an allowed length is reported as blank. */
  lemma BlankPasswordMessage(v: string, isEmail: string -> bool)
    requires 6 <= |v| <= 30 && AllWhitespace(v)
    ensures GetErrorMessage(FormValues("", v), "password", isEmail) == WhitespaceMessage
  {
    var errs := ControlErrors(PasswordRules, Some(v), isEmail);
    assert "whitespace" in errs.GetOr(map[]);
  }

  /** A password over 30 characters is reported by its limit. */
  lemma LongPasswordMessage(v: string, isEmail: string -> bool)
    requires |v| > 30
    ensures GetErrorMessage(FormValues("", v), "password", isEmail) == "No puede superar 30 caracteres"
  {
    var errs := ControlErrors(PasswordRules, Some(v), isEmail);
    assert "maxlength" in errs.GetOr(map[]);
    MaxLengthOnlyMessage("password", errs.value, |v|);
  }

  /** Errors whose first reported key is `maxlength` of limit 30 give the 30-character message. */
  lemma MaxLengthOnlyMessage(controlName: string, m: Errors, actual: nat)
    requires "maxlength" in m && m["maxlength"] == Lengths(30, actual)
    requires "required" !in m && "email" !in m && "minlength" !in m
    ensures ErrorMessage(controlName, Some(m)) == "No puede superar 30 caracteres"
  {
    assert NatToString(3) == "3";
    assert RequiredLengthText(m["maxlength"]) == "30";
  }

  /** An e-mail value the address pattern rejects gets the format message, whatever the password. */
  lemma BadEmailMessage(v: string, password: string, isEmail: string -> bool)
    requires v != "" && !isEmail(v)
    ensures GetErrorMessage(FormValues(v, password), "email", isEmail) == EmailFormatMessage
  {
    var errs := ControlErrors(EmailRules, Some(v), isEmail);
    assert "email" in errs.GetOr(map[]);
  }

  /** An address over 100 characters is reported by its limit. */
  lemma LongEmailMessage(v: string, password: string, isEmail: string -> bool)
    requires |v| > 100 && isEmail(v)
    ensures GetErrorMessage(FormValues(v, password), "email", isEmail) == "No puede superar 100 caracteres"
  {
    var errs := ControlErrors(EmailRules, Some(v), isEmail);
    assert "maxlength" in errs.GetOr(map[]);
    MaxLength100Message("email", errs.value, |v|);
  }

  /** Errors whose first reported key is `maxlength` of limit 100 give the 100-character message. */
  lemma MaxLength100Message(controlName: string, m: Errors, actual: nat)
    requires "maxlength" in m && m["maxlength"] == Lengths(100, actual)
    requires "required" !in m && "email" !in m && "minlength" !in m
    ensures ErrorMessage(controlName, Some(m)) == "No puede superar 100 caracteres"
  {
    assert NatToString(1) == "1";
    assert NatToString(10) == "10";
    assert RequiredLengthText(m["maxlength"]) == "100";
  }

  /** The catch-all `'Campo inválido'` is never shown: every error a control reports has a message of its own. */
  lemma NoCatchAllMessage(rules: Rules, value: Option<string>, isEmail: string -> bool, controlName: string)
    ensures ErrorMessage(controlName, ControlErrors(rules, value, isEmail)) != InvalidFieldMessage
  {
    var errs := ControlErrors(rules, value, isEmail);
    if errs.Some? {
      var k :| k in errs.value;
      assert k in ErrorKeys;
    }
  }

  /** A toast: its text and its colour. */
  datatype Toast = Toast(message: string, color: string)

  /** The toast for submitting an invalid form. */
  const InvalidFormToast: Toast := Toast("Por favor corrige los errores antes de continuar", "danger")

  /** `error.message || fallback`, shown in red. */
  function FailureToast(e: Thrown, fallback: string): (t: Toast)
    ensures t.color == "danger"
    ensures e.ErrorObject? && e.message != "" ==> t.message == e.message
    ensures !(e.ErrorObject? && e.message != "") ==> t.message == fallback
  {
    Toast(if e.ErrorObject? && e.message != "" then e.message else fallback, "danger")
  }
}
