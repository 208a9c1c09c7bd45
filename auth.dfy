/**
 * The authentication page of pages/auth.tsx: per-field rule tables, the
 * first-failing-rule message, live validation on every keystroke, whole-form
 * validation before submit, and the mapping of provider error codes to
 * messages. The login/signup provider and the router are outside the model:
 * the provider's outcome is a parameter and the calls made are returned.
 */
module Auth {
  import opened Wrappers
  import opened JsBuiltins
  import opened Validation

  datatype Field = EmailField | PasswordField | UsernameField | ConfirmPasswordField

  /** One row of a rule table: `{ value, message }` under a rule's key. */
  datatype Entry = Entry(rule: Rule, message: string)

  const RequiredMessage := "Ce champ est requis"

  const EmailRules: seq<Entry> := [
    Entry(Required(true), RequiredMessage),
    Entry(Email(true), "Email invalide")
  ]

  const PasswordRules: seq<Entry> := [
    Entry(Required(true), RequiredMessage),
    Entry(MinLength(8), "Minimum 8 caractères requis"),
    Entry(HasUpperCase(true), "Au moins une majuscule requise"),
    Entry(HasLowerCase(true), "Au moins une minuscule requise"),
    Entry(HasSpecialChar(true), "Au moins un caractère spécial requis (!@#$%^&*(),.?\":{}|<>)")
  ]

  const UsernameRules: seq<Entry> := [
    Entry(Required(true), RequiredMessage),
    Entry(MinLength(3), "Minimum 3 caractères requis"),
    Entry(MaxLength(20), "Maximum 20 caractères autorisés")
  ]

  const ConfirmPasswordRules: seq<Entry> := [
    Entry(Required(true), RequiredMessage)
  ]

  const MismatchMessage := "Les mots de passe ne correspondent pas"

  /** `validationRules[field]` */
  function Table(f: Field): seq<Entry> {
    match f
    case EmailField => EmailRules
    case PasswordField => PasswordRules
    case UsernameField => UsernameRules
    case ConfirmPasswordField => ConfirmPasswordRules
  }

  function RulesOf(table: seq<Entry>): (rules: seq<Rule>)
    ensures |rules| == |table| && forall i | 0 <= i < |table| :: rules[i] == table[i].rule
  {
    if table == [] then [] else [table[0].rule] + RulesOf(table[1..])
  }

  /** The `validationObject`: `Object.fromEntries` over the table's `[key, rule.value]` pairs. */
  function Record(table: seq<Entry>): RuleSet {
    FromEntries(RulesOf(table))
  }

  /** Every row of `table` holds for `value`, taken row by row. */
  predicate RowsHold(value: string, table: seq<Entry>) {
    table == [] || (Holds(value, table[0].rule) && RowsHold(value, table[1..]))
  }

  lemma {:induction false} RowsHoldAll(value: string, table: seq<Entry>)
    ensures RowsHold(value, table) <==> forall i | 0 <= i < |table| :: Holds(value, table[i].rule)
    decreases |table|
  {
    if table != [] {
      RowsHoldAll(value, table[1..]);
      assert forall i | 0 < i < |table| :: table[i] == table[1..][i - 1];
    }
  }

  /** Every rule of the field's table holds for `value`. */
  predicate FieldPasses(f: Field, value: string) {
    RowsHold(value, Table(f))
  }

  /**
   * `getErrorMessage` on a value: the message of the first row whose
   * single-rule record rejects the value, or '' when none does.
   */
  function FirstFailure(value: string, table: seq<Entry>): (message: string)
    ensures (forall i | 0 <= i < |table| :: Holds(value, table[i].rule)) ==> message == ""
    ensures (exists i | 0 <= i < |table| :: !Holds(value, table[i].rule)) ==>
      exists i | 0 <= i < |table| ::
        && !Holds(value, table[i].rule)
        && (forall j | 0 <= j < i :: Holds(value, table[j].rule))
        && message == table[i].message
  {
    SingleRule(value, if table == [] then Required(false) else table[0].rule);
    if table == [] then ""
    else if !Passes(value, Single(table[0].rule)) then table[0].message
    else
      var rest := FirstFailure(value, table[1..]);
      assert forall i | 0 < i < |table| :: table[i] == table[1..][i - 1];
      rest
  }

  /** `getErrorMessage(fieldName, rules)` as a loop with an early return. */
  method GetErrorMessage(value: string, table: seq<Entry>) returns (message: string)
    ensures message == FirstFailure(value, table)
  {
    var i := 0;
    while i < |table|
      invariant 0 <= i <= |table|
      invariant FirstFailure(value, table) == FirstFailure(value, table[i..])
    {
      var ok := CheckValidity(value, Single(table[i].rule));
      if !ok {
        return table[i].message;
      }
      assert table[i..][1..] == table[i + 1..];
      i := i + 1;
    }
    return "";
  }

  /** No table repeats a key, and every row carries a message. */
  lemma TablesWellFormed(f: Field)
    ensures DistinctKeys(RulesOf(Table(f)))
    ensures forall i | 0 <= i < |Table(f)| :: Table(f)[i].message != ""
  {
    match f
    case EmailField => EmailTableWellFormed();
    case PasswordField => PasswordTableWellFormed();
    case UsernameField => UsernameTableWellFormed();
    case ConfirmPasswordField => assert RulesOf(ConfirmPasswordRules) == [Required(true)];
  }

  lemma EmailTableWellFormed()
    ensures DistinctKeys(RulesOf(EmailRules))
    ensures forall i | 0 <= i < |EmailRules| :: EmailRules[i].message != ""
  {
    var rs := RulesOf(EmailRules);
    assert Key(rs[0]) == 0 && Key(rs[1]) == 3;
  }

  lemma PasswordTableWellFormed()
    ensures DistinctKeys(RulesOf(PasswordRules))
    ensures forall i | 0 <= i < |PasswordRules| :: PasswordRules[i].message != ""
  {
    var rs := RulesOf(PasswordRules);
    assert Key(rs[0]) == 0 && Key(rs[1]) == 1 && Key(rs[2]) == 4 && Key(rs[3]) == 5 && Key(rs[4]) == 6;
    AscendingKeysDistinct(rs);
  }

  lemma UsernameTableWellFormed()
    ensures DistinctKeys(RulesOf(UsernameRules))
    ensures forall i | 0 <= i < |UsernameRules| :: UsernameRules[i].message != ""
  {
    var rs := RulesOf(UsernameRules);
    assert Key(rs[0]) == 0 && Key(rs[1]) == 1 && Key(rs[2]) == 2;
    AscendingKeysDistinct(rs);
  }

  /**
   * For every field table, the full-table check fails exactly when the
   * first-failure message is non-empty.
   */
  lemma InvalidIffMessage(f: Field, value: string)
    ensures !FieldPasses(f, value) <==> FirstFailure(value, Table(f)) != ""
  {
    TablesWellFormed(f);
    RowsHoldAll(value, Table(f));
  }

  /**
   * `checkValidity(value, validationObject)` on the field's whole record
   * accepts exactly the values every row of the table accepts.
   */
  lemma FieldCheck(f: Field, value: string)
    ensures Passes(value, Record(Table(f))) <==> FieldPasses(f, value)
  {
    TablesWellFormed(f);
    TablePasses(value, RulesOf(Table(f)));
    RowsHoldAll(value, Table(f));
  }

  // ---------------------------------------------------------------------
  // The form
  // ---------------------------------------------------------------------

  /** `formData` */
  datatype FormData = FormData(email: string, password: string, username: string, confirmPassword: string) {
    function Get(f: Field): string {
      match f
      case EmailField => email
      case PasswordField => password
      case UsernameField => username
      case ConfirmPasswordField => confirmPassword
    }

    /** `{ ...prev, [name]: value }` */
    function Set(f: Field, value: string): (d: FormData)
      ensures d.Get(f) == value
      ensures forall g | g != f :: d.Get(g) == Get(g)
    {
      match f
      case EmailField => this.(email := value)
      case PasswordField => this.(password := value)
      case UsernameField => this.(username := value)
      case ConfirmPasswordField => this.(confirmPassword := value)
    }
  }

  /** `fieldsToValidate` */
  function FieldsToValidate(isLogin: bool): seq<Field> {
    if isLogin then [EmailField, PasswordField] else [EmailField, PasswordField, UsernameField]
  }

  /**
   * When the form may be submitted: email and password pass their tables,
   * and in signup mode the username passes too and the passwords match.
   */
  predicate FormValid(isLogin: bool, data: FormData) {
    && FieldPasses(EmailField, data.email)
    && FieldPasses(PasswordField, data.password)
    && (!isLogin ==> FieldPasses(UsernameField, data.username) && data.password == data.confirmPassword)
  }

  /** `FormValid` as the loop of `validateForm` computes it. */
  lemma FormValidByFields(isLogin: bool, data: FormData)
    ensures FormValid(isLogin, data) <==>
      (forall j | 0 <= j < |FieldsToValidate(isLogin)| :: FieldPasses(FieldsToValidate(isLogin)[j], data.Get(FieldsToValidate(isLogin)[j])))
      && (!isLogin ==> data.password == data.confirmPassword)
  {
    var fields := FieldsToValidate(isLogin);
    assert fields[0] == EmailField && fields[1] == PasswordField;
    assert !isLogin ==> fields[2] == UsernameField;
  }

  /** The `newErrors` map after the `forEach` over `fields`. */
  function FieldErrors(fields: seq<Field>, data: FormData): map<Field, string> {
    if fields == [] then map[]
    else
      var errors := FieldErrors(fields[..|fields| - 1], data);
      var f := fields[|fields| - 1];
      if FieldPasses(f, data.Get(f)) then errors
      else errors[f := FirstFailure(data.Get(f), Table(f))]
  }

  /** One more field checked: its message is added when it fails. */
  lemma FieldErrorsStep(fields: seq<Field>, i: nat, data: FormData)
    requires i < |fields|
    ensures FieldErrors(fields[..i + 1], data) ==
      if FieldPasses(fields[i], data.Get(fields[i])) then FieldErrors(fields[..i], data)
      else FieldErrors(fields[..i], data)[fields[i] := FirstFailure(data.Get(fields[i]), Table(fields[i]))]
  {
    assert fields[..i + 1][..i] == fields[..i];
  }

  /** The error map `validateForm` installs. */
  function FormErrors(isLogin: bool, data: FormData): map<Field, string> {
    var errors := FieldErrors(FieldsToValidate(isLogin), data);
    if !isLogin && data.password != data.confirmPassword then errors[ConfirmPasswordField := MismatchMessage]
    else errors
  }

  lemma {:induction false} FieldErrorsKeys(fields: seq<Field>, data: FormData)
    ensures forall f :: f in FieldErrors(fields, data) <==> f in fields && !FieldPasses(f, data.Get(f))
    ensures forall f | f in FieldErrors(fields, data) :: FieldErrors(fields, data)[f] == FirstFailure(data.Get(f), Table(f))
    decreases |fields|
  {
    if fields != [] {
      var init := fields[..|fields| - 1];
      FieldErrorsKeys(init, data);
      assert fields == init + [fields[|fields| - 1]];
    }
  }

  /**
   * The error map after `validateForm` names exactly the failing fields of
   * the mode, plus `confirmPassword` on a signup mismatch; in login mode it
   * never names username or confirmPassword.
   */
  lemma FormErrorsKeys(isLogin: bool, data: FormData)
    ensures forall f :: f in FormErrors(isLogin, data) <==>
      (f in FieldsToValidate(isLogin) && !FieldPasses(f, data.Get(f)))
      || (f == ConfirmPasswordField && !isLogin && data.password != data.confirmPassword)
    ensures isLogin ==> UsernameField !in FormErrors(isLogin, data) && ConfirmPasswordField !in FormErrors(isLogin, data)
  {
    FieldErrorsKeys(FieldsToValidate(isLogin), data);
    assert ConfirmPasswordField !in FieldsToValidate(isLogin);
    assert isLogin ==> UsernameField !in FieldsToValidate(isLogin);
  }

  /**
   * Each failing field carries its first-failure message, which is never
   * empty; a mismatch carries the fixed mismatch message.
   */
  lemma FormErrorsMessages(isLogin: bool, data: FormData)
    ensures forall f | f in FormErrors(isLogin, data) && f != ConfirmPasswordField ::
      FormErrors(isLogin, data)[f] == FirstFailure(data.Get(f), Table(f)) != ""
    ensures ConfirmPasswordField in FormErrors(isLogin, data) ==> FormErrors(isLogin, data)[ConfirmPasswordField] == MismatchMessage
  {
    var errors := FieldErrors(FieldsToValidate(isLogin), data);
    FieldErrorsKeys(FieldsToValidate(isLogin), data);
    FieldErrorsMessages(FieldsToValidate(isLogin), data);
    assert ConfirmPasswordField !in FieldsToValidate(isLogin);
    assert ConfirmPasswordField !in errors;
    forall f | f in FormErrors(isLogin, data) && f != ConfirmPasswordField
      ensures f in errors && FormErrors(isLogin, data)[f] == errors[f]
    {
    }
  }

  /** Over any list of fields, each recorded message is the field's first failure and is not empty. */
  lemma FieldErrorsMessages(fields: seq<Field>, data: FormData)
    ensures forall f | f in FieldErrors(fields, data) ::
      FieldErrors(fields, data)[f] == FirstFailure(data.Get(f), Table(f)) != ""
  {
    FieldErrorsKeys(fields, data);
    forall f | f in FieldErrors(fields, data) ensures FirstFailure(data.Get(f), Table(f)) != "" {
      InvalidIffMessage(f, data.Get(f));
    }
  }

  /** `validateForm` returns true exactly when it leaves the error map empty. */
  lemma ValidIffNoErrors(isLogin: bool, data: FormData)
    ensures FormValid(isLogin, data) <==> FormErrors(isLogin, data) == map[]
  {
    var fields := FieldsToValidate(isLogin);
    var errors := FormErrors(isLogin, data);
    FormErrorsKeys(isLogin, data);
    FormValidByFields(isLogin, data);
    if errors == map[] {
      forall j | 0 <= j < |fields| ensures FieldPasses(fields[j], data.Get(fields[j])) {
        assert fields[j] !in errors;
      }
    } else {
      var f :| f in errors;
      if f != ConfirmPasswordField || isLogin || data.password == data.confirmPassword {
        var j :| 0 <= j < |fields| && fields[j] == f;
        assert !FieldPasses(fields[j], data.Get(fields[j]));
      }
    }
  }

  // ---------------------------------------------------------------------
  // Live validation and the provider errors
  // ---------------------------------------------------------------------

  /**
   * The error `handleChange` records for the changed field, as written: the
   * verdict is taken on the new value but the message on the value the field
   * held before the keystroke (the stale `formData` that `getErrorMessage`
   * reads).
   */
  function ChangedError(f: Field, before: string, after: string): (message: string)
    ensures message != "" ==> !FieldPasses(f, after) && !FieldPasses(f, before)
    ensures message == "" <==> FieldPasses(f, after) || FieldPasses(f, before)
  {
    InvalidIffMessage(f, before);
    if FieldPasses(f, after) then "" else FirstFailure(before, Table(f))
  }

  /** The error the live check evidently means to show: the first failure of the new value. */
  function IntendedChangedError(f: Field, after: string): (message: string)
    ensures message == "" <==> FieldPasses(f, after)
    ensures message != "" ==> exists i | 0 <= i < |Table(f)| :: message == Table(f)[i].message && !Holds(after, Table(f)[i].rule)
  {
    InvalidIffMessage(f, after);
    FirstFailure(after, Table(f))
  }

  /** "Abcdefgh!" meets each password rule. */
  lemma GoodPasswordRows()
    ensures forall j | 0 <= j < 5 :: Holds("Abcdefgh!", PasswordRules[j].rule)
  {
    var good := "Abcdefgh!";
    assert good[0] == 'A' && good[1] == 'b' && good[8] == '!';
    assert !IsWhitespace(good[0]);
    assert HasCharIn(good, Upper) && HasCharIn(good, Lower) && HasCharIn(good, Special);
  }

  /** "Abcdefgh!" meets every password rule. */
  lemma GoodPasswordPasses()
    ensures FieldPasses(PasswordField, "Abcdefgh!")
  {
    GoodPasswordRows();
    RowsHoldAll("Abcdefgh!", PasswordRules);
  }

  /** The message is the one of the first row that fails. */
  lemma FirstFailureAt(value: string, table: seq<Entry>, k: nat)
    requires k < |table| && !Holds(value, table[k].rule)
    requires forall j | 0 <= j < k :: Holds(value, table[j].rule)
    ensures FirstFailure(value, table) == table[k].message
  {
    var i :| 0 <= i < |table| && !Holds(value, table[i].rule)
      && (forall j | 0 <= j < i :: Holds(value, table[j].rule))
      && FirstFailure(value, table) == table[i].message;
    assert i == k;
  }

  /** "Abcdefgh" meets the first four password rules and not the special-character rule. */
  lemma BadPasswordRows()
    ensures forall j | 0 <= j < 4 :: Holds("Abcdefgh", PasswordRules[j].rule)
    ensures !Holds("Abcdefgh", PasswordRules[4].rule)
  {
    var bad := "Abcdefgh";
    assert !HasCharIn(bad, Special) by {
      forall i | 0 <= i < |bad| ensures !InClass(bad[i], Special) {
        assert 'A' <= bad[i] <= 'Z' || 'a' <= bad[i] <= 'z';
        LettersAreNotSpecial(bad[i]);
      }
    }
    assert bad[0] == 'A' && bad[1] == 'b';
    assert !IsWhitespace(bad[0]);
    assert HasCharIn(bad, Upper) && HasCharIn(bad, Lower);
  }

  /** "Abcdefgh" has no special character, and that is its first failing password rule. */
  lemma BadPasswordFails()
    ensures !FieldPasses(PasswordField, "Abcdefgh")
    ensures FirstFailure("Abcdefgh", Table(PasswordField)) == PasswordRules[4].message
  {
    BadPasswordRows();
    RowsHoldAll("Abcdefgh", PasswordRules);
    FirstFailureAt("Abcdefgh", PasswordRules, 4);
  }

  /**
   * A keystroke that makes a valid password invalid leaves no message:
   * "Abcdefgh!" passes every password rule, "Abcdefgh" lacks a special
   * character, and the message is looked up on the old value.
   */
  lemma StaleMessageExample()
    ensures FieldPasses(PasswordField, "Abcdefgh!")
    ensures !FieldPasses(PasswordField, "Abcdefgh")
    ensures ChangedError(PasswordField, "Abcdefgh!", "Abcdefgh") == ""
    ensures IntendedChangedError(PasswordField, "Abcdefgh") == Table(PasswordField)[4].message
  {
    GoodPasswordPasses();
    BadPasswordFails();
    InvalidIffMessage(PasswordField, "Abcdefgh!");
  }

  /** The message shown for a provider error `code`. */
  function AuthErrorMessage(code: string): (message: string)
    ensures message != ""
  {
    if code == "auth/wrong-password" then "Mot de passe incorrect"
    else if code == "auth/user-not-found" then "Utilisateur non trouvé"
    else if code == "auth/email-already-in-use" then "Email déjà utilisé"
    else GenericErrorMessage
  }

  const GenericErrorMessage := "Une erreur est survenue. Veuillez réessayer."

  /**
   * The three known codes have three distinct messages of their own; every
   * other code, and only those, gets the generic message.
   */
  lemma AuthErrorMessages(code: string)
    ensures AuthErrorMessage("auth/wrong-password") == "Mot de passe incorrect"
    ensures AuthErrorMessage("auth/user-not-found") == "Utilisateur non trouvé"
    ensures AuthErrorMessage("auth/email-already-in-use") == "Email déjà utilisé"
    ensures AuthErrorMessage(code) == GenericErrorMessage <==>
      code !in {"auth/wrong-password", "auth/user-not-found", "auth/email-already-in-use"}
  {
  }

  /** Which provider call `handleSubmit` made. */
  datatype ProviderCall =
    | NoCall
    | Login(email: string, password: string)
    | Signup(email: string, password: string, username: string)

  /**
   * The `forEach` callback of `validateForm` for one field: the verdict of
   * the whole record, and the error map with the field's first-failure
   * message added when the verdict is negative.
   */
  method ValidateField(f: Field, data: FormData, errors: map<Field, string>) returns (valid: bool, newErrors: map<Field, string>)
    ensures valid <==> FieldPasses(f, data.Get(f))
    ensures valid ==> newErrors == errors
    ensures !valid ==> newErrors == errors[f := FirstFailure(data.Get(f), Table(f))] && newErrors[f] != ""
  {
    valid := CheckValidity(data.Get(f), Record(Table(f)));
    FieldCheck(f, data.Get(f));
    newErrors := errors;
    if !valid {
      var message := GetErrorMessage(data.Get(f), Table(f));
      InvalidIffMessage(f, data.Get(f));
      newErrors := newErrors[f := message];
    }
  }

  /** The component state of the page. */
  class AuthPage {
    var isLogin: bool
    var formData: FormData
    var error: string
    var validationErrors: map<Field, string>
    var isLoading: bool

    constructor ()
      ensures isLogin && formData == FormData("", "", "", "")
      ensures error == "" && validationErrors == map[] && !isLoading
    {
      isLogin := true;
      formData := FormData("", "", "", "");
      error := "";
      validationErrors := map[];
      isLoading := false;
    }

    /** The "Connexion" / "Inscription" buttons. */
    method SelectMode(login: bool)
      modifies this`isLogin
      ensures isLogin == login
    {
      isLogin := login;
    }

    /** `handleChange`: store the value, then re-validate that one field. */
    method HandleChange(name: Field, value: string)
      modifies this`formData, this`validationErrors
      ensures formData == old(formData).Set(name, value)
      ensures validationErrors == old(validationErrors)[name := ChangedError(name, old(formData).Get(name), value)]
      ensures FieldPasses(name, value) ==> validationErrors[name] == ""
    {
      var before := formData.Get(name);
      formData := formData.Set(name, value);
      var isValid := CheckValidity(value, Record(Table(name)));
      FieldCheck(name, value);
      var message := "";
      if !isValid {
        message := GetErrorMessage(before, Table(name));
      }
      validationErrors := validationErrors[name := message];
    }

    /** `validateForm`: check every field of the mode, then the password match. */
    method ValidateForm() returns (isValid: bool)
      modifies this`validationErrors
      ensures isValid <==> FormValid(isLogin, formData)
      ensures validationErrors == FormErrors(isLogin, formData)
    {
      var data := formData;
      var newErrors: map<Field, string> := map[];
      isValid := true;
      var fields := FieldsToValidate(isLogin);
      var i := 0;
      while i < |fields|
        invariant 0 <= i <= |fields|
        invariant newErrors == FieldErrors(fields[..i], data)
        invariant isValid <==> forall j | 0 <= j < i :: FieldPasses(fields[j], data.Get(fields[j]))
      {
        var valid;
        valid, newErrors := ValidateField(fields[i], data, newErrors);
        if !valid {
          isValid := false;
        }
        FieldErrorsStep(fields, i, data);
        i := i + 1;
      }
      assert fields[..i] == fields;
      FormValidByFields(isLogin, data);
      if !isLogin && data.password != data.confirmPassword {
        newErrors := newErrors[ConfirmPasswordField := MismatchMessage];
        isValid := false;
      }
      validationErrors := newErrors;
    }

    /**
     * `handleSubmit`. `outcome` is what the provider would do if called:
     * `None` for success, `Some(code)` for an error with that code.
     */
    method HandleSubmit(outcome: Option<string>) returns (call: ProviderCall, redirected: bool)
      modifies this`error, this`validationErrors, this`isLoading
      ensures call == NoCall <==> !FormValid(isLogin, formData)
      ensures call != NoCall ==> call == if isLogin then Login(formData.email, formData.password)
                                         else Signup(formData.email, formData.password, formData.username)
      ensures validationErrors == FormErrors(isLogin, formData)
      ensures redirected <==> call != NoCall && outcome.None?
      ensures error == if call != NoCall && outcome.Some? then AuthErrorMessage(outcome.value) else ""
      ensures isLoading == if call == NoCall then old(isLoading) else false
    {
      error := "";
      redirected := false;
      var valid := ValidateForm();
      if !valid {
        return NoCall, false;
      }
      isLoading := true;
      if isLogin {
        call := Login(formData.email, formData.password);
      } else {
        call := Signup(formData.email, formData.password, formData.username);
      }
      match outcome {
        case None =>
          redirected := true;
        case Some(code) =>
          error := AuthErrorMessage(code);
      }
      isLoading := false;
    }
  }
}
