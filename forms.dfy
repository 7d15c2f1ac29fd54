/**
 * The input-validation rules of the login, registration and study-session
 * forms. Each form is a list of fields, each field a chain of validators run
 * in order, as WTForms runs them: a failing `DataRequired` clears the field's
 * errors, records itself and stops the chain; any other failing validator
 * records itself and the chain goes on. A form validates when no field has
 * an error. Whether a string is a well-formed email address is decided by
 * the email-validator library and enters here as the parameter `isEmail`.
 */
module Forms {
  import Models

  datatype Validator =
    | DataRequired                  // the value is not empty once whitespace is stripped
    | EmailFormat                   // the value is a well-formed email address
    | Length(min: int, max: int)    // -1 leaves that bound open
    | EqualTo(other: string)        // the value equals that of the field named `other`
    | NotTaken(taken: set<string>)  // a `validate_<field>` uniqueness check against stored users

  datatype Field = Field(name: string, validators: seq<Validator>)

  /** The submitted values by field name; a field that was not submitted reads as "". */
  type FormData = map<string, string>

  function Value(data: FormData, name: string): string
  {
    if name in data then data[name] else ""
  }

  /** The characters Python's `str.strip()` removes. */
  predicate IsSpace(c: char)
  {
    || ('\t' <= c <= '\r')
    || ('\U{1C}' <= c <= ' ')
    || c == '\U{85}' || c == '\U{A0}' || c == '\U{1680}'
    || ('\U{2000}' <= c <= '\U{200A}')
    || c == '\U{2028}' || c == '\U{2029}' || c == '\U{202F}' || c == '\U{205F}' || c == '\U{3000}'
  }

  /** What `DataRequired` accepts: some character that is not whitespace. */
  predicate HasContent(s: string)
  {
    exists i :: 0 <= i < |s| && !IsSpace(s[i])
  }

  predicate Passes(v: Validator, value: string, data: FormData, isEmail: string -> bool)
  {
    match v
    case DataRequired => HasContent(value)
    case EmailFormat => isEmail(value)
    case Length(min, max) => min <= |value| && (max == -1 || |value| <= max)
    case EqualTo(other) => value == Value(data, other)
    case NotTaken(taken) => value !in taken
  }

  /** Runs the rest of a chain `vs` after the errors `acc`; the result is the field's error list. */
  function RunChain(vs: seq<Validator>, value: string, data: FormData, isEmail: string -> bool,
                    acc: seq<Validator>): seq<Validator>
    decreases |vs|
  {
    if vs == [] then acc
    else if Passes(vs[0], value, data, isEmail) then RunChain(vs[1..], value, data, isEmail, acc)
    else if vs[0].DataRequired? then [DataRequired]
    else RunChain(vs[1..], value, data, isEmail, acc + [vs[0]])
  }

  /** A chain ends without errors exactly when none were recorded before and every validator passes. */
  lemma {:induction false} ChainNoErrors(vs: seq<Validator>, value: string, data: FormData,
                                         isEmail: string -> bool, acc: seq<Validator>)
    ensures RunChain(vs, value, data, isEmail, acc) == []
        <==> acc == [] && forall i :: 0 <= i < |vs| ==> Passes(vs[i], value, data, isEmail)
    decreases |vs|
  {
    if vs != [] {
      if Passes(vs[0], value, data, isEmail) {
        ChainNoErrors(vs[1..], value, data, isEmail, acc);
        forall i | 1 <= i < |vs|
          ensures vs[i] == vs[1..][i - 1]
        {
        }
      } else if !vs[0].DataRequired? {
        ChainNoErrors(vs[1..], value, data, isEmail, acc + [vs[0]]);
      }
    }
  }

  /** The errors recorded on one field: none exactly when every validator of the field passes. */
  function FieldErrors(f: Field, data: FormData, isEmail: string -> bool): (errs: seq<Validator>)
    ensures errs == [] <==> forall i :: 0 <= i < |f.validators| ==> Passes(f.validators[i], Value(data, f.name), data, isEmail)
  {
    ChainNoErrors(f.validators, Value(data, f.name), data, isEmail, []);
    RunChain(f.validators, Value(data, f.name), data, isEmail, [])
  }

  /** A field with three validators is free of errors exactly when all three pass. */
  lemma ThreeValidators(f: Field, data: FormData, isEmail: string -> bool)
    requires |f.validators| == 3
    ensures FieldErrors(f, data, isEmail) == []
        <==> && Passes(f.validators[0], Value(data, f.name), data, isEmail)
             && Passes(f.validators[1], Value(data, f.name), data, isEmail)
             && Passes(f.validators[2], Value(data, f.name), data, isEmail)
  {
  }

  /** `form.validate()`: no field has an error. */
  predicate Validates(form: seq<Field>, data: FormData, isEmail: string -> bool)
  {
    forall i :: 0 <= i < |form| ==> FieldErrors(form[i], data, isEmail) == []
  }

  // ---------------------------------------------------------------------
  // The three forms
  // ---------------------------------------------------------------------

  function LoginForm(): seq<Field>
  {
    [ Field("email", [DataRequired, EmailFormat]),
      Field("password", [DataRequired]) ]
  }

  /** The uniqueness checks look the values up among the stored users. */
  function RegistrationForm(users: map<nat, Models.UserRow>): seq<Field>
  {
    [ Field("username", [DataRequired, Length(3, 80), NotTaken(Models.Usernames(users))]),
      Field("email", [DataRequired, EmailFormat, NotTaken(Models.Emails(users))]),
      Field("password", [DataRequired, Length(6, -1)]),
      Field("password2", [DataRequired, EqualTo("password")]) ]
  }

  function StudySessionForm(): seq<Field>
  {
    [ Field("title", [DataRequired, Length(-1, 200)]),
      Field("date", [DataRequired]),
      Field("time", [DataRequired, Length(-1, 20)]),
      Field("location", [DataRequired, Length(-1, 200)]),
      Field("topic", [Length(-1, 100)]) ]
  }

  // ---------------------------------------------------------------------
  // What each form accepts
  // ---------------------------------------------------------------------

  /** Login needs a non-blank, well-formed email and a non-blank password. */
  lemma LoginValidIff(data: FormData, isEmail: string -> bool)
    ensures Validates(LoginForm(), data, isEmail)
        <==> && HasContent(Value(data, "email")) && isEmail(Value(data, "email"))
             && HasContent(Value(data, "password"))
  {
    var form := LoginForm();
    assert FieldErrors(form[0], data, isEmail) == []
       <==> HasContent(Value(data, "email")) && isEmail(Value(data, "email"));
    assert FieldErrors(form[1], data, isEmail) == [] <==> HasContent(Value(data, "password"));
  }

  /** An empty password is refused, and the error is recorded on the password field. */
  lemma LoginRejectsEmptyPassword(data: FormData, isEmail: string -> bool)
    requires Value(data, "password") == ""
    ensures FieldErrors(LoginForm()[1], data, isEmail) == [DataRequired]
    ensures !Validates(LoginForm(), data, isEmail)
  {
  }

  /** A malformed email is refused, and the error is recorded on the email field. */
  lemma LoginRejectsMalformedEmail(data: FormData, isEmail: string -> bool)
    requires !isEmail(Value(data, "email"))
    ensures FieldErrors(LoginForm()[0], data, isEmail) != []
    ensures !Validates(LoginForm(), data, isEmail)
  {
  }

  /**
   * Registration needs a non-blank username of 3 to 80 characters and a
   * non-blank, well-formed email, neither held by a stored user, a non-blank
   * password of at least 6 characters and a confirmation equal to it.
   */
  lemma RegistrationValidIff(users: map<nat, Models.UserRow>, data: FormData, isEmail: string -> bool)
    ensures Validates(RegistrationForm(users), data, isEmail)
        <==> var username, email := Value(data, "username"), Value(data, "email");
             var password, password2 := Value(data, "password"), Value(data, "password2");
             && HasContent(username) && 3 <= |username| <= 80 && username !in Models.Usernames(users)
             && HasContent(email) && isEmail(email) && email !in Models.Emails(users)
             && HasContent(password) && 6 <= |password|
             && HasContent(password2) && password2 == password
  {
    var form := RegistrationForm(users);
    var username, email := Value(data, "username"), Value(data, "email");
    var password, password2 := Value(data, "password"), Value(data, "password2");
    ThreeValidators(form[0], data, isEmail);
    ThreeValidators(form[1], data, isEmail);
    assert FieldErrors(form[0], data, isEmail) == []
       <==> HasContent(username) && 3 <= |username| <= 80 && username !in Models.Usernames(users);
    assert FieldErrors(form[1], data, isEmail) == []
       <==> HasContent(email) && isEmail(email) && email !in Models.Emails(users);
    assert FieldErrors(form[2], data, isEmail) == [] <==> HasContent(password) && 6 <= |password|;
    assert FieldErrors(form[3], data, isEmail) == [] <==> HasContent(password2) && password2 == password;
  }

  /** A registration that validates can be saved: the new user keeps usernames and emails unique. */
  lemma RegistrationKeepsUsersUnique(users: map<nat, Models.UserRow>, data: FormData, isEmail: string -> bool,
                                     id: nat, passwordHash: Models.Wrappers.Option<string>)
    requires Models.UniqueUsernames(users) && Models.UniqueEmails(users)
    requires id !in users
    requires Validates(RegistrationForm(users), data, isEmail)
    ensures var row := Models.UserRow(Value(data, "username"), Value(data, "email"), passwordHash);
            Models.UniqueUsernames(users[id := row]) && Models.UniqueEmails(users[id := row])
  {
    RegistrationValidIff(users, data, isEmail);
  }

  /**
   * The study-session form needs a non-blank title of at most 200 characters,
   * a non-blank date, a non-blank time of at most 20 and a non-blank location
   * of at most 200; the topic may be empty but is at most 100 characters.
   */
  lemma StudySessionValidIff(data: FormData, isEmail: string -> bool)
    ensures Validates(StudySessionForm(), data, isEmail)
        <==> && HasContent(Value(data, "title")) && |Value(data, "title")| <= 200
             && HasContent(Value(data, "date"))
             && HasContent(Value(data, "time")) && |Value(data, "time")| <= 20
             && HasContent(Value(data, "location")) && |Value(data, "location")| <= 200
             && |Value(data, "topic")| <= 100
  {
    var form := StudySessionForm();
    assert FieldErrors(form[0], data, isEmail) == []
       <==> HasContent(Value(data, "title")) && |Value(data, "title")| <= 200;
    assert FieldErrors(form[1], data, isEmail) == [] <==> HasContent(Value(data, "date"));
    assert FieldErrors(form[2], data, isEmail) == []
       <==> HasContent(Value(data, "time")) && |Value(data, "time")| <= 20;
    assert FieldErrors(form[3], data, isEmail) == []
       <==> HasContent(Value(data, "location")) && |Value(data, "location")| <= 200;
    assert FieldErrors(form[4], data, isEmail) == [] <==> |Value(data, "topic")| <= 100;
  }

  /** A value `DataRequired` accepts is never empty. */
  lemma ContentIsNonEmpty(s: string)
    requires HasContent(s)
    ensures |s| > 0
  {
  }
}
