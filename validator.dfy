/**
 * `User.model_validate_json` with its before-hook `check_employment_status`,
 * and `validate_and_serialize_user`, which reduces the outcome to either the
 * dump of the user or an object holding the errors.
 */
module Validator {
  import opened Options
  import opened Errors
  import opened JsonValue
  import opened Constraints
  import opened Schema

  /**
   * The hook compares `18 <= age <= 65` only when `is_employed` is truthy;
   * Python can compare an integer or a boolean with 18, and raises a
   * TypeError that nothing catches for anything else (a missing key or a
   * null included, as `get` reads those as None).
   */
  function HookDefined(values: map<string, Json>): (ok: bool)
    ensures !Truthy(Get(values, "is_employed")) ==> ok
    ensures Lookup(values, "age").Some? && Lookup(values, "age").value.JInt? ==> ok
    ensures Lookup(values, "age") in {None, Some(JNull)} ==> (ok <==> !Truthy(Get(values, "is_employed")))
  {
    Truthy(Get(values, "is_employed")) ==> Get(values, "age").JInt? || Get(values, "age").JBool?
  }

  /** The number Python compares: a boolean counts as 0 or 1. */
  function AsNumber(v: Json): (n: int)
    requires v.JInt? || v.JBool?
    ensures v.JInt? ==> n == v.i
    ensures v.JBool? ==> 0 <= n <= 1 && (n == 1 <==> v.b)
  {
    if v.JBool? then (if v.b then 1 else 0) else v.i
  }

  /** The rule the hook enforces: an employed user is 18 to 65 years old. */
  predicate EmploymentAgeOk(values: map<string, Json>)
    requires HookDefined(values)
    ensures !Truthy(Get(values, "is_employed")) ==> EmploymentAgeOk(values)
    ensures Get(values, "age").JInt? ==>
      (EmploymentAgeOk(values) <==> !Truthy(Get(values, "is_employed")) || 18 <= Get(values, "age").i <= 65)
    ensures Get(values, "age").JBool? ==> (EmploymentAgeOk(values) <==> !Truthy(Get(values, "is_employed")))
  {
    Truthy(Get(values, "is_employed")) ==> 18 <= AsNumber(Get(values, "age")) <= 65
  }

  /** The error the hook's ValueError becomes: a model-level error, with an empty location. */
  const HookError := ValidationError([], HookValueError)

  /**
   * `check_employment_status`, run on the raw values before any field is
   * looked at: either it rejects the record or it returns the values unchanged.
   */
  function CheckEmploymentStatus(values: map<string, Json>): (r: Checked<map<string, Json>>)
    requires HookDefined(values)
    ensures r.Ok? <==> EmploymentAgeOk(values)
    ensures r.Ok? ==> r.value == values
    ensures r.Failed? ==> r.errors == [HookError]
  {
    var isEmployed := Get(values, "is_employed");
    var age := Get(values, "age");
    if Truthy(isEmployed) && !(18 <= AsNumber(age) <= 65) then Failed([HookError]) else Ok(values)
  }

  /** The result of validating one raw record. */
  datatype Outcome = Valid(user: User) | Invalid(errors: seq<ValidationError>)

  /**
   * The per-field pass: every field of `User` is validated, all errors are
   * kept, in declaration order, nested address errors under "address".
   */
  function ValidateFields(values: map<string, Json>, emailCheck: string -> Option<string>): (r: Outcome)
    ensures r.Invalid? ==> |r.errors| > 0
    ensures r.Invalid? ==> forall e :: e in r.errors ==> |e.loc| > 0 && e.loc[0] in UserKeys
    ensures r.Valid? ==> Denotes(values, r.user, emailCheck) && FieldsValid(r.user)
  {
    var name := StrField(Lookup(values, "name"), NameRule);
    var age := IntField(Lookup(values, "age"), AgeRule);
    var email := EmailField(Lookup(values, "email"), emailCheck);
    var isEmployed := BoolField(Lookup(values, "is_employed"));
    var address := AddressField(Lookup(values, "address"));
    if name.Ok? && age.Ok? && email.Ok? && isEmployed.Ok? && address.Ok? then
      var u := User(name.value, age.value, email.value, isEmployed.value, address.value);
      assert Denotes(values, u, emailCheck) && FieldsValid(u) by {
        NameRuleIff(u.name);
      }
      Valid(u)
    else
      FieldErrorsLocated(values, emailCheck);
      Invalid(FieldErrors(values, emailCheck))
  }

  /** Every error of the per-field pass is located under a field of `User`. */
  lemma FieldErrorsLocated(values: map<string, Json>, emailCheck: string -> Option<string>)
    ensures forall e :: e in FieldErrors(values, emailCheck) ==> |e.loc| > 0 && e.loc[0] in UserKeys
  {
  }

  /** The errors of the per-field pass, field by field in declaration order. */
  function FieldErrors(values: map<string, Json>, emailCheck: string -> Option<string>): (r: seq<ValidationError>)
    ensures |r| == 0 <==>
      && StrField(Lookup(values, "name"), NameRule).Ok?
      && IntField(Lookup(values, "age"), AgeRule).Ok?
      && EmailField(Lookup(values, "email"), emailCheck).Ok?
      && BoolField(Lookup(values, "is_employed")).Ok?
      && AddressField(Lookup(values, "address")).Ok?
  {
    ErrorsAt("name", StrField(Lookup(values, "name"), NameRule))
    + ErrorsAt("age", IntField(Lookup(values, "age"), AgeRule))
    + ErrorsAt("email", EmailField(Lookup(values, "email"), emailCheck))
    + ErrorsAt("is_employed", BoolField(Lookup(values, "is_employed")))
    + ErrorsAt("address", AddressField(Lookup(values, "address")))
  }

  /** `values` holds the fields of `u` with their exact JSON types; the email is `u.email` once normalized. */
  predicate Denotes(values: map<string, Json>, u: User, emailCheck: string -> Option<string>) {
    && Lookup(values, "name") == Some(JStr(u.name))
    && Lookup(values, "age") == Some(JInt(u.age))
    && "email" in values && values["email"].JStr? && emailCheck(values["email"].s) == Some(u.email)
    && Lookup(values, "is_employed") == Some(JBool(u.isEmployed))
    && "address" in values && values["address"].JObj? && AddressDenotes(values["address"].fields, u.address)
  }

  /**
   * `User.model_validate_json` on a parsed JSON object: the hook first; when
   * it rejects, its error is the only one; otherwise the per-field pass.
   */
  function Validate(values: map<string, Json>, emailCheck: string -> Option<string>): (r: Outcome)
    requires HookDefined(values)
    ensures r.Valid? ==> UserValid(r.user) && Denotes(values, r.user, emailCheck)
    ensures r.Invalid? ==> |r.errors| > 0
  {
    match CheckEmploymentStatus(values)
    case Failed(errors) => Invalid(errors)
    case Ok(checked) => ValidateFields(checked, emailCheck)
  }

  /**
   * The `type` string of an error as pydantic names it. A ValueError raised
   * by the email check and one raised by the hook are both `value_error`.
   */
  function KindName(kind: ErrorKind): (name: string)
    ensures |name| > 0
    ensures name == "value_error" <==> kind in {EmailInvalid, HookValueError}
  {
    match kind
    case Missing => "missing"
    case StringType => "string_type"
    case IntType => "int_type"
    case BoolType => "bool_type"
    case ModelType => "model_type"
    case StringTooShort => "string_too_short"
    case StringTooLong => "string_too_long"
    case StringPatternMismatch => "string_pattern_mismatch"
    case GreaterThanEqual => "greater_than_equal"
    case LessThanEqual => "less_than_equal"
    case EmailInvalid => "value_error"
    case HookValueError => "value_error"
  }

  /** One entry of `e.errors()` as JSON: its type and its location, one string per step. */
  function ErrorJson(e: ValidationError): (r: Json)
    ensures r.JObj? && r.fields.Keys == {"type", "loc"}
    ensures r.fields["type"] == JStr(KindName(e.kind))
    ensures r.fields["loc"].JArr? && |r.fields["loc"].items| == |e.loc|
    ensures forall i :: 0 <= i < |e.loc| ==> r.fields["loc"].items[i] == JStr(e.loc[i])
  {
    JObj(map[
      "type" := JStr(KindName(e.kind)),
      "loc" := JArr(seq(|e.loc|, i requires 0 <= i < |e.loc| => JStr(e.loc[i])))])
  }

  /** `{"errors": e.errors()}`: one entry per error, in order. */
  function ErrorsJson(errors: seq<ValidationError>): (r: Json)
    ensures r.JObj? && r.fields.Keys == {"errors"}
    ensures r.fields["errors"].JArr? && |r.fields["errors"].items| == |errors|
    ensures forall i :: 0 <= i < |errors| ==> r.fields["errors"].items[i] == ErrorJson(errors[i])
  {
    JObj(map["errors" := JArr(seq(|errors|, i requires 0 <= i < |errors| => ErrorJson(errors[i])))])
  }

  /**
   * `validate_and_serialize_user` as evidently intended: the dump of the
   * accepted user, or an object whose single key is "errors" holding one
   * entry per error, in order.
   */
  function ValidateAndSerialize(values: map<string, Json>, emailCheck: string -> Option<string>): (r: Json)
    requires HookDefined(values)
    ensures r.JObj?
    ensures "errors" in r.fields <==> Validate(values, emailCheck).Invalid?
    ensures Validate(values, emailCheck).Valid? ==> r == UserJson(Validate(values, emailCheck).user)
    ensures Validate(values, emailCheck).Invalid? ==>
      && r.fields.Keys == {"errors"}
      && r.fields["errors"].JArr?
      && |r.fields["errors"].items| == |Validate(values, emailCheck).errors| > 0
      && forall i :: 0 <= i < |Validate(values, emailCheck).errors| ==>
           r.fields["errors"].items[i] == ErrorJson(Validate(values, emailCheck).errors[i])
  {
    match Validate(values, emailCheck)
    case Valid(u) => UserJson(u)
    case Invalid(errors) => ErrorsJson(errors)
  }

  /**
   * Whether `json.dumps` can write the entry of `e.errors()` for `e`. The
   * entry of a ValueError raised in the hook carries the exception object
   * itself under `ctx`, which has no JSON form; the `ctx` of every other
   * entry holds only strings and numbers.
   */
  predicate EntryDumpable(e: ValidationError)
    ensures !EntryDumpable(e) ==> KindName(e.kind) == "value_error"
    ensures e.kind == EmailInvalid ==> EntryDumpable(e)
    ensures e.kind == HookValueError ==> !EntryDumpable(e)
  {
    e.kind != HookValueError
  }

  /** How a call ends: with a returned value or with an exception that escapes. */
  datatype Completion = Returns(value: Json) | Raises

  /**
   * `validate_and_serialize_user` as written: when some entry of
   * `e.errors()` cannot be dumped, `json.dumps` raises a TypeError, which
   * the function does not catch.
   */
  function ValidateAndSerializeAsWritten(values: map<string, Json>, emailCheck: string -> Option<string>): (r: Completion)
    requires HookDefined(values)
    ensures r.Raises? <==> !EmploymentAgeOk(values)
    ensures r.Returns? ==> r.value == ValidateAndSerialize(values, emailCheck)
  {
    DumpableIff(values, emailCheck);
    match Validate(values, emailCheck)
    case Valid(u) => Returns(UserJson(u))
    case Invalid(errors) =>
      if forall e :: e in errors ==> EntryDumpable(e) then Returns(ErrorsJson(errors)) else Raises
  }

  /** The errors of a rejected record can all be dumped exactly when the hook let the record through. */
  lemma DumpableIff(values: map<string, Json>, emailCheck: string -> Option<string>)
    requires HookDefined(values)
    ensures Validate(values, emailCheck).Invalid? ==>
      ((forall e :: e in Validate(values, emailCheck).errors ==> EntryDumpable(e)) <==> EmploymentAgeOk(values))
  {
    if EmploymentAgeOk(values) {
      ErrorsAfterHook(values, emailCheck);
      FieldErrorKinds(values, emailCheck);
    } else {
      HookErrorIsSole(values, emailCheck);
      assert HookError in Validate(values, emailCheck).errors;
    }
  }

  /** No error of the per-field pass comes from the hook. */
  lemma FieldErrorKinds(values: map<string, Json>, emailCheck: string -> Option<string>)
    ensures forall e :: e in FieldErrors(values, emailCheck) ==> e.kind != HookValueError
  {
    var kinds := AddressKinds + {BoolType, EmailInvalid};
    SingleErrorKinds("name", StrField(Lookup(values, "name"), NameRule), kinds);
    SingleErrorKinds("age", IntField(Lookup(values, "age"), AgeRule), kinds);
    SingleErrorKinds("email", EmailField(Lookup(values, "email"), emailCheck), kinds);
    SingleErrorKinds("is_employed", BoolField(Lookup(values, "is_employed")), kinds);
    AddressErrorKinds(Lookup(values, "address"));
    ErrorsAtKinds("address", AddressField(Lookup(values, "address")), kinds);
    assert HookValueError !in kinds;
  }

  /**
   * A record is accepted as `u` exactly when it holds the fields of `u`
   * with their JSON types and `u` satisfies every constraint and the
   * employment rule.
   */
  lemma ValidateIff(values: map<string, Json>, emailCheck: string -> Option<string>, u: User)
    requires HookDefined(values)
    ensures Validate(values, emailCheck) == Valid(u) <==> Denotes(values, u, emailCheck) && UserValid(u)
  {
    if Denotes(values, u, emailCheck) && UserValid(u) {
      assert EmploymentAgeOk(values);
      NameRuleIff(u.name);
      AddressFromIff(values["address"].fields, u.address);
    }
  }

  /** Dumping a valid user and validating the dump gives the same user back. */
  lemma UserRoundTrip(u: User, emailCheck: string -> Option<string>)
    requires UserValid(u)
    requires emailCheck(u.email) == Some(u.email)
    ensures HookDefined(UserJson(u).fields)
    ensures Validate(UserJson(u).fields, emailCheck) == Valid(u)
  {
    var values := UserJson(u).fields;
    assert Denotes(values, u, emailCheck) by {
      assert values["address"] == AddressJson(u.address);
    }
    assert Lookup(values, "age") == Some(JInt(u.age));
    ValidateIff(values, emailCheck, u);
  }

  /**
   * Serializing is stable: the output for an accepted record, validated and
   * serialized again, is the same output.
   */
  lemma SerializeIdempotent(values: map<string, Json>, emailCheck: string -> Option<string>)
    requires HookDefined(values)
    requires Validate(values, emailCheck).Valid?
    requires emailCheck(Validate(values, emailCheck).user.email) == Some(Validate(values, emailCheck).user.email)
    ensures HookDefined(ValidateAndSerialize(values, emailCheck).fields)
    ensures ValidateAndSerialize(ValidateAndSerialize(values, emailCheck).fields, emailCheck) == ValidateAndSerialize(values, emailCheck)
  {
    UserRoundTrip(Validate(values, emailCheck).user, emailCheck);
  }

  /**
   * The hook runs first and short-circuits: when it rejects, its error is
   * the only one reported; the only error without a field location is its.
   */
  lemma HookErrorIsSole(values: map<string, Json>, emailCheck: string -> Option<string>)
    requires HookDefined(values)
    ensures !EmploymentAgeOk(values) ==> Validate(values, emailCheck) == Invalid([HookError])
    ensures (Validate(values, emailCheck).Invalid? && exists e :: e in Validate(values, emailCheck).errors && e.loc == [])
            <==> !EmploymentAgeOk(values)
  {
    if EmploymentAgeOk(values) {
      var r := ValidateFields(values, emailCheck);
      assert Validate(values, emailCheck) == r;
    }
  }

  /** Once the hook lets a record through, its errors are those of the per-field pass. */
  lemma ErrorsAfterHook(values: map<string, Json>, emailCheck: string -> Option<string>)
    requires HookDefined(values) && EmploymentAgeOk(values)
    ensures Validate(values, emailCheck).Invalid? ==> Validate(values, emailCheck).errors == FieldErrors(values, emailCheck)
    ensures Validate(values, emailCheck).Valid? <==> FieldErrors(values, emailCheck) == []
  {
  }

  /**
   * A required field that is absent is reported once, as missing, at its own
   * name, and nothing else is reported below that name.
   */
  lemma MissingFieldReported(values: map<string, Json>, emailCheck: string -> Option<string>, f: UserField)
    requires HookDefined(values) && EmploymentAgeOk(values)
    requires FieldKey(f) !in values
    ensures Validate(values, emailCheck).Invalid?
    ensures ValidationError([FieldKey(f)], Missing) in Validate(values, emailCheck).errors
    ensures Under(Validate(values, emailCheck).errors, [FieldKey(f)]) == [ValidationError([FieldKey(f)], Missing)]
  {
    var path := [FieldKey(f)];
    var missing := ValidationError(path, Missing);
    assert Under(FieldErrors(values, emailCheck), path) == [missing] by {
      var name := StrField(Lookup(values, "name"), NameRule);
      var age := IntField(Lookup(values, "age"), AgeRule);
      var email := EmailField(Lookup(values, "email"), emailCheck);
      var isEmployed := BoolField(Lookup(values, "is_employed"));
      var address := AddressField(Lookup(values, "address"));
      UnderOneOfFive(ErrorsAt("name", name), ErrorsAt("age", age), ErrorsAt("email", email),
                     ErrorsAt("is_employed", isEmployed), ErrorsAt("address", address), path);
      match f
      case NameKey => UnderSingle("name", name, Missing);
      case AgeKey => UnderSingle("age", age, Missing);
      case EmailKey => UnderSingle("email", email, Missing);
      case IsEmployedKey => UnderSingle("is_employed", isEmployed, Missing);
      case AddressKey => UnderSingle("address", address, Missing);
    }
    assert missing in Under(FieldErrors(values, emailCheck), path);
    ErrorsAfterHook(values, emailCheck);
  }

  /**
   * A field of the nested address that is absent is reported once, as
   * missing, at address.<field>, and nothing else is reported below that path.
   */
  lemma MissingAddressFieldReported(values: map<string, Json>, emailCheck: string -> Option<string>, p: AddressPart)
    requires HookDefined(values) && EmploymentAgeOk(values)
    requires "address" in values && values["address"].JObj?
    requires PartKey(p) !in values["address"].fields
    ensures Validate(values, emailCheck).Invalid?
    ensures Under(Validate(values, emailCheck).errors, ["address", PartKey(p)]) == [ValidationError(["address", PartKey(p)], Missing)]
  {
    var path := ["address", PartKey(p)];
    var missing := ValidationError(path, Missing);
    assert Under(FieldErrors(values, emailCheck), path) == [missing] by {
      var a := AddressField(Lookup(values, "address"));
      assert Lookup(values, "address") == Some(values["address"]);
      AddressFieldMissingPart(values["address"], p);
      UnderOneOfFive(ErrorsAt("name", StrField(Lookup(values, "name"), NameRule)),
                     ErrorsAt("age", IntField(Lookup(values, "age"), AgeRule)),
                     ErrorsAt("email", EmailField(Lookup(values, "email"), emailCheck)),
                     ErrorsAt("is_employed", BoolField(Lookup(values, "is_employed"))),
                     ErrorsAt("address", a), path);
    }
    assert missing in Under(FieldErrors(values, emailCheck), path);
    ErrorsAfterHook(values, emailCheck);
  }

  /** An age outside [0, 65] that passes the hook is reported at "age" with the bound it breaks. */
  lemma AgeOutOfRangeReported(values: map<string, Json>, emailCheck: string -> Option<string>, n: int)
    requires HookDefined(values) && EmploymentAgeOk(values)
    requires Lookup(values, "age") == Some(JInt(n)) && !(0 <= n <= 65)
    ensures Validate(values, emailCheck).Invalid?
    ensures ValidationError(["age"], if n > 65 then LessThanEqual else GreaterThanEqual) in Validate(values, emailCheck).errors
  {
    var kind := if n > 65 then LessThanEqual else GreaterThanEqual;
    assert ValidationError(["age"], kind) in FieldErrors(values, emailCheck) by {
      assert IntField(Lookup(values, "age"), AgeRule) == Fail(kind);
      PrefixSingle("age", kind);
      assert ErrorsAt("age", IntField(Lookup(values, "age"), AgeRule)) == [ValidationError(["age"], kind)];
    }
    ErrorsAfterHook(values, emailCheck);
  }

  /**
   * A record that passes the hook, whose age is above 65 and whose other
   * fields are all acceptable, is rejected with the one error at "age".
   */
  lemma OnlyAgeRejected(values: map<string, Json>, emailCheck: string -> Option<string>, n: int)
    requires HookDefined(values) && EmploymentAgeOk(values)
    requires StrField(Lookup(values, "name"), NameRule).Ok?
    requires Lookup(values, "age") == Some(JInt(n)) && n > 65
    requires EmailField(Lookup(values, "email"), emailCheck).Ok?
    requires BoolField(Lookup(values, "is_employed")).Ok?
    requires AddressField(Lookup(values, "address")).Ok?
    ensures Validate(values, emailCheck) == Invalid([ValidationError(["age"], LessThanEqual)])
  {
    assert ErrorsAt("age", IntField(Lookup(values, "age"), AgeRule)) == [ValidationError(["age"], LessThanEqual)] by {
      PrefixSingle("age", LessThanEqual);
    }
    ErrorsAfterHook(values, emailCheck);
  }

  /** A house number below 1 is reported at the nested path address.house_number. */
  lemma HouseNumberErrorPath(values: map<string, Json>, emailCheck: string -> Option<string>, n: int)
    requires HookDefined(values) && EmploymentAgeOk(values)
    requires "address" in values && values["address"].JObj?
    requires Lookup(values["address"].fields, "house_number") == Some(JInt(n)) && n < 1
    ensures Validate(values, emailCheck).Invalid?
    ensures ValidationError(["address", "house_number"], GreaterThanEqual) in Validate(values, emailCheck).errors
  {
    var outer := ValidationError(["address", "house_number"], GreaterThanEqual);
    assert outer in FieldErrors(values, emailCheck) by {
      assert Lookup(values, "address") == Some(values["address"]);
      AddressFieldHouseNumber(values["address"], n);
    }
    ErrorsAfterHook(values, emailCheck);
  }
}
