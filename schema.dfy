/**
 * The two schemas, `Address` and `User`, as typed records, with the per-field
 * validators that turn a raw JSON value into a typed field or an error, the
 * `Address` validator, and `model_dump` of both records.
 */
module Schema {
  import opened Options
  import opened Errors
  import opened JsonValue
  import opened Constraints

  /** One entry of `ValidationError.errors()`: where it is (`loc`) and its type. */
  datatype ValidationError = ValidationError(loc: seq<string>, kind: ErrorKind)

  /** The outcome of validating one field or one nested model. */
  datatype Checked<+T> = Ok(value: T) | Failed(errors: seq<ValidationError>)

  datatype Address = Address(city: string, street: string, houseNumber: int)

  datatype User = User(name: string, age: int, email: string, isEmployed: bool, address: Address)

  /** An address that satisfies every field constraint of `Address`. */
  predicate AddressValid(a: Address) {
    && |a.city| >= 2
    && |a.street| >= 3
    && a.houseNumber >= 1
  }

  /** A name of 2 to 120 characters drawn from `[a-zA-ZА-Яа-яЁё\- ]`. */
  predicate NameValid(name: string) {
    && 2 <= |name| <= 120
    && forall i :: 0 <= i < |name| ==> NameChar(name[i])
  }

  /**
   * A user whose fields satisfy every field constraint of `User` (the email
   * is judged by the external check, see Validator).
   */
  predicate FieldsValid(u: User) {
    && NameValid(u.name)
    && 0 <= u.age <= 65
    && AddressValid(u.address)
  }

  /** A user that the field constraints and the employment rule both admit. */
  predicate UserValid(u: User) {
    && FieldsValid(u)
    && (u.isEmployed ==> 18 <= u.age <= 65)
  }

  /** A single error located at the field itself; the caller prefixes the field name. */
  predicate SingleError(errors: seq<ValidationError>) {
    |errors| == 1 && errors[0].loc == []
  }

  function Fail<T>(kind: ErrorKind): Checked<T> {
    Failed([ValidationError([], kind)])
  }

  /** A `str` field with constraints. */
  function StrField(v: Option<Json>, rule: StrRule): (r: Checked<string>)
    ensures r.Ok? <==> v.Some? && v.value.JStr? && StrRuleHolds(rule, v.value.s)
    ensures r.Ok? ==> v == Some(JStr(r.value))
    ensures r.Failed? ==> SingleError(r.errors)
    ensures r.Failed? ==> r.errors[0].kind in {Missing, StringType, StringTooShort, StringTooLong, StringPatternMismatch}
    ensures r.Failed? ==> (r.errors[0].kind == Missing <==> v.None?)
    ensures v.None? ==> r == Fail(Missing)
    ensures v.Some? && !v.value.JStr? ==> r == Fail(StringType)
    ensures v.Some? && v.value.JStr? && !StrRuleHolds(rule, v.value.s) ==> r == Fail(StrViolation(rule, v.value.s).value)
  {
    match v
    case None => Fail(Missing)
    case Some(JStr(s)) =>
      (match StrViolation(rule, s)
       case None => Ok(s)
       case Some(kind) => Fail(kind))
    case Some(_) => Fail(StringType)
  }

  /** An `int` field with bounds. */
  function IntField(v: Option<Json>, rule: IntRule): (r: Checked<int>)
    ensures r.Ok? <==> v.Some? && v.value.JInt? && IntRuleHolds(rule, v.value.i)
    ensures r.Ok? ==> v == Some(JInt(r.value))
    ensures r.Failed? ==> SingleError(r.errors)
    ensures r.Failed? ==> r.errors[0].kind in {Missing, IntType, GreaterThanEqual, LessThanEqual}
    ensures r.Failed? ==> (r.errors[0].kind == Missing <==> v.None?)
    ensures v.None? ==> r == Fail(Missing)
    ensures v.Some? && !v.value.JInt? ==> r == Fail(IntType)
    ensures v.Some? && v.value.JInt? && !IntRuleHolds(rule, v.value.i) ==> r == Fail(IntViolation(rule, v.value.i).value)
  {
    match v
    case None => Fail(Missing)
    case Some(JInt(n)) =>
      (match IntViolation(rule, n)
       case None => Ok(n)
       case Some(kind) => Fail(kind))
    case Some(_) => Fail(IntType)
  }

  /** A `bool` field: any boolean, nothing else. */
  function BoolField(v: Option<Json>): (r: Checked<bool>)
    ensures r.Ok? <==> v.Some? && v.value.JBool?
    ensures r.Ok? ==> v == Some(JBool(r.value))
    ensures r.Failed? ==> SingleError(r.errors)
    ensures r.Failed? ==> r.errors[0].kind in {Missing, BoolType}
    ensures r.Failed? ==> (r.errors[0].kind == Missing <==> v.None?)
    ensures v.None? ==> r == Fail(Missing)
    ensures v.Some? && !v.value.JBool? ==> r == Fail(BoolType)
  {
    match v
    case None => Fail(Missing)
    case Some(JBool(b)) => Ok(b)
    case Some(_) => Fail(BoolType)
  }

  /**
   * An `EmailStr` field: a string, then the external email check, whose
   * answer is the normalized address or None for a rejected one.
   */
  function EmailField(v: Option<Json>, emailCheck: string -> Option<string>): (r: Checked<string>)
    ensures r.Ok? <==> v.Some? && v.value.JStr? && emailCheck(v.value.s).Some?
    ensures r.Ok? ==> emailCheck(v.value.s) == Some(r.value)
    ensures r.Failed? ==> SingleError(r.errors)
    ensures r.Failed? ==> r.errors[0].kind in {Missing, StringType, EmailInvalid}
    ensures r.Failed? ==> (r.errors[0].kind == Missing <==> v.None?)
    ensures v.None? ==> r == Fail(Missing)
    ensures v.Some? && !v.value.JStr? ==> r == Fail(StringType)
    ensures v.Some? && v.value.JStr? && emailCheck(v.value.s).None? ==> r == Fail(EmailInvalid)
  {
    match v
    case None => Fail(Missing)
    case Some(JStr(s)) =>
      (match emailCheck(s)
       case None => Fail(EmailInvalid)
       case Some(normalized) => Ok(normalized))
    case Some(_) => Fail(StringType)
  }

  /** Errors of a nested field, each located under `key`. */
  function Prefix(key: string, errors: seq<ValidationError>): (r: seq<ValidationError>)
    ensures |r| == |errors|
    ensures forall i :: 0 <= i < |r| ==> r[i] == ValidationError([key] + errors[i].loc, errors[i].kind)
  {
    if errors == [] then [] else [ValidationError([key] + errors[0].loc, errors[0].kind)] + Prefix(key, errors[1..])
  }

  /** The errors a field contributes to its record: none when it is valid. */
  function ErrorsAt<T>(key: string, c: Checked<T>): (r: seq<ValidationError>)
    ensures forall e :: e in r ==> |e.loc| > 0 && e.loc[0] == key
    ensures |r| == if c.Ok? then 0 else |c.errors|
  {
    if c.Ok? then [] else Prefix(key, c.errors)
  }

  /** A field's single error, once prefixed, is located at the field's name. */
  lemma PrefixSingle(key: string, kind: ErrorKind)
    ensures Prefix(key, [ValidationError([], kind)]) == [ValidationError([key], kind)]
  {
    assert [key] + [] == [key];
  }

  /** Every error of a nested field appears, under the field's name, among the record's errors. */
  lemma PrefixHas(key: string, errors: seq<ValidationError>, e: ValidationError)
    requires e in errors
    ensures ValidationError([key] + e.loc, e.kind) in Prefix(key, errors)
  {
    var k :| 0 <= k < |errors| && errors[k] == e;
    assert Prefix(key, errors)[k] == ValidationError([key] + e.loc, e.kind);
  }

  /** The errors located at `path` or below it, in their order. */
  function Under(errors: seq<ValidationError>, path: seq<string>): (r: seq<ValidationError>)
    ensures forall e :: e in r ==> e in errors && path <= e.loc
    ensures forall e :: e in errors && path <= e.loc ==> e in r
  {
    if errors == [] then []
    else (if path <= errors[0].loc then [errors[0]] else []) + Under(errors[1..], path)
  }

  lemma {:induction false} UnderAppend(a: seq<ValidationError>, b: seq<ValidationError>, path: seq<string>)
    ensures Under(a + b, path) == Under(a, path) + Under(b, path)
  {
    if a == [] {
      assert a + b == b;
    } else {
      assert (a + b)[0] == a[0];
      assert (a + b)[1..] == a[1..] + b;
      UnderAppend(a[1..], b, path);
    }
  }

  /** Below a field's name, the errors of a nested field are its own errors below the rest of the path. */
  lemma {:induction false} UnderPrefix(key: string, errors: seq<ValidationError>, path: seq<string>)
    ensures Under(Prefix(key, errors), [key] + path) == Prefix(key, Under(errors, path))
  {
    if errors != [] {
      var head := ValidationError([key] + errors[0].loc, errors[0].kind);
      assert Prefix(key, errors) == [head] + Prefix(key, errors[1..]);
      assert ([head] + Prefix(key, errors[1..]))[1..] == Prefix(key, errors[1..]);
      assert ([key] + path <= head.loc) <==> (path <= errors[0].loc) by {
        if [key] + path <= head.loc {
          assert forall i :: 0 <= i < |path| ==> path[i] == ([key] + path)[i + 1] == head.loc[i + 1] == errors[0].loc[i];
        }
        if path <= errors[0].loc {
          assert forall i :: 0 <= i < |path| + 1 ==> ([key] + path)[i] == head.loc[i];
        }
      }
      UnderPrefix(key, errors[1..], path);
      var h := if path <= errors[0].loc then [errors[0]] else [];
      assert Under(errors, path) == h + Under(errors[1..], path);
      PrefixAppend(key, h, Under(errors[1..], path));
    }
  }

  lemma {:induction false} PrefixAppend(key: string, a: seq<ValidationError>, b: seq<ValidationError>)
    ensures Prefix(key, a + b) == Prefix(key, a) + Prefix(key, b)
  {
    var l, r := Prefix(key, a + b), Prefix(key, a) + Prefix(key, b);
    assert |l| == |r|;
    forall i | 0 <= i < |l| ensures l[i] == r[i] {
      if i < |a| { assert (a + b)[i] == a[i]; } else { assert (a + b)[i] == b[i - |a|]; }
    }
  }

  /** Errors all located under one name contribute nothing below a path that starts with another. */
  lemma {:induction false} UnderOtherKey(errors: seq<ValidationError>, key: string, path: seq<string>)
    requires forall e :: e in errors ==> |e.loc| > 0 && e.loc[0] == key
    requires |path| > 0 && path[0] != key
    ensures Under(errors, path) == []
  {
    if errors != [] {
      assert errors[0] in errors;
      UnderOtherKey(errors[1..], key, path);
    }
  }

  /** Validation of the fields of an `Address` object, all of them, in declaration order. */
  function AddressFrom(m: map<string, Json>): (r: Checked<Address>)
    ensures r.Ok? ==> AddressValid(r.value)
    ensures r.Ok? ==> AddressDenotes(m, r.value)
    ensures r.Failed? ==> |r.errors| > 0
    ensures r.Failed? ==> forall e :: e in r.errors ==> |e.loc| > 0 && e.loc[0] in AddressKeys
  {
    var city := StrField(Lookup(m, "city"), CityRule);
    var street := StrField(Lookup(m, "street"), StreetRule);
    var house := IntField(Lookup(m, "house_number"), HouseNumberRule);
    if city.Ok? && street.Ok? && house.Ok? then
      Ok(Address(city.value, street.value, house.value))
    else
      Failed(ErrorsAt("city", city) + ErrorsAt("street", street) + ErrorsAt("house_number", house))
  }

  /** The field names of `Address`. */
  const AddressKeys: set<string> := {"city", "street", "house_number"}

  /** The field names of `User`. */
  const UserKeys: set<string> := {"name", "age", "email", "is_employed", "address"}

  /** The fields of `User`, in declaration order. */
  datatype UserField = NameKey | AgeKey | EmailKey | IsEmployedKey | AddressKey

  /** The JSON key of a field of `User`. */
  function FieldKey(f: UserField): (k: string)
    ensures k in UserKeys
  {
    match f
    case NameKey => "name"
    case AgeKey => "age"
    case EmailKey => "email"
    case IsEmployedKey => "is_employed"
    case AddressKey => "address"
  }

  /** The fields of `Address`, in declaration order. */
  datatype AddressPart = CityKey | StreetKey | HouseNumberKey

  /** The JSON key of a field of `Address`. */
  function PartKey(p: AddressPart): (k: string)
    ensures k in AddressKeys
  {
    match p
    case CityKey => "city"
    case StreetKey => "street"
    case HouseNumberKey => "house_number"
  }

  /** `m` holds the fields of `a`, with their exact JSON types. */
  predicate AddressDenotes(m: map<string, Json>, a: Address) {
    && Lookup(m, "city") == Some(JStr(a.city))
    && Lookup(m, "street") == Some(JStr(a.street))
    && Lookup(m, "house_number") == Some(JInt(a.houseNumber))
  }

  /** The nested `address` field: a missing key, a non-object, or the object's own errors. */
  function AddressField(v: Option<Json>): (r: Checked<Address>)
    ensures r.Ok? ==> AddressValid(r.value)
    ensures r.Ok? <==> v.Some? && v.value.JObj? && AddressFrom(v.value.fields).Ok?
    ensures r.Failed? ==> |r.errors| > 0
    ensures v.None? ==> r == Fail(Missing)
    ensures v.Some? && v.value.JObj? ==> r == AddressFrom(v.value.fields)
    ensures v.Some? && !v.value.JObj? ==> r == Fail(ModelType)
  {
    match v
    case None => Fail(Missing)
    case Some(JObj(m)) => AddressFrom(m)
    case Some(_) => Fail(ModelType)
  }

  /** `Address.model_dump()`: an object with exactly the three fields of `Address`. */
  function AddressJson(a: Address): (r: Json)
    ensures r.JObj? && r.fields.Keys == AddressKeys
  {
    JObj(map["city" := JStr(a.city), "street" := JStr(a.street), "house_number" := JInt(a.houseNumber)])
  }

  /** `User.model_dump()`: an object with exactly the five fields of `User`, the address inline. */
  function UserJson(u: User): (r: Json)
    ensures r.JObj? && r.fields.Keys == UserKeys
    ensures r.fields["address"].JObj? && r.fields["address"].fields.Keys == AddressKeys
  {
    JObj(map[
      "name" := JStr(u.name),
      "age" := JInt(u.age),
      "email" := JStr(u.email),
      "is_employed" := JBool(u.isEmployed),
      "address" := AddressJson(u.address)])
  }

  /** An `Address` is accepted exactly when its fields carry the right types and AddressValid holds of them. */
  lemma AddressFromIff(m: map<string, Json>, a: Address)
    ensures AddressFrom(m) == Ok(a) <==> AddressDenotes(m, a) && AddressValid(a)
  {
  }

  /** A house number below 1 is reported at "house_number" as a `ge` violation. */
  lemma HouseNumberBelowOne(m: map<string, Json>, n: int)
    requires Lookup(m, "house_number") == Some(JInt(n)) && n < 1
    ensures AddressFrom(m).Failed?
    ensures ValidationError(["house_number"], GreaterThanEqual) in AddressFrom(m).errors
  {
    PrefixSingle("house_number", GreaterThanEqual);
    assert ErrorsAt("house_number", IntField(Lookup(m, "house_number"), HouseNumberRule))
        == [ValidationError(["house_number"], GreaterThanEqual)];
  }

  /** Nested under "address", a house number below 1 is reported at address.house_number. */
  lemma AddressFieldHouseNumber(v: Json, n: int)
    requires v.JObj? && Lookup(v.fields, "house_number") == Some(JInt(n)) && n < 1
    ensures AddressField(Some(v)).Failed?
    ensures ValidationError(["address", "house_number"], GreaterThanEqual) in ErrorsAt("address", AddressField(Some(v)))
  {
    var inner := ValidationError(["house_number"], GreaterThanEqual);
    var a := AddressField(Some(v));
    assert a.Failed? && inner in a.errors by {
      assert a == AddressFrom(v.fields);
      HouseNumberBelowOne(v.fields, n);
    }
    assert ["address"] + inner.loc == ["address", "house_number"];
    PrefixHas("address", a.errors, inner);
  }

  /** Selecting the errors below a path distributes over five concatenated parts. */
  lemma UnderConcat5(a: seq<ValidationError>, b: seq<ValidationError>, c: seq<ValidationError>,
                     d: seq<ValidationError>, e: seq<ValidationError>, path: seq<string>)
    ensures Under(a + b + c + d + e, path) == Under(a, path) + Under(b, path) + Under(c, path) + Under(d, path) + Under(e, path)
  {
    UnderAppend(a + b + c + d, e, path);
    UnderAppend(a + b + c, d, path);
    UnderAppend(a + b, c, path);
    UnderAppend(a, b, path);
  }

  /**
   * The errors of the five fields of `User`, each part located under its
   * field's name: below a path, only the part of the path's first name is left.
   */
  lemma UnderOneOfFive(n: seq<ValidationError>, a: seq<ValidationError>, em: seq<ValidationError>,
                       ie: seq<ValidationError>, ad: seq<ValidationError>, path: seq<string>)
    requires |path| > 0
    requires forall e :: e in n ==> |e.loc| > 0 && e.loc[0] == "name"
    requires forall e :: e in a ==> |e.loc| > 0 && e.loc[0] == "age"
    requires forall e :: e in em ==> |e.loc| > 0 && e.loc[0] == "email"
    requires forall e :: e in ie ==> |e.loc| > 0 && e.loc[0] == "is_employed"
    requires forall e :: e in ad ==> |e.loc| > 0 && e.loc[0] == "address"
    ensures path[0] == "name" ==> Under(n + a + em + ie + ad, path) == Under(n, path)
    ensures path[0] == "age" ==> Under(n + a + em + ie + ad, path) == Under(a, path)
    ensures path[0] == "email" ==> Under(n + a + em + ie + ad, path) == Under(em, path)
    ensures path[0] == "is_employed" ==> Under(n + a + em + ie + ad, path) == Under(ie, path)
    ensures path[0] == "address" ==> Under(n + a + em + ie + ad, path) == Under(ad, path)
  {
    UnderConcat5(n, a, em, ie, ad, path);
    if path[0] != "name" { UnderOtherKey(n, "name", path); }
    if path[0] != "age" { UnderOtherKey(a, "age", path); }
    if path[0] != "email" { UnderOtherKey(em, "email", path); }
    if path[0] != "is_employed" { UnderOtherKey(ie, "is_employed", path); }
    if path[0] != "address" { UnderOtherKey(ad, "address", path); }
  }

  /** The errors below a field's own name, when the field reports a single error: just that error. */
  lemma UnderSingle<T>(key: string, c: Checked<T>, kind: ErrorKind)
    requires c == Fail(kind)
    ensures Under(ErrorsAt(key, c), [key]) == [ValidationError([key], kind)]
  {
    PrefixSingle(key, kind);
    var e := ValidationError([key], kind);
    assert [e][1..] == [];
    assert Under([e], [key]) == [e] + Under([], [key]);
  }

  /**
   * An absent key of an `Address` object is reported once, as missing, and
   * it is the only error below that key.
   */
  lemma AddressMissingKey(m: map<string, Json>, p: AddressPart)
    requires PartKey(p) !in m
    ensures AddressFrom(m).Failed?
    ensures Under(AddressFrom(m).errors, [PartKey(p)]) == [ValidationError([PartKey(p)], Missing)]
  {
    var city := StrField(Lookup(m, "city"), CityRule);
    var street := StrField(Lookup(m, "street"), StreetRule);
    var house := IntField(Lookup(m, "house_number"), HouseNumberRule);
    var path := [PartKey(p)];
    var a, b, c := ErrorsAt("city", city), ErrorsAt("street", street), ErrorsAt("house_number", house);
    assert AddressFrom(m) == Failed(a + b + c);
    UnderOneOfThree(a, b, c, path);
    match p
    case CityKey => UnderSingle("city", city, Missing);
    case StreetKey => UnderSingle("street", street, Missing);
    case HouseNumberKey => UnderSingle("house_number", house, Missing);
  }

  /**
   * The errors of the three fields of `Address`, each part located under its
   * field's name: below a path, only the part of the path's first name is left.
   */
  lemma UnderOneOfThree(a: seq<ValidationError>, b: seq<ValidationError>, c: seq<ValidationError>, path: seq<string>)
    requires |path| > 0
    requires forall e :: e in a ==> |e.loc| > 0 && e.loc[0] == "city"
    requires forall e :: e in b ==> |e.loc| > 0 && e.loc[0] == "street"
    requires forall e :: e in c ==> |e.loc| > 0 && e.loc[0] == "house_number"
    ensures path[0] == "city" ==> Under(a + b + c, path) == Under(a, path)
    ensures path[0] == "street" ==> Under(a + b + c, path) == Under(b, path)
    ensures path[0] == "house_number" ==> Under(a + b + c, path) == Under(c, path)
  {
    UnderAppend(a + b, c, path);
    UnderAppend(a, b, path);
    if path[0] != "city" { UnderOtherKey(a, "city", path); }
    if path[0] != "street" { UnderOtherKey(b, "street", path); }
    if path[0] != "house_number" { UnderOtherKey(c, "house_number", path); }
  }

  /**
   * Nested under "address", an absent key of the address object is reported
   * once, as missing, at address.<key>, and nothing else is reported below it.
   */
  lemma AddressFieldMissingPart(v: Json, p: AddressPart)
    requires v.JObj? && PartKey(p) !in v.fields
    ensures AddressField(Some(v)).Failed?
    ensures Under(ErrorsAt("address", AddressField(Some(v))), ["address", PartKey(p)])
            == [ValidationError(["address", PartKey(p)], Missing)]
  {
    var key := PartKey(p);
    assert AddressField(Some(v)) == AddressFrom(v.fields);
    AddressMissingKey(v.fields, p);
    UnderPrefixSingle("address", AddressFrom(v.fields).errors, key, Missing);
  }

  /** A nested error that is alone below its path stays alone below that path once prefixed. */
  lemma UnderPrefixSingle(key: string, errors: seq<ValidationError>, field: string, kind: ErrorKind)
    requires Under(errors, [field]) == [ValidationError([field], kind)]
    ensures Under(Prefix(key, errors), [key, field]) == [ValidationError([key, field], kind)]
  {
    assert [key] + [field] == [key, field];
    UnderPrefix(key, errors, [field]);
    assert Prefix(key, [ValidationError([field], kind)]) == [ValidationError([key, field], kind)];
  }

  /** Prefixing errors with a field name keeps their types. */
  lemma ErrorsAtKinds<T>(key: string, c: Checked<T>, kinds: set<ErrorKind>)
    requires c.Failed? ==> forall d :: d in c.errors ==> d.kind in kinds
    ensures forall e :: e in ErrorsAt(key, c) ==> e.kind in kinds
  {
    if c.Failed? {
      forall e | e in ErrorsAt(key, c)
        ensures e.kind in kinds
      {
        var i :| 0 <= i < |ErrorsAt(key, c)| && ErrorsAt(key, c)[i] == e;
        assert c.errors[i] in c.errors;
      }
    }
  }

  /** A field's single error, once prefixed, keeps its type. */
  lemma SingleErrorKinds<T>(key: string, c: Checked<T>, kinds: set<ErrorKind>)
    requires c.Failed? ==> |c.errors| == 1 && c.errors[0].kind in kinds
    ensures forall e :: e in ErrorsAt(key, c) ==> e.kind in kinds
  {
    if c.Failed? {
      assert c.errors == [c.errors[0]];
      ErrorsAtKinds(key, c, kinds);
    }
  }

  /** The types of error that the fields of an address object can report, and `model_type` for a non-object. */
  const AddressKinds: set<ErrorKind> :=
    {Missing, ModelType, StringType, StringTooShort, StringTooLong, StringPatternMismatch, IntType, GreaterThanEqual, LessThanEqual}

  /** Validating an address object reports only the error types of its fields, or `model_type`. */
  lemma AddressErrorKinds(v: Option<Json>)
    ensures AddressField(v).Failed? ==>
      forall e :: e in AddressField(v).errors ==> e.kind in AddressKinds
  {
    var kinds := AddressKinds;
    if v.Some? && v.value.JObj? {
      var m := v.value.fields;
      var city := StrField(Lookup(m, "city"), CityRule);
      var street := StrField(Lookup(m, "street"), StreetRule);
      var house := IntField(Lookup(m, "house_number"), HouseNumberRule);
      ErrorsAtKinds("city", city, kinds);
      ErrorsAtKinds("street", street, kinds);
      ErrorsAtKinds("house_number", house, kinds);
    }
  }

  /** Dumping a valid address and validating the dump gives the same address back. */
  lemma AddressRoundTrip(a: Address)
    requires AddressValid(a)
    ensures AddressFrom(AddressJson(a).fields) == Ok(a)
  {
    AddressFromIff(AddressJson(a).fields, a);
  }
}
