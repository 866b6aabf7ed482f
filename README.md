# A verified model of the pydantic user validator

This project models the record validator in `main.ru.py`. It has three parts:

- the `Address` schema: `city` of at least 2 characters, `street` of at least 3, `house_number` of at least 1;
- the `User` schema: `name` of 2 to 120 characters drawn from `[a-zA-ZА-Яа-яЁё\- ]`, `age` in [0, 65], an `EmailStr` `email`, a boolean `is_employed` and a nested `address`;
- the before-hook `check_employment_status`, which rejects an employed user whose age is outside [18, 65].

It also models `validate_and_serialize_user` in two versions:

- as written (`ValidateAndSerializeAsWritten`): it returns the dump of the user, or an object whose single key is `"errors"`. When the hook rejects the record, it does not return: `json.dumps` raises a `TypeError`, because the hook's entry in `e.errors()` carries the `ValueError` object itself under `ctx` (see "## Findings");
- as evidently intended (`ValidateAndSerialize`): it always returns, and the errors object holds one entry per error, the hook's included.

Modules, one per component:

- `Errors` (`errors.dfy`): the error types, named after pydantic's.
- `Options`, `JsonValue` (`json.dfy`): the parsed JSON input. It also gives Python truthiness and `dict.get`.
- `Constraints` (`constraints.dfy`): the field constraints of the `Field(...)` declarations, one constant per constrained field (`CityRule`, `StreetRule`, `HouseNumberRule`, `NameRule`, `AgeRule`), and the class `NameClass` of the `name` pattern. The `name` pattern is a character class with a full-string `^[...]+$` matcher. The order in which pydantic checks a constrained string or integer is kept.
- `Schema` (`schema.dfy`): the typed `Address` and `User` records and the per-field validators. It also holds the `Address` validator, error locations and `model_dump`.
- `Validator` (`validator.dfy`): the hook, `User.model_validate_json` (`Validate`) and both versions of `validate_and_serialize_user`. It also holds the lemmas relating them.
- `Fixtures` (`fixtures.dfy`): the five sample records and their outcomes.

How validation behaves in the model, following the code:

- The hook runs on the raw values before any field is looked at. When it rejects a record, its error is the only one reported. Its location is empty because it is a model-level error. So an employed 70-year-old gets only the hook's error, not also the `le=65` error.
- When the hook lets a record through, every field is validated and all errors are kept, in declaration order. Each field gives at most one error: the first constraint it fails. Strings are checked for minimum length, then maximum length, then pattern. Integers are checked against `le`, then `ge`. The errors of the nested address are located under `"address"`.
- Keys that the schema does not name are ignored.
- The hook reads `is_employed` and `age` with `dict.get`, so a missing key reads as None. When `is_employed` is truthy and `age` is not an integer or a boolean, Python's comparison raises a `TypeError`. Only `ValidationError` is caught, so that error escapes. The model states this case as the precondition `HookDefined` and does not model a recovery from it.

## Model

| member | source | states |
|---|---|---|
| Constraints.InClassAt | main.ru.py:22 | a character is in a character class exactly when some range of the class contains it |
| Constraints.MatchesPlusIff | main.ru.py:22 | `^[cls]+$` matches exactly the non-empty strings whose every character is in the class |
| Constraints.NameClassIsNameChar | main.ru.py:22 | the class `[a-zA-ZА-Яа-яЁё\- ]` admits exactly Latin letters, U+0410..U+044F, Ё, ё, hyphen and space |
| Constraints.MatchesPlus | main.ru.py:22 | the full match of `^[cls]+$` needs at least one character, the first in the class; a one-character string matches exactly when that character is in the class |
| Constraints.NameRuleIff | main.ru.py:19-23 | a name passes `NameRule` (`min_length=2`, `max_length=120`, the pattern) exactly when it has 2 to 120 characters, each an admitted character |
| Constraints.StrViolation | main.ru.py:19-23 | no violation exactly when the string satisfies every constraint; otherwise one of too short, too long or pattern mismatch; too short exactly when below the minimum length; too long exactly when long enough but above the maximum, so the maximum is checked before the pattern |
| Constraints.IntViolation | main.ru.py:25-29 | no violation exactly when the number is within both inclusive bounds; a violation is `le` or `ge`; `le` exactly when the number is above it; `ge` exactly when `le` holds and the number is below `ge` |
| JsonValue.Truthy | main.ru.py:38 | the falsy values are exactly None, False, 0, "", [] and {} |
| JsonValue.Get | main.ru.py:36-37 | `dict.get` gives the stored value when the key is present, and None exactly when the key is absent or holds null |
| Schema.StrField | main.ru.py:5-12 | a `str` field is accepted exactly when it is a JSON string satisfying its constraints, and the value is that string; otherwise exactly one error at the field: `missing` exactly for an absent key, `string_type` for a present non-string, and for a string the first constraint it breaks |
| Schema.IntField | main.ru.py:13-16 | an `int` field is accepted exactly when it is a JSON integer within its bounds, and the value is that integer; otherwise exactly one error: `missing` exactly for an absent key, `int_type` for a present non-integer, and for an integer the bound it breaks |
| Schema.BoolField | main.ru.py:31 | `is_employed` is accepted exactly when it is a JSON boolean, and the value is that boolean; otherwise exactly one error: `missing` exactly for an absent key, `bool_type` for a present non-boolean |
| Schema.EmailField | main.ru.py:30 | `email` is accepted exactly when it is a string that the email check accepts, and the value is the normalized address; otherwise exactly one error: `missing` exactly for an absent key, `string_type` for a present non-string, the check's `value_error` for a string it rejects |
| Schema.Prefix | main.ru.py:32 | nested errors keep their order and kind, each location extended by the field name |
| Schema.ErrorsAt | main.ru.py:32 | a valid field contributes no error; every error it contributes is located under its name |
| Schema.AddressFrom | main.ru.py:4-16 | an accepted address satisfies all three bounds and is exactly what the object holds; a rejected one has at least one error, each located at one of its three fields |
| Schema.AddressField | main.ru.py:32 | the nested `address` is accepted exactly when it is an object whose fields are accepted; an absent key gives `missing`, a present non-object `model_type`, and an object exactly the outcome of validating it as an `Address` |
| Schema.AddressFromIff | main.ru.py:4-16 | an address object is accepted as `a` exactly when it holds `a`'s fields with their JSON types and `a` satisfies `CityRule`, `StreetRule` and `HouseNumberRule` (city of at least 2 characters, street of at least 3, house number at least 1) |
| Schema.AddressJson | main.ru.py:45 | the dump of an address is an object with exactly the keys `city`, `street`, `house_number` |
| Schema.UserJson | main.ru.py:45 | the dump of a user is an object with exactly the five keys of `User`, whose `address` is an object with exactly the keys of `Address` |
| Schema.Under | main.ru.py:32 | the errors selected below a location path are exactly the errors whose location starts with that path |
| Schema.UnderPrefix | main.ru.py:32 | selecting below `key.path` among errors nested under `key` is the same as selecting below `path` before nesting |
| Schema.UnderOneOfFive | main.ru.py:18-32 | when each field's errors are located under its own name, the errors of all five fields below one field's name are that field's errors alone |
| Schema.UnderOneOfThree | main.ru.py:4-16 | the same for the three fields of `Address` |
| Schema.AddressMissingKey | main.ru.py:4-16 | an absent key of an address object is reported once, as `missing`, at that key, and nothing else is reported below it |
| Schema.AddressFieldMissingPart | main.ru.py:32 | nested under `address`, an absent key of the address object is the only error below `address.<key>`, of type `missing` |
| Schema.AddressFieldHouseNumber | main.ru.py:13-16 | nested under `address`, a house number below 1 is reported at `address.house_number` as `greater_than_equal` |
| Schema.AddressErrorKinds | main.ru.py:4-16 | an address object reports only the error types of its three fields, or `model_type` for a non-object |
| Schema.AddressRoundTrip | main.ru.py:4-16 | validating the dump of a valid address gives the same address back |
| Schema.HouseNumberBelowOne | main.ru.py:13-16 | a house number below 1 is reported at `house_number` as a `greater_than_equal` error |
| Validator.HookDefined | main.ru.py:36-38 | the hook's comparison is defined whenever `is_employed` is falsy or `age` is an integer; with `age` absent or null it is defined exactly when `is_employed` is falsy |
| Validator.AsNumber | main.ru.py:38 | Python compares an integer as itself and a boolean as 1 for True and 0 for False |
| Validator.EmploymentAgeOk | main.ru.py:36-38 | the hook's condition holds whenever `is_employed` is falsy; for an integer age, exactly when `is_employed` is falsy or the age is in [18, 65]; for a boolean age (1 or 0), exactly when `is_employed` is falsy |
| Validator.CheckEmploymentStatus | main.ru.py:34-40 | the hook accepts exactly when `is_employed` is falsy or the age is in [18, 65]; on acceptance it returns its input unchanged; on rejection it gives exactly one error with an empty location |
| Validator.ValidateFields | main.ru.py:18-32 | the per-field pass accepts only a user whose name, age and address satisfy their constraints and whose fields are exactly those of the input; a rejection carries at least one error, each located at a field of `User` |
| Validator.FieldErrors | main.ru.py:18-32 | the per-field pass reports no error exactly when all five fields are accepted |
| Validator.FieldErrorsLocated | main.ru.py:18-32 | every error of the per-field pass is located under a field of `User` |
| Validator.FieldErrorKinds | main.ru.py:18-32 | no error of the per-field pass has the type of the hook's error |
| Validator.Validate | main.ru.py:18-40 | an accepted user satisfies every field constraint, has age in [0, 65], has age in [18, 65] if employed, and has a valid address; a rejection carries at least one error |
| Validator.ValidateIff | main.ru.py:18-40 | a record is accepted as `u` exactly when it holds `u`'s fields with their JSON types and `u` satisfies every constraint and the employment rule |
| Validator.KindName | main.ru.py:47 | every error type has a non-empty name; the name is `value_error` exactly for the email check's and the hook's errors |
| Validator.ErrorJson | main.ru.py:47 | an entry of `e.errors()` is an object with keys `type` and `loc`; `type` is the error's type name and `loc` lists its location in order |
| Validator.ErrorsJson | main.ru.py:47 | the errors object has the single key `errors`, holding one entry per error in order, each the entry of that error |
| Validator.EntryDumpable | main.ru.py:39-47 | only a `value_error` entry can fail to dump; the email check's entry dumps and the hook's does not, because its `ctx` holds the exception object |
| Validator.ValidateAndSerialize | main.ru.py:42-47 | as intended: the result is the dump of the accepted user or an object whose only key is `"errors"`, never both; the i-th entry is the entry of the i-th error |
| Validator.ValidateAndSerializeAsWritten | main.ru.py:42-47 | as written: it raises exactly when the hook rejects the record; whenever it returns, it returns what the intended version returns |
| Validator.DumpableIff | main.ru.py:34-47 | the errors of a rejected record can all be dumped exactly when the hook let the record through |
| Validator.UserRoundTrip | main.ru.py:42-45 | validating the dump of a valid user, whose email the check leaves unchanged, gives the same user back |
| Validator.SerializeIdempotent | main.ru.py:42-47 | serializing an accepted record, then validating and serializing that output, gives the same output |
| Validator.HookErrorIsSole | main.ru.py:34-40 | when the hook rejects, its error is the only error; a location-less error appears exactly when the hook rejects |
| Validator.ErrorsAfterHook | main.ru.py:34-40 | once the hook lets a record through, it is accepted exactly when the per-field pass finds no error, and its errors are those of that pass |
| Validator.MissingFieldReported | main.ru.py:18-32 | once past the hook, an absent field of `User` is reported as `missing` at its own name, and that is the only error below that name |
| Validator.MissingAddressFieldReported | main.ru.py:4-16 | once past the hook, an absent field of the nested address is reported as `missing` at `address.<field>`, and that is the only error below that path |
| Validator.AgeOutOfRangeReported | main.ru.py:25-29 | once past the hook, an age outside `AgeRule`'s [0, 65] is reported at `age` with the bound it breaks |
| Validator.OnlyAgeRejected | main.ru.py:25-29 | a record past the hook whose only bad field is an age above 65 is rejected with exactly one `less_than_equal` error at `age` |
| Validator.HouseNumberErrorPath | main.ru.py:13-16 | once past the hook, a house number below 1 is reported at `address.house_number` |
| Fixtures.RecordAccepted | main.ru.py:49-105 | a sample record whose fields satisfy every constraint is accepted as the user it spells out |
| Fixtures.RecordRejectedOnAge | main.ru.py:61-93 | a sample record of a user who is not employed, aged above 65, with otherwise valid fields is rejected with the single age error |
| Fixtures.Record1Accepted | main.ru.py:50-60 | record 1 (Иван Смирнов, 45, employed) is accepted |
| Fixtures.Record2Rejected | main.ru.py:61-71 | record 2 (Елена Иванова, 99, not employed) is rejected with one `less_than_equal` error at `age` |
| Fixtures.Record3Accepted | main.ru.py:72-82 | record 3 (Сергей Петров, 50, employed) is accepted |
| Fixtures.Record4Rejected | main.ru.py:83-93 | record 4 (Марина Курц, 99, not employed) is rejected with one `less_than_equal` error at `age` |
| Fixtures.Record5Accepted | main.ru.py:94-104 | record 5 (the three-character name А С, 55, employed) is accepted |
| Fixtures.EmployedSeventyOnlyHookError | main.ru.py:34-40 | an employed 70-year-old gets only the hook's error, not also the age bound error |
| Fixtures.EmployedSeventyRaises | main.ru.py:42-47 | for an employed 70-year-old, the function as written raises, while the intended version returns the errors object with the hook's single entry |

## Left out

- `EmailStr` (main.ru.py:30): its grammar belongs to the external email-validator library. Every function that validates a user takes it as the parameter `emailCheck`, which returns the normalized address or None. The sample lemmas only assume that the check accepts each sample address unchanged.
- Lax coercion: pydantic also accepts a digit string or a boolean for an `int` field, and `0`/`1` or strings such as `"true"` for a `bool` field. The model accepts only the exact JSON type and reports anything else as a type error.
- JSON parsing is not modelled. JSON numbers are integers only: floats, and their comparison in the hook, are not modelled. A top-level value that is not an object is not modelled.
- Error entries carry only the location and the type. The message text and the `input`, `ctx` and `url` entries of `e.errors()` are not modelled, except for one fact about `ctx`: the hook's entry holds the exception object, which `json.dumps` cannot encode (`EntryDumpable`). Pydantic reports some type errors under other names, such as `int_parsing`.
- `model_dump_json(indent=4)` and `json.dumps(..., indent=4)` (main.ru.py:45, 47): the model gives the JSON value. Text formatting and key order are not modelled, because a map has no order.
- The `TypeError` that escapes when `is_employed` is truthy and `age` is missing, null or not a number (main.ru.py:38): it is the precondition `HookDefined` of `CheckEmploymentStatus`, `Validate` and both versions of `validate_and_serialize_user`.
- `ValidateAndSerializeAsWritten` models the `TypeError` of `json.dumps` only as the fact that the call raises; the exception's message is not modelled.
- The demonstration driver (main.ru.py:107-114): the batch `json.loads`, the loop and `print` are I/O.
- Strings holding lone surrogates (possible in Python from JSON `\ud800`): the model's characters are Unicode scalar values.

## Findings

| source | as written | input that shows it | evidently intended | confidence | as-written member | corrected member |
|---|---|---|---|---|---|---|
| main.ru.py:47 | `json.dumps({"errors": e.errors()})` is given the hook's entry, whose `ctx` holds the `ValueError` object; `json.dumps` raises `TypeError` and the function returns nothing | an employed user aged 70 (record 1 with `age` 70) | return the errors object with one entry per error, the hook's included (for example by dumping `e.errors(include_context=False)` or `e.json()`) | not executed | Validator.ValidateAndSerializeAsWritten | Validator.ValidateAndSerialize |
