/**
 * The five sample records of the demonstration batch, each with the outcome
 * that validation gives it. The email check is external, so each lemma
 * assumes of it only that it accepts the record's address as already normal.
 */
module Fixtures {
  import opened Options
  import opened Errors
  import opened JsonValue
  import opened Constraints
  import opened Schema
  import opened Validator

  function Record(name: string, age: int, email: string, isEmployed: bool,
                  city: string, street: string, houseNumber: int): map<string, Json>
  {
    map[
      "name" := JStr(name),
      "age" := JInt(age),
      "email" := JStr(email),
      "is_employed" := JBool(isEmployed),
      "address" := JObj(map["city" := JStr(city), "street" := JStr(street), "house_number" := JInt(houseNumber)])]
  }

  const Record1 := Record("Иван Смирнов", 45, "ivan.smirnov@gmail.com", true, "Одесса", "Александровский проспект", 12)
  const Record2 := Record("Елена Иванова", 99, "elena.ivanova@gmail.com", false, "Николаев", "проспект Мира", 34)
  const Record3 := Record("Сергей Петров", 50, "sergey.petrov@gmail.com", true, "Новосибирск", "Ленина", 56)
  const Record4 := Record("Марина Курц", 99, "marina.kurz@gmail.com", false, "Екатеринбург", "Малышева", 78)
  const Record5 := Record("А С", 55, "alexander.sokolov@gmail.com", true, "Владивосток", "Океанский проспект", 90)

  /** Record 1 with the age raised to 70: employed, yet above the employment range. */
  const EmployedSeventy := Record("Иван Смирнов", 70, "ivan.smirnov@gmail.com", true, "Одесса", "Александровский проспект", 12)

  /** The user a sample record denotes when every one of its fields is accepted. */
  function RecordUser(name: string, age: int, email: string, isEmployed: bool,
                      city: string, street: string, houseNumber: int): User
  {
    User(name, age, email, isEmployed, Address(city, street, houseNumber))
  }

  /** A sample record whose fields all satisfy their constraints is accepted as the user it spells out. */
  lemma RecordAccepted(name: string, age: int, email: string, isEmployed: bool,
                       city: string, street: string, houseNumber: int,
                       emailCheck: string -> Option<string>)
    requires UserValid(RecordUser(name, age, email, isEmployed, city, street, houseNumber))
    requires emailCheck(email) == Some(email)
    ensures HookDefined(Record(name, age, email, isEmployed, city, street, houseNumber))
    ensures Validate(Record(name, age, email, isEmployed, city, street, houseNumber), emailCheck)
            == Valid(RecordUser(name, age, email, isEmployed, city, street, houseNumber))
  {
    var values := Record(name, age, email, isEmployed, city, street, houseNumber);
    var u := RecordUser(name, age, email, isEmployed, city, street, houseNumber);
    assert Denotes(values, u, emailCheck);
    ValidateIff(values, emailCheck, u);
  }

  /**
   * A sample record of a user who is not employed, whose age is above 65 and
   * whose other fields are all acceptable, is rejected with one error: the
   * `le` bound of "age".
   */
  lemma RecordRejectedOnAge(name: string, age: int, email: string,
                            city: string, street: string, houseNumber: int,
                            emailCheck: string -> Option<string>)
    requires NameValid(name) && age > 65
    requires AddressValid(Address(city, street, houseNumber))
    requires emailCheck(email) == Some(email)
    ensures HookDefined(Record(name, age, email, false, city, street, houseNumber))
    ensures Validate(Record(name, age, email, false, city, street, houseNumber), emailCheck)
            == Invalid([ValidationError(["age"], LessThanEqual)])
  {
    var values := Record(name, age, email, false, city, street, houseNumber);
    RecordFields(name, age, email, false, city, street, houseNumber);
    NameRuleIff(name);
    OnlyAgeRejected(values, emailCheck, age);
  }

  /** The fields of a sample record, looked up by name. */
  lemma RecordFields(name: string, age: int, email: string, isEmployed: bool,
                     city: string, street: string, houseNumber: int)
    ensures var values := Record(name, age, email, isEmployed, city, street, houseNumber);
      && Lookup(values, "name") == Some(JStr(name))
      && Lookup(values, "age") == Some(JInt(age))
      && Lookup(values, "email") == Some(JStr(email))
      && Lookup(values, "is_employed") == Some(JBool(isEmployed))
      && Lookup(values, "address") == Some(AddressJson(Address(city, street, houseNumber)))
  {
  }

  /** Record 1 (Иван Смирнов, 45, employed) is accepted. */
  lemma Record1Accepted(emailCheck: string -> Option<string>)
    requires emailCheck("ivan.smirnov@gmail.com") == Some("ivan.smirnov@gmail.com")
    ensures HookDefined(Record1)
    ensures Validate(Record1, emailCheck) == Valid(RecordUser("Иван Смирнов", 45, "ivan.smirnov@gmail.com", true, "Одесса", "Александровский проспект", 12))
  {
    RecordAccepted("Иван Смирнов", 45, "ivan.smirnov@gmail.com", true, "Одесса", "Александровский проспект", 12, emailCheck);
  }

  /** Record 2 (Елена Иванова, 99, not employed) is rejected on "age" alone. */
  lemma Record2Rejected(emailCheck: string -> Option<string>)
    requires emailCheck("elena.ivanova@gmail.com") == Some("elena.ivanova@gmail.com")
    ensures HookDefined(Record2)
    ensures Validate(Record2, emailCheck) == Invalid([ValidationError(["age"], LessThanEqual)])
  {
    RecordRejectedOnAge("Елена Иванова", 99, "elena.ivanova@gmail.com", "Николаев", "проспект Мира", 34, emailCheck);
  }

  /** Record 3 (Сергей Петров, 50, employed) is accepted. */
  lemma Record3Accepted(emailCheck: string -> Option<string>)
    requires emailCheck("sergey.petrov@gmail.com") == Some("sergey.petrov@gmail.com")
    ensures HookDefined(Record3)
    ensures Validate(Record3, emailCheck) == Valid(RecordUser("Сергей Петров", 50, "sergey.petrov@gmail.com", true, "Новосибирск", "Ленина", 56))
  {
    RecordAccepted("Сергей Петров", 50, "sergey.petrov@gmail.com", true, "Новосибирск", "Ленина", 56, emailCheck);
  }

  /** Record 4 (Марина Курц, 99, not employed) is rejected on "age" alone. */
  lemma Record4Rejected(emailCheck: string -> Option<string>)
    requires emailCheck("marina.kurz@gmail.com") == Some("marina.kurz@gmail.com")
    ensures HookDefined(Record4)
    ensures Validate(Record4, emailCheck) == Invalid([ValidationError(["age"], LessThanEqual)])
  {
    RecordRejectedOnAge("Марина Курц", 99, "marina.kurz@gmail.com", "Екатеринбург", "Малышева", 78, emailCheck);
  }

  /** Record 5 (А С, a three-character name, 55, employed) is accepted. */
  lemma Record5Accepted(emailCheck: string -> Option<string>)
    requires emailCheck("alexander.sokolov@gmail.com") == Some("alexander.sokolov@gmail.com")
    ensures HookDefined(Record5)
    ensures Validate(Record5, emailCheck) == Valid(RecordUser("А С", 55, "alexander.sokolov@gmail.com", true, "Владивосток", "Океанский проспект", 90))
  {
    RecordAccepted("А С", 55, "alexander.sokolov@gmail.com", true, "Владивосток", "Океанский проспект", 90, emailCheck);
  }

  /**
   * An employed 70-year-old breaks both the age bound and the employment
   * rule, yet only the hook's error is reported: the hook runs first and
   * the field checks never run.
   */
  lemma EmployedSeventyOnlyHookError(emailCheck: string -> Option<string>)
    ensures HookDefined(EmployedSeventy)
    ensures Validate(EmployedSeventy, emailCheck) == Invalid([HookError])
  {
    HookErrorIsSole(EmployedSeventy, emailCheck);
  }

  /**
   * For the same record, `validate_and_serialize_user` as written does not
   * return: the hook's entry cannot be dumped, so `json.dumps` raises. As
   * intended, it returns the errors object with the hook's single entry.
   */
  lemma EmployedSeventyRaises(emailCheck: string -> Option<string>)
    ensures HookDefined(EmployedSeventy)
    ensures ValidateAndSerializeAsWritten(EmployedSeventy, emailCheck) == Raises
    ensures ValidateAndSerialize(EmployedSeventy, emailCheck) == ErrorsJson([HookError])
  {
    EmployedSeventyOnlyHookError(emailCheck);
  }
}
