/**
 * The single-field constraints that the `Field(...)` declarations of
 * `Address` and `User` attach to their fields: string length bounds, the
 * `name` pattern, and inclusive integer bounds.
 */
module Constraints {
  import opened Options
  import opened Errors

  /** An inclusive range of code points: one item of a regular-expression character class. */
  datatype CharRange = CharRange(lo: char, hi: char)

  type CharClass = seq<CharRange>

  predicate InClass(cls: CharClass, c: char)
    decreases |cls|
  {
    |cls| > 0 && ((cls[0].lo <= c <= cls[0].hi) || InClass(cls[1..], c))
  }

  /** Full-string match of `^[cls]+$`: at least one character, each of them in the class. */
  predicate MatchesPlus(cls: CharClass, s: string)
    ensures MatchesPlus(cls, s) ==> |s| > 0 && InClass(cls, s[0])
    ensures |s| == 1 ==> (MatchesPlus(cls, s) <==> InClass(cls, s[0]))
    decreases |s|
  {
    |s| > 0 && InClass(cls, s[0]) && (|s| == 1 || MatchesPlus(cls, s[1..]))
  }

  /**
   * The class `[a-zA-ZА-Яа-яЁё\- ]` of the `name` pattern, item by item.
   * Ё (U+0401) and ё (U+0451) lie outside А-Я (U+0410..U+042F) and
   * а-я (U+0430..U+044F), hence their own items.
   */
  const NameClass: CharClass := [
    CharRange('a', 'z'),
    CharRange('A', 'Z'),
    CharRange('\U{0410}', '\U{042F}'),
    CharRange('\U{0430}', '\U{044F}'),
    CharRange('\U{0401}', '\U{0401}'),
    CharRange('\U{0451}', '\U{0451}'),
    CharRange('-', '-'),
    CharRange(' ', ' ')
  ]

  /**
   * The characters a name may hold, stated by code point independently of
   * the class: Latin letters, the basic Cyrillic block U+0410..U+044F
   * (А..я), Ё, ё, hyphen and space.
   */
  predicate NameChar(c: char) {
    || 'a' <= c <= 'z'
    || 'A' <= c <= 'Z'
    || '\U{0410}' <= c <= '\U{044F}'
    || c == '\U{0401}'
    || c == '\U{0451}'
    || c == '-'
    || c == ' '
  }

  lemma {:induction false} InClassAt(cls: CharClass, c: char)
    ensures InClass(cls, c) <==> exists k :: 0 <= k < |cls| && cls[k].lo <= c <= cls[k].hi
    decreases |cls|
  {
    if |cls| > 0 {
      InClassAt(cls[1..], c);
      if InClass(cls[1..], c) {
        var k :| 0 <= k < |cls[1..]| && cls[1..][k].lo <= c <= cls[1..][k].hi;
        assert cls[k + 1] == cls[1..][k];
      }
      if exists k :: 0 <= k < |cls| && cls[k].lo <= c <= cls[k].hi {
        var k :| 0 <= k < |cls| && cls[k].lo <= c <= cls[k].hi;
        if k > 0 {
          assert cls[1..][k - 1] == cls[k];
        }
      }
    }
  }

  /** The class of the `name` pattern admits exactly the characters NameChar describes. */
  lemma NameClassIsNameChar(c: char)
    ensures InClass(NameClass, c) <==> NameChar(c)
  {
    InClassAt(NameClass, c);
    if NameChar(c) {
      if 'a' <= c <= 'z' { assert NameClass[0].lo <= c <= NameClass[0].hi; }
      else if 'A' <= c <= 'Z' { assert NameClass[1].lo <= c <= NameClass[1].hi; }
      else if '\U{0410}' <= c <= '\U{042F}' { assert NameClass[2].lo <= c <= NameClass[2].hi; }
      else if '\U{0430}' <= c <= '\U{044F}' { assert NameClass[3].lo <= c <= NameClass[3].hi; }
      else if c == '\U{0401}' { assert NameClass[4].lo <= c <= NameClass[4].hi; }
      else if c == '\U{0451}' { assert NameClass[5].lo <= c <= NameClass[5].hi; }
      else if c == '-' { assert NameClass[6].lo <= c <= NameClass[6].hi; }
      else { assert NameClass[7].lo <= c <= NameClass[7].hi; }
    }
  }

  /** `^[cls]+$` matches exactly the non-empty strings all of whose characters are in the class. */
  lemma {:induction false} MatchesPlusIff(cls: CharClass, s: string)
    ensures MatchesPlus(cls, s) <==> |s| > 0 && forall i :: 0 <= i < |s| ==> InClass(cls, s[i])
    decreases |s|
  {
    if |s| > 1 {
      MatchesPlusIff(cls, s[1..]);
      assert forall i :: 1 <= i < |s| ==> s[i] == s[1..][i - 1];
    }
  }

  /** A string field's constraints; `pattern`, when present, is the class of `^[...]+$`. */
  datatype StrRule = StrRule(minLength: nat, maxLength: Option<nat>, pattern: Option<CharClass>)

  /** An integer field's inclusive bounds (`ge`, `le`). */
  datatype IntRule = IntRule(ge: Option<int>, le: Option<int>)

  predicate StrRuleHolds(rule: StrRule, s: string) {
    && rule.minLength <= |s|
    && (rule.maxLength.Some? ==> |s| <= rule.maxLength.value)
    && (rule.pattern.Some? ==> MatchesPlus(rule.pattern.value, s))
  }

  predicate IntRuleHolds(rule: IntRule, n: int) {
    && (rule.ge.Some? ==> rule.ge.value <= n)
    && (rule.le.Some? ==> n <= rule.le.value)
  }

  /** `Address.city`: `min_length=2`. */
  const CityRule := StrRule(2, None, None)
  /** `Address.street`: `min_length=3`. */
  const StreetRule := StrRule(3, None, None)
  /** `Address.house_number`: `ge=1`. */
  const HouseNumberRule := IntRule(Some(1), None)
  /** `User.name`: `min_length=2`, `max_length=120`, `pattern=^[a-zA-ZА-Яа-яЁё\- ]+$`. */
  const NameRule := StrRule(2, Some(120), Some(NameClass))
  /** `User.age`: `ge=0`, `le=65`. */
  const AgeRule := IntRule(Some(0), Some(65))

  /**
   * The first constraint of `rule` that `s` fails, in the order in which
   * pydantic checks a constrained string: minimum length, maximum length,
   * pattern. None when `s` satisfies them all.
   */
  function StrViolation(rule: StrRule, s: string): (r: Option<ErrorKind>)
    ensures r.None? <==> StrRuleHolds(rule, s)
    ensures r.Some? ==> r.value in {StringTooShort, StringTooLong, StringPatternMismatch}
    ensures r == Some(StringTooShort) <==> |s| < rule.minLength
    ensures r == Some(StringTooLong) <==> rule.minLength <= |s| && rule.maxLength.Some? && |s| > rule.maxLength.value
  {
    if |s| < rule.minLength then Some(StringTooShort)
    else if rule.maxLength.Some? && |s| > rule.maxLength.value then Some(StringTooLong)
    else if rule.pattern.Some? && !MatchesPlus(rule.pattern.value, s) then Some(StringPatternMismatch)
    else None
  }

  /**
   * The first bound of `rule` that `n` fails, in the order in which
   * pydantic checks a constrained integer: `le`, then `ge`.
   */
  function IntViolation(rule: IntRule, n: int): (r: Option<ErrorKind>)
    ensures r.None? <==> IntRuleHolds(rule, n)
    ensures r == Some(LessThanEqual) <==> rule.le.Some? && n > rule.le.value
    ensures r == Some(GreaterThanEqual) <==> (rule.le.Some? ==> n <= rule.le.value) && rule.ge.Some? && n < rule.ge.value
    ensures r.Some? ==> r.value in {LessThanEqual, GreaterThanEqual}
  {
    if rule.le.Some? && n > rule.le.value then Some(LessThanEqual)
    else if rule.ge.Some? && n < rule.ge.value then Some(GreaterThanEqual)
    else None
  }

  /** A name is accepted exactly when it has 2 to 120 characters, each a NameChar. */
  lemma NameRuleIff(s: string)
    ensures StrRuleHolds(NameRule, s) <==> 2 <= |s| <= 120 && forall i :: 0 <= i < |s| ==> NameChar(s[i])
  {
    MatchesPlusIff(NameClass, s);
    forall i | 0 <= i < |s| ensures InClass(NameClass, s[i]) <==> NameChar(s[i]) {
      NameClassIsNameChar(s[i]);
    }
  }
}
