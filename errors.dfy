/**
 * The error types that validation reports, named after pydantic's: a missing
 * key, a value of the wrong JSON type, a broken field constraint, and the
 * value errors raised by the email check and by the before-hook.
 */
module Errors {

  datatype ErrorKind =
    | Missing                // missing
    | StringType             // string_type
    | IntType                // int_type / int_parsing
    | BoolType               // bool_type / bool_parsing
    | ModelType              // model_type: a nested model given something that is not an object
    | StringTooShort         // string_too_short
    | StringTooLong          // string_too_long
    | StringPatternMismatch  // string_pattern_mismatch
    | GreaterThanEqual       // greater_than_equal
    | LessThanEqual          // less_than_equal
    | EmailInvalid           // value_error raised by the email check
    | HookValueError         // value_error raised by the before-hook
}
