/**
 * JavaScript values as the storefront's handlers see them: strings are
 * sequences of UTF-16 code units (what `.length` and a regex without the `u`
 * flag count), and an optional request field is falsy when it is absent,
 * null or the empty string.
 */
module JsValues {

  datatype Option<+T> = None | Some(value: T)

  /** One UTF-16 code unit. */
  newtype CodeUnit = x: int | 0 <= x < 0x1_0000

  type JsString = seq<CodeUnit>

  const Space: CodeUnit := 0x20

  /** The four code units a regex `.` does not match (line feed, carriage return, U+2028, U+2029). */
  predicate IsLineTerminator(c: CodeUnit)
  {
    c == 0x0A || c == 0x0D || c == 0x2028 || c == 0x2029
  }

  /** The regex class `[A-Z]`: ASCII upper case only. */
  predicate IsAsciiUpper(c: CodeUnit)
  {
    0x41 <= c <= 0x5A
  }

  /** Truthiness of an optional string field: `undefined`, `null` and `""` are falsy. */
  predicate Truthy(v: Option<JsString>)
  {
    v.Some? && v.value != []
  }
}
