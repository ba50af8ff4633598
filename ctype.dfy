/** The character classification and conversion functions of <ctype.h> that the
    review system relies on, as they behave in the "C" locale (plain ASCII). */
module CType {

  /** `isupper` in the "C" locale. */
  predicate IsUpper(c: char) {
    'A' <= c <= 'Z'
  }

  /** `isdigit`: the ten decimal digits. */
  predicate IsDigit(c: char) {
    '0' <= c <= '9'
  }

  /** `isspace` in the "C" locale: space, \t, \n, \v, \f and \r. */
  predicate IsSpace(c: char) {
    c == ' ' || c == '\t' || c == '\n' || c == '\U{000B}' || c == '\U{000C}' || c == '\r'
  }

  /** `tolower` in the "C" locale: upper-case ASCII letters map to lower case,
      every other character is returned unchanged. */
  function ToLower(c: char): char {
    if IsUpper(c) then (c as int + 32) as char else c
  }

  /** The numeric value of a decimal digit. */
  function DigitValue(c: char): nat
    requires IsDigit(c)
  {
    c as int - '0' as int
  }
}
