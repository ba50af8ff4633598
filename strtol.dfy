/** `strtol` with base 10, as section 7.22.1.4 of ISO/IEC 9899:2011 describes
    it: optional white space, an optional sign, then a non-empty run of decimal
    digits; the value is clamped to the range of `long` (64 bits on LP64
    platforms) and the end pointer is left just after the last digit, or at
    the start of the string when no digits were found. */
module Strtol {

  import CType

  /** `LONG_MAX` and `LONG_MIN` for a 64-bit `long`. */
  const LongMax: int := 0x7FFF_FFFF_FFFF_FFFF
  const LongMin: int := -0x8000_0000_0000_0000

  /** The value returned and the position `*endptr` points at. */
  datatype Conversion = Conversion(value: int, end: nat)

  /** The first position at or after `i` that is not white space. */
  function SkipSpace(s: string, i: nat): (j: nat)
    requires i <= |s|
    ensures i <= j <= |s|
    ensures forall k :: i <= k < j ==> CType.IsSpace(s[k])
    ensures j == |s| || !CType.IsSpace(s[j])
    decreases |s| - i
  {
    if i == |s| || !CType.IsSpace(s[i]) then i else SkipSpace(s, i + 1)
  }

  /** The first position at or after `i` that is not a decimal digit. */
  function DigitsEnd(s: string, i: nat): (j: nat)
    requires i <= |s|
    ensures i <= j <= |s|
    ensures forall k :: i <= k < j ==> CType.IsDigit(s[k])
    ensures j == |s| || !CType.IsDigit(s[j])
    decreases |s| - i
  {
    if i == |s| || !CType.IsDigit(s[i]) then i else DigitsEnd(s, i + 1)
  }

  /** The decimal number written by the digits `s[i..j]`. */
  function DigitsValue(s: string, i: nat, j: nat): (v: nat)
    requires i <= j <= |s|
    requires forall k :: i <= k < j ==> CType.IsDigit(s[k])
    decreases j - i
  {
    if j == i then 0 else 10 * DigitsValue(s, i, j - 1) + CType.DigitValue(s[j - 1])
  }

  /** An out-of-range value is replaced by the nearest bound ("the value of the
      macro LONG_MAX or LONG_MIN is returned"). */
  function ClampToLong(v: int): (r: int)
    ensures LongMin <= r <= LongMax
    ensures LongMin <= v <= LongMax ==> r == v
    ensures v > LongMax ==> r == LongMax
    ensures v < LongMin ==> r == LongMin
  {
    if v > LongMax then LongMax else if v < LongMin then LongMin else v
  }

  /** `strtol(s, &endptr, 10)`. */
  function Strtol(s: string): (c: Conversion)
    ensures c.end <= |s|
    ensures LongMin <= c.value <= LongMax
  {
    var i := SkipSpace(s, 0);
    var negative := i < |s| && s[i] == '-';
    var p := if i < |s| && (s[i] == '+' || s[i] == '-') then i + 1 else i;
    var q := DigitsEnd(s, p);
    if q == p then Conversion(0, 0)
    else
      var magnitude := DigitsValue(s, p, q);
      Conversion(ClampToLong(if negative then -(magnitude as int) else magnitude), q)
  }

  /** A string with no digit after its white space and sign converts to 0 and
      leaves the end pointer at the start of the string. */
  lemma NoDigitsNoConversion(s: string)
    requires var i := SkipSpace(s, 0);
             var p := if i < |s| && (s[i] == '+' || s[i] == '-') then i + 1 else i;
             p == |s| || !CType.IsDigit(s[p])
    ensures Strtol(s) == Conversion(0, 0)
  {
  }

  /** `strtol` on a string whose white space ends at `i`, whose sign (if any)
      ends at `p` and whose digits end at `q`. */
  lemma StrtolAt(s: string, i: nat, p: nat, q: nat)
    requires i <= p < q <= |s|
    requires forall k :: 0 <= k < i ==> CType.IsSpace(s[k])
    requires !CType.IsSpace(s[i])
    requires p == if s[i] == '+' || s[i] == '-' then i + 1 else i
    requires forall k :: p <= k < q ==> CType.IsDigit(s[k])
    requires q == |s| || !CType.IsDigit(s[q])
    ensures Strtol(s) == Conversion(ClampToLong(if s[i] == '-' then -(DigitsValue(s, p, q) as int) else DigitsValue(s, p, q)), q)
  {
    SkipSpaceOver(s, i);
    DigitsEndOver(s, p, q - p);
  }

  /** White space at the front of `s` is skipped entirely. */
  lemma SkipSpaceOver(s: string, i: nat)
    requires i < |s|
    requires forall k :: 0 <= k < i ==> CType.IsSpace(s[k])
    requires !CType.IsSpace(s[i])
    ensures SkipSpace(s, 0) == i
  {
  }

  /** A run of `n` digits at `p` followed by a non-digit ends at `p + n`. */
  lemma DigitsEndOver(s: string, p: nat, n: nat)
    requires p + n <= |s|
    requires forall k :: p <= k < p + n ==> CType.IsDigit(s[k])
    requires p + n == |s| || !CType.IsDigit(s[p + n])
    ensures DigitsEnd(s, p) == p + n
  {
  }
}
