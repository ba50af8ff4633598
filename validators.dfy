/** The input checks of unit_test.c: `parseScore`, `isValidDate` and
    `cleanReviewerName`, with the cases its unit tests exercise. */
module Validators {

  import opened Wrappers
  import CType
  import Strtol

  // ---------------------------------------------------------------- parseScore

  /** `parseScore`: the satisfaction score written by `s`, or -1 when `s` is
      NULL or empty, when `strtol` stops before the end of the string, or when
      the number is outside 1..5. */
  function ParseScore(s: Option<string>): (r: int)
    ensures r == -1 || 1 <= r <= 5
  {
    if s.None? || |s.value| == 0 then -1
    else
      var c := Strtol.Strtol(s.value);
      if c.end != |s.value| then -1
      else if c.value < 1 || c.value > 5 then -1
      else c.value
  }

  /** A string made of white space (up to `i`), an optional sign (up to `p`)
      and digits to the end is accepted exactly when there is no minus sign and
      the digits write 1 to 5, and then the score is that number. */
  lemma ParseScoreOfDigits(s: string, i: nat, p: nat)
    requires i <= p < |s|
    requires forall k :: 0 <= k < i ==> CType.IsSpace(s[k])
    requires p == i || (p == i + 1 && (s[i] == '+' || s[i] == '-'))
    requires forall k :: p <= k < |s| ==> CType.IsDigit(s[k])
    ensures var v := Strtol.DigitsValue(s, p, |s|);
            ParseScore(Some(s)) == if s[i] != '-' && 1 <= v <= 5 then v else -1
  {
    Strtol.StrtolAt(s, i, p, |s|);
  }

  /** Anything after the digits, even a single space, makes the score invalid. */
  lemma TrailingCharactersRejected(s: string, i: nat, p: nat, q: nat)
    requires i <= p < q < |s|
    requires forall k :: 0 <= k < i ==> CType.IsSpace(s[k])
    requires p == i || (p == i + 1 && (s[i] == '+' || s[i] == '-'))
    requires forall k :: p <= k < q ==> CType.IsDigit(s[k])
    requires !CType.IsDigit(s[q])
    ensures ParseScore(Some(s)) == -1
  {
    Strtol.StrtolAt(s, i, p, q);
  }

  /** Every accepted string is white space, an optional plus sign and a run of
      digits that reaches the end of the string and writes the score. */
  lemma ParseScoreAcceptsOnlyDigits(s: string)
    requires ParseScore(Some(s)) != -1
    ensures var i := Strtol.SkipSpace(s, 0);
            i < |s| && s[i] != '-' &&
            var p := if s[i] == '+' then i + 1 else i;
            p < |s| && (forall k :: p <= k < |s| ==> CType.IsDigit(s[k])) &&
            ParseScore(Some(s)) == Strtol.DigitsValue(s, p, |s|)
  {
  }

  /** The accepted cases of `test_parseScore` and the score of
      `test_csvParsing`. */
  lemma ParseScoreValidCases()
    ensures ParseScore(Some("1")) == 1 && ParseScore(Some("3")) == 3 && ParseScore(Some("5")) == 5
  {
    ParseScoreOfDigits("1", 0, 0);
    ParseScoreOfDigits("3", 0, 0);
    ParseScoreOfDigits("5", 0, 0);
  }

  /** The out-of-range cases of `test_parseScore`. */
  lemma ParseScoreOutOfRangeCases()
    ensures ParseScore(Some("0")) == -1 && ParseScore(Some("6")) == -1 && ParseScore(Some("10")) == -1
  {
    ParseScoreOfDigits("0", 0, 0);
    ParseScoreOfDigits("6", 0, 0);
    ParseScoreOfDigits("10", 0, 0);
    assert Strtol.DigitsValue("10", 0, 1) == 1;
  }

  /** The cases of `test_parseScore` with no number or nothing at all. */
  lemma ParseScoreMissingCases()
    ensures ParseScore(Some("abc")) == -1 && ParseScore(Some("")) == -1 && ParseScore(None) == -1
  {
    Strtol.NoDigitsNoConversion("abc");
  }

  /** The cases of `test_parseScore` with characters after the number. */
  lemma ParseScoreTrailingCases()
    ensures ParseScore(Some("3.5")) == -1 && ParseScore(Some("3abc")) == -1 && ParseScore(Some(" 3 ")) == -1
  {
    TrailingCharactersRejected("3.5", 0, 0, 1);
    TrailingCharactersRejected("3abc", 0, 0, 1);
    TrailingCharactersRejected(" 3 ", 1, 1, 2);
  }

  // --------------------------------------------------------------- isValidDate

  /** The shape `isValidDate` accepts: ten characters, dashes at positions 4
      and 7 and decimal digits everywhere else. Nothing checks that the month
      or the day exists. */
  predicate IsDateShaped(s: string) {
    |s| == 10 && s[4] == '-' && s[7] == '-' &&
    forall k :: 0 <= k < 10 && k != 4 && k != 7 ==> CType.IsDigit(s[k])
  }

  /** Every character of `s` is a decimal digit. */
  predicate AllDigits(s: string) {
    forall k :: 0 <= k < |s| ==> CType.IsDigit(s[k])
  }

  /** `isValidDate`: 1 for a string of the form YYYY-MM-DD, 0 otherwise
      (including NULL). */
  method IsValidDate(date: Option<string>) returns (r: int)
    ensures r == 0 || r == 1
    ensures r == 1 <==> date.Some? && IsDateShaped(date.value)
  {
    if date.None? || |date.value| != 10 {
      return 0;
    }
    var s := date.value;
    if s[4] != '-' || s[7] != '-' {
      return 0;
    }
    for i := 0 to 10
      invariant forall k :: 0 <= k < i && k != 4 && k != 7 ==> CType.IsDigit(s[k])
    {
      if i == 4 || i == 7 {
        continue;
      }
      if s[i] < '0' || s[i] > '9' {
        return 0;
      }
    }
    return 1;
  }

  /** A date-shaped string is four digits, a dash, two digits, a dash and two
      digits, and conversely. */
  lemma DateShapedIffParts(s: string)
    ensures IsDateShaped(s) <==>
              |s| == 10 && AllDigits(s[..4]) && s[4] == '-' && AllDigits(s[5..7]) && s[7] == '-' && AllDigits(s[8..])
  {
    if |s| == 10 && AllDigits(s[..4]) && AllDigits(s[5..7]) && AllDigits(s[8..]) {
      forall k | 0 <= k < 10 && k != 4 && k != 7
        ensures CType.IsDigit(s[k])
      {
        if k < 4 {
          assert s[..4][k] == s[k];
        } else if k < 7 {
          assert s[5..7][k - 5] == s[k];
        } else {
          assert s[8..][k - 8] == s[k];
        }
      }
    }
  }

  /** The cases of `test_isValidDate`. */
  lemma IsValidDateTestCases()
    ensures IsDateShaped("2025-08-01") && IsDateShaped("2025-12-31") && IsDateShaped("2000-01-01")
    ensures !IsDateShaped("2025/08/01") && !IsDateShaped("25-08-01") && !IsDateShaped("2025-8-1")
    ensures !IsDateShaped("2025-08-1") && !IsDateShaped("") && !IsDateShaped("2025-08-011")
    ensures !IsDateShaped("abcd-ef-gh")
  {
    assert !CType.IsDigit("abcd-ef-gh"[0]);
  }

  /** The score and date checks of `test_errorCases`, on the fields of the
      malformed line "John Doe,abc,invalid-date,". */
  lemma MalformedLineCases()
    ensures ParseScore(Some("abc")) == -1 && !IsDateShaped("invalid-date")
  {
    Strtol.NoDigitsNoConversion("abc");
  }

  // --------------------------------------------------------- cleanReviewerName

  /** The first position at or after `i` that does not hold a space (only
      ' ' counts, not other white space), or `|s|`. */
  function SkipBlanks(s: string, i: nat): (j: nat)
    requires i <= |s|
    ensures i <= j <= |s|
    ensures forall k :: i <= k < j ==> s[k] == ' '
    ensures j == |s| || s[j] != ' '
    decreases |s| - i
  {
    if i == |s| || s[i] != ' ' then i else SkipBlanks(s, i + 1)
  }

  /** Moving back from `j` over spaces, but not below `lo + 1`: the end of
      `s[lo..j]` once its trailing spaces are cut off. */
  function TrimEnd(s: string, lo: nat, j: nat): (e: nat)
    requires lo < j <= |s|
    ensures lo < e <= j
    ensures forall k :: e <= k < j ==> s[k] == ' '
    ensures e == lo + 1 || s[e - 1] != ' '
    decreases j
  {
    if j > lo + 1 && s[j - 1] == ' ' then TrimEnd(s, lo, j - 1) else j
  }

  /** When `s[lo]` is not a space, trimming stops just after a character that
      is not a space either. */
  lemma TrimEndStopsAtNonBlank(s: string, lo: nat, j: nat)
    requires lo < j <= |s| && s[lo] != ' '
    ensures s[TrimEnd(s, lo, j) - 1] != ' '
  {
  }

  /** What `cleanReviewerName` computes: NULL for NULL, for the empty string
      and for a string of spaces only, otherwise the string without its
      leading and trailing spaces. */
  function Cleaned(name: Option<string>): Option<string> {
    if name.None? then None
    else
      var s := name.value;
      var start := SkipBlanks(s, 0);
      if start == |s| then None else Some(s[start..TrimEnd(s, start, |s|)])
  }

  /** `cleanReviewerName`: one loop moves the start past leading spaces, a
      second moves the end back over trailing ones, and the characters between
      are copied. */
  method CleanReviewerName(name: Option<string>) returns (r: Option<string>)
    ensures r == Cleaned(name)
  {
    if name.None? || |name.value| == 0 {
      return None;
    }
    var s := name.value;
    var start := 0;
    while start < |s| && s[start] == ' '
      invariant 0 <= start <= |s|
      invariant SkipBlanks(s, start) == SkipBlanks(s, 0)
    {
      start := start + 1;
    }
    if start == |s| {
      return None;
    }
    var end := |s| - 1;
    while end > start && s[end] == ' '
      invariant start <= end < |s|
      invariant TrimEnd(s, start, end + 1) == TrimEnd(s, start, |s|)
    {
      end := end - 1;
    }
    r := Some(s[start..end + 1]);
  }

  /** A cleaned name is the unchanged stretch of the original from its first
      to its last character that is not a space; only spaces lie before and
      after it. */
  lemma CleanedIsTrimmed(name: string)
    requires Cleaned(Some(name)).Some?
    ensures var i := SkipBlanks(name, 0);
            i < |name| &&
            var e := TrimEnd(name, i, |name|);
            Cleaned(Some(name)) == Some(name[i..e]) &&
            name[i] != ' ' && name[e - 1] != ' ' &&
            (forall k :: 0 <= k < i ==> name[k] == ' ') &&
            (forall k :: e <= k < |name| ==> name[k] == ' ')
  {
    TrimEndStopsAtNonBlank(name, SkipBlanks(name, 0), |name|);
  }

  /** NULL comes back exactly for NULL and for strings of spaces only. */
  lemma CleanedNoneIffBlank(name: Option<string>)
    ensures Cleaned(name).None? <==> name.None? || forall k :: 0 <= k < |name.value| ==> name.value[k] == ' '
  {
  }

  /** Cleaning an already cleaned name changes nothing. */
  lemma CleanedIdempotent(name: Option<string>)
    ensures Cleaned(Cleaned(name)) == Cleaned(name)
  {
    if Cleaned(name).Some? {
      var t := Cleaned(name).value;
      assert SkipBlanks(t, 0) == 0;
      assert TrimEnd(t, 0, |t|) == |t|;
      assert t[0..|t|] == t;
    }
  }

  /** Conversely, a name with no space at either end, padded with spaces on
      both sides, is cleaned back to itself. */
  lemma CleanedOfParts(pre: string, t: string, post: string)
    requires forall k :: 0 <= k < |pre| ==> pre[k] == ' '
    requires forall k :: 0 <= k < |post| ==> post[k] == ' '
    requires |t| > 0 && t[0] != ' ' && t[|t| - 1] != ' '
    ensures Cleaned(Some(pre + t + post)) == Some(t)
  {
    var s := pre + t + post;
    assert s[|pre|] == t[0];
    assert s[|pre| + |t| - 1] == t[|t| - 1];
    assert s[|pre|..|pre| + |t|] == t;
  }

  /** The cases of `test_cleanReviewerName` without padding. */
  lemma CleanedUnpaddedCases()
    ensures Cleaned(Some("John Doe")) == Some("John Doe")
    ensures Cleaned(Some("Jane Smith")) == Some("Jane Smith")
  {
    CleanedOfParts("", "John Doe", "");
    assert "" + "John Doe" + "" == "John Doe";
    CleanedOfParts("", "Jane Smith", "");
    assert "" + "Jane Smith" + "" == "Jane Smith";
  }

  /** The cases of `test_cleanReviewerName` with spaces around the name. */
  lemma CleanedPaddedCases()
    ensures Cleaned(Some("  John Doe  ")) == Some("John Doe")
    ensures Cleaned(Some(" Sarah Wilson ")) == Some("Sarah Wilson")
  {
    CleanedOfParts("  ", "John Doe", "  ");
    assert "  " + "John Doe" + "  " == "  John Doe  ";
    CleanedOfParts(" ", "Sarah Wilson", " ");
    assert " " + "Sarah Wilson" + " " == " Sarah Wilson ";
  }

  /** The NULL cases of `test_cleanReviewerName`. */
  lemma CleanedBlankCases()
    ensures Cleaned(Some("")) == None && Cleaned(Some("   ")) == None && Cleaned(None) == None
  {
    CleanedNoneIffBlank(Some("   "));
  }
}
