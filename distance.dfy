/** Case-insensitive Levenshtein distance, as used by the typo-tolerant name
    search of main.c: `min3`, `toLowerCase` and `editDistance`. */
module Distance {

  import opened Wrappers
  import CType

  /** The sentinel `editDistance` returns when either argument is a NULL
      pointer. */
  const Unreachable := 999

  /** `min3`: the smallest of three integers. */
  function Min3(a: int, b: int, c: int): (m: int)
    ensures m <= a && m <= b && m <= c
    ensures m == a || m == b || m == c
  {
    var m := a;
    var m := if b < m then b else m;
    if c < m then c else m
  }

  /** The characters of `s`, each passed through `tolower`. */
  function LowerString(s: string): (r: string)
    ensures |r| == |s|
    ensures forall k :: 0 <= k < |s| ==> r[k] == CType.ToLower(s[k])
  {
    if s == [] then [] else [CType.ToLower(s[0])] + LowerString(s[1..])
  }

  /** `toLowerCase`: NULL for a NULL argument, otherwise a fresh lower-case copy. */
  function ToLowerCase(s: Option<string>): (r: Option<string>)
    ensures r.None? <==> s.None?
    ensures r.Some? ==> |r.value| == |s.value| && !exists k :: 0 <= k < |r.value| && CType.IsUpper(r.value[k])
    ensures r.Some? ==> forall k :: 0 <= k < |r.value| ==> r.value[k] == CType.ToLower(s.value[k])
  {
    match s
    case None => None
    case Some(t) => Some(LowerString(t))
  }

  /** Two strings are equal once every character is passed through `tolower`. */
  predicate SameIgnoringCase(a: string, b: string) {
    |a| == |b| && forall k :: 0 <= k < |a| ==> CType.ToLower(a[k]) == CType.ToLower(b[k])
  }

  /** The recurrence that `editDistance` tabulates: the distance between the
      first `i` characters of `a` and the first `j` characters of `b`. Deleting
      or inserting a character costs 1, and so does substituting one; a pair of
      last characters that agree after `tolower` is kept for free. */
  function PrefixDistance(a: string, b: string, i: nat, j: nat): nat
    requires i <= |a| && j <= |b|
    decreases i + j
  {
    if i == 0 then j
    else if j == 0 then i
    else if CType.ToLower(a[i - 1]) == CType.ToLower(b[j - 1]) then PrefixDistance(a, b, i - 1, j - 1)
    else 1 + Min3(PrefixDistance(a, b, i - 1, j),
                  PrefixDistance(a, b, i, j - 1),
                  PrefixDistance(a, b, i - 1, j - 1))
  }

  /** The case-insensitive edit distance of two whole strings. */
  function Levenshtein(a: string, b: string): nat {
    PrefixDistance(a, b, |a|, |b|)
  }

  /** `editDistance`: fills the (len1+1) x (len2+1) table row by row. */
  method EditDistance(str1: Option<string>, str2: Option<string>) returns (d: int)
    ensures str1.None? || str2.None? ==> d == Unreachable
    ensures str1.Some? && str2.Some? ==> d == Levenshtein(str1.value, str2.value)
    ensures str1.Some? && str2.Some? ==> 0 <= d <= if |str1.value| < |str2.value| then |str2.value| else |str1.value|
  {
    if str1.None? || str2.None? {
      return Unreachable;
    }
    var a, b := str1.value, str2.value;
    var len1, len2 := |a|, |b|;
    var dp := new int[len1 + 1, len2 + 1];
    for i := 0 to len1 + 1
      invariant forall p :: 0 <= p < i ==> dp[p, 0] == p
    {
      dp[i, 0] := i;
    }
    for j := 0 to len2 + 1
      invariant forall p :: 0 <= p <= len1 ==> dp[p, 0] == p
      invariant forall q :: 0 <= q < j ==> dp[0, q] == q
    {
      dp[0, j] := j;
    }
    for i := 1 to len1 + 1
      invariant forall p, q :: 0 <= p < i && 0 <= q <= len2 ==> dp[p, q] == PrefixDistance(a, b, p, q)
      invariant forall p :: i <= p <= len1 ==> dp[p, 0] == p
    {
      FillRow(dp, a, b, i);
    }
    d := dp[len1, len2];
    DistanceAtMostLonger(a, b, len1, len2);
  }

  /** One iteration of the outer loop of `editDistance` (one full run of its
      inner loop): fills row `i` of the table
      from row `i - 1` and leaves every other row as it was. */
  method FillRow(dp: array2<int>, a: string, b: string, i: nat)
    requires 0 < i <= |a| && dp.Length0 == |a| + 1 && dp.Length1 == |b| + 1
    requires forall p, q :: 0 <= p < i && 0 <= q <= |b| ==> dp[p, q] == PrefixDistance(a, b, p, q)
    requires dp[i, 0] == i
    modifies dp
    ensures forall q :: 0 <= q <= |b| ==> dp[i, q] == PrefixDistance(a, b, i, q)
    ensures forall p, q :: 0 <= p < dp.Length0 && p != i && 0 <= q < dp.Length1 ==> dp[p, q] == old(dp[p, q])
  {
    for j := 1 to |b| + 1
      invariant forall q :: 0 <= q < j ==> dp[i, q] == PrefixDistance(a, b, i, q)
      invariant forall p, q :: 0 <= p < dp.Length0 && p != i && 0 <= q < dp.Length1 ==> dp[p, q] == old(dp[p, q])
    {
      FillCell(dp, a, b, i, j);
    }
  }

  /** One pass of the inner loop of `editDistance`: fills cell (i, j) from its
      three neighbours. */
  method FillCell(dp: array2<int>, a: string, b: string, i: nat, j: nat)
    requires 0 < i <= |a| && 0 < j <= |b| && dp.Length0 == |a| + 1 && dp.Length1 == |b| + 1
    requires dp[i - 1, j] == PrefixDistance(a, b, i - 1, j) && dp[i, j - 1] == PrefixDistance(a, b, i, j - 1)
    requires dp[i - 1, j - 1] == PrefixDistance(a, b, i - 1, j - 1)
    modifies dp
    ensures dp[i, j] == PrefixDistance(a, b, i, j)
    ensures forall p, q :: 0 <= p < dp.Length0 && 0 <= q < dp.Length1 && (p != i || q != j) ==> dp[p, q] == old(dp[p, q])
  {
    var up, left, diagonal := dp[i - 1, j], dp[i, j - 1], dp[i - 1, j - 1];
    if CType.ToLower(a[i - 1]) == CType.ToLower(b[j - 1]) {
      dp[i, j] := diagonal;
    } else {
      dp[i, j] := 1 + Min3(up, left, diagonal);
    }
  }

  /** The distance never exceeds the longer of the two prefixes. */
  lemma {:induction false} DistanceAtMostLonger(a: string, b: string, i: nat, j: nat)
    requires i <= |a| && j <= |b|
    ensures PrefixDistance(a, b, i, j) <= if i < j then j else i
  {
    if i > 0 && j > 0 {
      DistanceAtMostLonger(a, b, i - 1, j - 1);
    }
  }

  /** The distance is at least the difference of the two lengths. */
  lemma {:induction false} DistanceAtLeastLengthGap(a: string, b: string, i: nat, j: nat)
    requires i <= |a| && j <= |b|
    ensures PrefixDistance(a, b, i, j) >= i - j && PrefixDistance(a, b, i, j) >= j - i
  {
    if i > 0 && j > 0 {
      DistanceAtLeastLengthGap(a, b, i - 1, j - 1);
      if CType.ToLower(a[i - 1]) != CType.ToLower(b[j - 1]) {
        DistanceAtLeastLengthGap(a, b, i - 1, j);
        DistanceAtLeastLengthGap(a, b, i, j - 1);
      }
    }
  }

  /** Against the empty string the distance is the length of the other string. */
  lemma EmptyDistance(s: string)
    ensures Levenshtein("", s) == |s| && Levenshtein(s, "") == |s|
  {
  }

  /** Distance 0 holds exactly of prefixes that agree up to ASCII case. */
  lemma {:induction false} PrefixDistanceZero(a: string, b: string, i: nat, j: nat)
    requires i <= |a| && j <= |b|
    ensures PrefixDistance(a, b, i, j) == 0 <==> SameIgnoringCase(a[..i], b[..j])
  {
    if i > 0 && j > 0 {
      PrefixDistanceZero(a, b, i - 1, j - 1);
      assert a[..i - 1] == a[..i][..i - 1] && b[..j - 1] == b[..j][..j - 1];
      if CType.ToLower(a[i - 1]) != CType.ToLower(b[j - 1]) {
        assert !SameIgnoringCase(a[..i], b[..j]) by {
          if |a[..i]| == |b[..j]| {
            assert a[..i][i - 1] == a[i - 1] && b[..j][i - 1] == b[j - 1];
          }
        }
      }
    } else if i > 0 {
      assert |a[..i]| != |b[..j]|;
    } else if j > 0 {
      assert |a[..i]| != |b[..j]|;
    }
  }

  /** `editDistance(s1, s2) == 0` exactly when the two strings are equal up to
      ASCII case; in particular every string is at distance 0 from itself. */
  lemma DistanceZeroIffSameIgnoringCase(a: string, b: string)
    ensures Levenshtein(a, b) == 0 <==> SameIgnoringCase(a, b)
    ensures Levenshtein(a, a) == 0
  {
    PrefixDistanceZero(a, b, |a|, |b|);
    PrefixDistanceZero(a, a, |a|, |a|);
    assert a[..|a|] == a && b[..|b|] == b;
  }

  /** The distance is symmetric. */
  lemma {:induction false} PrefixDistanceSymmetric(a: string, b: string, i: nat, j: nat)
    requires i <= |a| && j <= |b|
    ensures PrefixDistance(a, b, i, j) == PrefixDistance(b, a, j, i)
  {
    if i > 0 && j > 0 && CType.ToLower(a[i - 1]) == CType.ToLower(b[j - 1]) {
      PrefixDistanceSymmetric(a, b, i - 1, j - 1);
    } else if i > 0 && j > 0 {
      PrefixDistanceSymmetric(a, b, i - 1, j - 1);
      PrefixDistanceSymmetric(a, b, i - 1, j);
      PrefixDistanceSymmetric(a, b, i, j - 1);
      var x, y, z := PrefixDistance(a, b, i - 1, j), PrefixDistance(a, b, i, j - 1), PrefixDistance(a, b, i - 1, j - 1);
      assert PrefixDistance(b, a, j, i) == 1 + Min3(y, x, z);
      assert Min3(y, x, z) == Min3(x, y, z);
    }
  }

  lemma DistanceSymmetric(a: string, b: string)
    ensures Levenshtein(a, b) == Levenshtein(b, a)
  {
    PrefixDistanceSymmetric(a, b, |a|, |b|);
  }

  /** Lower-casing both strings first does not change the distance of any pair
      of prefixes. */
  lemma {:induction false} PrefixDistanceOfLowered(a: string, b: string, i: nat, j: nat)
    requires i <= |a| && j <= |b|
    ensures PrefixDistance(LowerString(a), LowerString(b), i, j) == PrefixDistance(a, b, i, j)
  {
    if i > 0 && j > 0 {
      PrefixDistanceOfLowered(a, b, i - 1, j - 1);
      PrefixDistanceOfLowered(a, b, i - 1, j);
      PrefixDistanceOfLowered(a, b, i, j - 1);
      LoweredCell(a, b, i, j);
    }
  }

  /** One step of the induction above: a cell agrees once its three neighbours do. */
  lemma LoweredCell(a: string, b: string, i: nat, j: nat)
    requires 0 < i <= |a| && 0 < j <= |b|
    requires PrefixDistance(LowerString(a), LowerString(b), i - 1, j) == PrefixDistance(a, b, i - 1, j)
    requires PrefixDistance(LowerString(a), LowerString(b), i, j - 1) == PrefixDistance(a, b, i, j - 1)
    requires PrefixDistance(LowerString(a), LowerString(b), i - 1, j - 1) == PrefixDistance(a, b, i - 1, j - 1)
    ensures PrefixDistance(LowerString(a), LowerString(b), i, j) == PrefixDistance(a, b, i, j)
  {
    var la, lb := LowerString(a), LowerString(b);
    assert CType.ToLower(la[i - 1]) == CType.ToLower(a[i - 1]);
    assert CType.ToLower(lb[j - 1]) == CType.ToLower(b[j - 1]);
  }

  /** Lower-casing twice is lower-casing once. */
  lemma LowerStringIdempotent(s: string)
    ensures LowerString(LowerString(s)) == LowerString(s)
  {
  }

  /** The search lower-cases both strings before calling `editDistance`; since
      the distance already ignores case, that does not change the result. */
  lemma LoweredDistance(a: string, b: string)
    ensures Levenshtein(LowerString(a), LowerString(b)) == Levenshtein(a, b)
  {
    PrefixDistanceOfLowered(a, b, |a|, |b|);
  }

  /** The examples of the doc comment on `editDistance`, evaluated cell by cell.
      The strings are parameters fixed by `requires`, rather than literals in
      every assertion, so that each step stays cheap for the solver. */
  lemma KittenSittingTable(a: string, b: string)
    requires a == "kitten" && b == "sitting"
    ensures PrefixDistance(a, b, 6, 7) == 3
  {
    assert PrefixDistance(a, b, 1, 1) == 1;
    assert PrefixDistance(a, b, 1, 2) == 2;
    assert PrefixDistance(a, b, 1, 3) == 3;
    assert PrefixDistance(a, b, 1, 4) == 4;
    assert PrefixDistance(a, b, 1, 5) == 5;
    assert PrefixDistance(a, b, 1, 6) == 6;
    assert PrefixDistance(a, b, 1, 7) == 7;
    assert PrefixDistance(a, b, 2, 1) == 2;
    assert PrefixDistance(a, b, 2, 2) == 1;
    assert PrefixDistance(a, b, 2, 3) == 2;
    assert PrefixDistance(a, b, 2, 4) == 3;
    assert PrefixDistance(a, b, 2, 5) == 4;
    assert PrefixDistance(a, b, 2, 6) == 5;
    assert PrefixDistance(a, b, 2, 7) == 6;
    assert PrefixDistance(a, b, 3, 1) == 3;
    assert PrefixDistance(a, b, 3, 2) == 2;
    assert PrefixDistance(a, b, 3, 3) == 1;
    assert PrefixDistance(a, b, 3, 4) == 2;
    assert PrefixDistance(a, b, 3, 5) == 3;
    assert PrefixDistance(a, b, 3, 6) == 4;
    assert PrefixDistance(a, b, 3, 7) == 5;
    assert PrefixDistance(a, b, 4, 1) == 4;
    assert PrefixDistance(a, b, 4, 2) == 3;
    assert PrefixDistance(a, b, 4, 3) == 2;
    assert PrefixDistance(a, b, 4, 4) == 1;
    assert PrefixDistance(a, b, 4, 5) == 2;
    assert PrefixDistance(a, b, 4, 6) == 3;
    assert PrefixDistance(a, b, 4, 7) == 4;
    assert PrefixDistance(a, b, 5, 1) == 5;
    assert PrefixDistance(a, b, 5, 2) == 4;
    assert PrefixDistance(a, b, 5, 3) == 3;
    assert PrefixDistance(a, b, 5, 4) == 2;
    assert PrefixDistance(a, b, 5, 5) == 2;
    assert PrefixDistance(a, b, 5, 6) == 3;
    assert PrefixDistance(a, b, 5, 7) == 4;
    assert PrefixDistance(a, b, 6, 1) == 6;
    assert PrefixDistance(a, b, 6, 2) == 5;
    assert PrefixDistance(a, b, 6, 3) == 4;
    assert PrefixDistance(a, b, 6, 4) == 3;
    assert PrefixDistance(a, b, 6, 5) == 3;
    assert PrefixDistance(a, b, 6, 6) == 2;
    assert PrefixDistance(a, b, 6, 7) == 3;
  }

  lemma KittenSitting()
    ensures Levenshtein("kitten", "sitting") == 3
  {
    KittenSittingTable("kitten", "sitting");
  }

  lemma JohnJhonTable(a: string, b: string)
    requires a == "john" && b == "jhon"
    ensures PrefixDistance(a, b, 4, 4) == 2
  {
    assert PrefixDistance(a, b, 1, 1) == 0;
    assert PrefixDistance(a, b, 1, 2) == 1;
    assert PrefixDistance(a, b, 1, 3) == 2;
    assert PrefixDistance(a, b, 1, 4) == 3;
    assert PrefixDistance(a, b, 2, 1) == 1;
    assert PrefixDistance(a, b, 2, 2) == 1;
    assert PrefixDistance(a, b, 2, 3) == 1;
    assert PrefixDistance(a, b, 2, 4) == 2;
    assert PrefixDistance(a, b, 3, 1) == 2;
    assert PrefixDistance(a, b, 3, 2) == 1;
    assert PrefixDistance(a, b, 3, 3) == 2;
    assert PrefixDistance(a, b, 3, 4) == 2;
    assert PrefixDistance(a, b, 4, 1) == 3;
    assert PrefixDistance(a, b, 4, 2) == 2;
    assert PrefixDistance(a, b, 4, 3) == 2;
    assert PrefixDistance(a, b, 4, 4) == 2;
  }

  lemma JohnJhon()
    ensures Levenshtein("john", "jhon") == 2
  {
    JohnJhonTable("john", "jhon");
  }

  lemma SarahSaraTable(a: string, b: string)
    requires a == "sarah" && b == "sara"
    ensures PrefixDistance(a, b, 5, 4) == 1
  {
    assert PrefixDistance(a, b, 1, 1) == 0;
    assert PrefixDistance(a, b, 1, 2) == 1;
    assert PrefixDistance(a, b, 1, 3) == 2;
    assert PrefixDistance(a, b, 1, 4) == 3;
    assert PrefixDistance(a, b, 2, 1) == 1;
    assert PrefixDistance(a, b, 2, 2) == 0;
    assert PrefixDistance(a, b, 2, 3) == 1;
    assert PrefixDistance(a, b, 2, 4) == 2;
    assert PrefixDistance(a, b, 3, 1) == 2;
    assert PrefixDistance(a, b, 3, 2) == 1;
    assert PrefixDistance(a, b, 3, 3) == 0;
    assert PrefixDistance(a, b, 3, 4) == 1;
    assert PrefixDistance(a, b, 4, 1) == 3;
    assert PrefixDistance(a, b, 4, 2) == 2;
    assert PrefixDistance(a, b, 4, 3) == 1;
    assert PrefixDistance(a, b, 4, 4) == 0;
    assert PrefixDistance(a, b, 5, 1) == 4;
    assert PrefixDistance(a, b, 5, 2) == 3;
    assert PrefixDistance(a, b, 5, 3) == 2;
    assert PrefixDistance(a, b, 5, 4) == 1;
  }

  lemma SarahSara()
    ensures Levenshtein("sarah", "sara") == 1
  {
    SarahSaraTable("sarah", "sara");
  }

  lemma HelloIgnoresCase()
    ensures Levenshtein("HELLO", "hello") == 0
  {
    DistanceZeroIffSameIgnoringCase("HELLO", "hello");
  }
}
