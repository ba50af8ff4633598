/** The filter, tiering and ordering of `searchWithTypoCorrection` in main.c,
    stated over the list of reviewer names that the search walks. */
module TypoSearch {

  import Distance

  /** The three labels that the search copies into `matchType`. */
  datatype MatchType = Exact | Close | Fuzzy

  /** The text stored in `SearchResult.matchType` for each label. */
  function Label(t: MatchType): string {
    match t
    case Exact => "exact"
    case Close => "close"
    case Fuzzy => "fuzzy"
  }

  /** `SearchResult`: the position of a review, its distance from the query and
      its tier. */
  datatype SearchResult = SearchResult(index: int, distance: int, matchType: MatchType)

  /** The tier rule of the search: distance 0 is an exact match, distance
      exactly 2 a close one, and every other surviving distance (1, 3, 4, ...)
      a fuzzy one. */
  function Tier(distance: int): (t: MatchType)
    ensures t == Exact <==> distance == 0
    ensures t == Close <==> distance == 2
    ensures t == Fuzzy <==> distance != 0 && distance != 2
  {
    if distance == 0 then Exact
    else if distance == 2 then Close
    else Fuzzy
  }

  /** The result the search records for review `i`: its distance is that of the
      lower-cased query from the lower-cased reviewer name. */
  function Candidate(query: string, names: seq<string>, i: nat): SearchResult
    requires i < |names|
  {
    var d := Distance.Levenshtein(Distance.LowerString(query), Distance.LowerString(names[i]));
    SearchResult(i, d, Tier(d))
  }

  /** Positions strictly increase along the sequence. */
  predicate IndicesIncreasing(rs: seq<SearchResult>) {
    forall k, l :: 0 <= k < l < |rs| ==> rs[k].index < rs[l].index
  }

  /** Distances never decrease along the sequence. */
  predicate SortedByDistance(rs: seq<SearchResult>) {
    forall k, l :: 0 <= k < l < |rs| ==> rs[k].distance <= rs[l].distance
  }

  /** Results at equal distance appear in the order of their positions. */
  predicate TiesInIndexOrder(rs: seq<SearchResult>) {
    forall k, l :: 0 <= k < l < |rs| && rs[k].distance == rs[l].distance ==> rs[k].index < rs[l].index
  }

  /** What the search's first loop has gathered after looking at the first `n`
      reviews: the candidates within `maxDistance`, in review order. */
  function Filtered(query: string, names: seq<string>, maxDistance: int, n: nat): (rs: seq<SearchResult>)
    requires n <= |names|
    ensures |rs| <= n
    ensures forall k :: 0 <= k < |rs| ==>
              0 <= rs[k].index < n && rs[k] == Candidate(query, names, rs[k].index) && rs[k].distance <= maxDistance
    ensures IndicesIncreasing(rs)
  {
    if n == 0 then []
    else
      var c := Candidate(query, names, n - 1);
      Filtered(query, names, maxDistance, n - 1) + if c.distance <= maxDistance then [c] else []
  }

  /** What the search hands back, as a sequence: a reordering of the gathered
      candidates, nearest first, with equal distances in review order. */
  predicate IsSearchOutcome(query: string, names: seq<string>, maxDistance: int, rs: seq<SearchResult>) {
    multiset(rs) == multiset(Filtered(query, names, maxDistance, |names|)) &&
    SortedByDistance(rs) && TiesInIndexOrder(rs)
  }

  /** The text of each label is the one the search copies for the tier of
      its distance, and the three texts are distinct. */
  lemma LabelOfTier(d: int)
    ensures Label(Tier(d)) == "exact" <==> d == 0
    ensures Label(Tier(d)) == "close" <==> d == 2
    ensures Label(Tier(d)) == "fuzzy" <==> d != 0 && d != 2
  {
  }

  /** A negative threshold lets no review through: nothing is gathered, and
      every outcome of the search is empty. */
  lemma NegativeThresholdFindsNothing(query: string, names: seq<string>, maxDistance: int, rs: seq<SearchResult>)
    requires maxDistance < 0
    ensures Filtered(query, names, maxDistance, |names|) == []
    ensures IsSearchOutcome(query, names, maxDistance, rs) ==> rs == []
  {
    if IsSearchOutcome(query, names, maxDistance, rs) {
      assert |multiset(rs)| == |rs|;
    }
  }

  /** Results gathered in review order already have their ties in review order. */
  lemma IncreasingIndicesTie(rs: seq<SearchResult>)
    requires IndicesIncreasing(rs)
    ensures TiesInIndexOrder(rs)
  {
  }

  /** Every review within the threshold is gathered. */
  lemma {:induction false} FilteredComplete(query: string, names: seq<string>, maxDistance: int, n: nat, i: nat)
    requires i < n <= |names|
    requires Candidate(query, names, i).distance <= maxDistance
    ensures Candidate(query, names, i) in Filtered(query, names, maxDistance, n)
  {
    if i < n - 1 {
      FilteredComplete(query, names, maxDistance, n - 1, i);
    }
  }

  /** Swapping an adjacent pair that is out of order by distance keeps equal
      distances in position order. */
  lemma SwapKeepsTiesInIndexOrder(s: seq<SearchResult>, j: nat)
    requires j + 1 < |s| && s[j].distance > s[j + 1].distance
    requires TiesInIndexOrder(s)
    ensures TiesInIndexOrder(s[j := s[j + 1]][j + 1 := s[j]])
  {
    var t := s[j := s[j + 1]][j + 1 := s[j]];
    forall k, l | 0 <= k < l < |t| && t[k].distance == t[l].distance
      ensures t[k].index < t[l].index
    {
      var k' := if k == j then j + 1 else if k == j + 1 then j else k;
      var l' := if l == j then j + 1 else if l == j + 1 then j else l;
      assert t[k] == s[k'] && t[l] == s[l'];
    }
  }

  /** From position `m` on, distances never decrease. */
  predicate SortedFrom(rs: seq<SearchResult>, m: int) {
    forall k, l :: 0 <= m <= k < l < |rs| ==> rs[k].distance <= rs[l].distance
  }

  /** No distance before position `m` exceeds a distance from `m` on. */
  predicate SplitAt(rs: seq<SearchResult>, m: int) {
    forall k, l :: 0 <= k < m <= l < |rs| ==> rs[k].distance <= rs[l].distance
  }

  /** The bubble sort at the end of the search: passes over the first
      `resultCount` entries, swapping neighbours with `>` on distance. The
      strict comparison never swaps equal distances, so the sort is stable. */
  method BubbleSortByDistance(results: array<SearchResult>, resultCount: int)
    requires 0 <= resultCount <= results.Length
    requires TiesInIndexOrder(results[..resultCount])
    modifies results
    ensures SortedByDistance(results[..resultCount]) && TiesInIndexOrder(results[..resultCount])
    ensures multiset(results[..resultCount]) == multiset(old(results[..resultCount]))
    ensures results[resultCount..] == old(results[resultCount..])
  {
    var n := resultCount;
    var i := 0;
    while i < n - 1
      invariant 0 <= i <= n
      invariant SortedFrom(results[..n], n - i) && SplitAt(results[..n], n - i)
      invariant TiesInIndexOrder(results[..n])
      invariant multiset(results[..n]) == multiset(old(results[..n]))
      invariant results[n..] == old(results[n..])
    {
      BubblePass(results, n, i);
      i := i + 1;
    }
    assert SortedFrom(results[..n], if n == 0 then 0 else 1) && SplitAt(results[..n], if n == 0 then 0 else 1);
  }

  /** One pass of the inner loop: carries the largest distance among the first
      `n - i` entries up to position `n - i - 1`. */
  method BubblePass(results: array<SearchResult>, n: int, i: int)
    requires 0 <= i < n - 1 && n <= results.Length
    requires SortedFrom(results[..n], n - i) && SplitAt(results[..n], n - i)
    requires TiesInIndexOrder(results[..n])
    modifies results
    ensures SortedFrom(results[..n], n - i - 1) && SplitAt(results[..n], n - i - 1)
    ensures TiesInIndexOrder(results[..n])
    ensures multiset(results[..n]) == multiset(old(results[..n]))
    ensures results[n..] == old(results[n..])
  {
    var j := 0;
    while j < n - i - 1
      invariant 0 <= j <= n - i - 1
      invariant forall k :: 0 <= k < j ==> results[k].distance <= results[j].distance
      invariant SortedFrom(results[..n], n - i) && SplitAt(results[..n], n - i)
      invariant TiesInIndexOrder(results[..n])
      invariant multiset(results[..n]) == multiset(old(results[..n]))
      invariant results[n..] == old(results[n..])
    {
      PassStep(results, n, i, j);
      j := j + 1;
    }
    LastOfPassIsLargest(results[..n], n - i);
  }

  /** One step of the inner loop: compares positions `j` and `j + 1` and swaps
      them when the first is farther from the query. */
  method PassStep(results: array<SearchResult>, n: int, i: int, j: int)
    requires 0 <= i < n - 1 && n <= results.Length && 0 <= j < n - i - 1
    requires forall k :: 0 <= k < j ==> results[k].distance <= results[j].distance
    requires SortedFrom(results[..n], n - i) && SplitAt(results[..n], n - i)
    requires TiesInIndexOrder(results[..n])
    modifies results
    ensures forall k :: 0 <= k < j + 1 ==> results[k].distance <= results[j + 1].distance
    ensures SortedFrom(results[..n], n - i) && SplitAt(results[..n], n - i)
    ensures TiesInIndexOrder(results[..n])
    ensures multiset(results[..n]) == multiset(old(results[..n]))
    ensures results[n..] == old(results[n..])
  {
    ghost var before := results[..n];
    if results[j].distance > results[j + 1].distance {
      SwapNeighbours(results, n, j);
      SwapKeepsSortedFromAndSplitAt(before, j, n - i);
    }
  }

  /** A swap below position `m` leaves what holds from `m` on untouched. */
  lemma SwapKeepsSortedFromAndSplitAt(s: seq<SearchResult>, j: nat, m: int)
    requires j + 1 < m <= |s|
    requires SortedFrom(s, m) && SplitAt(s, m)
    ensures SortedFrom(s[j := s[j + 1]][j + 1 := s[j]], m) && SplitAt(s[j := s[j + 1]][j + 1 := s[j]], m)
  {
    var t := s[j := s[j + 1]][j + 1 := s[j]];
    forall k, l | 0 <= k < m <= l < |t|
      ensures t[k].distance <= t[l].distance
    {
      var k' := if k == j then j + 1 else if k == j + 1 then j else k;
      assert t[k] == s[k'] && t[l] == s[l];
    }
  }

  /** At the end of a pass, the entry at `m - 1` is the largest before `m`. */
  lemma LastOfPassIsLargest(s: seq<SearchResult>, m: int)
    requires 0 < m <= |s|
    requires forall k :: 0 <= k < m - 1 ==> s[k].distance <= s[m - 1].distance
    requires SortedFrom(s, m) && SplitAt(s, m)
    ensures SortedFrom(s, m - 1) && SplitAt(s, m - 1)
  {
  }

  /** The swap in the inner loop, for a pair that is out of order by distance. */
  method SwapNeighbours(results: array<SearchResult>, n: int, j: int)
    requires 0 <= j && j + 1 < n <= results.Length
    requires results[j].distance > results[j + 1].distance
    requires TiesInIndexOrder(results[..n])
    modifies results
    ensures results[..n] == old(results[..n])[j := old(results[j + 1])][j + 1 := old(results[j])]
    ensures TiesInIndexOrder(results[..n])
    ensures multiset(results[..n]) == multiset(old(results[..n]))
    ensures results[n..] == old(results[n..])
  {
    ghost var before := results[..n];
    SwapKeepsTiesInIndexOrder(before, j);
    var temp := results[j];
    results[j] := results[j + 1];
    results[j + 1] := temp;
    assert results[..n] == before[j := before[j + 1]][j + 1 := before[j]];
  }

  /** What a search outcome promises: at most one entry per review, each a real
      candidate within the threshold whose tier follows its distance, and every
      review within the threshold present. */
  lemma SearchOutcomeSound(query: string, names: seq<string>, maxDistance: int, rs: seq<SearchResult>)
    requires IsSearchOutcome(query, names, maxDistance, rs)
    ensures |rs| <= |names|
    ensures forall k :: 0 <= k < |rs| ==>
              0 <= rs[k].index < |names| && rs[k] == Candidate(query, names, rs[k].index) &&
              rs[k].distance <= maxDistance && rs[k].matchType == Tier(rs[k].distance)
    ensures forall k, l :: 0 <= k < l < |rs| ==> rs[k].index != rs[l].index
  {
    var f := Filtered(query, names, maxDistance, |names|);
    assert |rs| == |multiset(rs)| == |multiset(f)| == |f|;
    forall k | 0 <= k < |rs|
      ensures 0 <= rs[k].index < |names| && rs[k] == Candidate(query, names, rs[k].index) && rs[k].distance <= maxDistance
    {
      assert rs[k] in multiset(f);
      var m :| 0 <= m < |f| && f[m] == rs[k];
    }
  }

  /** Every review within the threshold appears in the outcome. */
  lemma SearchOutcomeComplete(query: string, names: seq<string>, maxDistance: int, rs: seq<SearchResult>, i: nat)
    requires IsSearchOutcome(query, names, maxDistance, rs)
    requires i < |names| && Candidate(query, names, i).distance <= maxDistance
    ensures exists k :: 0 <= k < |rs| && rs[k].index == i
  {
    FilteredComplete(query, names, maxDistance, |names|, i);
    var c := Candidate(query, names, i);
    assert c in multiset(rs);
    var k :| 0 <= k < |rs| && rs[k] == c;
  }

  /** An entry is labelled exact exactly when the reviewer name equals the
      query up to letter case. */
  lemma ExactMeansSameIgnoringCase(query: string, names: seq<string>, i: nat)
    requires i < |names|
    ensures Candidate(query, names, i).matchType == Exact <==> Distance.SameIgnoringCase(query, names[i])
  {
    Distance.LoweredDistance(query, names[i]);
    Distance.DistanceZeroIffSameIgnoringCase(query, names[i]);
  }

  /** With a threshold of 0 the search is an exact match that ignores letter
      case: every entry is labelled exact and names a review equal to the query
      up to case. */
  lemma ZeroThresholdOnlyExact(query: string, names: seq<string>, rs: seq<SearchResult>)
    requires IsSearchOutcome(query, names, 0, rs)
    ensures forall k :: 0 <= k < |rs| ==>
              0 <= rs[k].index < |names| && rs[k].matchType == Exact &&
              Distance.SameIgnoringCase(query, names[rs[k].index])
  {
    SearchOutcomeSound(query, names, 0, rs);
    forall k | 0 <= k < |rs|
      ensures rs[k].matchType == Exact && Distance.SameIgnoringCase(query, names[rs[k].index])
    {
      ExactMeansSameIgnoringCase(query, names, rs[k].index);
    }
  }
}
