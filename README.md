# Customer review system: store, typo-tolerant search and input checks

This project models, in Dafny, the core of a small C program that keeps customer
reviews (reviewer name, satisfaction score 1..5, date, feedback) in a growable
array and finds reviewers by name even when the name is mistyped.

- `Distance` (distance.dfy): `min3`, `toLowerCase` and `editDistance`. The
  dynamic-programming table of `editDistance` is an `array2<int>` filled row by
  row. It is proved equal to a recursive definition of the same recurrence,
  `PrefixDistance`. Distance properties are proved about that definition:
  bounds, symmetry, case-insensitivity, distance 0 exactly for strings equal
  up to case, and the worked examples of the source's doc comment.
- `TypoSearch` (typo_search.dfy): the filter, tier rule and bubble sort of
  `searchWithTypoCorrection`. The sort works in place on an array and is
  proved to be a permutation that is ascending by distance and stable.
- `Reviews` (reviews.dfy): the global `reviews` / `review_count` /
  `capacity` state as a class, with `initialize_system`,
  `resize_review_array`, the store step of `add_review`,
  `find_review_by_name`, the deletion of `delete_review_by_name` and
  `searchWithTypoCorrection` itself.
- `Strtol` (strtol.dfy): `strtol` with base 10, as section 7.22.1.4 of
  ISO/IEC 9899:2011 defines it, for a 64-bit `long`.
- `Validators` (validators.dfy): `parseScore`, `isValidDate` and
  `cleanReviewerName` from unit_test.c, with the cases of its unit tests.
- `CType` (ctype.dfy) and `Wrappers` (wrappers.dfy): the "C" locale
  `<ctype.h>` functions, and `Option`, which stands for a pointer that may be
  NULL.

Modelling conventions:

- A C string is the `seq<char>` of the bytes before its terminator: each
  `char` stands for one C byte (code 0..255), so a UTF-8 name is the sequence
  of its bytes, and lengths and distances count bytes, as `strlen` and
  `editDistance` do.
- A possibly-NULL `char *` is an `Option<string>`, with `None` meaning NULL.
- Integers are unbounded, except where the source's width shows in a result:
  `strtol` clamps to `LONG_MIN`/`LONG_MAX`.

Where the model follows the code as written:

- The code does not check `maxDistance`; `Search` accepts any threshold, and a
  negative one yields no results (`TypoSearch.NegativeThresholdFindsNothing`).

Where the model reads a slip in main.c as its evident meaning:

- `review\_count` and `reviewCount` in `searchWithTypoCorrection` (lines 430
  and 446) are the global `review_count`.
- `if (!tolower)` in `toLowerCase` (line 368) is the allocation check
  `if (!lower)`.

`find_review_by_name` is called at line 284 before it is declared, with no
prototype. This is a missing declaration, not a behaviour, and has no effect
on the model.

## Model

| member | source | states |
|---|---|---|
| Distance.Min3 | main.c:378-383 | the result is at most each argument and equals one of them |
| Distance.LowerString | main.c:370-373 | same length, and each character is `tolower` of the original at that position |
| Distance.ToLowerCase | main.c:364-375 | NULL exactly for NULL; otherwise a copy of the same length in which each character is `tolower` of the original, so no upper-case letter is left |
| Distance.EditDistance | main.c:393-421 | 999 when either argument is NULL; otherwise the DP table's last cell equals the recurrence `Levenshtein` and lies between 0 and the longer length |
| Distance.FillRow | main.c:407-419 | after one iteration of the outer loop (one full run of the inner loop), row `i` holds the recurrence's values and no other row changed |
| Distance.FillCell | main.c:408-417 | a cell computed from its three neighbours (free diagonal on a case-insensitive match, else 1 + min3) holds the recurrence's value; no other cell changes |
| Distance.DistanceAtMostLonger | main.c:393-421 | the distance of two prefixes never exceeds the longer prefix |
| Distance.DistanceAtLeastLengthGap | main.c:393-421 | the distance is at least the difference of the two lengths |
| Distance.EmptyDistance | main.c:400-405 | against the empty string the distance is the other string's length, both ways round |
| Distance.PrefixDistanceZero | main.c:407-419 | two prefixes are at distance 0 exactly when they are equal up to ASCII case |
| Distance.DistanceZeroIffSameIgnoringCase | main.c:393-421 | distance 0 if and only if equal up to case; every string is at distance 0 from itself |
| Distance.PrefixDistanceSymmetric | main.c:407-419 | swapping the two strings (and prefix lengths) gives the same distance |
| Distance.DistanceSymmetric | main.c:393-421 | `editDistance(a, b) == editDistance(b, a)` |
| Distance.PrefixDistanceOfLowered | main.c:409-416 | lower-casing both strings first leaves every prefix distance unchanged |
| Distance.LoweredCell | main.c:409-416 | inductive step of the above: a cell agrees once its three neighbours agree |
| Distance.LowerStringIdempotent | main.c:364-375 | lower-casing twice equals lower-casing once |
| Distance.LoweredDistance | main.c:443-449 | the search's lower-casing of query and name does not change the distance |
| Distance.KittenSittingTable | main.c:388 | the recurrence gives 3 for "kitten" against "sitting" |
| Distance.KittenSitting | main.c:388 | `editDistance("kitten", "sitting") == 3` |
| Distance.JohnJhonTable | main.c:389 | the recurrence gives 2 for "john" against "jhon" |
| Distance.JohnJhon | main.c:389 | `editDistance("john", "jhon") == 2` |
| Distance.SarahSaraTable | main.c:390 | the recurrence gives 1 for "sarah" against "sara" |
| Distance.SarahSara | main.c:390 | `editDistance("sarah", "sara") == 1` |
| Distance.HelloIgnoresCase | main.c:409 | "HELLO" and "hello" are at distance 0 |
| TypoSearch.Tier | main.c:455-461 | exact if and only if distance 0, close if and only if distance exactly 2, fuzzy for every other distance |
| TypoSearch.Filtered | main.c:446-465 | the gathered results number at most the reviews seen; each is the candidate of its review, within the threshold; positions strictly increase |
| TypoSearch.FilteredComplete | main.c:451-463 | every review within the threshold is gathered |
| TypoSearch.IncreasingIndicesTie | main.c:446-463 | results gathered in review order have equal distances in review order |
| TypoSearch.SwapKeepsTiesInIndexOrder | main.c:471-476 | swapping a pair that is out of order by distance keeps equal distances in review order |
| TypoSearch.BubbleSortByDistance | main.c:469-478 | the first `resultCount` entries end ascending by distance, ties in review order, as a permutation of what they were; later slots untouched |
| TypoSearch.BubblePass | main.c:470-477 | one outer pass moves the largest distance of the unsorted part to its end, keeping stability, contents and the sorted tail |
| TypoSearch.PassStep | main.c:471-476 | one comparison of neighbours leaves the larger distance at `j + 1`, keeping stability, contents and the sorted tail |
| TypoSearch.SwapKeepsSortedFromAndSplitAt | main.c:471-476 | a swap below the sorted tail leaves the tail sorted and no smaller than everything before it |
| TypoSearch.LastOfPassIsLargest | main.c:470-477 | once the pass has carried the maximum to the end of the unsorted part, the sorted tail grows by one |
| TypoSearch.SwapNeighbours | main.c:473-475 | the swap through `temp` exchanges entries `j` and `j + 1` and nothing else |
| TypoSearch.LabelOfTier | main.c:455-461 | the text copied into `matchType` is "exact" exactly for distance 0, "close" exactly for distance 2 and "fuzzy" otherwise |
| TypoSearch.NegativeThresholdFindsNothing | main.c:451 | with a negative threshold no review is gathered and every search outcome is empty |
| TypoSearch.SearchOutcomeSound | main.c:446-478 | at most one result per review: each result has an in-range position, its real distance, which is within the threshold, and the tier of that distance; no two results share a position |
| TypoSearch.SearchOutcomeComplete | main.c:446-465 | every review within the threshold appears among the results |
| TypoSearch.ExactMeansSameIgnoringCase | main.c:455-456 | a result is labelled exact if and only if the name equals the query up to case |
| TypoSearch.ZeroThresholdOnlyExact | main.c:451-456 | with threshold 0 every result is exact and names a review equal to the query up to case |
| Reviews.WithoutRemovesOne | main.c:307-312 | deleting one entry removes exactly that review from the collection |
| Reviews.FirstNamed | main.c:342-349 | the position of a review with exactly that name with no earlier one, or -1 when none has it |
| Reviews.FirstNamedIsFirst | main.c:342-349 | a position with the name and no earlier match is the first match; with no match at all the answer is -1 |
| Reviews.ReviewStore.constructor | main.c:104-112 | an empty store with capacity 5 |
| Reviews.ReviewStore.Resize | main.c:332-340 | the capacity doubles and the buffer holds every old slot (so every stored review) |
| Reviews.ReviewStore.Append | main.c:184-224 | grows the buffer only when full, then the stored reviews are the old ones followed by the new review |
| Reviews.ReviewStore.FindByName | main.c:342-349 | -1 or a position below `review_count`; a non-negative answer names a review with exactly that name and no earlier one has it; -1 only when none has it |
| Reviews.ReviewStore.DeleteAt | main.c:307-312 | count drops by one; the slots before the index are unchanged, every later review moves down one slot, and the slots from the new count on keep their old contents |
| Reviews.ReviewStore.DeleteByName | main.c:270-317 | the first exact match is removed when the answer is `y` or `Y`; nothing changes when the store is empty, no review has the name, or the answer is anything else |
| Reviews.NameDistance | main.c:447-449 | given the lower-cased query, lower-casing a name and calling `editDistance` gives the recurrence on the two lower-cased strings |
| Reviews.ReviewStore.Search | main.c:429-480 | NULL and count 0 for a NULL query or an empty store; otherwise a fresh buffer of `review_count` slots whose first `resultCount` entries are a stable ascending-by-distance permutation of the reviews within the threshold |
| Strtol.SkipSpace | unit_test.c:27 | the first position from `i` on that is not `isspace` white space |
| Strtol.DigitsEnd | unit_test.c:27 | the end of the run of decimal digits starting at `i` |
| Strtol.ClampToLong | unit_test.c:27 | values outside `long` become `LONG_MIN` or `LONG_MAX`, others are unchanged |
| Strtol.Strtol | unit_test.c:27 | the end position lies within the string and the value within the range of `long` |
| Strtol.StrtolAt | unit_test.c:27 | for white space, an optional sign and digits, the end lands after the digits and the value is the signed, clamped number they write |
| Strtol.NoDigitsNoConversion | unit_test.c:27-31 | with no digit after the white space and sign, the value is 0 and the end is the start of the string |
| Validators.ParseScore | unit_test.c:21-38 | the result is -1 or a score from 1 to 5 |
| Validators.ParseScoreOfDigits | unit_test.c:21-38 | white space, an optional sign and digits to the end give the number when it has no minus sign and lies in 1..5, otherwise -1 |
| Validators.TrailingCharactersRejected | unit_test.c:29-31 | any character left after the digits gives -1 |
| Validators.ParseScoreAcceptsOnlyDigits | unit_test.c:21-38 | an accepted string is white space, an optional `+` and digits reaching the end, and the score is their value |
| Validators.ParseScoreValidCases | unit_test.c:140-142 | "1", "3" and "5" give 1, 3 and 5 |
| Validators.ParseScoreOutOfRangeCases | unit_test.c:145-147 | "0", "6" and "10" give -1 |
| Validators.ParseScoreMissingCases | unit_test.c:150-152 | "abc", "" and NULL give -1 |
| Validators.ParseScoreTrailingCases | unit_test.c:153-155 | "3.5", "3abc" and " 3 " give -1 |
| Validators.IsValidDate | unit_test.c:41-60 | 0 or 1, and 1 exactly for a non-NULL string of length 10 with dashes at positions 4 and 7 and digits elsewhere |
| Validators.DateShapedIffParts | unit_test.c:46-57 | the accepted shape is exactly four digits, `-`, two digits, `-`, two digits |
| Validators.IsValidDateTestCases | unit_test.c:162-177 | the three valid dates are accepted and the seven distinct malformed strings are rejected (the NULL case is `IsValidDate`'s own ensures) |
| Validators.MalformedLineCases | unit_test.c:242-256 | the score "abc" and the date "invalid-date" of the malformed line are rejected |
| Validators.SkipBlanks | unit_test.c:69-70 | the first position from `i` on that is not a space |
| Validators.TrimEnd | unit_test.c:76-77 | the end once trailing spaces are cut, never below one character past the start |
| Validators.TrimEndStopsAtNonBlank | unit_test.c:76-79 | when the start is not a space, the kept stretch ends in a character that is not a space |
| Validators.CleanReviewerName | unit_test.c:63-87 | the two scanning loops and the copy compute `Cleaned` |
| Validators.CleanedIsTrimmed | unit_test.c:68-86 | a cleaned name is the unchanged stretch of the original between its first and last non-space characters, with only spaces outside it |
| Validators.CleanedNoneIffBlank | unit_test.c:64-74 | NULL comes back exactly for NULL, the empty string and strings of spaces only |
| Validators.CleanedIdempotent | unit_test.c:63-87 | cleaning a cleaned name gives it back |
| Validators.CleanedOfParts | unit_test.c:68-86 | a name without spaces at its ends, padded with spaces, is cleaned back to itself |
| Validators.CleanedUnpaddedCases | unit_test.c:184-190 | "John Doe" and "Jane Smith" are returned unchanged |
| Validators.CleanedPaddedCases | unit_test.c:193-199 | "  John Doe  " becomes "John Doe" and " Sarah Wilson " becomes "Sarah Wilson" |
| Validators.CleanedBlankCases | unit_test.c:202-209 | "", "   " and NULL give NULL |

## Left out

- The menu loop, all terminal prompts and output (`main`, the input parts of `add_review`, `display_all_reviews`, the messages of `delete_review_by_name` and `resize_review_array`): interactive I/O. The score entered in `add_review` is re-asked until it is in 1..5; `Append` leaves that loop out, and it has no range requirement because the CSV loader stores scores without a check.
- `load_reviews_from_csv` and `save_reviews_to_csv`: file I/O and `strtok` parsing.
- The average score of `display_all_reviews`: floating point.
- `allocate_string`, `free_all_memory` and every `free`: memory management has no counterpart in a garbage-collected model. A review's strings are values here, so aliasing between records cannot occur.
- Allocation failure: the branches where `malloc`/`realloc` return NULL (`exit(1)` in `initialize_system`, `resize_review_array` and `allocate_string`; NULL results of `toLowerCase`, `searchWithTypoCorrection` and `cleanReviewerName`) are not modelled, because allocation always succeeds in Dafny.
- Distance.EditDistance: the table is a C variable-length array on the stack. Stack exhaustion for very long names is not modelled.
- Distance.EditDistance: the model proves the table equals the recurrence the code computes. It does not prove that this recurrence is the minimum number of edits, nor the triangle inequality.
- C `int` overflow is not modelled (string lengths, `review_count`, `capacity * 2`, `dp` cells). Every value is far below 2^31 for the inputs the program handles.
- Reviews.ReviewStore.Resize: always moves the reviews into a new array, whereas `realloc` may grow the block in place. Nothing else holds the pointer, so the difference cannot be observed.
- Reviews.ReviewStore.Resize: requires a positive capacity. The store always starts at 5, so the source's remark that doubling 0 stays 0 cannot apply.
- Strtol.Strtol: `errno` is not modelled, since `parseScore` never reads it. Only the "C" locale is modelled.
- e2e_test.c, the test framework of unit_test.c (`test_assert*`, counters, `main`), the `strtok` splitting in `test_csvParsing` and `test_errorCases` (their score and date checks are modelled), and `test_performance`, which times calls with `clock`: test scaffolding, library parsing and I/O.
- Functions main.c only declares and never defines (`search_reviews_partial`, `display_search_results`, `get_safe_int`, `trim_whitespace` and the others): there is no behaviour to model.
