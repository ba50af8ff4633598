/** The review store of main.c: the global `reviews` array with its
    `review_count` and `capacity`, and the operations that change or query it
    (`initialize_system`, `resize_review_array`, the store step of
    `add_review`, `find_review_by_name`, the deletion in
    `delete_review_by_name` and `searchWithTypoCorrection`). */
module Reviews {

  import opened Wrappers
  import Distance
  import TypoSearch

  /** `Review`: one customer review. The three strings are the heap copies that
      `allocate_string` makes. */
  datatype Review = Review(reviewerName: string, satisfactionScore: int, reviewDate: string, feedback: string)

  /** The capacity `initialize_system` starts with. */
  const InitialCapacity := 5

  /** The reviewer names of a sequence of reviews, in order. */
  function NamesOf(rs: seq<Review>): (names: seq<string>)
    ensures |names| == |rs|
    ensures forall k :: 0 <= k < |rs| ==> names[k] == rs[k].reviewerName
  {
    if rs == [] then [] else [rs[0].reviewerName] + NamesOf(rs[1..])
  }

  /** `s` without its element at position `i`. */
  function Without<T>(s: seq<T>, i: nat): (r: seq<T>)
    requires i < |s|
    ensures |r| == |s| - 1
    ensures forall k :: 0 <= k < i ==> r[k] == s[k]
    ensures forall k :: i <= k < |r| ==> r[k] == s[k + 1]
  {
    s[..i] + s[i + 1..]
  }

  /** Removing one element removes exactly that element from the multiset. */
  lemma WithoutRemovesOne<T>(s: seq<T>, i: nat)
    requires i < |s|
    ensures multiset(Without(s, i)) + multiset{s[i]} == multiset(s)
  {
    assert s == s[..i] + [s[i]] + s[i + 1..];
  }

  /** The position of the first review whose name is exactly `name`, or -1. */
  function FirstNamed(rs: seq<Review>, name: string): (index: int)
    ensures -1 <= index < |rs|
    ensures index >= 0 ==> rs[index].reviewerName == name
    ensures forall k :: 0 <= k < |rs| && (index == -1 || k < index) ==> rs[k].reviewerName != name
  {
    if rs == [] then -1
    else if rs[0].reviewerName == name then 0
    else
      var rest := FirstNamed(rs[1..], name);
      if rest == -1 then -1 else rest + 1
  }

  /** The global state of main.c: `reviews`, `review_count` and `capacity`. */
  class ReviewStore {
    var reviews: array<Review>
    var count: nat
    var capacity: nat

    /** The buffer holds `capacity` slots, of which the first `count` are in use. */
    ghost predicate Valid()
      reads this
    {
      reviews.Length == capacity && 0 < capacity && count <= capacity
    }

    /** The reviews in use, in order. */
    ghost function Contents(): seq<Review>
      reads this, reviews
      requires Valid()
    {
      reviews[..count]
    }

    /** `initialize_system`: an empty store with room for five reviews. */
    constructor ()
      ensures Valid() && fresh(reviews)
      ensures capacity == InitialCapacity && count == 0 && Contents() == []
    {
      capacity := InitialCapacity;
      reviews := new Review[InitialCapacity];
      count := 0;
    }

    /** `resize_review_array`: doubles the capacity, keeping every slot of the
        old buffer (as `realloc` does). */
    method Resize()
      requires Valid()
      modifies this
      ensures Valid() && fresh(reviews)
      ensures capacity == 2 * old(capacity) && count == old(count)
      ensures reviews[..old(capacity)] == old(reviews[..])
      ensures Contents() == old(Contents())
    {
      var grown := new Review[2 * capacity];
      var k := 0;
      while k < capacity
        invariant Valid() && reviews == old(reviews) && capacity == old(capacity) && count == old(count)
        invariant 0 <= k <= capacity
        invariant forall p :: 0 <= p < k ==> grown[p] == reviews[p]
      {
        grown[k] := reviews[k];
        k := k + 1;
      }
      assert grown[..capacity] == reviews[..];
      assert grown[..count] == grown[..capacity][..count];
      capacity := 2 * capacity;
      reviews := grown;
    }

    /** The store step of `add_review` (and of each accepted line in
        `load_reviews_from_csv`): grow when full, then write the review into
        the next free slot. */
    method Append(r: Review)
      requires Valid()
      modifies this, reviews
      ensures Valid()
      ensures count == old(count) + 1
      ensures Contents() == old(Contents()) + [r]
      ensures capacity == if old(count) < old(capacity) then old(capacity) else 2 * old(capacity)
    {
      if count >= capacity {
        Resize();
      }
      reviews[count] := r;
      count := count + 1;
      assert reviews[..count] == old(reviews[..count]) + [r];
    }

    /** `find_review_by_name`: the first review whose name equals `name`
        character for character (`strcmp` is case-sensitive), or -1. */
    method FindByName(name: string) returns (index: int)
      requires Valid()
      ensures index == FirstNamed(reviews[..count], name)
      ensures -1 <= index < count
      ensures index >= 0 ==> reviews[index].reviewerName == name
      ensures forall k :: 0 <= k < count && (index == -1 || k < index) ==> reviews[k].reviewerName != name
    {
      var i := 0;
      while i < count
        invariant 0 <= i <= count
        invariant forall k :: 0 <= k < i ==> reviews[k].reviewerName != name
      {
        if reviews[i].reviewerName == name {
          FirstNamedIsFirst(reviews[..count], name, i);
          return i;
        }
        i := i + 1;
      }
      FirstNamedIsFirst(reviews[..count], name, -1);
      return -1;
    }

    /** The shift at the heart of `delete_review_by_name`: every review after
        `index` moves down one slot and `review_count` drops by one. The last
        used slot keeps its old content, which is no longer counted. */
    method DeleteAt(index: nat)
      requires Valid() && index < count
      modifies this, reviews
      ensures Valid() && reviews == old(reviews) && capacity == old(capacity)
      ensures count == old(count) - 1
      ensures Contents() == Without(old(Contents()), index)
      ensures forall k :: 0 <= k < index ==> reviews[k] == old(reviews[k])
      ensures forall k :: index <= k < count ==> reviews[k] == old(reviews[k + 1])
      ensures forall k :: count <= k < reviews.Length ==> reviews[k] == old(reviews[k])
    {
      var i := index;
      while i < count - 1
        invariant Valid() && reviews == old(reviews) && count == old(count)
        invariant index <= i <= count - 1
        invariant forall k :: 0 <= k < index ==> reviews[k] == old(reviews[k])
        invariant forall k :: index <= k < i ==> reviews[k] == old(reviews[k + 1])
        invariant forall k :: i <= k < reviews.Length ==> reviews[k] == old(reviews[k])
      {
        reviews[i] := reviews[i + 1];
        i := i + 1;
      }
      count := count - 1;
      assert reviews[..count] == Without(old(reviews[..count]), index);
    }

    /** `delete_review_by_name` without its terminal dialogue: `name` is the
        line read from the user and `confirm` the answer to the question. The
        first review with exactly that name is removed when the answer is `y`
        or `Y`; `index` is where it was, or -1 when no review has that name. */
    method DeleteByName(name: string, confirm: char) returns (index: int, deleted: bool)
      requires Valid()
      modifies this, reviews
      ensures Valid() && capacity == old(capacity)
      ensures index == (if old(count) == 0 then -1 else FirstNamed(old(Contents()), name))
      ensures deleted <==> index >= 0 && (confirm == 'y' || confirm == 'Y')
      ensures deleted ==> Contents() == Without(old(Contents()), index)
      ensures !deleted ==> Contents() == old(Contents())
    {
      if count == 0 {
        return -1, false;
      }
      index := FindByName(name);
      if index == -1 {
        return -1, false;
      }
      if confirm == 'y' || confirm == 'Y' {
        DeleteAt(index);
        deleted := true;
      } else {
        deleted := false;
      }
    }

    /** `searchWithTypoCorrection`: NULL and no results for a NULL query or an
        empty store; otherwise a fresh buffer with one slot per review whose
        first `resultCount` entries are the reviews within `maxDistance` of the
        query, nearest first, ties in review order. */
    method Search(query: Option<string>, maxDistance: int) returns (results: array?<TypoSearch.SearchResult>, resultCount: int)
      requires Valid()
      ensures query.None? || count == 0 ==> results == null && resultCount == 0
      ensures query.Some? && count > 0 ==>
                results != null && fresh(results) && results.Length == count && 0 <= resultCount <= count &&
                TypoSearch.IsSearchOutcome(query.value, NamesOf(Contents()), maxDistance, results[..resultCount])
    {
      if query.None? || count == 0 {
        return null, 0;
      }
      ghost var names := NamesOf(reviews[..count]);
      results := new TypoSearch.SearchResult[count];
      resultCount := 0;
      var lowerQuery := Distance.ToLowerCase(query);
      assert lowerQuery == Some(Distance.LowerString(query.value));
      var i := 0;
      while i < count
        invariant 0 <= i <= count && 0 <= resultCount <= i
        invariant results.Length == count
        invariant results[..resultCount] == TypoSearch.Filtered(query.value, names, maxDistance, i)
      {
        var distance := NameDistance(lowerQuery, query.value, reviews[i].reviewerName);
        assert distance == TypoSearch.Candidate(query.value, names, i).distance;
        if distance <= maxDistance {
          results[resultCount] := TypoSearch.SearchResult(i, distance, TypoSearch.Tier(distance));
          assert results[..resultCount + 1] == results[..resultCount] + [TypoSearch.Candidate(query.value, names, i)];
          resultCount := resultCount + 1;
        }
        i := i + 1;
      }
      ghost var filtered := results[..resultCount];
      TypoSearch.IncreasingIndicesTie(filtered);
      TypoSearch.BubbleSortByDistance(results, resultCount);
      assert TypoSearch.IsSearchOutcome(query.value, names, maxDistance, results[..resultCount]);
    }
  }

  /** One step of the search's first loop: the name is lower-cased and its
      `editDistance` from the already lower-cased query is measured. */
  method NameDistance(lowerQuery: Option<string>, query: string, name: string) returns (distance: int)
    requires lowerQuery == Distance.ToLowerCase(Some(query))
    ensures distance == Distance.Levenshtein(Distance.LowerString(query), Distance.LowerString(name))
  {
    var lowerName := Distance.ToLowerCase(Some(name));
    distance := Distance.EditDistance(lowerQuery, lowerName);
  }

  /** `FirstNamed` agrees with any position that has the name and no earlier
      match, and is -1 when no position has it. */
  lemma FirstNamedIsFirst(rs: seq<Review>, name: string, i: int)
    requires -1 <= i < |rs|
    requires i >= 0 ==> rs[i].reviewerName == name
    requires forall k :: 0 <= k < |rs| && (i == -1 || k < i) ==> rs[k].reviewerName != name
    ensures FirstNamed(rs, name) == i
  {
  }
}
