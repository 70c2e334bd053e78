/** `UIManager.filterTasks` of script.js (lines 308-332) and the strings it relies on. */
module Filters {
  import opened Seqs
  import opened Tasks
  import opened Collection

  /** The filter state `{ search, label, priority }` (script.js:163-167); `category` is `label`. */
  datatype FilterSet = FilterSet(search: string, category: string, priority: string)

  /** The initial filters: no search term, every label, every priority. */
  const DefaultFilters := FilterSet("", "all", "all")

  /** `toLowerCase` on one character, for ASCII letters. */
  function LowerChar(c: char): char {
    if 'A' <= c <= 'Z' then (c as int + 32) as char else c
  }

  /** `s.toLowerCase()`, for ASCII letters. */
  function ToLower(s: string): (r: string)
    ensures |r| == |s|
    ensures forall i :: 0 <= i < |s| ==> r[i] == LowerChar(s[i])
  {
    if s == [] then [] else [LowerChar(s[0])] + ToLower(s[1..])
  }

  /** `sub` occurs in `s` starting at position `i`. */
  predicate OccursAt(s: string, sub: string, i: nat) {
    i + |sub| <= |s| && s[i..i + |sub|] == sub
  }

  /** `s.includes(sub)`: `sub` occurs in `s` at some position. */
  function Includes(s: string, sub: string): (r: bool)
    ensures r <==> exists i: nat :: OccursAt(s, sub, i)
    decreases |s|
  {
    if sub <= s then
      assert OccursAt(s, sub, 0);
      true
    else if s == [] then
      assert forall i: nat :: !OccursAt(s, sub, i);
      false
    else
      var r := Includes(s[1..], sub);
      assert r ==> (exists i: nat :: OccursAt(s, sub, i)) by {
        if r {
          var i: nat :| OccursAt(s[1..], sub, i);
          assert s[1..][i..i + |sub|] == s[i + 1..i + 1 + |sub|];
          assert OccursAt(s, sub, i + 1);
        }
      }
      assert (exists i: nat :: OccursAt(s, sub, i)) ==> r by {
        if (exists i: nat :: OccursAt(s, sub, i)) {
          var i: nat :| OccursAt(s, sub, i);
          assert i != 0;
          assert s[1..][i - 1..i - 1 + |sub|] == s[i..i + |sub|];
          assert OccursAt(s[1..], sub, i - 1);
        }
      }
      r
  }

  /** The search predicate (script.js:315-317): the term is empty or occurs in the lowercased title or description. */
  predicate MatchesSearch(f: FilterSet, t: Task) {
    f.search == "" || Includes(ToLower(t.title), f.search) || Includes(ToLower(t.description), f.search)
  }

  /** The label predicate (script.js:320-321): exact match, or the filter is `'all'`. */
  predicate MatchesLabel(f: FilterSet, t: Task) {
    f.category == "all" || t.category == f.category
  }

  /** The priority predicate (script.js:324-325): case-insensitive match, or the filter is `'all'`. */
  predicate MatchesPriority(f: FilterSet, t: Task) {
    f.priority == "all" || ToLower(t.priority) == ToLower(f.priority)
  }

  /** A task passes the filters when it passes all three predicates (script.js:327). */
  function Matches(f: FilterSet): Task -> bool {
    t => MatchesSearch(f, t) && MatchesLabel(f, t) && MatchesPriority(f, t)
  }

  /** `filterTasks(tasks)` (script.js:308-332): a fresh object with every list filtered, keys in the same order. */
  function FilterTasks(f: FilterSet, b: Board): Board {
    Board(b.keys, map k | k in b.buckets :: Filter(b.buckets[k], Matches(f)))
  }

  /**
   * Every list of the result is a subsequence of the input's list under the same key (same order),
   * and holds exactly the input's tasks that pass all three predicates.
   */
  lemma FilterTasksSound(f: FilterSet, b: Board)
    ensures FilterTasks(f, b).keys == b.keys && FilterTasks(f, b).buckets.Keys == b.buckets.Keys
    ensures forall k :: k in b.buckets ==> IsSubsequence(FilterTasks(f, b).buckets[k], b.buckets[k])
    ensures forall k, t :: k in b.buckets ==>
      (t in FilterTasks(f, b).buckets[k] <==>
        t in b.buckets[k] && MatchesSearch(f, t) && MatchesLabel(f, t) && MatchesPriority(f, t))
  {
    forall k | k in b.buckets
      ensures IsSubsequence(FilterTasks(f, b).buckets[k], b.buckets[k])
    {
      FilterIsSubsequence(b.buckets[k], Matches(f));
    }
  }

  /** With the default filters (`''`, `'all'`, `'all'`) the result equals the input. */
  lemma DefaultFiltersKeepAll(b: Board)
    ensures FilterTasks(DefaultFilters, b) == b
  {
    forall k | k in b.buckets
      ensures FilterTasks(DefaultFilters, b).buckets[k] == b.buckets[k]
    {
      FilterAllPass(b.buckets[k], Matches(DefaultFilters));
    }
  }

  /** A search term that matches no task leaves every list empty, under every key of the input. */
  lemma NoMatchEmptiesLists(f: FilterSet, b: Board)
    requires forall k, i :: k in b.buckets && 0 <= i < |b.buckets[k]| ==> !MatchesSearch(f, b.buckets[k][i])
    ensures FilterTasks(f, b).keys == b.keys
    ensures forall k :: k in b.buckets ==> k in FilterTasks(f, b).buckets && FilterTasks(f, b).buckets[k] == []
  {
    forall k | k in b.buckets
      ensures FilterTasks(f, b).buckets[k] == []
    {
      forall t | t in b.buckets[k]
        ensures !Matches(f)(t)
      {
        var i :| 0 <= i < |b.buckets[k]| && b.buckets[k][i] == t;
      }
      FilterNonePass(b.buckets[k], Matches(f));
    }
  }

  /** Applying the same filters to a filtered collection changes nothing more. */
  lemma FilterTasksIdempotent(f: FilterSet, b: Board)
    ensures FilterTasks(f, FilterTasks(f, b)) == FilterTasks(f, b)
  {
    forall k | k in b.buckets
      ensures FilterTasks(f, FilterTasks(f, b)).buckets[k] == FilterTasks(f, b).buckets[k]
    {
      FilterIdempotent(b.buckets[k], Matches(f));
    }
  }
}
