/**
 * `Array.from(yearsSet).sort((a, b) => a - b)`: the years seen, in ascending
 * numeric order. The library sort is modelled by an insertion sort; the
 * lemmas state what any correct sort returns.
 */
module Sorting {

  predicate Sorted(s: seq<int>)
  {
    forall i, j :: 0 <= i < j < |s| ==> s[i] <= s[j]
  }

  predicate StrictlyAscending(s: seq<int>)
  {
    forall i, j :: 0 <= i < j < |s| ==> s[i] < s[j]
  }

  predicate NoDuplicates(s: seq<int>)
  {
    forall i, j :: 0 <= i < j < |s| ==> s[i] != s[j]
  }

  /** Puts `x` into a sorted sequence in front of the first element not below it. */
  function Insert(x: int, s: seq<int>): seq<int>
  {
    if s == [] || x <= s[0] then [x] + s else [s[0]] + Insert(x, s[1..])
  }

  /** The comparator `(a, b) => a - b` orders numbers ascending. */
  function SortAscending(s: seq<int>): seq<int>
  {
    if s == [] then [] else Insert(s[0], SortAscending(s[1..]))
  }

  lemma {:induction false} InsertAddsOne(x: int, s: seq<int>)
    ensures multiset(Insert(x, s)) == multiset(s) + multiset{x}
  {
    if s != [] && x > s[0] {
      InsertAddsOne(x, s[1..]);
      assert s == [s[0]] + s[1..];
    }
  }

  lemma {:induction false} InsertKeepsOrder(x: int, s: seq<int>)
    requires Sorted(s)
    ensures Sorted(Insert(x, s))
  {
    if s != [] && x > s[0] {
      var tail := Insert(x, s[1..]);
      InsertKeepsOrder(x, s[1..]);
      InsertAddsOne(x, s[1..]);
      forall j | 0 <= j < |tail|
        ensures s[0] <= tail[j]
      {
        assert tail[j] in multiset(tail);
        if tail[j] != x {
          assert tail[j] in multiset(s[1..]);
        }
      }
      assert Insert(x, s) == [s[0]] + tail;
    }
  }

  lemma {:induction false} InsertKeepsStrictOrder(x: int, s: seq<int>)
    requires StrictlyAscending(s) && x !in s
    ensures StrictlyAscending(Insert(x, s))
  {
    if s != [] && x > s[0] {
      var tail := Insert(x, s[1..]);
      assert x !in s[1..];
      InsertKeepsStrictOrder(x, s[1..]);
      InsertAddsOne(x, s[1..]);
      forall j | 0 <= j < |tail|
        ensures s[0] < tail[j]
      {
        assert tail[j] in multiset(tail);
        if tail[j] != x {
          assert tail[j] in multiset(s[1..]);
        }
      }
      assert Insert(x, s) == [s[0]] + tail;
    }
  }

  /** Sorting returns a permutation of the years given. */
  lemma {:induction false} SortAscendingPermutes(s: seq<int>)
    ensures multiset(SortAscending(s)) == multiset(s)
  {
    if s != [] {
      SortAscendingPermutes(s[1..]);
      assert s == [s[0]] + s[1..];
      InsertAddsOne(s[0], SortAscending(s[1..]));
    }
  }

  /** Sorting returns the years in ascending order. */
  lemma {:induction false} SortAscendingOrders(s: seq<int>)
    ensures Sorted(SortAscending(s))
  {
    if s != [] {
      SortAscendingOrders(s[1..]);
      InsertKeepsOrder(s[0], SortAscending(s[1..]));
    }
  }

  /** Distinct years come back strictly ascending. */
  lemma {:induction false} SortAscendingStrictly(s: seq<int>)
    requires NoDuplicates(s)
    ensures StrictlyAscending(SortAscending(s))
  {
    if s != [] {
      var rest := SortAscending(s[1..]);
      assert NoDuplicates(s[1..]);
      SortAscendingStrictly(s[1..]);
      SortAscendingPermutes(s[1..]);
      assert s[0] !in s[1..];
      assert s[0] !in multiset(rest);
      InsertKeepsStrictOrder(s[0], rest);
    }
  }
}
