/** The leaderboards' ordering: Array.prototype.sort, which is stable, with a
    comparator that puts higher scores (then higher accuracies) first. An
    element's position is decided by a two-level rank; elements of equal rank
    keep their input order. */
module Ranking {

  /** A sort key compared lexicographically: primary first, then secondary. */
  datatype Rank = Rank(primary: int, secondary: int)

  /** a must come strictly before b when sorting best first. */
  predicate Outranks(a: Rank, b: Rank)
  {
    a.primary > b.primary || (a.primary == b.primary && a.secondary > b.secondary)
  }

  /** s is ordered best first: no element outranks one that precedes it. */
  ghost predicate SortedBy<T>(key: T -> Rank, s: seq<T>)
  {
    forall i, j :: 0 <= i < j < |s| ==> !Outranks(key(s[j]), key(s[i]))
  }

  /** No two elements of s share a value of f. */
  ghost predicate UniqueBy<T, K>(f: T -> K, s: seq<T>)
  {
    forall i, j :: 0 <= i < j < |s| ==> f(s[i]) != f(s[j])
  }

  /** Where a stable sort puts x when x follows all of t: in front of the first
      element that x outranks. */
  function InsertPos<T>(key: T -> Rank, t: seq<T>, x: T): (k: nat)
    ensures k <= |t|
    ensures forall i :: 0 <= i < k ==> !Outranks(key(x), key(t[i]))
    ensures k < |t| ==> Outranks(key(x), key(t[k]))
  {
    if t == [] then 0
    else if Outranks(key(x), key(t[0])) then 0
    else 1 + InsertPos(key, t[1..], x)
  }

  function Insert<T>(key: T -> Rank, t: seq<T>, x: T): seq<T>
  {
    var k := InsertPos(key, t, x);
    t[..k] + [x] + t[k..]
  }

  lemma InsertMultiset<T>(key: T -> Rank, t: seq<T>, x: T)
    ensures |Insert(key, t, x)| == |t| + 1
    ensures multiset(Insert(key, t, x)) == multiset(t) + multiset{x}
  {
    var k := InsertPos(key, t, x);
    assert t == t[..k] + t[k..];
  }

  /** Inserting into a sorted sequence keeps it sorted. */
  lemma InsertSorted<T>(key: T -> Rank, t: seq<T>, x: T)
    requires SortedBy(key, t)
    ensures SortedBy(key, Insert(key, t, x))
  {
    var k := InsertPos(key, t, x);
    var r := Insert(key, t, x);
    assert forall i :: 0 <= i < k ==> r[i] == t[i];
    assert r[k] == x;
    assert forall i :: k < i < |r| ==> r[i] == t[i - 1];
  }

  /** Inserting an element whose f-value is new keeps f-values unique. */
  lemma InsertUnique<T, K>(key: T -> Rank, f: T -> K, t: seq<T>, x: T)
    requires UniqueBy(f, t)
    requires forall i :: 0 <= i < |t| ==> f(t[i]) != f(x)
    ensures UniqueBy(f, Insert(key, t, x))
  {
    var k := InsertPos(key, t, x);
    var r := Insert(key, t, x);
    assert forall i :: 0 <= i < k ==> r[i] == t[i];
    assert r[k] == x;
    assert forall i :: k < i < |r| ==> r[i] == t[i - 1];
  }

  /** The stable sort: each element, taken in input order, is inserted behind
      every element it does not outrank. */
  function SortBy<T>(key: T -> Rank, s: seq<T>): seq<T>
  {
    if s == [] then [] else Insert(key, SortBy(key, s[..|s| - 1]), s[|s| - 1])
  }

  /** The stable sort yields a sorted permutation of its input. */
  lemma {:induction false} SortByPermutes<T>(key: T -> Rank, s: seq<T>)
    ensures |SortBy(key, s)| == |s|
    ensures multiset(SortBy(key, s)) == multiset(s)
    ensures SortedBy(key, SortBy(key, s))
  {
    if s != [] {
      var front, last := s[..|s| - 1], s[|s| - 1];
      SortByPermutes(key, front);
      InsertSorted(key, SortBy(key, front), last);
      InsertMultiset(key, SortBy(key, front), last);
      assert s == front + [last];
    }
  }

  /** Sorting a sequence that is already sorted changes nothing. */
  lemma {:induction false} SortBySorted<T>(key: T -> Rank, s: seq<T>)
    requires SortedBy(key, s)
    ensures SortBy(key, s) == s
  {
    if s != [] {
      var front, last := s[..|s| - 1], s[|s| - 1];
      assert SortedBy(key, front) by {
        forall i, j | 0 <= i < j < |front|
          ensures !Outranks(key(front[j]), key(front[i]))
        {
          assert front[i] == s[i] && front[j] == s[j];
        }
      }
      SortBySorted(key, front);
      forall i | 0 <= i < |front|
        ensures !Outranks(key(last), key(front[i]))
      {
        assert front[i] == s[i];
      }
      assert InsertPos(key, front, last) == |front|;
      assert Insert(key, front, last) == front + [last];
      assert front + [last] == s;
    }
  }

  /** Sorting a sorted sequence with one element pushed on the end inserts
      that element behind everything it does not outrank. */
  lemma SortByAppend<T>(key: T -> Rank, t: seq<T>, x: T)
    requires SortedBy(key, t)
    ensures SortBy(key, t + [x]) == Insert(key, t, x)
  {
    assert (t + [x])[..|t|] == t;
    SortBySorted(key, t);
  }

  /** Sorting keeps f-values unique. */
  lemma {:induction false} SortByUnique<T, K>(key: T -> Rank, f: T -> K, s: seq<T>)
    requires UniqueBy(f, s)
    ensures UniqueBy(f, SortBy(key, s))
  {
    if s != [] {
      var front := s[..|s| - 1];
      var last := s[|s| - 1];
      SortByUnique(key, f, front);
      SortByPermutes(key, front);
      var sorted := SortBy(key, front);
      forall i | 0 <= i < |sorted|
        ensures f(sorted[i]) != f(last)
      {
        assert sorted[i] in multiset(front);
        var j :| 0 <= j < |front| && front[j] == sorted[i];
        assert f(s[j]) != f(s[|s| - 1]);
      }
      InsertUnique(key, f, sorted, last);
    }
  }
}
