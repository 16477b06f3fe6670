/**
 * List facts the generators of js/game.js rely on: `[...new Set(xs)]`, `filter`, and the
 * numeric sort with `(a, b) => a - b` or `(a, b) => b - a`.
 */
module Lists {

  predicate Distinct(s: seq<int>)
  {
    forall i, j :: 0 <= i < j < |s| ==> s[i] != s[j]
  }

  /** `[...new Set(xs)]`: the first occurrence of every value, in order. */
  function Dedup(xs: seq<int>): (r: seq<int>)
    ensures Distinct(r) && |r| <= |xs|
    ensures forall x :: x in r <==> x in xs
  {
    if xs == [] then []
    else
      var d := Dedup(xs[..|xs| - 1]);
      var x := xs[|xs| - 1];
      assert xs == xs[..|xs| - 1] + [x];
      if x in d then d else d + [x]
  }

  /** A list without repeats is its own de-duplication. */
  lemma {:induction false} DedupOfDistinct(xs: seq<int>)
    requires Distinct(xs)
    ensures Dedup(xs) == xs
  {
    if xs != [] {
      DedupOfDistinct(xs[..|xs| - 1]);
      assert xs[|xs| - 1] !in xs[..|xs| - 1];
      assert xs == xs[..|xs| - 1] + [xs[|xs| - 1]];
    }
  }

  /** A list holding every element of a repeat-free list is at least as long. */
  lemma {:induction false} Pigeonhole(a: seq<int>, b: seq<int>)
    requires Distinct(a) && forall x :: x in a ==> x in b
    ensures |a| <= |b|
    decreases |a|
  {
    if a != [] {
      assert a[0] in a;
      var k :| 0 <= k < |b| && b[k] == a[0];
      var rest := b[..k] + b[k + 1..];
      forall x | x in a[1..]
        ensures x in rest
      {
        assert x in a;
        var i :| 0 <= i < |b| && b[i] == x;
        assert x != a[0];
        if i < k {
          assert rest[i] == x;
        } else {
          assert rest[i - 1] == x;
        }
      }
      Pigeonhole(a[1..], rest);
    }
  }

  /** Counting form of distinctness: no value occurs twice. */
  lemma {:induction false} DistinctCounts(s: seq<int>)
    ensures Distinct(s) <==> forall v :: multiset(s)[v] <= 1
    decreases |s|
  {
    if s != [] {
      DistinctCounts(s[1..]);
      assert s == [s[0]] + s[1..];
      if !Distinct(s) {
        var i, j :| 0 <= i < j < |s| && s[i] == s[j];
        assert s == s[..j] + s[j..];
        assert s[i] in multiset(s[..j]) && s[j] in multiset(s[j..]);
        assert multiset(s)[s[i]] >= 2;
      }
    }
  }

  /** A permutation of a repeat-free list is repeat-free. */
  lemma PermutationKeepsDistinct(a: seq<int>, b: seq<int>)
    requires multiset(a) == multiset(b) && Distinct(a)
    ensures Distinct(b)
  {
    DistinctCounts(a);
    DistinctCounts(b);
  }

  /** The comparator `a - b` (ascending) or `b - a` (descending) allows a before b. */
  predicate Before(a: int, b: int, asc: bool)
  {
    if asc then a <= b else a >= b
  }

  predicate StrictlyBefore(a: int, b: int, asc: bool)
  {
    if asc then a < b else a > b
  }

  predicate Sorted(s: seq<int>, asc: bool)
  {
    forall i, j :: 0 <= i < j < |s| ==> Before(s[i], s[j], asc)
  }

  predicate StrictlySorted(s: seq<int>, asc: bool)
  {
    forall i, j :: 0 <= i < j < |s| ==> StrictlyBefore(s[i], s[j], asc)
  }

  function Insert(x: int, s: seq<int>, asc: bool): (r: seq<int>)
    ensures |r| == |s| + 1 && multiset(r) == multiset(s) + multiset{x}
  {
    if s == [] then [x]
    else if Before(x, s[0], asc) then [x] + s
    else
      assert s == [s[0]] + s[1..];
      [s[0]] + Insert(x, s[1..], asc)
  }

  /** What comes out of Insert is x or came from s. */
  lemma InsertFrom(x: int, s: seq<int>, asc: bool, y: int)
    requires y in Insert(x, s, asc)
    ensures y == x || y in s
  {
    assert y in multiset(Insert(x, s, asc));
  }

  lemma {:induction false} InsertSorted(x: int, s: seq<int>, asc: bool)
    requires Sorted(s, asc)
    ensures Sorted(Insert(x, s, asc), asc)
    decreases |s|
  {
    if s != [] && !Before(x, s[0], asc) {
      var rest := Insert(x, s[1..], asc);
      InsertSorted(x, s[1..], asc);
      forall y | y in rest ensures Before(s[0], y, asc) {
        InsertFrom(x, s[1..], asc, y);
      }
    }
  }

  lemma {:induction false} InsertStrictlySorted(x: int, s: seq<int>, asc: bool)
    requires StrictlySorted(s, asc) && x !in s
    ensures StrictlySorted(Insert(x, s, asc), asc)
    decreases |s|
  {
    if s != [] {
      if Before(x, s[0], asc) {
        assert x != s[0];
      } else {
        var rest := Insert(x, s[1..], asc);
        InsertStrictlySorted(x, s[1..], asc);
        forall y | y in rest ensures StrictlyBefore(s[0], y, asc) {
          InsertFrom(x, s[1..], asc, y);
        }
      }
    }
  }

  /** `sort(sortFn)` on numbers, as insertion: the same values in a new order. */
  function SortNums(xs: seq<int>, asc: bool): (r: seq<int>)
    ensures |r| == |xs| && multiset(r) == multiset(xs)
  {
    if xs == [] then []
    else
      assert xs == [xs[0]] + xs[1..];
      Insert(xs[0], SortNums(xs[1..], asc), asc)
  }

  lemma DistinctTail(xs: seq<int>)
    requires Distinct(xs) && xs != []
    ensures Distinct(xs[1..]) && xs[0] !in xs[1..]
  {
    forall i, j | 0 <= i < j < |xs| - 1 ensures xs[1..][i] != xs[1..][j] {
      assert xs[1..][i] == xs[i + 1] && xs[1..][j] == xs[j + 1];
    }
    forall k | 0 <= k < |xs| - 1 ensures xs[1..][k] != xs[0] {
      assert xs[1..][k] == xs[k + 1];
    }
  }

  /** The sorted copy is ordered, and strictly ordered when there are no repeats. */
  lemma {:induction false} SortNumsSorted(xs: seq<int>, asc: bool)
    ensures Sorted(SortNums(xs, asc), asc)
    ensures Distinct(xs) ==> StrictlySorted(SortNums(xs, asc), asc)
  {
    if xs != [] {
      var rest := SortNums(xs[1..], asc);
      SortNumsSorted(xs[1..], asc);
      InsertSorted(xs[0], rest, asc);
      if Distinct(xs) {
        DistinctTail(xs);
        assert xs[0] !in multiset(xs[1..]);
        InsertStrictlySorted(xs[0], rest, asc);
      }
    }
  }

  /** A strictly ordered list has no repeats. */
  lemma StrictlySortedIsDistinct(s: seq<int>, asc: bool)
    requires StrictlySorted(s, asc)
    ensures Distinct(s)
  {
    forall i, j | 0 <= i < j < |s| ensures s[i] != s[j] {
      assert StrictlyBefore(s[i], s[j], asc);
    }
  }

  /** `filter(n => n <= bound)`: the values up to the bound, in order. */
  function AtMost(xs: seq<int>, bound: int): (r: seq<int>)
    ensures |r| <= |xs|
    ensures forall x :: x in r <==> x in xs && x <= bound
    ensures Distinct(xs) ==> Distinct(r)
  {
    if xs == [] then []
    else
      assert xs == [xs[0]] + xs[1..];
      var rest := AtMost(xs[1..], bound);
      assert Distinct(xs) ==> xs[0] !in rest;
      if xs[0] <= bound then [xs[0]] + rest else rest
  }

  /** A filter every value passes keeps the list as it is. */
  lemma {:induction false} AtMostKeepsAll(xs: seq<int>, bound: int)
    requires forall x :: x in xs ==> x <= bound
    ensures AtMost(xs, bound) == xs
  {
    if xs != [] {
      assert xs == [xs[0]] + xs[1..];
      assert xs[0] in xs;
      forall x | x in xs[1..] ensures x <= bound {
        assert x in xs;
      }
      AtMostKeepsAll(xs[1..], bound);
    }
  }

  /** `[...s].reverse()`. */
  function Reversed(s: seq<int>): (r: seq<int>)
    ensures |r| == |s|
    ensures forall i :: 0 <= i < |s| ==> r[i] == s[|s| - 1 - i]
  {
    seq(|s|, i requires 0 <= i < |s| => s[|s| - 1 - i])
  }

  /** Reversing keeps the values and turns an ascending order into a descending one. */
  lemma ReversedFacts(s: seq<int>, asc: bool)
    ensures forall x :: x in Reversed(s) <==> x in s
    ensures StrictlySorted(s, asc) ==> StrictlySorted(Reversed(s), !asc)
  {
    var r := Reversed(s);
    forall x ensures x in r <==> x in s {
      if x in s {
        var i :| 0 <= i < |s| && s[i] == x;
        assert r[|s| - 1 - i] == x;
      }
    }
    if StrictlySorted(s, asc) {
      forall i, j | 0 <= i < j < |r| ensures StrictlyBefore(r[i], r[j], !asc) {
        assert StrictlyBefore(s[|s| - 1 - j], s[|s| - 1 - i], asc);
      }
    }
  }

  /** A permutation holds the same values. */
  lemma SameMembers(a: seq<int>, b: seq<int>)
    requires multiset(a) == multiset(b)
    ensures forall x :: x in a <==> x in b
  {
    forall x ensures x in a <==> x in b {
      assert x in a <==> x in multiset(a);
      assert x in b <==> x in multiset(b);
    }
  }
}
