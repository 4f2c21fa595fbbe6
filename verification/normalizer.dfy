/**
 * `flatten_and_sort`: concatenate a list of integer lists (one level of
 * nesting removed, sub-lists in their given order) and return the result in
 * ascending order. The input is a value, so it cannot be changed by the call,
 * and the result is a fresh sequence.
 */
module Normalizer {

  /** Sum of the lengths of the sub-lists. */
  function TotalLength(arr: seq<seq<int>>): nat
  {
    if arr == [] then 0 else |arr[0]| + TotalLength(arr[1..])
  }

  /** Multiset union of the elements of all sub-lists. */
  ghost function Bag(arr: seq<seq<int>>): multiset<int>
  {
    if arr == [] then multiset{} else multiset(arr[0]) + Bag(arr[1..])
  }

  /** Position at which sub-list `i` starts in the concatenation. */
  function Offset(arr: seq<seq<int>>, i: nat): nat
    requires i <= |arr|
  {
    TotalLength(arr[..i])
  }

  /** Ascending order: every earlier element is at most every later one. */
  predicate Sorted(s: seq<int>)
  {
    forall i, j :: 0 <= i < j < |s| ==> s[i] <= s[j]
  }

  /** One level of flattening, as `chain.from_iterable` does. */
  function Flatten(arr: seq<seq<int>>): (r: seq<int>)
    ensures |r| == TotalLength(arr)
    ensures multiset(r) == Bag(arr)
  {
    if arr == [] then [] else arr[0] + Flatten(arr[1..])
  }

  /** Insert `x` into an ascending sequence, keeping it ascending. */
  function Insert(x: int, s: seq<int>): (r: seq<int>)
    requires Sorted(s)
    ensures Sorted(r)
    ensures multiset(r) == multiset(s) + multiset{x}
  {
    if s == [] then [x]
    else if x <= s[0] then [x] + s
    else
      var t := Insert(x, s[1..]);
      assert s == [s[0]] + s[1..];
      LowerBoundOfBag(s[0], t, s[1..], x);
      [s[0]] + t
  }

  /** A lower bound of `u` and of `x` bounds every sequence holding exactly `u` plus `x`. */
  lemma LowerBoundOfBag(h: int, t: seq<int>, u: seq<int>, x: int)
    requires Sorted(t)
    requires multiset(t) == multiset(u) + multiset{x}
    requires h <= x && forall k :: 0 <= k < |u| ==> h <= u[k]
    ensures Sorted([h] + t)
  {
    forall k | 0 <= k < |t| ensures h <= t[k] {
      assert t[k] in multiset(t);
      if t[k] != x {
        assert t[k] in multiset(u);
      }
    }
  }

  /** Ascending sort: the stand-in for Python's `sorted` on integers. */
  function Sort(s: seq<int>): (r: seq<int>)
    ensures Sorted(r)
    ensures multiset(r) == multiset(s)
  {
    if s == [] then []
    else
      assert s == [s[0]] + s[1..];
      Insert(s[0], Sort(s[1..]))
  }

  /** `flatten_and_sort`: sort the one-level flattening of `arr`. */
  function FlattenAndSort(arr: seq<seq<int>>): (r: seq<int>)
    ensures Sorted(r)
    ensures multiset(r) == Bag(arr)
    ensures |r| == TotalLength(arr)
  {
    var flat := Flatten(arr);
    var sorted := Sort(flat);
    assert multiset(sorted) == multiset(flat) == Bag(arr);
    assert |sorted| == |multiset(sorted)| == |multiset(flat)| == |flat|;
    sorted
  }

  // ---------------------------------------------------------------------
  // Properties of flattening

  /** Flattening distributes over concatenation of the outer list. */
  lemma {:induction false} FlattenAppend(a: seq<seq<int>>, b: seq<seq<int>>)
    ensures Flatten(a + b) == Flatten(a) + Flatten(b)
    ensures Bag(a + b) == Bag(a) + Bag(b)
    ensures TotalLength(a + b) == TotalLength(a) + TotalLength(b)
  {
    if a != [] {
      assert (a + b)[1..] == a[1..] + b;
      FlattenAppend(a[1..], b);
    } else {
      assert a + b == b;
    }
  }

  /**
   * The concatenation keeps every sub-list, in order: element `j` of
   * sub-list `i` sits at position `Offset(arr, i) + j`.
   */
  lemma {:induction false} FlattenAt(arr: seq<seq<int>>, i: nat, j: nat)
    requires i < |arr| && j < |arr[i]|
    ensures Offset(arr, i) + j < |Flatten(arr)|
    ensures Flatten(arr)[Offset(arr, i) + j] == arr[i][j]
  {
    var pre, post := arr[..i], arr[i..];
    assert arr == pre + post;
    FlattenAppend(pre, post);
    assert post == [arr[i]] + post[1..];
    FlattenAppend([arr[i]], post[1..]);
    assert Flatten([arr[i]]) == arr[i] + Flatten([]);
  }

  /** The flattening is empty exactly when every sub-list is empty. */
  lemma {:induction false} FlattenEmptyIff(arr: seq<seq<int>>)
    ensures Flatten(arr) == [] <==> forall i :: 0 <= i < |arr| ==> arr[i] == []
  {
    if arr != [] {
      FlattenEmptyIff(arr[1..]);
      assert forall i :: 1 <= i < |arr| ==> arr[i] == arr[1..][i - 1];
    }
  }

  // ---------------------------------------------------------------------
  // Properties of sorting

  /** The pairwise form of ascending order is the adjacent-pairs form. */
  lemma {:induction false} SortedIffAdjacent(s: seq<int>)
    ensures Sorted(s) <==> forall i :: 0 <= i < |s| - 1 ==> s[i] <= s[i + 1]
  {
    if |s| > 1 {
      SortedIffAdjacent(s[1..]);
      if forall i :: 0 <= i < |s| - 1 ==> s[i] <= s[i + 1] {
        assert forall i :: 0 <= i < |s[1..]| - 1 ==> s[1..][i] <= s[1..][i + 1];
        assert Sorted(s[1..]);
        forall i, j | 0 <= i < j < |s| ensures s[i] <= s[j] {
          if i > 0 {
            assert s[i] == s[1..][i - 1] && s[j] == s[1..][j - 1];
          } else {
            assert s[0] <= s[1];
            if j > 1 {
              assert s[1] == s[1..][0] && s[j] == s[1..][j - 1];
            }
          }
        }
      }
    }
  }

  /** The head of an ascending sequence is its least element. */
  lemma HeadIsLeast(s: seq<int>, x: int)
    requires Sorted(s) && x in multiset(s)
    ensures s[0] <= x
  {
  }

  /**
   * An ascending sequence is determined by its multiset of elements: any
   * correct sort, `sorted` included, returns the same sequence.
   */
  lemma {:induction false} SortedUnique(a: seq<int>, b: seq<int>)
    requires Sorted(a) && Sorted(b)
    requires multiset(a) == multiset(b)
    ensures a == b
  {
    assert |a| == |b| by {
      assert |a| == |multiset(a)| == |multiset(b)| == |b|;
    }
    if a != [] {
      assert a[0] == b[0] by {
        HeadIsLeast(a, b[0]);
        HeadIsLeast(b, a[0]);
      }
      assert a[1..] == b[1..] by {
        TailBag(a);
        TailBag(b);
        SortedUnique(a[1..], b[1..]);
      }
      assert a == [a[0]] + a[1..] && b == [b[0]] + b[1..];
    }
  }

  /** Dropping the head keeps the order and removes one copy of the head. */
  lemma TailBag(s: seq<int>)
    requires Sorted(s) && s != []
    ensures Sorted(s[1..])
    ensures multiset(s[1..]) == multiset(s) - multiset{s[0]}
  {
    assert s == [s[0]] + s[1..];
  }

  /** Sorting an ascending sequence gives it back unchanged. */
  lemma {:induction false} SortOfSorted(s: seq<int>)
    requires Sorted(s)
    ensures Sort(s) == s
  {
    SortedUnique(Sort(s), s);
  }

  // ---------------------------------------------------------------------
  // Properties of flatten_and_sort

  /**
   * The result depends on the input only through its multiset of elements:
   * two inputs give the same result exactly when they hold the same elements
   * with the same multiplicities.
   */
  lemma SameResultIffSameBag(a: seq<seq<int>>, b: seq<seq<int>>)
    ensures FlattenAndSort(a) == FlattenAndSort(b) <==> Bag(a) == Bag(b)
  {
    if Bag(a) == Bag(b) {
      SortedUnique(FlattenAndSort(a), FlattenAndSort(b));
    }
  }

  /** The order of the sub-lists does not matter. */
  lemma SubListOrderIrrelevant(a: seq<seq<int>>, b: seq<seq<int>>)
    ensures FlattenAndSort(a + b) == FlattenAndSort(b + a)
  {
    FlattenAppend(a, b);
    FlattenAppend(b, a);
    SameResultIffSameBag(a + b, b + a);
  }

  /** An empty sub-list, wherever it stands, contributes nothing. */
  lemma EmptySubListIgnored(a: seq<seq<int>>, b: seq<seq<int>>)
    ensures FlattenAndSort(a + [[]] + b) == FlattenAndSort(a + b)
  {
    FlattenAppend(a, [[]]);
    FlattenAppend(a + [[]], b);
    FlattenAppend(a, b);
    assert Bag([[]]) == multiset{};
    SameResultIffSameBag(a + [[]] + b, a + b);
  }

  /** The result is empty exactly when every sub-list is empty. */
  lemma EmptyResultIff(arr: seq<seq<int>>)
    ensures FlattenAndSort(arr) == [] <==> forall i :: 0 <= i < |arr| ==> arr[i] == []
  {
    FlattenEmptyIff(arr);
  }

  /** A single sub-list flattens to itself. */
  lemma FlattenSingleton(s: seq<int>)
    ensures Flatten([s]) == s
  {
  }

  /** Wrapping the result as the only sub-list and normalizing again changes nothing. */
  lemma Idempotent(arr: seq<seq<int>>)
    ensures FlattenAndSort([FlattenAndSort(arr)]) == FlattenAndSort(arr)
  {
    var r := FlattenAndSort(arr);
    FlattenSingleton(r);
    SortOfSorted(r);
  }

  /**
   * Any ascending rearrangement of the concatenation is the result, so the
   * model agrees with every correct sort, Python's `sorted` included.
   */
  lemma SortedPermutationIsResult(arr: seq<seq<int>>, want: seq<int>)
    requires Sorted(want) && multiset(Flatten(arr)) == multiset(want)
    ensures FlattenAndSort(arr) == want
  {
    SortedUnique(FlattenAndSort(arr), want);
  }

  // ---------------------------------------------------------------------
  // Concrete scenarios

  lemma DemoConcatenation()
    ensures Flatten([[3, 2, 1], [4, 6, 5], [], [9, 7, 8]]) == [3, 2, 1] + [4, 6, 5] + [9, 7, 8]
  {
    var arr := [[3, 2, 1], [4, 6, 5], [], [9, 7, 8]];
    FlattenSingleton(arr[3]);
    assert arr[3..] == [arr[3]];
    assert Flatten(arr[2..]) == [] + Flatten(arr[3..]);
    assert Flatten(arr[1..]) == [4, 6, 5] + Flatten(arr[2..]);
  }

  // Fact about literals only, stated apart to keep the scenario proof small.
  lemma DemoInputBag()
    ensures multiset([3, 2, 1, 4, 6, 5, 9, 7, 8]) == multiset{1, 2, 3, 4, 5, 6, 7, 8, 9}
  {
  }

  // Fact about literals only, stated apart to keep the scenario proof small.
  lemma DemoOutputBag()
    ensures multiset([1, 2, 3, 4, 5, 6, 7, 8, 9]) == multiset{1, 2, 3, 4, 5, 6, 7, 8, 9}
  {
  }

  lemma DemoFlattening()
    ensures multiset(Flatten([[3, 2, 1], [4, 6, 5], [], [9, 7, 8]])) == multiset([1, 2, 3, 4, 5, 6, 7, 8, 9])
  {
    DemoConcatenation();
    assert [3, 2, 1] + [4, 6, 5] + [9, 7, 8] == [3, 2, 1, 4, 6, 5, 9, 7, 8];
    DemoInputBag();
    DemoOutputBag();
  }

  // Fact about literals only, stated apart to keep the scenario proof small.
  lemma DemoSorted()
    ensures Sorted([1, 2, 3, 4, 5, 6, 7, 8, 9])
  {
  }

  /** The scenario the script runs: three shuffled triples and an empty list. */
  lemma DemoScenario()
    ensures FlattenAndSort([[3, 2, 1], [4, 6, 5], [], [9, 7, 8]]) == [1, 2, 3, 4, 5, 6, 7, 8, 9]
  {
    DemoFlattening();
    DemoSorted();
    SortedPermutationIsResult([[3, 2, 1], [4, 6, 5], [], [9, 7, 8]], [1, 2, 3, 4, 5, 6, 7, 8, 9]);
  }

  lemma DuplicatesFlattening()
    ensures multiset(Flatten([[2, 2, 1], [1]])) == multiset([1, 1, 2, 2])
  {
    var arr := [[2, 2, 1], [1]];
    assert Flatten(arr) == [2, 2, 1, 1] by {
      FlattenSingleton(arr[1]);
      assert arr[1..] == [arr[1]];
    }
  }

  // Fact about literals only, stated apart to keep the scenario proof small.
  lemma DuplicatesSorted()
    ensures Sorted([1, 1, 2, 2])
  {
  }

  /** Duplicates are kept; a lone singleton and all-empty input come back as expected. */
  lemma SmallScenarios()
    ensures FlattenAndSort([[2, 2, 1], [1]]) == [1, 1, 2, 2]
    ensures FlattenAndSort([[5]]) == [5]
    ensures FlattenAndSort([[], [], []]) == []
  {
    DuplicatesFlattening();
    DuplicatesSorted();
    SortedPermutationIsResult([[2, 2, 1], [1]], [1, 1, 2, 2]);
    FlattenSingleton([5]);
    SortedPermutationIsResult([[5]], [5]);
    EmptyResultIff([[], [], []]);
  }
}
