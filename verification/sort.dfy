/** `Array.prototype.sort()` called without a comparator, as `calculateDiceRoll` calls it:
    elements are compared by their string renderings, code unit by code unit, so the order
    is not numeric (10 sorts before 2, and -1 before -5). The algorithm an engine uses is
    not observable here; only its result is, so the sort is an insertion sort on values. */
module JsSort {
  import opened JsNumbers

  /** `a <= b` in the lexicographic code-unit order of strings; a prefix comes first. */
  predicate StrLe(a: string, b: string)
    decreases |a|
  {
    a == [] || (b != [] && (a[0] < b[0] || (a[0] == b[0] && StrLe(a[1..], b[1..]))))
  }

  lemma {:induction false} StrLeTotal(a: string, b: string)
    ensures StrLe(a, b) || StrLe(b, a)
    decreases |a|
  {
    if a != [] && b != [] && a[0] == b[0] {
      StrLeTotal(a[1..], b[1..]);
    }
  }

  lemma {:induction false} StrLeTransitive(a: string, b: string, c: string)
    requires StrLe(a, b) && StrLe(b, c)
    ensures StrLe(a, c)
    decreases |a|
  {
    if a != [] && a[0] == b[0] && b[0] == c[0] {
      StrLeTransitive(a[1..], b[1..], c[1..]);
    }
  }

  lemma {:induction false} StrLeAntisymmetric(a: string, b: string)
    requires StrLe(a, b) && StrLe(b, a)
    ensures a == b
    decreases |a|
  {
    if a != [] {
      StrLeAntisymmetric(a[1..], b[1..]);
      assert a == [a[0]] + a[1..] && b == [b[0]] + b[1..];
    }
  }

  /** `x` may stand before `y` in an array sorted by the default comparator. */
  predicate Before(x: int, y: int) {
    StrLe(IntToString(x), IntToString(y))
  }

  predicate BeforeAll(x: int, s: seq<int>) {
    forall k :: 0 <= k < |s| ==> Before(x, s[k])
  }

  predicate Sorted(s: seq<int>) {
    forall i, j :: 0 <= i < j < |s| ==> Before(s[i], s[j])
  }

  function Insert(x: int, s: seq<int>): (r: seq<int>) {
    if s == [] then [x]
    else if Before(x, s[0]) then [x] + s
    else [s[0]] + Insert(x, s[1..])
  }

  /** The array as `sort()` leaves it. */
  function Sort(s: seq<int>): (r: seq<int>) {
    if s == [] then [] else Insert(s[0], Sort(s[1..]))
  }

  lemma {:induction false} InsertPermutes(x: int, s: seq<int>)
    ensures multiset(Insert(x, s)) == multiset(s) + multiset{x}
  {
    if s != [] && !Before(x, s[0]) {
      InsertPermutes(x, s[1..]);
      assert s == [s[0]] + s[1..];
    }
  }

  lemma {:induction false} InsertKeepsLowerBound(y: int, x: int, s: seq<int>)
    requires Before(y, x) && BeforeAll(y, s)
    ensures BeforeAll(y, Insert(x, s))
  {
    if s != [] && !Before(x, s[0]) {
      InsertKeepsLowerBound(y, x, s[1..]);
    }
  }

  lemma ConsSorted(x: int, s: seq<int>)
    requires BeforeAll(x, s) && Sorted(s)
    ensures Sorted([x] + s)
  {
    var t := [x] + s;
    forall i, j | 0 <= i < j < |t| ensures Before(t[i], t[j]) {
      if i > 0 {
        assert t[i] == s[i - 1] && t[j] == s[j - 1];
      }
    }
  }

  lemma {:induction false} InsertSorted(x: int, s: seq<int>)
    requires Sorted(s)
    ensures Sorted(Insert(x, s))
  {
    if s == [] {
    } else if Before(x, s[0]) {
      forall k | 0 <= k < |s| ensures Before(x, s[k]) {
        if k > 0 {
          StrLeTransitive(IntToString(x), IntToString(s[0]), IntToString(s[k]));
        }
      }
      ConsSorted(x, s);
    } else {
      StrLeTotal(IntToString(x), IntToString(s[0]));
      var rest := s[1..];
      assert BeforeAll(s[0], rest) by {
        forall k | 0 <= k < |rest| ensures Before(s[0], rest[k]) {
          assert rest[k] == s[k + 1];
        }
      }
      InsertKeepsLowerBound(s[0], x, rest);
      InsertSorted(x, rest);
      ConsSorted(s[0], Insert(x, rest));
    }
  }

  /** `sort()` only reorders: the result is a permutation of the array, in the
      default comparator's order. */
  lemma {:induction false} SortSpec(s: seq<int>)
    ensures Sorted(Sort(s))
    ensures multiset(Sort(s)) == multiset(s)
    ensures |Sort(s)| == |s|
  {
    if s != [] {
      SortSpec(s[1..]);
      InsertSorted(s[0], Sort(s[1..]));
      InsertPermutes(s[0], Sort(s[1..]));
      assert s == [s[0]] + s[1..];
    }
  }

  /** The sorted order is the only one: any permutation of `s` in the default
      comparator's order is `Sort(s)`, because no two different integers share a
      rendering. */
  lemma SortUnique(s: seq<int>, t: seq<int>)
    requires Sorted(t) && multiset(t) == multiset(s)
    ensures t == Sort(s)
  {
    SortSpec(s);
    SortedPermutationsEqual(t, Sort(s));
  }

  lemma HeadBeforeAll(t: seq<int>, x: int)
    requires Sorted(t) && x in multiset(t)
    ensures Before(t[0], x)
  {
    var i :| 0 <= i < |t| && t[i] == x;
    if i == 0 {
      StrLeTotal(IntToString(x), IntToString(x));
    }
  }

  lemma SplitHead(t: seq<int>)
    requires t != []
    ensures multiset(t[1..]) == multiset(t) - multiset{t[0]}
  {
    assert t == [t[0]] + t[1..];
  }

  lemma {:induction false} SortedPermutationsEqual(t: seq<int>, u: seq<int>)
    requires Sorted(t) && Sorted(u) && multiset(t) == multiset(u)
    ensures t == u
    decreases |t|
  {
    assert |t| == |multiset(t)| == |multiset(u)| == |u|;
    if t != [] {
      assert t[0] in multiset(u) && u[0] in multiset(t) by {
        assert t[0] in multiset(t) && u[0] in multiset(u);
      }
      HeadBeforeAll(u, t[0]);
      HeadBeforeAll(t, u[0]);
      StrLeAntisymmetric(IntToString(t[0]), IntToString(u[0]));
      IntToStringInjective(t[0], u[0]);
      SplitHead(t);
      SplitHead(u);
      SortedPermutationsEqual(t[1..], u[1..]);
      assert t == [t[0]] + t[1..] && u == [u[0]] + u[1..];
    }
  }

  /** The default order is not numeric: 10 comes before 2, and among the negative rolls
      of one f die, -1 comes before -5. */
  lemma SortIsByRendering()
    ensures Sort([2, 10]) == [10, 2]
    ensures Sort([-5, -1, 3]) == [-1, -5, 3]
  {
    assert IntToString(10) == "10" && IntToString(2) == "2";
    assert IntToString(-5) == "-5" && IntToString(-1) == "-1" && IntToString(3) == "3";
  }
}
