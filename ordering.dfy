/**
 * Python's ordering of `str` values and the `sorted` call the script makes on
 * the image names: code points are compared left to right, and a proper
 * prefix comes before every longer string that extends it.
 */
module Ordering {

  /** `a <= b` on Python strings. */
  predicate LessEq(a: string, b: string)
  {
    |a| == 0 || (|b| > 0 && (a[0] < b[0] || (a[0] == b[0] && LessEq(a[1..], b[1..]))))
  }

  lemma {:induction false} LessEqReflexive(a: string)
    ensures LessEq(a, a)
  {
    if |a| > 0 {
      LessEqReflexive(a[1..]);
    }
  }

  lemma {:induction false} LessEqTotal(a: string, b: string)
    ensures LessEq(a, b) || LessEq(b, a)
  {
    if |a| > 0 && |b| > 0 && a[0] == b[0] {
      LessEqTotal(a[1..], b[1..]);
    }
  }

  lemma {:induction false} LessEqAntisymmetric(a: string, b: string)
    requires LessEq(a, b) && LessEq(b, a)
    ensures a == b
  {
    if |a| > 0 && |b| > 0 {
      LessEqAntisymmetric(a[1..], b[1..]);
      assert a == [a[0]] + a[1..];
      assert b == [b[0]] + b[1..];
    }
  }

  lemma {:induction false} LessEqTransitive(a: string, b: string, c: string)
    requires LessEq(a, b) && LessEq(b, c)
    ensures LessEq(a, c)
  {
    if |a| > 0 && |b| > 0 && |c| > 0 && a[0] == b[0] == c[0] {
      LessEqTransitive(a[1..], b[1..], c[1..]);
    }
  }

  /** Every element is at most every later one. */
  predicate Sorted(s: seq<string>)
  {
    forall i, j :: 0 <= i < j < |s| ==> LessEq(s[i], s[j])
  }

  /** Putting a lower bound of a sorted sequence in front keeps it sorted. */
  lemma PrependSorted(x: string, s: seq<string>)
    requires Sorted(s)
    requires forall y :: y in s ==> LessEq(x, y)
    ensures Sorted([x] + s)
  {
    var t := [x] + s;
    forall i, j | 0 <= i < j < |t|
      ensures LessEq(t[i], t[j])
    {
      if i > 0 {
        assert t[i] == s[i - 1] && t[j] == s[j - 1];
      } else {
        assert t[j] == s[j - 1];
        assert t[j] in s;
      }
    }
  }

  /** Inserts `x` into a sorted sequence before the first element it does not exceed. */
  function Insert(x: string, s: seq<string>): (r: seq<string>)
    requires Sorted(s)
    ensures Sorted(r)
    ensures multiset(r) == multiset(s) + multiset{x}
  {
    if s == [] then
      [x]
    else if LessEq(x, s[0]) then
      InsertAtFront(x, s);
      [x] + s
    else
      LessEqTotal(x, s[0]);
      var t := Insert(x, s[1..]);
      assert s == [s[0]] + s[1..];
      forall y | y in t
        ensures LessEq(s[0], y)
      {
        assert y in multiset(t);
        if y != x {
          assert y in multiset(s[1..]);
          var j :| 0 <= j < |s[1..]| && s[1..][j] == y;
          assert s[j + 1] == y;
        }
      }
      PrependSorted(s[0], t);
      [s[0]] + t
  }

  lemma InsertAtFront(x: string, s: seq<string>)
    requires Sorted(s) && s != [] && LessEq(x, s[0])
    ensures Sorted([x] + s)
  {
    forall y | y in s
      ensures LessEq(x, y)
    {
      var j :| 0 <= j < |s| && s[j] == y;
      if j > 0 {
        LessEqTransitive(x, s[0], y);
      }
    }
    PrependSorted(x, s);
  }

  /** `sorted(s)`: the elements of `s`, each as often as in `s`, in ascending order. */
  function Sort(s: seq<string>): (r: seq<string>)
    ensures Sorted(r)
    ensures multiset(r) == multiset(s)
  {
    if s == [] then
      []
    else
      assert s == [s[0]] + s[1..];
      Insert(s[0], Sort(s[1..]))
  }

  /** The head of a sorted sequence is at most each of its elements. */
  lemma SortedHeadIsLeast(s: seq<string>, y: string)
    requires Sorted(s) && y in s
    ensures LessEq(s[0], y)
  {
    var j :| 0 <= j < |s| && s[j] == y;
    if j == 0 {
      LessEqReflexive(y);
    }
  }

  lemma MultisetOfTail(s: seq<string>)
    requires s != []
    ensures multiset(s[1..]) == multiset(s) - multiset{s[0]}
  {
    assert s == [s[0]] + s[1..];
  }

  /**
   * There is only one sorted arrangement of a multiset of strings, so any
   * correct sort (Python's stable Timsort among them) returns what `Sort` does.
   */
  lemma {:induction false} SortedUnique(a: seq<string>, b: seq<string>)
    requires Sorted(a) && Sorted(b)
    requires multiset(a) == multiset(b)
    ensures a == b
  {
    if a == [] {
      assert |multiset(b)| == 0;
    } else {
      assert a[0] in multiset(b);
      SortedHeadIsLeast(b, a[0]);
      assert b[0] in multiset(a);
      SortedHeadIsLeast(a, b[0]);
      LessEqAntisymmetric(a[0], b[0]);
      MultisetOfTail(a);
      MultisetOfTail(b);
      SortedUnique(a[1..], b[1..]);
      assert a == [a[0]] + a[1..];
      assert b == [b[0]] + b[1..];
    }
  }
}
