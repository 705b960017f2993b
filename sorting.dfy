/** `Array.prototype.sort` with a comparator, which the language requires to be stable: an insertion
    sort that places each element after every element already placed that it does not precede.
    `before(a, b)` holds when the comparator puts `a` strictly before `b` (a negative result). */
module Sorting {

  /** The comparator is consistent: "not strictly after" is total and transitive. */
  ghost predicate Consistent<T(!new)>(before: (T, T) -> bool) {
    (forall a: T, b: T :: !(before(a, b) && before(b, a)))
    && (forall a: T, b: T, c: T :: !before(b, a) && !before(c, b) ==> !before(c, a))
  }

  ghost predicate SortedBy<T>(s: seq<T>, before: (T, T) -> bool) {
    forall i, j :: 0 <= i < j < |s| ==> !before(s[j], s[i])
  }

  /** Place `x` after every element of `s` it does not strictly precede. */
  function Insert<T>(x: T, s: seq<T>, before: (T, T) -> bool): (r: seq<T>)
    ensures multiset(r) == multiset(s) + multiset{x} && |r| == |s| + 1
    decreases |s|
  {
    if |s| == 0 then [x]
    else if before(x, s[0]) then [x] + s
    else
      assert s == [s[0]] + s[1..];
      [s[0]] + Insert(x, s[1..], before)
  }

  function Sort<T>(s: seq<T>, before: (T, T) -> bool): (r: seq<T>)
    ensures multiset(r) == multiset(s) && |r| == |s|
    decreases |s|
  {
    if |s| == 0 then []
    else
      assert s == s[..|s| - 1] + [s[|s| - 1]];
      Insert(s[|s| - 1], Sort(s[..|s| - 1], before), before)
  }

  lemma {:induction false} InsertSorted<T(!new)>(x: T, s: seq<T>, before: (T, T) -> bool)
    requires Consistent(before) && SortedBy(s, before)
    ensures SortedBy(Insert(x, s, before), before)
    decreases |s|
  {
    if |s| > 0 && !before(x, s[0]) {
      var rest := Insert(x, s[1..], before);
      InsertSorted(x, s[1..], before);
      assert multiset(rest) == multiset(s[1..]) + multiset{x};
      var r := [s[0]] + rest;
      forall i, j | 0 <= i < j < |r|
        ensures !before(r[j], r[i])
      {
        if i == 0 {
          assert r[j] in multiset(rest);
          if r[j] != x {
            assert r[j] in s[1..];
            var k :| 0 <= k < |s[1..]| && s[1..][k] == r[j];
            assert s[k + 1] == r[j];
          }
        } else {
          assert r[i] == rest[i - 1] && r[j] == rest[j - 1];
        }
      }
    } else if |s| > 0 {
      var r := [x] + s;
      forall i, j | 0 <= i < j < |r|
        ensures !before(r[j], r[i])
      {
        if i == 0 {
          assert r[j] == s[j - 1];
          if j - 1 > 0 {
            assert !before(s[j - 1], s[0]);
          }
        } else {
          assert r[i] == s[i - 1] && r[j] == s[j - 1];
        }
      }
    }
  }

  /** With a consistent comparator the result is ordered; it is always a permutation of the input. */
  lemma {:induction false} SortSorted<T(!new)>(s: seq<T>, before: (T, T) -> bool)
    requires Consistent(before)
    ensures SortedBy(Sort(s, before), before)
    decreases |s|
  {
    if |s| > 0 {
      SortSorted(s[..|s| - 1], before);
      InsertSorted(s[|s| - 1], Sort(s[..|s| - 1], before), before);
    }
  }

  /** `array.sort(cmp)` on a sequence held in a variable, one insertion at a time. */
  method SortInPlace<T>(s: seq<T>, before: (T, T) -> bool) returns (r: seq<T>)
    ensures r == Sort(s, before)
  {
    r := [];
    for i := 0 to |s|
      invariant r == Sort(s[..i], before)
    {
      assert s[..i + 1][..i] == s[..i];
      r := Insert(s[i], r, before);
    }
    assert s[..|s|] == s;
  }
}
