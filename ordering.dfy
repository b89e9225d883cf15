/**
 * The ascending order that `ORDER BY Name ASC` imposes on names, and the
 * ascending view of a list of names that the world handler walks offset by
 * offset. Names are compared character by character (a binary collation).
 */
module Ordering {

  /** `a` comes no later than `b` in lexicographic order. */
  predicate LessEq(a: string, b: string)
    decreases |a|
  {
    if a == [] then true
    else if b == [] then false
    else if a[0] != b[0] then a[0] < b[0]
    else LessEq(a[1..], b[1..])
  }

  lemma {:induction false} LessEqReflexive(a: string)
    ensures LessEq(a, a)
    decreases |a|
  {
    if a != [] {
      LessEqReflexive(a[1..]);
    }
  }

  lemma {:induction false} LessEqTotal(a: string, b: string)
    ensures LessEq(a, b) || LessEq(b, a)
    decreases |a|
  {
    if a != [] && b != [] && a[0] == b[0] {
      LessEqTotal(a[1..], b[1..]);
    }
  }

  lemma {:induction false} LessEqAntisymmetric(a: string, b: string)
    requires LessEq(a, b) && LessEq(b, a)
    ensures a == b
    decreases |a|
  {
    if a != [] && b != [] {
      LessEqAntisymmetric(a[1..], b[1..]);
      assert a == [a[0]] + a[1..];
      assert b == [b[0]] + b[1..];
    }
  }

  lemma {:induction false} LessEqTransitive(a: string, b: string, c: string)
    requires LessEq(a, b) && LessEq(b, c)
    ensures LessEq(a, c)
    decreases |a|
  {
    if a != [] && b != [] && c != [] && a[0] == b[0] && b[0] == c[0] {
      LessEqTransitive(a[1..], b[1..], c[1..]);
    }
  }

  /** Every name comes no later than every name after it. */
  ghost predicate Ascending(s: seq<string>)
  {
    forall i, j :: 0 <= i < j < |s| ==> LessEq(s[i], s[j])
  }

  /** `x` placed before the first element it does not come after. */
  function Insert(x: string, s: seq<string>): (r: seq<string>)
    ensures |r| == |s| + 1
  {
    if s == [] then [x]
    else if LessEq(x, s[0]) then [x] + s
    else [s[0]] + Insert(x, s[1..])
  }

  lemma {:induction false} InsertPermutation(x: string, s: seq<string>)
    ensures multiset(Insert(x, s)) == multiset(s) + multiset{x}
  {
    if s != [] && !LessEq(x, s[0]) {
      InsertPermutation(x, s[1..]);
      assert s == [s[0]] + s[1..];
    }
  }

  lemma {:induction false} InsertAscending(x: string, s: seq<string>)
    requires Ascending(s)
    ensures Ascending(Insert(x, s))
  {
    if s == [] {
    } else if LessEq(x, s[0]) {
      var r := [x] + s;
      forall j | 1 <= j < |r|
        ensures LessEq(x, r[j])
      {
        if j > 1 {
          LessEqTransitive(x, s[0], s[j - 1]);
        }
      }
    } else {
      assert s == [s[0]] + s[1..];
      var tail := Insert(x, s[1..]);
      InsertAscending(x, s[1..]);
      InsertPermutation(x, s[1..]);
      LessEqTotal(x, s[0]);
      forall k | 0 <= k < |tail|
        ensures LessEq(s[0], tail[k])
      {
        assert tail[k] in multiset(tail);
        if tail[k] != x {
          assert tail[k] in multiset(s[1..]);
          var m :| 0 <= m < |s[1..]| && s[1..][m] == tail[k];
          assert s[m + 1] == tail[k];
        }
      }
      var r := [s[0]] + tail;
      forall i, j | 0 <= i < j < |r|
        ensures LessEq(r[i], r[j])
      {
        if i > 0 {
          assert r[i] == tail[i - 1] && r[j] == tail[j - 1];
        }
      }
    }
  }

  /**
   * The names of `s` in ascending order: the rows that
   * `ORDER BY Name ASC LIMIT 1 OFFSET i` returns for i = 0, 1, ...
   */
  function SortedNames(s: seq<string>): (r: seq<string>)
    ensures |r| == |s|
  {
    if s == [] then [] else Insert(s[0], SortedNames(s[1..]))
  }

  /** The sorted view holds exactly the names of `s`, duplicates included. */
  lemma {:induction false} SortedNamesPermutation(s: seq<string>)
    ensures multiset(SortedNames(s)) == multiset(s)
  {
    if s != [] {
      SortedNamesPermutation(s[1..]);
      InsertPermutation(s[0], SortedNames(s[1..]));
      assert s == [s[0]] + s[1..];
    }
  }

  /** The sorted view is in ascending order. */
  lemma {:induction false} SortedNamesAscending(s: seq<string>)
    ensures Ascending(SortedNames(s))
  {
    if s != [] {
      SortedNamesAscending(s[1..]);
      InsertAscending(s[0], SortedNames(s[1..]));
    }
  }

  /**
   * An ascending arrangement of a collection of names is unique, so the
   * i-th element of `SortedNames(s)` is the i-th name of `s` in ascending
   * order whichever way the order is computed.
   */
  lemma {:induction false} AscendingPermutationUnique(a: seq<string>, b: seq<string>)
    requires Ascending(a) && Ascending(b)
    requires multiset(a) == multiset(b)
    ensures a == b
    decreases |a|
  {
    assert |a| == |multiset(a)| == |multiset(b)| == |b|;
    if a != [] {
      assert a[0] in multiset(b);
      var i :| 0 <= i < |b| && b[i] == a[0];
      assert b[0] in multiset(a);
      var j :| 0 <= j < |a| && a[j] == b[0];
      assert LessEq(b[0], a[0]) by {
        if i > 0 {
          assert LessEq(b[0], b[i]);
        } else {
          LessEqReflexive(b[0]);
        }
      }
      assert LessEq(a[0], b[0]) by {
        if j > 0 {
          assert LessEq(a[0], a[j]);
        } else {
          LessEqReflexive(a[0]);
        }
      }
      LessEqAntisymmetric(a[0], b[0]);
      assert a == [a[0]] + a[1..];
      assert b == [b[0]] + b[1..];
      assert multiset(a[1..]) == multiset(a) - multiset{a[0]};
      assert multiset(b[1..]) == multiset(b) - multiset{b[0]};
      AscendingPermutationUnique(a[1..], b[1..]);
    }
  }

  /**
   * Any ascending arrangement of the names of `s` is the sorted view: its
   * i-th element is the i-th name of `s` in ascending order.
   */
  lemma SortedNamesUnique(s: seq<string>, r: seq<string>)
    requires Ascending(r) && multiset(r) == multiset(s)
    ensures r == SortedNames(s)
  {
    SortedNamesPermutation(s);
    SortedNamesAscending(s);
    AscendingPermutationUnique(r, SortedNames(s));
  }
}
