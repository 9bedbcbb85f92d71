/**
 * Python's `sorted` on a list of strings: code-point lexicographic order,
 * realised as an insertion sort proved to return a sorted permutation.
 */
module Sorting {

  /** `a <= b` on Python strings: compare code points left to right, a proper prefix first. */
  predicate StrLe(a: string, b: string) {
    a == [] || (b != [] && (a[0] < b[0] || (a[0] == b[0] && StrLe(a[1..], b[1..]))))
  }

  lemma {:induction false} StrLeTotal(a: string, b: string)
    ensures StrLe(a, b) || StrLe(b, a)
  {
    if a != [] && b != [] && a[0] == b[0] {
      StrLeTotal(a[1..], b[1..]);
    }
  }

  lemma {:induction false} StrLeTransitive(a: string, b: string, c: string)
    requires StrLe(a, b) && StrLe(b, c)
    ensures StrLe(a, c)
  {
    if a != [] && a[0] == b[0] && b[0] == c[0] {
      StrLeTransitive(a[1..], b[1..], c[1..]);
    }
  }

  lemma {:induction false} StrLeAntisymmetric(a: string, b: string)
    requires StrLe(a, b) && StrLe(b, a)
    ensures a == b
  {
    if a != [] {
      StrLeAntisymmetric(a[1..], b[1..]);
      assert a == [a[0]] + a[1..];
      assert b == [b[0]] + b[1..];
    }
  }

  predicate Sorted(s: seq<string>) {
    forall i, j :: 0 <= i < j < |s| ==> StrLe(s[i], s[j])
  }

  /** `y` sorts at or before every element of `t`. */
  predicate Below(y: string, t: seq<string>) {
    forall j :: 0 <= j < |t| ==> StrLe(y, t[j])
  }

  lemma SortedCons(y: string, t: seq<string>)
    requires Below(y, t) && Sorted(t)
    ensures Sorted([y] + t)
  {
    var r := [y] + t;
    forall i, j | 0 <= i < j < |r| ensures StrLe(r[i], r[j]) {
      if i > 0 { assert r[i] == t[i - 1] && r[j] == t[j - 1]; }
      else { assert r[j] == t[j - 1]; }
    }
  }

  lemma SortedTail(s: seq<string>)
    requires Sorted(s) && s != []
    ensures Sorted(s[1..]) && Below(s[0], s[1..])
  {
    forall i, j | 0 <= i < j < |s| - 1 ensures StrLe(s[1..][i], s[1..][j]) {
      assert s[1..][i] == s[i + 1] && s[1..][j] == s[j + 1];
    }
    forall j | 0 <= j < |s| - 1 ensures StrLe(s[0], s[1..][j]) {
      assert s[1..][j] == s[j + 1];
    }
  }

  /** A bound on every element of `u` and on `x` bounds every element of a rearrangement of `u` plus `x`. */
  lemma BelowRearranged(y: string, x: string, u: seq<string>, t: seq<string>)
    requires Below(y, u) && StrLe(y, x)
    requires multiset(t) == multiset(u) + multiset{x}
    ensures Below(y, t)
  {
    forall j | 0 <= j < |t| ensures StrLe(y, t[j]) {
      assert t[j] in multiset(t);
      if t[j] != x {
        assert t[j] in multiset(u);
        var k :| 0 <= k < |u| && u[k] == t[j];
      }
    }
  }

  lemma BelowTransitive(x: string, y: string, t: seq<string>)
    requires StrLe(x, y) && Below(y, t)
    ensures Below(x, t)
  {
    forall j | 0 <= j < |t| ensures StrLe(x, t[j]) {
      StrLeTransitive(x, y, t[j]);
    }
  }

  /** `x` placed before the first element it does not follow. */
  function Insert(x: string, s: seq<string>): (r: seq<string>)
    requires Sorted(s)
    ensures multiset(r) == multiset(s) + multiset{x}
    ensures Sorted(r)
  {
    if s == [] then [x]
    else
      SortedTail(s);
      assert s == [s[0]] + s[1..];
      if StrLe(x, s[0]) then
        BelowTransitive(x, s[0], s[1..]);
        assert Below(x, s);
        SortedCons(x, s);
        [x] + s
      else
        var t := Insert(x, s[1..]);
        StrLeTotal(x, s[0]);
        BelowRearranged(s[0], x, s[1..], t);
        SortedCons(s[0], t);
        [s[0]] + t
  }

  /** Python's `sorted(items)` for strings. */
  function Sort(s: seq<string>): (r: seq<string>)
    ensures multiset(r) == multiset(s)
    ensures Sorted(r)
  {
    if s == [] then []
    else
      assert s == [s[0]] + s[1..];
      Insert(s[0], Sort(s[1..]))
  }

  lemma TailMultiset(s: seq<string>)
    requires s != []
    ensures multiset(s[1..]) == multiset(s) - multiset{s[0]}
  {
    assert s == [s[0]] + s[1..];
  }

  /** Two sorted rearrangements of one another start with the same element. */
  lemma SameHead(a: seq<string>, b: seq<string>)
    requires Sorted(a) && Sorted(b) && a != []
    requires multiset(a) == multiset(b)
    ensures b != [] && a[0] == b[0]
  {
    assert |b| == |a| by { assert |multiset(b)| == |multiset(a)|; }
    assert a[0] in multiset(b) && b[0] in multiset(a);
    var i :| 0 <= i < |b| && b[i] == a[0];
    var j :| 0 <= j < |a| && a[j] == b[0];
    if a[0] != b[0] {
      assert StrLe(b[0], b[i]) && StrLe(a[0], a[j]);
      StrLeAntisymmetric(a[0], b[0]);
    }
  }

  /** A sorted list is determined by its elements: `Sort` is the only sorted rearrangement. */
  lemma {:induction false} SortedPermutationUnique(a: seq<string>, b: seq<string>)
    requires Sorted(a) && Sorted(b)
    requires multiset(a) == multiset(b)
    ensures a == b
  {
    if a == [] {
      assert |b| == 0 by { assert |multiset(b)| == |multiset(a)|; }
    } else {
      SameHead(a, b);
      TailMultiset(a);
      TailMultiset(b);
      SortedTail(a);
      SortedTail(b);
      SortedPermutationUnique(a[1..], b[1..]);
      assert a == [a[0]] + a[1..];
      assert b == [b[0]] + b[1..];
    }
  }
}
