/** Cardinalities of finite sets of small numbers. */
module Counting {

  ghost predicate NoDup<T>(s: seq<T>) {
    forall i, j :: 0 <= i < j < |s| ==> s[i] != s[j]
  }

  function Elements<T(!new)>(s: seq<T>): (r: set<T>)
    ensures forall x :: x in r <==> x in s
  {
    set x | x in s
  }

  /** The numbers below `n`. */
  function Below(n: nat): (r: set<nat>)
    ensures forall i: nat :: i in r <==> i < n
    ensures |r| == n
  {
    if n == 0 then {} else Below(n - 1) + {n - 1}
  }

  /** The list without the first `x`. */
  function Without<T(==)>(s: seq<T>, x: T): (r: seq<T>)
    ensures forall y :: y in r ==> y in s
    ensures |r| == if x in s then |s| - 1 else |s|
    ensures x !in s ==> r == s
  {
    if s == [] then [] else if s[0] == x then s[1..] else [s[0]] + Without(s[1..], x)
  }

  lemma {:induction false} ElementsSize<T(!new)>(s: seq<T>)
    requires NoDup(s)
    ensures |Elements(s)| == |s|
  {
    if s != [] {
      var last := s[|s| - 1];
      ElementsSize(s[..|s| - 1]);
      assert Elements(s) == Elements(s[..|s| - 1]) + {last};
    }
  }

  lemma InsertElement<T(!new)>(a: seq<T>, x: T, b: seq<T>)
    requires NoDup(a + b) && x !in a + b
    ensures NoDup(a + [x] + b) && Elements(a + [x] + b) == Elements(a + b) + {x}
  {
    var s, t := a + b, a + [x] + b;
    assert forall i :: 0 <= i < |a| ==> t[i] == s[i];
    assert forall i :: |a| < i < |t| ==> t[i] == s[i - 1];
    assert forall i :: 0 <= i < |s| ==> s[i] in s;
    assert forall i :: |a| <= i < |s| ==> s[i] == t[i + 1];
    assert t[|a|] == x;
    forall y | y in Elements(s) + {x}
      ensures y in t
    {
      if y != x {
        var i :| 0 <= i < |s| && s[i] == y;
        if i >= |a| { assert t[i + 1] == y; }
      }
    }
  }

  lemma RemoveElement<T(!new)>(a: seq<T>, x: T, b: seq<T>)
    requires NoDup(a + [x] + b)
    ensures NoDup(a + b) && x !in a + b && Elements(a + [x] + b) == Elements(a + b) + {x}
  {
    var s, t := a + b, a + [x] + b;
    assert forall i :: 0 <= i < |a| ==> t[i] == s[i];
    assert forall i :: |a| <= i < |s| ==> s[i] == t[i + 1];
    assert t[|a|] == x;
    assert forall i :: 0 <= i < |s| ==> s[i] != x;
    InsertElement(a, x, b);
  }

  lemma NoDupSnoc<T>(s: seq<T>, x: T)
    requires NoDup(s) && x !in s
    ensures NoDup(s + [x])
  {
  }

  lemma {:induction false} WithoutNoDup<T>(s: seq<T>, x: T)
    requires NoDup(s)
    ensures NoDup(Without(s, x)) && forall y :: y in Without(s, x) <==> y in s && y != x
  {
    if s != [] {
      assert s == [s[0]] + s[1..] && s[0] !in s[1..];
      WithoutNoDup(s[1..], x);
    }
  }

  lemma NoDupApart<T>(a: seq<T>, b: seq<T>, x: T)
    requires NoDup(a + b) && x in a
    ensures x !in b
  {
    var i :| 0 <= i < |a| && a[i] == x;
    assert (a + b)[i] == x;
    assert forall j :: 0 <= j < |b| ==> (a + b)[|a| + j] == b[j];
  }

  lemma SubsetSize<T>(a: set<T>, b: set<T>)
    requires a <= b
    ensures |a| <= |b|
    ensures |a| == |b| ==> a == b
  {
    assert b == a + (b - a);
  }

  /** A set with at most one element has no two distinct ones. */
  lemma AtMostOne<T>(s: set<T>, x: T, y: T)
    requires |s| <= 1 && x in s && y in s
    ensures x == y
  {
    if x != y {
      SubsetSize({x, y}, s);
    }
  }

  /** A set with `x` has size one exactly when `x` is alone in it. */
  lemma AloneIn<T(!new)>(s: set<T>, x: T)
    requires x in s
    ensures |s| != 1 <==> exists y :: y in s && y != x
  {
    if y :| y in s && y != x {
      SubsetSize({x, y}, s);
    } else {
      assert s == {x};
    }
  }

  function B(b: bool): int {
    if b then 1 else 0
  }

  /** Sizes of two sets that differ at most in `t`. */
  lemma OneMoreOrLess(a: set<nat>, b: set<nat>, t: nat, was: bool, now: bool)
    requires was == (t in a) && now == (t in b) && a - {t} == b - {t}
    ensures |b| == |a| + B(now) - B(was)
  {
    assert was ==> a == (a - {t}) + {t};
    assert !was ==> a == a - {t};
    assert now ==> b == (b - {t}) + {t};
    assert !now ==> b == b - {t};
  }
}
