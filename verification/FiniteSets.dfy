/** Counting in finite sets. */
module FiniteSets {

  lemma {:induction false} SubsetBound<T>(a: set<T>, b: set<T>)
    requires a <= b
    ensures |a| <= |b|
    decreases a
  {
    if a != {} {
      var x :| x in a;
      SubsetBound(a - {x}, b - {x});
    }
  }

  predicate NoRepeats<T(==)>(xs: seq<T>) {
    forall i, j :: 0 <= i < j < |xs| ==> xs[i] != xs[j]
  }

  /** A list without repetition, drawn from a set, is no longer than the set. */
  lemma {:induction false} Pigeonhole<T>(s: set<T>, xs: seq<T>)
    requires NoRepeats(xs) && forall i :: 0 <= i < |xs| ==> xs[i] in s
    ensures |xs| <= |s|
    decreases |xs|
  {
    if xs != [] {
      var last, rest := xs[|xs| - 1], xs[..|xs| - 1];
      assert forall i :: 0 <= i < |rest| ==> rest[i] == xs[i] != last;
      Pigeonhole(s - {last}, rest);
    }
  }

  /** A list without repetition that is as long as the set it is drawn from holds all of it. */
  lemma {:induction false} FullList<T>(xs: seq<T>, s: set<T>)
    requires NoRepeats(xs) && |xs| == |s| && forall i :: 0 <= i < |xs| ==> xs[i] in s
    ensures forall x :: x in s ==> x in xs
    decreases |xs|
  {
    if xs != [] {
      var last, rest := xs[|xs| - 1], xs[..|xs| - 1];
      assert forall i :: 0 <= i < |rest| ==> rest[i] == xs[i] != last;
      FullList(rest, s - {last});
      forall x | x in s ensures x in xs {
        if x != last {
          assert x in rest;
        }
      }
    }
  }

  /** A set of elements of a list is no larger than the list is long. */
  lemma {:induction false} HeldBound<T>(xs: seq<T>, s: set<T>)
    requires forall x :: x in s ==> x in xs
    ensures |s| <= |xs|
    decreases |xs|
  {
    if xs != [] {
      var last, rest := xs[|xs| - 1], xs[..|xs| - 1];
      HeldBound(rest, s - {last});
      if last in s {
        assert |s - {last}| == |s| - 1;
      } else {
        assert s - {last} == s;
      }
    } else {
      assert s == {};
    }
  }

  /** How many places of a list hold elements of a set. */
  function CountIn<T(==)>(xs: seq<T>, s: set<T>): nat {
    if xs == [] then 0 else CountIn(xs[..|xs| - 1], s) + if xs[|xs| - 1] in s then 1 else 0
  }

  lemma {:induction false} CountInBound<T>(xs: seq<T>, s: set<T>)
    requires NoRepeats(xs)
    ensures CountIn(xs, s) <= |s|
    decreases |xs|
  {
    if xs != [] {
      var last, rest := xs[|xs| - 1], xs[..|xs| - 1];
      assert forall i :: 0 <= i < |rest| ==> rest[i] == xs[i] != last;
      CountInBound(rest, s - {last});
      CountInWithout(rest, s, last);
    }
  }

  lemma {:induction false} CountInLength<T>(xs: seq<T>, s: set<T>)
    ensures CountIn(xs, s) <= |xs|
    decreases |xs|
  {
    if xs != [] {
      CountInLength(xs[..|xs| - 1], s);
    }
  }

  lemma {:induction false} CountInWithout<T>(xs: seq<T>, s: set<T>, x: T)
    requires x !in xs
    ensures CountIn(xs, s) == CountIn(xs, s - {x})
    decreases |xs|
  {
    if xs != [] {
      CountInWithout(xs[..|xs| - 1], s, x);
    }
  }

  lemma {:induction false} CountInGrows<T>(xs: seq<T>, s: set<T>, t: set<T>)
    requires s <= t
    ensures CountIn(xs, s) <= CountIn(xs, t)
    decreases |xs|
  {
    if xs != [] {
      CountInGrows(xs[..|xs| - 1], s, t);
    }
  }

  /** Taking x away and putting at most t in does not make a set larger. */
  lemma SwapBound<T>(a: set<T>, b: set<T>, x: T, t: T)
    requires x in a && b <= a - {x} + {t}
    ensures |b| <= |a|
  {
    var c := a - {x} + {t};
    assert |a - {x}| == |a| - 1;
    assert |c| <= |a - {x}| + 1;
    SubsetBound(b, c);
  }
}
