/**
 * Sums of a weight over a list and over a list of groups. Both depend only on which elements there are, not on their
 * order; an element or a group is bounded by the sum it is part of, and a bound on every group bounds the whole.
 */
module Sums {

  function Min(a: int, b: int): int {
    if a < b then a else b
  }

  function Sum<T>(w: T -> nat, s: seq<T>): nat {
    if s == [] then 0 else w(s[0]) + Sum(w, s[1..])
  }

  /** `n` copies of `a`, added up. */
  function Times(a: nat, n: nat): nat {
    if n == 0 then 0 else a + Times(a, n - 1)
  }

  lemma {:induction false} TimesIsProduct(a: nat, n: nat)
    ensures Times(a, n) == a * n
  {
    if n > 0 {
      TimesIsProduct(a, n - 1);
      assert a * n == a * (n - 1) + a;
    }
  }

  function Flatten<T>(groups: seq<seq<T>>): seq<T> {
    if groups == [] then [] else groups[0] + Flatten(groups[1..])
  }

  lemma {:induction false} SumAppend<T>(w: T -> nat, a: seq<T>, b: seq<T>)
    ensures Sum(w, a + b) == Sum(w, a) + Sum(w, b)
  {
    if a == [] {
      assert a + b == b;
    } else {
      assert (a + b)[1..] == a[1..] + b;
      SumAppend(w, a[1..], b);
    }
  }

  function Without<T>(s: seq<T>, i: nat): seq<T>
    requires i < |s|
  {
    s[..i] + s[i + 1..]
  }

  lemma TakeOut<T>(s: seq<T>, i: nat)
    requires i < |s|
    ensures multiset(Without(s, i)) == multiset(s) - multiset{s[i]}
  {
    assert s[i..] == [s[i]] + s[i + 1..];
    assert s == s[..i] + s[i..];
  }

  lemma TakeOutSum<T>(w: T -> nat, s: seq<T>, i: nat)
    requires i < |s|
    ensures Sum(w, s) == w(s[i]) + Sum(w, Without(s, i))
  {
    assert s == s[..i] + s[i..];
    SumAppend(w, s[..i], s[i..]);
    SumAppend(w, s[..i], s[i + 1..]);
  }

  lemma {:induction false} SumPermutation<T>(w: T -> nat, a: seq<T>, b: seq<T>)
    requires multiset(a) == multiset(b)
    ensures Sum(w, a) == Sum(w, b)
  {
    if a == [] {
      assert |multiset(b)| == 0;
    } else {
      assert a[0] in multiset(b);
      var i :| 0 <= i < |b| && b[i] == a[0];
      TakeOut(a, 0);
      TakeOut(b, i);
      TakeOutSum(w, a, 0);
      TakeOutSum(w, b, i);
      SumPermutation(w, Without(a, 0), Without(b, i));
    }
  }

  lemma {:induction false} SumAtLeast<T>(w: T -> nat, s: seq<T>, lo: nat)
    requires forall i :: 0 <= i < |s| ==> w(s[i]) >= lo
    ensures Sum(w, s) >= Times(lo, |s|)
  {
    if s != [] {
      SumAtLeast(w, s[1..], lo);
    }
  }

  /** When every group weighs at least `lo`, all of them together weigh at least that much per group. */
  lemma {:induction false} FlattenAtLeast<T>(w: T -> nat, groups: seq<seq<T>>, lo: nat)
    requires forall i :: 0 <= i < |groups| ==> Sum(w, groups[i]) >= lo
    ensures Sum(w, Flatten(groups)) >= Times(lo, |groups|)
  {
    if groups != [] {
      FlattenAtLeast(w, groups[1..], lo);
      SumAppend(w, groups[0], Flatten(groups[1..]));
    }
  }

  lemma {:induction false} FlattenAtMost<T>(w: T -> nat, groups: seq<seq<T>>, hi: nat)
    requires forall i :: 0 <= i < |groups| ==> Sum(w, groups[i]) <= hi
    ensures Sum(w, Flatten(groups)) <= Times(hi, |groups|)
  {
    if groups != [] {
      FlattenAtMost(w, groups[1..], hi);
      SumAppend(w, groups[0], Flatten(groups[1..]));
    }
  }

  lemma {:induction false} FlattenAppend<T>(a: seq<seq<T>>, b: seq<seq<T>>)
    ensures Flatten(a + b) == Flatten(a) + Flatten(b)
  {
    if a == [] {
      assert a + b == b;
    } else {
      assert (a + b)[1..] == a[1..] + b;
      FlattenAppend(a[1..], b);
    }
  }

  /** Appending `x` to one group adds exactly `x` to the elements of all groups. */
  lemma FlattenPlace<T>(groups: seq<seq<T>>, k: nat, x: T)
    requires k < |groups|
    ensures multiset(Flatten(groups[k := groups[k] + [x]])) == multiset(Flatten(groups)) + multiset{x}
  {
    var before, after := groups[..k], groups[k + 1..];
    assert groups == before + ([groups[k]] + after);
    assert groups[k := groups[k] + [x]] == before + ([groups[k] + [x]] + after);
    FlattenAppend(before, [groups[k]] + after);
    FlattenAppend(before, [groups[k] + [x]] + after);
  }

  lemma {:induction false} GroupOf<T>(groups: seq<seq<T>>, x: T) returns (i: nat)
    requires x in Flatten(groups)
    ensures i < |groups| && x in groups[i]
  {
    if x in groups[0] {
      i := 0;
    } else {
      i := GroupOf(groups[1..], x);
      i := i + 1;
    }
  }

  lemma {:induction false} MemberWithin<T>(w: T -> nat, s: seq<T>, x: T)
    requires x in s
    ensures w(x) <= Sum(w, s)
  {
    if x != s[0] {
      MemberWithin(w, s[1..], x);
    }
  }
}
