/** Folding steps over an order of ids. When the steps commute, the order does not matter. */
module Folds {

  ghost function Fold<R>(step: (R, nat) -> R, r: R, order: seq<nat>): R {
    if order == [] then r
    else step(Fold(step, r, order[..|order| - 1]), order[|order| - 1])
  }

  ghost predicate Commute<R(!new)>(step: (R, nat) -> R) {
    forall r, a, b :: step(step(r, a), b) == step(step(r, b), a)
  }

  /** Any id of the order could as well have come last. */
  lemma {:induction false} MoveLast<R(!new)>(step: (R, nat) -> R, r: R, order: seq<nat>, j: nat)
    requires Commute(step) && j < |order|
    ensures Fold(step, r, order) == step(Fold(step, r, order[..j] + order[j + 1..]), order[j])
  {
    var n := |order| - 1;
    var rest := order[..j] + order[j + 1..];
    if j == n {
      assert rest == order[..n];
    } else {
      MoveLast(step, r, order[..n], j);
      var inner := order[..n][..j] + order[..n][j + 1..];
      assert rest[..|rest| - 1] == inner && rest[|rest| - 1] == order[n];
    }
  }

  lemma {:induction false} Rearrange<R(!new)>(step: (R, nat) -> R, r: R, a: seq<nat>, b: seq<nat>)
    requires Commute(step) && multiset(a) == multiset(b)
    ensures Fold(step, r, a) == Fold(step, r, b)
  {
    if a == [] {
      assert |multiset(b)| == 0;
    } else {
      var n := |a| - 1;
      var j := Without(a, b);
      MoveLast(step, r, b, j);
      Rearrange(step, r, a[..n], b[..j] + b[j + 1..]);
    }
  }

  /** Where the last id of a stands in its rearrangement b, and what is left of both. */
  lemma Without(a: seq<nat>, b: seq<nat>) returns (j: nat)
    requires a != [] && multiset(a) == multiset(b)
    ensures j < |b| && b[j] == a[|a| - 1]
    ensures multiset(a[..|a| - 1]) == multiset(b[..j] + b[j + 1..])
  {
    var n := |a| - 1;
    assert a == a[..n] + [a[n]];
    assert a[n] in multiset(b);
    j :| 0 <= j < |b| && b[j] == a[n];
    Parted(b, j);
    Cancel(multiset(a[..n]), multiset(b[..j] + b[j + 1..]), a[n]);
  }

  lemma Cancel(m: multiset<nat>, n: multiset<nat>, x: nat)
    requires m + multiset{x} == n + multiset{x}
    ensures m == n
  {
    assert m == m + multiset{x} - multiset{x};
    assert n == n + multiset{x} - multiset{x};
  }

  lemma Parted(b: seq<nat>, j: nat)
    requires j < |b|
    ensures multiset(b) == multiset(b[..j] + b[j + 1..]) + multiset{b[j]}
  {
    assert b == b[..j] + [b[j]] + b[j + 1..];
  }

  ghost predicate Distinct(a: seq<nat>) {
    forall i, j :: 0 <= i < j < |a| ==> a[i] != a[j]
  }

  lemma {:induction false} DistinctCount(a: seq<nat>)
    requires Distinct(a)
    ensures forall x :: multiset(a)[x] == if x in a then 1 else 0
  {
    if a != [] {
      var n := |a| - 1;
      DistinctCount(a[..n]);
      assert a == a[..n] + [a[n]];
    }
  }

  /** Two lists of the same ids, each once, are rearrangements of each other. */
  lemma SameMembers(a: seq<nat>, b: seq<nat>)
    requires Distinct(a) && Distinct(b)
    requires forall x: nat :: x in a <==> x in b
    ensures multiset(a) == multiset(b) && |a| == |b|
  {
    DistinctCount(a);
    DistinctCount(b);
    assert multiset(a) == multiset(b);
    assert |multiset(a)| == |multiset(b)|;
  }
}
