/** Weighted sums over sequences, used to state that no row is lost or duplicated and that runs end. */
module Bags {

  function Total<A>(xs: seq<A>, f: A -> nat): nat {
    if xs == [] then 0 else f(xs[0]) + Total(xs[1..], f)
  }

  lemma {:induction false} TotalUpdate<A>(xs: seq<A>, f: A -> nat, i: nat, x: A)
    requires i < |xs|
    ensures Total(xs[i := x], f) + f(xs[i]) == Total(xs, f) + f(x)
  {
    if i == 0 {
      assert xs[0 := x][1..] == xs[1..];
    } else {
      assert xs[i := x][1..] == xs[1..][i - 1 := x];
      TotalUpdate(xs[1..], f, i - 1, x);
    }
  }

  lemma {:induction false} TotalConcat<A>(xs: seq<A>, ys: seq<A>, f: A -> nat)
    ensures Total(xs + ys, f) == Total(xs, f) + Total(ys, f)
  {
    if xs == [] {
      assert xs + ys == ys;
    } else {
      assert (xs + ys)[1..] == xs[1..] + ys;
      TotalConcat(xs[1..], ys, f);
    }
  }

  lemma {:induction false} TotalZero<A>(xs: seq<A>, f: A -> nat)
    requires forall i :: 0 <= i < |xs| ==> f(xs[i]) == 0
    ensures Total(xs, f) == 0
  {
    if xs != [] {
      assert f(xs[0]) == 0;
      forall i | 0 <= i < |xs| - 1 ensures f(xs[1..][i]) == 0 {
        assert xs[1..][i] == xs[i + 1];
      }
      TotalZero(xs[1..], f);
    }
  }

  lemma {:induction false} TotalAtLeastLength<A>(xs: seq<A>, f: A -> nat)
    requires forall i :: 0 <= i < |xs| ==> f(xs[i]) >= 1
    ensures Total(xs, f) >= |xs|
  {
    if xs != [] {
      assert f(xs[0]) >= 1;
      forall i | 0 <= i < |xs| - 1 ensures f(xs[1..][i]) >= 1 {
        assert xs[1..][i] == xs[i + 1];
      }
      TotalAtLeastLength(xs[1..], f);
    }
  }

  /** Every element weighs one. */
  function Each<A>(): A -> nat {
    (x: A) => 1
  }

  /** Only `a` weighs one. */
  function Only<A(==)>(a: A): A -> nat {
    (x: A) => if x == a then 1 else 0
  }

  lemma {:induction false} TotalEach<A>(xs: seq<A>)
    ensures Total(xs, Each()) == |xs|
  {
    if xs != [] {
      TotalEach(xs[1..]);
    }
  }

  lemma {:induction false} TotalOnly<A>(xs: seq<A>, a: A)
    ensures Total(xs, Only(a)) == multiset(xs)[a]
  {
    if xs != [] {
      assert xs == [xs[0]] + xs[1..];
      TotalOnly(xs[1..], a);
    }
  }

  /** Two sequences that agree under every weight are permutations of each other. */
  lemma SameWeights<A(!new)>(xs: seq<A>, ys: seq<A>)
    requires forall f: A -> nat :: Total(xs, f) == Total(ys, f)
    ensures multiset(xs) == multiset(ys)
  {
    forall a: A ensures multiset(xs)[a] == multiset(ys)[a] {
      TotalOnly(xs, a);
      TotalOnly(ys, a);
    }
  }

  function Flatten<A>(xss: seq<seq<A>>): seq<A> {
    if xss == [] then [] else xss[0] + Flatten(xss[1..])
  }
}
