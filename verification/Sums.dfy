/** Finite sums of reals, over sets and over sequences. */
module Sums {

  /** The sum of `v` over the elements of `s`. */
  ghost function Sum<T>(s: set<T>, v: T -> real): real {
    if s == {} then 0.0 else var x :| x in s; v(x) + Sum(s - {x}, v)
  }

  lemma {:induction false} SumExtract<T>(s: set<T>, x: T, v: T -> real)
    requires x in s
    ensures Sum(s, v) == v(x) + Sum(s - {x}, v)
    decreases s
  {
    var y :| y in s && Sum(s, v) == v(y) + Sum(s - {y}, v);
    if y != x {
      SumExtract(s - {y}, x, v);
      SumExtract(s - {x}, y, v);
      assert s - {y} - {x} == s - {x} - {y};
    }
  }

  lemma {:induction false} SumCongruent<T>(s: set<T>, u: T -> real, v: T -> real)
    requires forall x :: x in s ==> u(x) == v(x)
    ensures Sum(s, u) == Sum(s, v)
    decreases s
  {
    if s != {} {
      var x :| x in s;
      SumExtract(s, x, u);
      SumExtract(s, x, v);
      SumCongruent(s - {x}, u, v);
    }
  }

  lemma {:induction false} SumOfZero<T>(s: set<T>, v: T -> real)
    requires forall x :: x in s ==> v(x) == 0.0
    ensures Sum(s, v) == 0.0
    decreases s
  {
    if s != {} {
      var x :| x in s;
      SumExtract(s, x, v);
      SumOfZero(s - {x}, v);
    }
  }

  lemma {:induction false} SumDisjoint<T>(s: set<T>, t: set<T>, v: T -> real)
    requires s !! t
    ensures Sum(s + t, v) == Sum(s, v) + Sum(t, v)
    decreases s
  {
    if s == {} {
      assert s + t == t;
    } else {
      var x :| x in s;
      SumExtract(s, x, v);
      SumExtract(s + t, x, v);
      assert s + t - {x} == (s - {x}) + t;
      SumDisjoint(s - {x}, t, v);
    }
  }

  /** The sum of `v` over the elements of a sequence. */
  ghost function SeqSum<T>(xs: seq<T>, v: T -> real): real {
    if xs == [] then 0.0 else v(xs[0]) + SeqSum(xs[1..], v)
  }

  lemma {:induction false} SeqSumConcat<T>(xs: seq<T>, ys: seq<T>, v: T -> real)
    ensures SeqSum(xs + ys, v) == SeqSum(xs, v) + SeqSum(ys, v)
    decreases |xs|
  {
    if xs == [] {
      assert xs + ys == ys;
    } else {
      assert (xs + ys)[1..] == xs[1..] + ys;
      SeqSumConcat(xs[1..], ys, v);
    }
  }

  lemma {:induction false} SeqSumCongruent<T>(xs: seq<T>, u: T -> real, v: T -> real)
    requires forall x :: x in xs ==> u(x) == v(x)
    ensures SeqSum(xs, u) == SeqSum(xs, v)
    decreases |xs|
  {
    if xs != [] {
      assert forall x :: x in xs[1..] ==> x in xs;
      SeqSumCongruent(xs[1..], u, v);
    }
  }

  lemma {:induction false} SeqSumMapped<S, T>(xs: seq<S>, ys: seq<T>, u: S -> real, v: T -> real)
    requires |xs| == |ys| && forall i :: 0 <= i < |xs| ==> u(xs[i]) == v(ys[i])
    ensures SeqSum(xs, u) == SeqSum(ys, v)
    decreases |xs|
  {
    if xs != [] {
      SeqSumMapped(xs[1..], ys[1..], u, v);
    }
  }

  lemma {:induction false} SeqSumPlus<T>(xs: seq<T>, u: T -> real, v: T -> real, w: T -> real)
    requires forall x :: x in xs ==> w(x) == u(x) + v(x)
    ensures SeqSum(xs, w) == SeqSum(xs, u) + SeqSum(xs, v)
    decreases |xs|
  {
    if xs != [] {
      assert forall x :: x in xs[1..] ==> x in xs;
      SeqSumPlus(xs[1..], u, v, w);
    }
  }

  lemma {:induction false} SeqSumOfZero<T>(xs: seq<T>, v: T -> real)
    requires forall x :: x in xs ==> v(x) == 0.0
    ensures SeqSum(xs, v) == 0.0
    decreases |xs|
  {
    if xs != [] {
      assert forall x :: x in xs[1..] ==> x in xs;
      SeqSumOfZero(xs[1..], v);
    }
  }

  /** Where only one position counts, the sum is its value. */
  lemma {:induction false} SeqSumOfOne<T>(xs: seq<T>, v: T -> real, i: nat)
    requires i < |xs| && forall j :: 0 <= j < |xs| && j != i ==> v(xs[j]) == 0.0
    ensures SeqSum(xs, v) == v(xs[i])
    decreases |xs|
  {
    if i == 0 {
      forall x | x in xs[1..] ensures v(x) == 0.0 {
        var j :| 0 <= j < |xs[1..]| && xs[1..][j] == x;
        assert xs[j + 1] == x;
      }
      SeqSumOfZero(xs[1..], v);
    } else {
      assert xs[1..][i - 1] == xs[i] && v(xs[0]) == 0.0;
      SeqSumOfOne(xs[1..], v, i - 1);
    }
  }

  lemma {:induction false} SeqSumAtMost<T>(xs: seq<T>, u: T -> real, v: T -> real)
    requires forall x :: x in xs ==> u(x) <= v(x)
    ensures SeqSum(xs, u) <= SeqSum(xs, v)
    decreases |xs|
  {
    if xs != [] {
      assert xs[0] in xs && forall x :: x in xs[1..] ==> x in xs;
      SeqSumAtMost(xs[1..], u, v);
    }
  }

  lemma {:induction false} SeqSumBelow<T>(xs: seq<T>, u: T -> real, v: T -> real, less: T)
    requires forall x :: x in xs ==> u(x) <= v(x)
    requires less in xs && u(less) < v(less)
    ensures SeqSum(xs, u) < SeqSum(xs, v)
    decreases |xs|
  {
    assert xs[0] in xs && forall x :: x in xs[1..] ==> x in xs;
    if less == xs[0] {
      SeqSumAtMost(xs[1..], u, v);
    } else {
      SeqSumBelow(xs[1..], u, v, less);
    }
  }

  lemma SeqSumOneDiffers<T>(xs: seq<T>, u: T -> real, v: T -> real, x: T)
    requires forall y :: y in xs ==> y == x || u(y) == v(y)
    requires x in xs && u(x) != v(x)
    ensures SeqSum(xs, u) != SeqSum(xs, v)
  {
    if u(x) < v(x) {
      SeqSumBelow(xs, u, v, x);
    } else {
      SeqSumBelow(xs, v, u, x);
    }
  }

  function Without<T>(xs: seq<T>, i: nat): seq<T>
    requires i < |xs|
  {
    xs[..i] + xs[i + 1..]
  }

  lemma MultisetWithout<T>(xs: seq<T>, i: nat)
    requires i < |xs|
    ensures multiset(Without(xs, i)) == multiset(xs) - multiset{xs[i]}
  {
    assert xs == xs[..i] + [xs[i]] + xs[i + 1..];
  }

  lemma {:induction false} SeqSumWithout<T>(xs: seq<T>, i: nat, v: T -> real)
    requires i < |xs|
    ensures SeqSum(xs, v) == v(xs[i]) + SeqSum(Without(xs, i), v)
    decreases i
  {
    if i == 0 {
      assert Without(xs, 0) == xs[1..];
    } else {
      SeqSumWithout(xs[1..], i - 1, v);
      assert Without(xs, i)[1..] == Without(xs[1..], i - 1);
    }
  }

  /** The order of a sequence does not matter to its sum. */
  lemma {:induction false} SeqSumPermuted<T>(xs: seq<T>, ys: seq<T>, v: T -> real)
    requires multiset(xs) == multiset(ys)
    ensures SeqSum(xs, v) == SeqSum(ys, v)
    decreases |xs|
  {
    if xs == [] {
      assert |multiset(ys)| == 0;
    } else {
      assert xs[0] in multiset(ys);
      var i :| 0 <= i < |ys| && ys[i] == xs[0];
      MultisetWithout(xs, 0);
      MultisetWithout(ys, i);
      SeqSumWithout(xs, 0, v);
      SeqSumWithout(ys, i, v);
      SeqSumPermuted(Without(xs, 0), Without(ys, i), v);
    }
  }

  function Flatten<T>(groups: seq<seq<T>>): seq<T> {
    if groups == [] then [] else groups[0] + Flatten(groups[1..])
  }

  lemma {:induction false} SeqSumFlatten<T>(groups: seq<seq<T>>, v: T -> real, w: seq<T> -> real)
    requires forall g :: g in groups ==> w(g) == SeqSum(g, v)
    ensures SeqSum(Flatten(groups), v) == SeqSum(groups, w)
    decreases |groups|
  {
    if groups != [] {
      assert forall g :: g in groups[1..] ==> g in groups;
      SeqSumFlatten(groups[1..], v, w);
      SeqSumConcat(groups[0], Flatten(groups[1..]), v);
    }
  }

  /** A sequence that lists a set once sums to the sum over the set. */
  lemma {:induction false} SeqSumOfSet<T>(xs: seq<T>, s: set<T>, v: T -> real)
    requires forall i, j :: 0 <= i < j < |xs| ==> xs[i] != xs[j]
    requires forall x :: x in s <==> x in xs
    ensures SeqSum(xs, v) == Sum(s, v)
    decreases |xs|
  {
    if xs == [] {
      assert s == {};
    } else {
      var x := xs[0];
      assert x !in xs[1..];
      forall y ensures y in s - {x} <==> y in xs[1..] {
        if y in s - {x} {
          var k :| 0 <= k < |xs| && xs[k] == y;
          assert xs[1..][k - 1] == y;
        }
      }
      SumExtract(s, x, v);
      SeqSumOfSet(xs[1..], s - {x}, v);
    }
  }
}
