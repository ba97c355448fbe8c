/** Small shared vocabulary: optional values and sums over sequences. */
module Prelude {

  datatype Option<+T> = None | Some(value: T)

  /** The sum of f over the elements of s. */
  function Sum<T>(s: seq<T>, f: T -> nat): nat
  {
    if s == [] then 0 else Sum(s[..|s| - 1], f) + f(s[|s| - 1])
  }

  lemma SumSnoc<T>(s: seq<T>, x: T, f: T -> nat)
    ensures Sum(s + [x], f) == Sum(s, f) + f(x)
  {
    assert (s + [x])[..|s|] == s;
  }

  lemma {:induction false} SumUpdate<T>(s: seq<T>, i: nat, v: T, f: T -> nat)
    requires i < |s|
    ensures Sum(s[i := v], f) + f(s[i]) == Sum(s, f) + f(v)
  {
    var n := |s| - 1;
    if i < n {
      SumUpdate(s[..n], i, v, f);
      assert s[i := v][..n] == s[..n][i := v];
    } else {
      assert s[i := v][..n] == s[..n];
    }
  }

  lemma {:induction false} SumCovers<T>(s: seq<T>, i: nat, f: T -> nat)
    requires i < |s|
    ensures f(s[i]) <= Sum(s, f)
  {
    if i < |s| - 1 {
      SumCovers(s[..|s| - 1], i, f);
    }
  }

  lemma {:induction false} SumSome<T>(s: seq<T>, f: T -> nat)
    requires Sum(s, f) > 0
    ensures exists i :: 0 <= i < |s| && f(s[i]) > 0
  {
    var n := |s| - 1;
    if f(s[n]) == 0 {
      SumSome(s[..n], f);
      var i :| 0 <= i < |s[..n]| && f(s[..n][i]) > 0;
      assert f(s[i]) > 0;
    }
  }

  lemma {:induction false} SumZero<T>(s: seq<T>, f: T -> nat)
    requires forall i :: 0 <= i < |s| ==> f(s[i]) == 0
    ensures Sum(s, f) == 0
  {
    if s != [] {
      SumZero(s[..|s| - 1], f);
    }
  }

  lemma {:induction false} SumScaled<T>(s: seq<T>, f: T -> nat, g: T -> nat, k: nat)
    requires forall i :: 0 <= i < |s| ==> f(s[i]) <= k * g(s[i])
    ensures Sum(s, f) <= k * Sum(s, g)
  {
    if s != [] {
      SumScaled(s[..|s| - 1], f, g, k);
    }
  }

  lemma {:induction false} SumAtMost<T>(s: seq<T>, f: T -> nat, g: T -> nat)
    requires forall i :: 0 <= i < |s| ==> f(s[i]) <= g(s[i])
    ensures Sum(s, f) <= Sum(s, g)
  {
    if s != [] {
      SumAtMost(s[..|s| - 1], f, g);
    }
  }

  /** If f is below g everywhere and the sums differ by nothing, no element differs. */
  lemma {:induction false} SumTight<T>(s: seq<T>, i: nat, f: T -> nat, g: T -> nat)
    requires forall k :: 0 <= k < |s| ==> f(s[k]) <= g(s[k])
    requires Sum(s, f) >= Sum(s, g)
    requires i < |s|
    ensures f(s[i]) == g(s[i])
  {
    var n := |s| - 1;
    SumAtMost(s[..n], f, g);
    if i < n {
      SumTight(s[..n], i, f, g);
    }
  }

  lemma SumStrict<T>(s: seq<T>, i: nat, f: T -> nat, g: T -> nat)
    requires forall k :: 0 <= k < |s| ==> f(s[k]) <= g(s[k])
    requires i < |s| && f(s[i]) < g(s[i])
    ensures Sum(s, f) < Sum(s, g)
  {
    SumAtMost(s, f, g);
    if Sum(s, f) >= Sum(s, g) {
      SumTight(s, i, f, g);
    }
  }
}
