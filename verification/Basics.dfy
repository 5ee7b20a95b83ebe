/** Small shared vocabulary: optional values and counting over sequences. */
module Basics {
  datatype Option<+T> = None | Some(value: T)

  type Bytes = seq<bv8>

  /** The number of elements of `s` that satisfy `f`. */
  function Count<T>(s: seq<T>, f: T -> bool): nat {
    if s == [] then 0 else Count(s[..|s| - 1], f) + (if f(s[|s| - 1]) then 1 else 0)
  }

  /** Replacing one element changes the count only by that element's contribution. */
  lemma {:induction false} CountUpdate<T>(s: seq<T>, i: nat, x: T, f: T -> bool)
    requires i < |s|
    ensures Count(s[i := x], f) == Count(s, f) - (if f(s[i]) then 1 else 0) + (if f(x) then 1 else 0)
  {
    var n := |s| - 1;
    if i == n {
      assert s[i := x][..n] == s[..n];
    } else {
      assert s[i := x][..n] == s[..n][i := x];
      CountUpdate(s[..n], i, x, f);
    }
  }

  lemma CountAppend<T>(s: seq<T>, x: T, f: T -> bool)
    ensures Count(s + [x], f) == Count(s, f) + (if f(x) then 1 else 0)
  {
    assert (s + [x])[..|s|] == s;
  }

  /** A count equal to zero means that no element qualifies, and conversely. */
  lemma {:induction false} CountZero<T>(s: seq<T>, f: T -> bool)
    ensures Count(s, f) == 0 <==> forall i | 0 <= i < |s| :: !f(s[i])
  {
    if s != [] {
      CountZero(s[..|s| - 1], f);
    }
  }

  /** A count equal to the length means that every element qualifies, and conversely. */
  lemma {:induction false} CountAll<T>(s: seq<T>, f: T -> bool)
    ensures Count(s, f) <= |s|
    ensures Count(s, f) == |s| <==> forall i | 0 <= i < |s| :: f(s[i])
  {
    if s != [] {
      CountAll(s[..|s| - 1], f);
    }
  }

  /** The sum of a measure over a sequence. */
  function Total<T>(s: seq<T>, f: T -> nat): nat {
    if s == [] then 0 else Total(s[..|s| - 1], f) + f(s[|s| - 1])
  }

  /** Replacing one element changes the sum only by that element's contribution. */
  lemma {:induction false} TotalUpdate<T>(s: seq<T>, i: nat, x: T, f: T -> nat)
    requires i < |s|
    ensures Total(s[i := x], f) == Total(s, f) - f(s[i]) + f(x)
  {
    var n := |s| - 1;
    if i == n {
      assert s[i := x][..n] == s[..n];
    } else {
      assert s[i := x][..n] == s[..n][i := x];
      TotalUpdate(s[..n], i, x, f);
    }
  }

  lemma Distribute(n: int, k: int)
    ensures n * k + k == (n + 1) * k
  {
  }
}
