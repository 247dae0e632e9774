/** Sums over a sequence of processes, how one process step changes them, and the numbers 1..n. */
module Totals {

  function Total<T>(f: T -> nat, s: seq<T>): nat {
    if s == [] then 0 else f(s[0]) + Total(f, s[1..])
  }

  lemma {:induction false} TotalUpdate<T>(f: T -> nat, s: seq<T>, i: nat, x: T)
    requires i < |s|
    ensures Total(f, s[i := x]) + f(s[i]) == Total(f, s) + f(x)
  {
    if i == 0 {
      assert s[i := x][1..] == s[1..];
    } else {
      assert s[i := x][1..] == s[1..][i - 1 := x];
      TotalUpdate(f, s[1..], i - 1, x);
    }
  }

  lemma {:induction false} TotalAtLeast<T>(f: T -> nat, s: seq<T>, i: nat)
    requires i < |s|
    ensures Total(f, s) >= f(s[i])
  {
    if i > 0 {
      TotalAtLeast(f, s[1..], i - 1);
    }
  }

  lemma {:induction false} TotalAtLeastTwo<T>(f: T -> nat, s: seq<T>, i: nat, j: nat)
    requires i < j < |s|
    ensures Total(f, s) >= f(s[i]) + f(s[j])
  {
    if i > 0 {
      TotalAtLeastTwo(f, s[1..], i - 1, j - 1);
    } else {
      TotalAtLeast(f, s[1..], j - 1);
    }
  }

  /** A positive total has a positive summand. */
  lemma {:induction false} TotalWitness<T>(f: T -> nat, s: seq<T>) returns (i: nat)
    requires Total(f, s) > 0
    ensures i < |s| && f(s[i]) > 0
  {
    if f(s[0]) > 0 {
      i := 0;
    } else {
      i := TotalWitness(f, s[1..]);
      i := i + 1;
    }
  }

  lemma {:induction false} TotalUniform<T>(f: T -> nat, s: seq<T>, c: nat)
    requires forall x | x in s :: f(x) == c
    ensures Total(f, s) == |s| * c
  {
    if s != [] {
      TotalUniform(f, s[1..], c);
      assert f(s[0]) == c && |s| * c == (|s| - 1) * c + c;
    }
  }

  lemma {:induction false} TotalAtMost<T>(f: T -> nat, s: seq<T>, c: nat)
    requires forall x | x in s :: f(x) <= c
    ensures Total(f, s) <= |s| * c
  {
    if s != [] {
      TotalAtMost(f, s[1..], c);
      assert f(s[0]) <= c && |s| * c == (|s| - 1) * c + c;
    }
  }

  lemma {:induction false} TotalAppend<T>(f: T -> nat, s: seq<T>, x: T)
    ensures Total(f, s + [x]) == Total(f, s) + f(x)
  {
    if s == [] {
      assert s + [x] == [x];
    } else {
      assert (s + [x])[1..] == s[1..] + [x];
      TotalAppend(f, s[1..], x);
    }
  }

  lemma {:induction false} TotalRemove<T>(f: T -> nat, s: seq<T>, k: nat)
    requires k < |s|
    ensures Total(f, s[..k] + s[k + 1..]) + f(s[k]) == Total(f, s)
  {
    if k == 0 {
      assert s[..k] + s[k + 1..] == s[1..];
    } else {
      assert (s[..k] + s[k + 1..])[1..] == s[1..][..k - 1] + s[1..][k..];
      TotalRemove(f, s[1..], k - 1);
    }
  }

  lemma {:induction false} TotalZero<T>(f: T -> nat, s: seq<T>)
    requires forall x | x in s :: f(x) == 0
    ensures Total(f, s) == 0
  {
    TotalUniform(f, s, 0);
  }

  /** The values 1, 2, ..., n. */
  function UpTo(n: nat): (r: seq<nat>)
    ensures |r| == n
  {
    if n == 0 then [] else UpTo(n - 1) + [n]
  }

  lemma {:induction false} UpToAt(n: nat, k: nat)
    requires k < n
    ensures UpTo(n)[k] == k + 1
  {
    if k < n - 1 {
      UpToAt(n - 1, k);
    }
  }
}
