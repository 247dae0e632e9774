/** Division with remainder by a positive number. */
module Remainders {

  lemma MultipleIsLarge(d: int, c: nat)
    ensures d >= 1 ==> d * c >= c
    ensures d <= -1 ==> d * c + c <= 0
  {}

  lemma RemainderIsUnique(n: nat, q: int, r: nat, c: nat)
    requires r < c && n == q * c + r
    ensures n % c == r && n / c == q
  {
    var d := q - n / c;
    assert n == (n / c) * c + n % c;
    assert d * c == n % c - r;
    MultipleIsLarge(d, c);
  }

  lemma NextRemainder(n: nat, c: nat)
    requires c > 0
    ensures n % c + 1 < c ==> (n + 1) % c == n % c + 1 && (n + 1) / c == n / c
    ensures n % c + 1 == c ==> (n + 1) % c == 0 && (n + 1) / c == n / c + 1
  {
    var q, r := n / c, n % c;
    assert n == q * c + r;
    if r + 1 < c {
      RemainderIsUnique(n + 1, q, r + 1, c);
    } else {
      assert (q + 1) * c == q * c + c;
      RemainderIsUnique(n + 1, q + 1, 0, c);
    }
  }
}
