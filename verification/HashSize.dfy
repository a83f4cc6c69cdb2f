/**
  The number of hash chains of the name cache (mvfs_find_dnchashsize).
 */
module HashSize {

  const HASH_MIN := 509
  const HASH_MAX := 18181
  const AVE_CHAIN := 10

  ghost predicate Prime(n: int) {
    n >= 2 && forall d :: 2 <= d < n ==> n % d != 0
  }

  /** C division of a possibly negative count: truncation toward zero. */
  function TruncDiv(a: int, b: int): int
    requires b > 0
  {
    if a >= 0 then a / b else -((-a) / b)
  }

  lemma CofactorDivides(n: nat, d: nat, e: nat)
    requires n == d * e && e > 0
    ensures n % e == 0
  {
    var r, k := n % e, d - n / e;
    assert k * e == r;
    assert k >= 1 ==> k * e >= e;
    assert k <= -1 ==> k * e <= -(e as int);
  }

  /** No number below 135, whose square exceeds the cap, divides it. */
  lemma CapHasNoDivisorBelow(d: nat)
    requires 2 <= d < 135
    ensures HASH_MAX % d != 0
  {
  }

  lemma MinIsPrime()
    ensures Prime(HASH_MIN)
  {
  }

  lemma CapsArePrime()
    ensures Prime(HASH_MIN) && Prime(HASH_MAX)
  {
    MinIsPrime();
    forall d | 2 <= d < HASH_MAX ensures HASH_MAX % d != 0 {
      if d < 135 {
        CapHasNoDivisorBelow(d);
      } else if HASH_MAX % d == 0 {
        var e := HASH_MAX / d;
        assert e < 135;
        CofactorDivides(HASH_MAX, d, e);
        CapHasNoDivisorBelow(e);
      }
    }
  }

  lemma HalfwaySuffices(n: int)
    requires n >= 2 && forall d :: 2 <= d <= n / 2 ==> n % d != 0
    ensures Prime(n)
  {
    forall d | n / 2 < d < n && d >= 2 ensures n % d != 0 {
      assert n - d < d;
      assert n % d == n - d by { assert n == d + (n - d); assert n / d == 1; }
    }
  }

  /** Inside the caps the answer is the least prime not below a tenth of the entries. */
  method FindHashSize(maxentry: int) returns (num: int)
    ensures HASH_MIN <= num <= HASH_MAX && Prime(num)
    ensures maxentry / 10 <= HASH_MIN ==> num == HASH_MIN
    ensures maxentry / 10 >= HASH_MAX ==> num == HASH_MAX
    ensures HASH_MIN < maxentry / 10 < HASH_MAX ==>
              maxentry / 10 <= num && forall m :: maxentry / 10 <= m < num ==> !Prime(m)
  {
    CapsArePrime();
    num := TruncDiv(maxentry, AVE_CHAIN);
    if num <= HASH_MIN { return HASH_MIN; }
    if num >= HASH_MAX { return HASH_MAX; }
    while true
      invariant maxentry / 10 <= num <= HASH_MAX
      invariant forall m :: maxentry / 10 <= m < num ==> !Prime(m)
      decreases HASH_MAX - num
    {
      var isprime := true;
      var i := 2;
      while i <= num / 2
        invariant 2 <= i && isprime
        invariant forall d :: 2 <= d < i ==> num % d != 0
      {
        if num % i == 0 {
          isprime := false;
          break;
        }
        i := i + 1;
      }
      if isprime {
        HalfwaySuffices(num);
        return num;
      }
      num := num + 1;
    }
  }
}
