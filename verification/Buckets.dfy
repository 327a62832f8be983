/** The bucket of a pid. */
module Buckets {
  const PROC_BUCKETS: nat := 1024

  /** (pid - 1) & (PROC_BUCKETS - 1), which is a remainder: see BucketIsMasked. */
  function Bucket(pid: int): (b: nat)
    ensures b < PROC_BUCKETS
  {
    (pid - 1) % PROC_BUCKETS
  }

  /** Bitwise and. */
  function BitAnd(a: nat, b: nat): nat {
    if a == 0 || b == 0 then 0
    else 2 * BitAnd(a / 2, b / 2) + if a % 2 == 1 && b % 2 == 1 then 1 else 0
  }

  function Power2(k: nat): (p: nat)
    ensures p > 0
  {
    if k == 0 then 1 else 2 * Power2(k - 1)
  }

  /** A 32-bit signed number, read as an unsigned one. */
  function Unsigned(x: int): (u: nat)
    ensures u < 0x1_0000_0000
  {
    x % 0x1_0000_0000
  }

  lemma {:induction false} HalfOfMask(k: nat)
    requires k > 0
    ensures (Power2(k) - 1) / 2 == Power2(k - 1) - 1 && (Power2(k) - 1) % 2 == 1
  {
  }

  lemma {:induction false} RemainderInHalves(a: nat, m: nat)
    requires m > 0
    ensures a % (2 * m) == 2 * (a / 2 % m) + a % 2
  {
    var q, r := a / 2 / m, a / 2 % m;
    assert a / 2 == q * m + r;
    assert a == q * (2 * m) + (2 * r + a % 2);
    QuotientUnique(a, 2 * m, q, 2 * r + a % 2);
  }

  lemma {:induction false} ProductAtLeast(d: int, m: nat)
    requires d >= 1
    ensures d * m >= m
  {
    assert (d - 1) * m >= 0;
  }

  lemma {:induction false} QuotientUnique(a: nat, m: nat, q: nat, r: nat)
    requires m > 0 && a == q * m + r && r < m
    ensures a % m == r
  {
    var z, rest := a / m, a % m;
    assert a == z * m + rest;
    assert (z - q) * m == z * m - q * m && (q - z) * m == q * m - z * m;
    if z > q {
      ProductAtLeast(z - q, m);
    } else if z < q {
      ProductAtLeast(q - z, m);
    }
  }

  /** Keeping the low k bits is taking the remainder by the k-th power of two. */
  lemma {:induction false} MaskIsRemainder(a: nat, k: nat)
    ensures BitAnd(a, Power2(k) - 1) == a % Power2(k)
    decreases k
  {
    if k > 0 {
      HalfOfMask(k);
      MaskIsRemainder(a / 2, k - 1);
      RemainderInHalves(a, Power2(k - 1));
    }
  }

  /** The expression in the source, for every 32-bit pid. */
  lemma {:induction false} BucketIsMasked(pid: int)
    requires -0x8000_0000 < pid < 0x8000_0000
    ensures Bucket(pid) == BitAnd(Unsigned(pid - 1), PROC_BUCKETS - 1)
  {
    var u := Unsigned(pid - 1);
    assert Power2(10) == PROC_BUCKETS by {
      assert Power2(5) == 32;
      assert Power2(10) == 32 * Power2(5);
    }
    MaskIsRemainder(u, 10);
    assert u % 1024 == (pid - 1) % 1024;
  }
}
