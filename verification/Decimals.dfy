/** Decimal numerals: writing and reading them. */
module Decimals {
  predicate IsDigit(c: char) { '0' <= c <= '9' }

  function Digits(n: nat): (s: string)
    ensures s != [] && forall c :: c in s ==> IsDigit(c)
  {
    var last := ['0' + (n % 10) as char];
    if n < 10 then last else Digits(n / 10) + last
  }

  function Decimal(n: int): string {
    if n < 0 then "-" + Digits(-n) else Digits(n)
  }

  /** Different numbers have different numerals. */
  lemma {:induction false} DigitsAreInjective(a: nat, b: nat)
    requires Digits(a) == Digits(b)
    ensures a == b
  {
    var s, t := Digits(a), Digits(b);
    if a >= 10 && b >= 10 {
      assert Digits(a / 10) == s[..|s| - 1] == t[..|t| - 1] == Digits(b / 10);
      DigitsAreInjective(a / 10, b / 10);
    }
    assert s[|s| - 1] == t[|t| - 1];
  }

  /** The digits from position `i` on, after a number already read. */
  function Scan(s: string, i: nat, acc: nat): (r: (nat, nat))
    requires i <= |s|
    ensures i <= r.1 <= |s|
    decreases |s| - i
  {
    if i < |s| && IsDigit(s[i]) then Scan(s, i + 1, 10 * acc + (s[i] as int - '0' as int)) else (acc, i)
  }

  function Append(acc: nat, n: nat): nat {
    if n < 10 then 10 * acc + n else 10 * Append(acc, n / 10) + n % 10
  }

  lemma {:induction false} AppendToZero(n: nat)
    ensures Append(0, n) == n
  {
    if n >= 10 {
      AppendToZero(n / 10);
    }
  }

  lemma {:induction false} ScanDigits(s: string, i: nat, n: nat, acc: nat)
    requires i + |Digits(n)| <= |s| && forall k :: 0 <= k < |Digits(n)| ==> s[i + k] == Digits(n)[k]
    ensures Scan(s, i, acc) == Scan(s, i + |Digits(n)|, Append(acc, n))
    decreases n
  {
    var last := |Digits(n)| - 1;
    assert s[i + last] == Digits(n)[last] == '0' + (n % 10) as char;
    if n >= 10 {
      forall k | 0 <= k < |Digits(n / 10)|
        ensures s[i + k] == Digits(n / 10)[k]
      {
        assert s[i + k] == Digits(n)[k];
      }
      ScanDigits(s, i, n / 10, acc);
    }
  }

  lemma {:induction false} ScanStops(s: string, i: nat, acc: nat)
    requires i <= |s| && (i < |s| ==> !IsDigit(s[i]))
    ensures Scan(s, i, acc) == (acc, i)
  {
  }

  /** The digits of a number in front of a blank scan as that number. */
  lemma {:induction false} NumberScans(s: string, i: nat, n: nat)
    requires i + |Digits(n)| <= |s| && forall k :: 0 <= k < |Digits(n)| ==> s[i + k] == Digits(n)[k]
    requires i + |Digits(n)| < |s| ==> s[i + |Digits(n)|] == ' '
    ensures Scan(s, i, 0) == (n, i + |Digits(n)|)
  {
    AppendToZero(n);
    ScanDigits(s, i, n, 0);
    ScanStops(s, i + |Digits(n)|, n);
  }
}
