/** String helpers over UTF-16 code units (`string` is `seq<char>`).

    Only the ASCII part of JavaScript's case mapping is modelled: the code
    that uses `toLowerCase` compares the result against ASCII literals. */
module Text {

  predicate IsAsciiUpper(c: char) { 'A' <= c <= 'Z' }

  predicate IsAsciiLower(c: char) { 'a' <= c <= 'z' }

  predicate IsDigit(c: char) { '0' <= c <= '9' }

  /** `c` lowered when it is an ASCII capital, otherwise unchanged. */
  function LowerChar(c: char): (r: char)
    ensures IsAsciiUpper(c) ==> IsAsciiLower(r) && r as int - 'a' as int == c as int - 'A' as int
    ensures !IsAsciiUpper(c) ==> r == c
  {
    if IsAsciiUpper(c) then (c as int + 32) as char else c
  }

  /** `String.prototype.toLowerCase`, restricted to ASCII capitals. */
  function Lower(s: string): (r: string)
    ensures |r| == |s|
    ensures forall i :: 0 <= i < |s| ==> r[i] == LowerChar(s[i])
  {
    seq(|s|, i requires 0 <= i < |s| => LowerChar(s[i]))
  }

  /** Lowering twice is lowering once. */
  lemma LowerIdempotent(s: string)
    ensures Lower(Lower(s)) == Lower(s)
  {
  }

  /** Two strings lower to the same string exactly when they agree at every
      position up to the case of ASCII letters. */
  lemma LowerEqualIff(s: string, t: string)
    requires |s| == |t|
    ensures Lower(s) == Lower(t) <==>
      forall i :: 0 <= i < |s| ==> s[i] == t[i] || SameLetter(s[i], t[i])
  {
    if Lower(s) == Lower(t) {
      forall i | 0 <= i < |s| ensures s[i] == t[i] || SameLetter(s[i], t[i]) {
        assert LowerChar(s[i]) == LowerChar(t[i]);
      }
    }
  }

  /** `c` and `d` are the same ASCII letter in either case. */
  predicate SameLetter(c: char, d: char) {
    && (IsAsciiUpper(c) || IsAsciiLower(c))
    && (IsAsciiUpper(d) || IsAsciiLower(d))
    && (c as int - (if IsAsciiUpper(c) then 'A' else 'a') as int
        == d as int - (if IsAsciiUpper(d) then 'A' else 'a') as int)
  }

  /** `s.startsWith(p)`. */
  predicate StartsWith(s: string, p: string) {
    |p| <= |s| && s[..|p|] == p
  }

  /** `s.includes(sub)`: some position of `s` starts a copy of `sub`. */
  predicate Contains(s: string, sub: string)
    decreases |s|
  {
    StartsWith(s, sub) || (|s| > 0 && Contains(s[1..], sub))
  }

  /** The position-based reading of `Contains`. */
  lemma {:induction false} ContainsAt(s: string, sub: string)
    ensures Contains(s, sub) <==> exists i :: 0 <= i && i + |sub| <= |s| && StartsWith(s[i..], sub)
    decreases |s|
  {
    if StartsWith(s, sub) {
      assert s[0..] == s;
    } else if |s| > 0 {
      ContainsAt(s[1..], sub);
      if Contains(s[1..], sub) {
        var i :| 0 <= i && i + |sub| <= |s[1..]| && StartsWith(s[1..][i..], sub);
        assert s[1..][i..] == s[i + 1..];
      }
      if exists i :: 0 <= i && i + |sub| <= |s| && StartsWith(s[i..], sub) {
        var i :| 0 <= i && i + |sub| <= |s| && StartsWith(s[i..], sub);
        assert i != 0 by { assert s[0..] == s; }
        assert s[1..][i - 1..] == s[i..];
      }
    }
  }

  function DigitChar(d: int): (c: char)
    requires 0 <= d < 10
    ensures IsDigit(c)
  {
    ('0' as int + d) as char
  }

  /** Decimal rendering of a natural number, most significant digit first. */
  function NatDigits(n: nat): (r: string)
    ensures |r| > 0
    ensures forall i :: 0 <= i < |r| ==> IsDigit(r[i])
    ensures |r| == 1 <==> n < 10
  {
    if n < 10 then [DigitChar(n)] else NatDigits(n / 10) + [DigitChar(n % 10)]
  }

  /** JavaScript's `String(n)` for an integer: an optional `-` and the digits. */
  function Decimal(n: int): (r: string)
    ensures |r| > 0
    ensures forall i :: 0 <= i < |r| ==> r[i] == '-' || IsDigit(r[i])
    ensures n >= 0 <==> r[0] != '-'
  {
    if n >= 0 then NatDigits(n) else "-" + NatDigits(-n)
  }

  /** Distinct naturals have distinct decimal renderings. */
  lemma {:induction false} NatDigitsInjective(a: nat, b: nat)
    requires NatDigits(a) == NatDigits(b)
    ensures a == b
    decreases a
  {
    var da, db := NatDigits(a), NatDigits(b);
    if a < 10 || b < 10 {
      assert |da| == 1 && |db| == 1;
      assert a < 10 && b < 10;
      assert da[0] == DigitChar(a) && db[0] == DigitChar(b);
    } else {
      var pa, pb := NatDigits(a / 10), NatDigits(b / 10);
      assert da == pa + [DigitChar(a % 10)];
      assert db == pb + [DigitChar(b % 10)];
      assert |pa| == |pb|;
      assert pa == da[..|da| - 1] && pb == db[..|db| - 1];
      NatDigitsInjective(a / 10, b / 10);
      assert da[|da| - 1] == DigitChar(a % 10) && db[|db| - 1] == DigitChar(b % 10);
    }
  }

  /** Distinct integers have distinct decimal renderings. */
  lemma DecimalInjective(a: int, b: int)
    requires Decimal(a) == Decimal(b)
    ensures a == b
  {
    if a >= 0 {
      NatDigitsInjective(a, b);
    } else {
      assert Decimal(a)[1..] == NatDigits(-a) && Decimal(b)[1..] == NatDigits(-b);
      NatDigitsInjective(-a, -b);
    }
  }
}
