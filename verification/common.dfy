/**
  Small shared vocabulary: optional values, results with an error side, and
  the decimal rendering of integers that JavaScript template literals use
  when a number is spliced into a string (as the cache keys of the GIF
  gateway do).
 */
module Common {

  datatype Option<+T> = None | Some(value: T) {
    function GetOr(default: T): T {
      match this
      case Some(v) => v
      case None => default
    }
  }

  datatype Result<+R, +E> = Success(value: R) | Failure(error: E)

  /** The character of one decimal digit. */
  function DigitChar(d: nat): (c: char)
    requires d < 10
    ensures '0' <= c <= '9'
    ensures c as int - '0' as int == d
  {
    ['0', '1', '2', '3', '4', '5', '6', '7', '8', '9'][d]
  }

  predicate IsDigit(c: char) {
    '0' <= c <= '9'
  }

  /** Shortest decimal rendering of a natural number, most significant digit first. */
  function NatToDecimal(n: nat): (s: string)
    ensures |s| >= 1
    ensures forall i :: 0 <= i < |s| ==> IsDigit(s[i])
    ensures n < 10 <==> |s| == 1
  {
    if n < 10 then [DigitChar(n)]
    else NatToDecimal(n / 10) + [DigitChar(n % 10)]
  }

  /** Rendering of an integer as `${n}` writes it: a minus sign before negatives. */
  function IntToDecimal(n: int): (s: string)
    ensures |s| >= 1
    ensures n >= 0 ==> forall i :: 0 <= i < |s| ==> IsDigit(s[i])
    ensures n < 0 ==> s[0] == '-' && forall i :: 1 <= i < |s| ==> IsDigit(s[i])
  {
    if n >= 0 then NatToDecimal(n) else "-" + NatToDecimal(-n)
  }

  /** Distinct naturals render to distinct strings. */
  lemma {:induction false} NatToDecimalInjective(a: nat, b: nat)
    requires NatToDecimal(a) == NatToDecimal(b)
    ensures a == b
  {
    var sa, sb := NatToDecimal(a), NatToDecimal(b);
    if a < 10 && b < 10 {
      assert sa[0] == DigitChar(a) && sb[0] == DigitChar(b);
    } else if a >= 10 && b >= 10 {
      var pa, pb := NatToDecimal(a / 10), NatToDecimal(b / 10);
      assert sa == pa + [DigitChar(a % 10)];
      assert sb == pb + [DigitChar(b % 10)];
      assert DigitChar(a % 10) == sa[|sa| - 1] == sb[|sb| - 1] == DigitChar(b % 10);
      assert pa == sa[..|sa| - 1] == sb[..|sb| - 1] == pb;
      NatToDecimalInjective(a / 10, b / 10);
    }
  }

  /** Distinct integers render to distinct strings. */
  lemma IntToDecimalInjective(a: int, b: int)
    requires IntToDecimal(a) == IntToDecimal(b)
    ensures a == b
  {
    var s := IntToDecimal(a);
    if a >= 0 && b >= 0 {
      NatToDecimalInjective(a, b);
    } else if a < 0 && b < 0 {
      assert NatToDecimal(-a) == s[1..] == NatToDecimal(-b);
      NatToDecimalInjective(-a, -b);
    }
  }

  /** A rendered integer never contains the character `c` unless it is a digit or the sign. */
  lemma IntToDecimalAvoids(n: int, c: char)
    requires !IsDigit(c) && c != '-'
    ensures c !in IntToDecimal(n)
  {
  }
}
