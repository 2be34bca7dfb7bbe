/** Small shared vocabulary: optional values, substring search, decimal
    rendering and the C++ integer operations that differ from Dafny's. */
module Util {

  datatype Option<T> = None | Some(value: T)

  /** Some element of a nonempty set: the witness the loops over the
      source's unordered containers draw their next key from. */
  lemma Pick<T>(s: set<T>) returns (x: T)
    requires s != {}
    ensures x in s
  {
    var none: set<T> := {};
    if forall y :: y in s <==> y in none {
      assert false;
    }
    x :| x in s;
  }

  /** `t` occurs in `s` starting at position `i`. */
  predicate OccursAt(s: string, t: string, i: int)
  {
    0 <= i && i + |t| <= |s| && s[i..i + |t|] == t
  }

  /** `std::string::find(t) != npos`: the substring test used by the zone
      helpers ("Home", "Cafe", ...). */
  function Contains(s: string, t: string): (r: bool)
    ensures r <==> exists i :: OccursAt(s, t, i)
    decreases |s|
  {
    if |t| <= |s| && s[..|t|] == t then
      assert OccursAt(s, t, 0);
      true
    else if |s| == 0 then
      assert forall i :: !OccursAt(s, t, i);
      false
    else
      var r := Contains(s[1..], t);
      assert forall i :: OccursAt(s[1..], t, i) <==> OccursAt(s, t, i + 1) by {
        forall i ensures OccursAt(s[1..], t, i) <==> OccursAt(s, t, i + 1) {
          if 0 <= i && i + |t| <= |s| - 1 {
            assert s[1..][i..i + |t|] == s[i + 1..i + 1 + |t|];
          }
        }
      }
      assert !OccursAt(s, t, 0);
      assert forall i :: OccursAt(s, t, i) ==> i == 0 || OccursAt(s[1..], t, i - 1);
      r
  }

  lemma ContainsItself(s: string)
    ensures Contains(s, s)
  {
    assert OccursAt(s, s, 0);
  }

  lemma {:induction false} ContainsInPrefixOrSuffix(a: string, b: string, t: string)
    requires Contains(a, t) || Contains(b, t)
    ensures Contains(a + b, t)
  {
    if Contains(a, t) {
      var i :| OccursAt(a, t, i);
      assert (a + b)[i..i + |t|] == a[i..i + |t|];
      assert OccursAt(a + b, t, i);
    } else {
      var i :| OccursAt(b, t, i);
      assert (a + b)[|a| + i..|a| + i + |t|] == b[i..i + |t|];
      assert OccursAt(a + b, t, |a| + i);
    }
  }

  /** A string does not contain a different string of its own length. */
  lemma NotContainsSameLength(s: string, t: string)
    requires |s| == |t| && s != t
    ensures !Contains(s, t)
  {
    forall i ensures !OccursAt(s, t, i) {
      if 0 <= i && i + |t| <= |s| {
        assert i == 0 && s[i..i + |t|] == s;
      }
    }
  }

  function DigitChar(d: nat): (c: char)
    requires d < 10
    ensures '0' <= c <= '9' && c as int - '0' as int == d
  {
    ['0', '1', '2', '3', '4', '5', '6', '7', '8', '9'][d]
  }

  /** The number a string of decimal digits spells, most significant
      digit first. */
  function DecValue(s: string): int
    decreases |s|
  {
    if |s| == 0 then 0 else DecValue(s[..|s| - 1]) * 10 + (s[|s| - 1] as int - '0' as int)
  }

  /** Decimal digits of a natural number, as `operator<<` prints it: the
      digits spell `n`, with no leading zero. */
  function NatToString(n: nat): (s: string)
    ensures |s| >= 1 && DecimalDigits(s)
    ensures n < 10 <==> |s| == 1
    ensures DecValue(s) == n
    ensures s[0] == '0' <==> n == 0
    decreases n
  {
    if n < 10 then [DigitChar(n)]
    else
      var r := NatToString(n / 10);
      var s := r + [DigitChar(n % 10)];
      assert s[..|s| - 1] == r;
      s
  }

  predicate DecimalDigits(s: string)
  {
    forall k :: 0 <= k < |s| ==> '0' <= s[k] <= '9'
  }

  /** A digit string spells a non-negative number, a positive one when its
      first digit is not zero. */
  lemma {:induction false} DecValueSign(s: string)
    requires DecimalDigits(s)
    ensures DecValue(s) >= 0
    ensures |s| >= 1 && s[0] != '0' ==> DecValue(s) >= 1
    decreases |s|
  {
    if |s| > 0 {
      var p := s[..|s| - 1];
      assert DecimalDigits(p);
      DecValueSign(p);
      if |s| >= 2 {
        assert p[0] == s[0];
      }
    }
  }

  /** The decimal rendering is the only digit string without a leading
      zero that spells the number. */
  lemma {:induction false} DecimalUnique(s: string, n: nat)
    requires |s| >= 1 && DecimalDigits(s) && (s[0] == '0' ==> |s| == 1)
    requires DecValue(s) == n
    ensures s == NatToString(n)
    decreases |s|
  {
    var p := s[..|s| - 1];
    var d := s[|s| - 1] as int - '0' as int;
    assert DecimalDigits(p);
    DecValueSign(p);
    if |s| == 1 {
      assert p == [];
      assert DigitChar(n) == s[0];
      assert s == [DigitChar(n)];
    } else {
      assert p[0] == s[0];
      assert n / 10 == DecValue(p) && n % 10 == d;
      DecimalUnique(p, n / 10);
      assert DigitChar(n % 10) == s[|s| - 1];
      assert s == p + [s[|s| - 1]];
    }
  }

  /** Decimal rendering of a (possibly negative) int: a '-' exactly for
      negative numbers, then the digits of the magnitude with no leading
      zero. */
  function IntToString(n: int): (s: string)
    ensures |s| >= 1
    ensures (n < 0) <==> (s[0] == '-')
    ensures n >= 0 ==> DecimalDigits(s) && DecValue(s) == n && (s[0] == '0' ==> |s| == 1)
    ensures n < 0 ==> |s| >= 2 && DecimalDigits(s[1..]) && DecValue(s[1..]) == -n && s[1] != '0'
  {
    if n < 0 then
      var d := NatToString(-n);
      assert ("-" + d)[1..] == d;
      "-" + d
    else NatToString(n)
  }

  /** `std::setfill('0') << std::setw(2) << n`: left-pad to width two. */
  function PadTwo(n: int): (s: string)
    ensures 0 <= n < 100 ==> |s| == 2 && '0' <= s[0] <= '9' && '0' <= s[1] <= '9'
    ensures 0 <= n < 100 ==> (s[0] as int - '0' as int) * 10 + (s[1] as int - '0' as int) == n
  {
    var d := IntToString(n);
    if |d| < 2 then
      if 0 <= n then "0" + d else d
    else if 0 <= n < 100 then
      assert n >= 10;
      assert d == NatToString(n / 10) + [DigitChar(n % 10)];
      d
    else d
  }

  // ---------------------------------------------------------------------
  // C++ arithmetic: integer `/` and `%` truncate toward zero, and
  // `static_cast<int>` on a float truncates toward zero.

  function CppDiv(a: int, b: int): (q: int)
    requires b != 0
    ensures a >= 0 && b > 0 ==> q == a / b
    ensures (a >= 0) == (b > 0) ==> q >= 0
  {
    if (a >= 0) == (b > 0) then
      (if a >= 0 then a / b else (-a) / (-b))
    else
      -((if a >= 0 then a else -a) / (if b > 0 then b else -b))
  }

  function CppMod(a: int, b: int): (r: int)
    requires b != 0
    ensures r == a - CppDiv(a, b) * b
  {
    a - CppDiv(a, b) * b
  }

  lemma CppModBounds(a: int, b: int)
    requires b > 0
    ensures a >= 0 ==> 0 <= CppMod(a, b) < b
    ensures a < 0 ==> -b < CppMod(a, b) <= 0
  {
  }

  /** `static_cast<int>(x)`: truncation toward zero. */
  function Trunc(x: real): int
  {
    if x >= 0.0 then x.Floor else -((-x).Floor)
  }

  lemma TruncBounds(x: real)
    ensures x >= 0.0 ==> Trunc(x) as real <= x < Trunc(x) as real + 1.0
    ensures x < 0.0 ==> Trunc(x) as real - 1.0 < x <= Trunc(x) as real
  {
  }

  lemma TruncOfNonNegativeQuotient(x: real, c: real, n: int)
    requires c > 0.0 && 0.0 <= x < n as real * c
    ensures 0 <= Trunc(x / c) < n
  {
    var q := x / c;
    assert q * c == x;
    TruncBounds(q);
  }
}
