/** Text helpers standing for Rust's `join`, `to_string` on integers and
    character counting. */
module Strings {

  /** The parts with `sep` between consecutive ones, as `Vec::join` does. */
  function Join(parts: seq<string>, sep: string): string
  {
    if |parts| == 0 then ""
    else if |parts| == 1 then parts[0]
    else parts[0] + sep + Join(parts[1..], sep)
  }

  lemma Assoc(a: string, b: string, c: string)
    ensures a + b + c == a + (b + c)
  {
  }

  /** The number of occurrences of `c` in `s`. */
  function Count(s: string, c: char): nat
  {
    if |s| == 0 then 0 else (if s[0] == c then 1 else 0) + Count(s[1..], c)
  }

  lemma {:induction false} CountAppend(a: string, b: string, c: char)
    ensures Count(a + b, c) == Count(a, c) + Count(b, c)
  {
    if |a| == 0 {
      assert a + b == b;
    } else {
      assert (a + b)[1..] == a[1..] + b;
      CountAppend(a[1..], b, c);
    }
  }

  lemma {:induction false} CountZero(s: string, c: char)
    ensures Count(s, c) == 0 <==> c !in s
  {
    if |s| > 0 {
      CountZero(s[1..], c);
      assert s == [s[0]] + s[1..];
    }
  }

  /** Joining parts that each hold `c` exactly `m` times, with a separator
      that does not hold it, gives `|parts| * m` occurrences. */
  lemma {:induction false} CountJoin(parts: seq<string>, sep: string, c: char, m: nat)
    requires forall i :: 0 <= i < |parts| ==> Count(parts[i], c) == m
    requires Count(sep, c) == 0
    ensures Count(Join(parts, sep), c) == |parts| * m
  {
    if |parts| > 1 {
      var rest := Join(parts[1..], sep);
      forall i | 0 <= i < |parts[1..]| ensures Count(parts[1..][i], c) == m {
        assert parts[1..][i] == parts[i + 1];
      }
      CountJoin(parts[1..], sep, c, m);
      CountAppend(parts[0], sep, c);
      CountAppend(parts[0] + sep, rest, c);
      assert |parts| * m == (|parts| - 1) * m + m;
    }
  }

  /** The decimal digit character of `d`. */
  function DigitChar(d: nat): (c: char)
    requires d < 10
    ensures '0' <= c <= '9' && c as int - '0' as int == d
  {
    (('0' as int) + d) as char
  }

  predicate IsDigit(c: char)
  {
    '0' <= c <= '9'
  }

  /** The decimal rendering of a natural number, without leading zeros. */
  function NatToString(n: nat): string
    decreases n
  {
    if n < 10 then [DigitChar(n)] else NatToString(n / 10) + [DigitChar(n % 10)]
  }

  /** The decimal rendering of an integer, with a leading `-` when negative,
      as Rust's `to_string` and `Display` for integers produce it. */
  function IntToString(i: int): string
  {
    if i < 0 then "-" + NatToString(-i) else NatToString(i)
  }

  /** A non-empty string of decimal digits. */
  predicate IsDigits(s: string)
  {
    |s| > 0 && forall k :: 0 <= k < |s| ==> IsDigit(s[k])
  }

  /** The value of a string of decimal digits. */
  function DigitsValue(s: string): nat
    requires forall k :: 0 <= k < |s| ==> IsDigit(s[k])
  {
    if |s| == 0 then 0
    else
      assert IsDigit(s[|s| - 1]);
      DigitsValue(s[..|s| - 1]) * 10 + (s[|s| - 1] as int - '0' as int)
  }

  /** An optional `-` followed by decimal digits. */
  predicate IsIntLiteral(s: string)
  {
    IsDigits(s) || (|s| > 1 && s[0] == '-' && IsDigits(s[1..]))
  }

  /** The integer an integer literal denotes. */
  function IntValue(s: string): int
    requires IsIntLiteral(s)
  {
    if IsDigits(s) then DigitsValue(s) as int else -(DigitsValue(s[1..]) as int)
  }

  lemma {:induction false} NatToStringDigits(n: nat)
    ensures IsDigits(NatToString(n)) && DigitsValue(NatToString(n)) == n
  {
    if n >= 10 {
      NatToStringDigits(n / 10);
      var s := NatToString(n);
      assert s[..|s| - 1] == NatToString(n / 10);
    }
  }

  /** The rendering of an integer reads back as that integer. */
  lemma IntToStringRoundTrip(i: int)
    ensures IsIntLiteral(IntToString(i)) && IntValue(IntToString(i)) == i
  {
    if i < 0 {
      NatToStringDigits(-i);
      assert ("-" + NatToString(-i))[1..] == NatToString(-i);
    } else {
      NatToStringDigits(i);
    }
  }
}
