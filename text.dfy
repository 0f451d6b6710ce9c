/** The string primitives the export script relies on: `String.prototype.includes`,
    decimal conversion of integers (`String(n)`, template literals) and `padStart`. */
module Text {

  /** `t` occurs in `s` at position `i`. */
  predicate OccursAt(s: string, t: string, i: nat)
  {
    i + |t| <= |s| && s[i..i + |t|] == t
  }

  /** `s.includes(t)`: scans `s` left to right for an occurrence of `t`. */
  function Includes(s: string, t: string): bool
    decreases |s|
  {
    if t <= s then true
    else if s == [] then false
    else Includes(s[1..], t)
  }

  /** The scan finds `t` exactly when `t` occurs somewhere in `s`. */
  lemma {:induction false} IncludesIff(s: string, t: string)
    ensures Includes(s, t) <==> exists i: nat :: OccursAt(s, t, i)
    decreases |s|
  {
    if t <= s {
      assert OccursAt(s, t, 0);
    } else if s == [] {
      assert forall i: nat :: !OccursAt(s, t, i);
    } else {
      IncludesIff(s[1..], t);
      if Includes(s[1..], t) {
        var i: nat :| OccursAt(s[1..], t, i);
        OccursShift(s, t, i);
      } else {
        forall i: nat | OccursAt(s, t, i)
          ensures false
        {
          if i > 0 {
            OccursShift(s, t, i - 1);
          }
        }
      }
    }
  }

  /** An occurrence in the tail of `s` is an occurrence in `s` one position
      further on, and conversely. */
  lemma OccursShift(s: string, t: string, i: nat)
    requires |s| > 0
    ensures OccursAt(s[1..], t, i) <==> OccursAt(s, t, i + 1)
  {
    if i + 1 + |t| <= |s| {
      assert s[1..][i..i + |t|] == s[i + 1..i + 1 + |t|];
    }
  }

  /** Every string includes itself when surrounded by anything. */
  lemma IncludesInfix(a: string, t: string, b: string)
    ensures Includes(a + t + b, t)
  {
    var s := a + t + b;
    assert s[|a|..|a| + |t|] == t;
    assert OccursAt(s, t, |a|);
    IncludesIff(s, t);
  }

  // ---------------------------------------------------------------------------
  // Decimal text of integers

  predicate IsDigit(c: char)
  {
    '0' <= c <= '9'
  }

  function DigitChar(d: nat): (c: char)
    requires d < 10
    ensures IsDigit(c)
  {
    ['0', '1', '2', '3', '4', '5', '6', '7', '8', '9'][d]
  }

  function DigitValue(c: char): (d: nat)
    requires IsDigit(c)
    ensures d < 10 && DigitChar(d) == c
  {
    (c as int - '0' as int)
  }

  /** `String(n)` for a non-negative integer: decimal digits, no leading zero
      except for zero itself. */
  function NatToString(n: nat): string
    decreases n
  {
    if n < 10 then [DigitChar(n)] else NatToString(n / 10) + [DigitChar(n % 10)]
  }

  /** `String(i)` / `${i}` for any integer: a minus sign before negative values. */
  function IntToString(i: int): string
  {
    if i < 0 then "-" + NatToString(-i) else NatToString(i)
  }

  predicate AllDigits(s: string)
  {
    forall k :: 0 <= k < |s| ==> IsDigit(s[k])
  }

  /** The value of a string of decimal digits (leading zeros allowed). */
  function DigitsValue(s: string): nat
    requires AllDigits(s)
  {
    if s == [] then 0 else 10 * DigitsValue(s[..|s| - 1]) + DigitValue(s[|s| - 1])
  }

  /** `NatToString` produces a non-empty digit string without a superfluous
      leading zero (a single digit below 10), of at most two characters below
      100, that reads back as `n`. */
  lemma {:induction false} NatToStringRoundTrip(n: nat)
    ensures AllDigits(NatToString(n)) && DigitsValue(NatToString(n)) == n
    ensures 1 <= |NatToString(n)|
    ensures n >= 10 ==> NatToString(n)[0] != '0'
    ensures n < 10 ==> |NatToString(n)| == 1
    ensures n < 100 ==> |NatToString(n)| <= 2
    decreases n
  {
    if n >= 10 {
      var prefix := NatToString(n / 10);
      NatToStringRoundTrip(n / 10);
      var s := NatToString(n);
      assert s == prefix + [DigitChar(n % 10)];
      assert s[..|s| - 1] == prefix;
      assert AllDigits(s) by {
        forall k | 0 <= k < |s| ensures IsDigit(s[k]) {
          if k < |prefix| { assert s[k] == prefix[k]; }
        }
      }
      assert DigitsValue(s) == 10 * DigitsValue(prefix) + n % 10;
      assert s[0] == prefix[0];
    }
  }

  /** `s.padStart(width, fill)` with a one-character fill string. */
  function PadStart(s: string, width: nat, fill: char): (r: string)
    ensures |r| == if |s| < width then width else |s|
    ensures r[|r| - |s|..] == s
    ensures forall k :: 0 <= k < |r| - |s| ==> r[k] == fill
  {
    if |s| < width then seq(width - |s|, _ => fill) + s else s
  }

  /** Leading zeros do not change the value of a digit string. */
  lemma {:induction false} LeadingZeros(z: string, s: string)
    requires AllDigits(s)
    requires forall k :: 0 <= k < |z| ==> z[k] == '0'
    ensures AllDigits(z + s) && DigitsValue(z + s) == DigitsValue(s)
    decreases |s|
  {
    var zs := z + s;
    assert AllDigits(zs) by {
      forall k | 0 <= k < |zs| ensures IsDigit(zs[k]) {
        if k < |z| { assert zs[k] == z[k]; } else { assert zs[k] == s[k - |z|]; }
      }
    }
    if s == [] {
      LeadingZerosOnly(z);
      assert zs == z;
    } else {
      var init := s[..|s| - 1];
      assert zs[..|zs| - 1] == z + init;
      LeadingZeros(z, init);
    }
  }

  /** A string of zeros reads as zero. */
  lemma {:induction false} LeadingZerosOnly(z: string)
    requires forall k :: 0 <= k < |z| ==> z[k] == '0'
    ensures AllDigits(z) && DigitsValue(z) == 0
    decreases |z|
  {
    if z != [] {
      LeadingZerosOnly(z[..|z| - 1]);
    }
  }

  /** Zero-padding a decimal numeral keeps its value and gives the requested width
      whenever the numeral fits. */
  lemma PadStartRoundTrip(n: nat, width: nat)
    ensures AllDigits(PadStart(NatToString(n), width, '0'))
    ensures DigitsValue(PadStart(NatToString(n), width, '0')) == n
    ensures |NatToString(n)| <= width ==> |PadStart(NatToString(n), width, '0')| == width
  {
    var s := NatToString(n);
    NatToStringRoundTrip(n);
    var r := PadStart(s, width, '0');
    if |s| < width {
      var z := seq(width - |s|, _ => '0');
      assert r == z + s;
      LeadingZeros(z, s);
    }
  }
}
