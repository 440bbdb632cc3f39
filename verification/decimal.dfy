/**
 * Decimal text for integers, as JavaScript's `String(n)` and Python's
 * `str(n)` / `strftime('%m')` produce it for whole numbers, together with
 * the parser that reads it back.
 */
module Decimal {

  import opened Seqs

  predicate IsDigit(c: char) { '0' <= c <= '9' }

  predicate AllDigits(s: string) { forall i :: 0 <= i < |s| ==> IsDigit(s[i]) }

  function DigitChar(d: nat): (c: char)
    requires d < 10
    ensures IsDigit(c)
  {
    ('0' as int + d) as char
  }

  function DigitValue(c: char): (d: nat)
    requires IsDigit(c)
    ensures d < 10
    ensures DigitChar(d) == c
  {
    c as int - '0' as int
  }

  lemma DigitRoundTrip(d: nat)
    requires d < 10
    ensures DigitValue(DigitChar(d)) == d
  {
  }

  /** Shortest decimal text of `n`: no leading zeros except for "0" itself. */
  function NatText(n: nat): (s: string)
    ensures 1 <= |s|
    ensures AllDigits(s)
    ensures |s| > 1 ==> s[0] != '0'
    decreases n
  {
    if n < 10 then [DigitChar(n)] else NatText(n / 10) + [DigitChar(n % 10)]
  }

  /** Reads a run of digits as a number; the empty text reads as 0. */
  function ParseNat(s: string): nat
    requires AllDigits(s)
    decreases |s|
  {
    if s == [] then 0 else ParseNat(s[..|s| - 1]) * 10 + DigitValue(s[|s| - 1])
  }

  lemma {:induction false} NatTextRoundTrip(n: nat)
    ensures ParseNat(NatText(n)) == n
    decreases n
  {
    if n >= 10 {
      NatTextRoundTrip(n / 10);
      var s := NatText(n);
      assert s[..|s| - 1] == NatText(n / 10);
      DigitRoundTrip(n % 10);
    } else {
      DigitRoundTrip(n);
      assert NatText(n)[..0] == [];
    }
  }

  /** `String(i)` for a whole number `i`: a leading '-' for negatives. */
  function IntText(i: int): (s: string)
    ensures 1 <= |s|
  {
    if i < 0 then "-" + NatText(-i) else NatText(i)
  }

  function ParseInt(s: string): Option<int>
  {
    if 1 < |s| && s[0] == '-' && AllDigits(s[1..]) then Some(-(ParseNat(s[1..]) as int))
    else if 1 <= |s| && AllDigits(s) then Some(ParseNat(s))
    else None
  }

  lemma IntTextRoundTrip(i: int)
    ensures ParseInt(IntText(i)) == Some(i)
  {
    if i < 0 {
      var t := NatText(-i);
      var s := "-" + t;
      assert s[1..] == t;
      assert s[0] == '-';
      NatTextRoundTrip(-i);
      assert ParseInt(s) == Some(-(ParseNat(t) as int));
    } else {
      var t := NatText(i);
      assert IsDigit(t[0]);
      NatTextRoundTrip(i);
    }
  }

  /** Two-digit zero-padded text, as `strftime('%m')`, `'%d'` and `'%H'` print. */
  function Pad2(n: nat): (s: string)
    requires n < 100
    ensures |s| == 2 && AllDigits(s)
  {
    [DigitChar(n / 10), DigitChar(n % 10)]
  }

  lemma Pad2RoundTrip(n: nat)
    requires n < 100
    ensures ParseNat(Pad2(n)) == n
  {
    var s := Pad2(n);
    var head := s[..1];
    assert head[..0] == [];
    assert ParseNat(head) == DigitValue(s[0]);
    assert s[..|s| - 1] == head;
    assert ParseNat(s) == ParseNat(head) * 10 + DigitValue(s[1]);
    DigitRoundTrip(n / 10);
    DigitRoundTrip(n % 10);
  }
}
