/**
 * The test that ends the tweet-count prompt: the answer is kept once it is
 * a string of decimal digits whose value is below 100.  The prompting loop
 * around it is console I/O and is not modelled.
 */
module CountInput {

  /** `str.isdigit` on one character of a byte string: an ASCII decimal digit. */
  predicate IsDigit(c: char) {
    '0' <= c <= '9'
  }

  predicate AllDigits(s: string) {
    forall i :: 0 <= i < |s| ==> IsDigit(s[i])
  }

  function Pow10(n: nat): (r: nat)
    ensures r >= 1
  {
    if n == 0 then 1 else 10 * Pow10(n - 1)
  }

  /**
   * `int(s)` for a string of digits: each digit weighted by its position.
   * A string of n digits has a value below 10^n, and of at least 10^(n-1)
   * when it does not start with a zero.
   */
  function DigitsValue(s: string): (r: nat)
    requires AllDigits(s)
    ensures r < Pow10(|s|)
    ensures s != [] && s[0] != '0' ==> r >= Pow10(|s| - 1)
  {
    if s == [] then 0
    else
      var d := s[0] as int - '0' as int;
      DigitStep(d, Pow10(|s| - 1), DigitsValue(s[1..]));
      d * Pow10(|s| - 1) + DigitsValue(s[1..])
  }

  /** The two bounds on a digit `d` placed in front of a value `v` of lower weight `p`. */
  lemma DigitStep(d: int, p: nat, v: nat)
    requires 0 <= d <= 9 && v < p
    ensures d * p + v < 10 * p
    ensures d >= 1 ==> d * p + v >= p
  {
  }

  function StripLeadingZeros(s: string): (r: string)
    ensures |r| <= |s| && r == s[|s| - |r|..]
    ensures r == [] || r[0] != '0'
  {
    if |s| > 0 && s[0] == '0' then StripLeadingZeros(s[1..]) else s
  }

  lemma {:induction false} LeadingZerosAddNothing(s: string)
    requires AllDigits(s)
    ensures AllDigits(StripLeadingZeros(s))
    ensures DigitsValue(s) == DigitsValue(StripLeadingZeros(s))
  {
    if |s| > 0 && s[0] == '0' {
      LeadingZerosAddNothing(s[1..]);
    }
  }

  lemma {:induction false} Pow10Monotone(m: nat, n: nat)
    requires m <= n
    ensures Pow10(m) <= Pow10(n)
    decreases n
  {
    if m < n {
      Pow10Monotone(m, n - 1);
    }
  }

  /**
   * An independent reading of `int(s) < 100`: at most two digits remain once
   * the leading zeros of `s` are dropped ("0", "7", "42", "007" qualify;
   * "100" does not).
   */
  lemma BelowHundredByLength(s: string)
    requires AllDigits(s)
    ensures DigitsValue(s) < 100 <==> |StripLeadingZeros(s)| <= 2
  {
    var t := StripLeadingZeros(s);
    LeadingZerosAddNothing(s);
    if |t| <= 2 {
      Pow10Monotone(|t|, 2);
    } else {
      Pow10Monotone(2, |t| - 1);
    }
  }

  /**
   * The test that ends the count prompt: `count.isdigit()` (which needs at
   * least one character) and `int(count) < 100`.  Equivalently, a non-empty
   * digit string with at most two digits after its leading zeros.  Zero is
   * accepted.
   */
  predicate CountAccepted(s: string): (ok: bool)
    ensures ok <==> |s| > 0 && AllDigits(s) && |StripLeadingZeros(s)| <= 2
  {
    if |s| > 0 && AllDigits(s) then
      BelowHundredByLength(s);
      DigitsValue(s) < 100
    else
      false
  }

  /** Answers that end the prompt and answers that do not. */
  lemma CountExamples()
    ensures CountAccepted("0") && CountAccepted("99") && CountAccepted("007")
    ensures !CountAccepted("") && !CountAccepted("100") && !CountAccepted("-1") && !CountAccepted("5 ")
  {
  }
}
