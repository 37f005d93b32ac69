/**
 * The Luhn check-digit code of the IMEI tool (imei_tool.c): the whole-string
 * verifier `luhn_checksum`, the check-digit calculator `get_correct_checksum`
 * and the length-checking front end `validate_imei`.
 *
 * A C string is modelled by the characters before its terminator, so
 * `strlen(s)` is `|s|`. Characters are converted with `c - '0'`, as the code
 * does, and C's `%` (which truncates toward zero) is written out as `CRem10`, so
 * every function here is defined on every string, digits or not.
 */
module Luhn {

  // ---------------------------------------------------------------------------
  // Characters and C arithmetic
  // ---------------------------------------------------------------------------

  predicate IsDigit(c: char) {
    '0' <= c <= '9'
  }

  predicate AllDigits(s: string) {
    forall i :: 0 <= i < |s| ==> IsDigit(s[i])
  }

  /** `c - '0'`: the digit's value for '0'..'9', some other integer otherwise. */
  function DigitValue(c: char): (v: int)
    ensures IsDigit(c) <==> 0 <= v <= 9
  {
    c as int - '0' as int
  }

  /** The character `'0' + d` of a digit value. */
  function DigitChar(d: int): (c: char)
    requires 0 <= d <= 9
    ensures IsDigit(c) && DigitValue(c) == d
  {
    ('0' as int + d) as char
  }

  /**
   * C's `a % 10`: the remainder of the division that
   * truncates toward zero. It takes the sign of `a`, is smaller than 10 in
   * magnitude, and differs from `a` by a multiple of 10.
   */
  function CRem10(a: int): (r: int)
    ensures a >= 0 ==> 0 <= r < 10
    ensures a < 0 ==> -10 < r <= 0
    ensures (a - r) % 10 == 0
  {
    if a >= 0 then a % 10
    else
      var q := (-a) / 10;
      assert -a == 10 * q + (-a) % 10;
      -((-a) % 10)
  }

  // ---------------------------------------------------------------------------
  // The weighted sum both loops accumulate
  // ---------------------------------------------------------------------------

  /**
   * `digit *= 2; if (digit > 9) digit -= 9;`. On a digit this is the sum of
   * the two decimal digits of the doubled value, again a digit.
   */
  function Doubled(d: int): (r: int)
    ensures 0 <= d <= 9 ==> 0 <= r <= 9 && r == (2 * d) / 10 + (2 * d) % 10
  {
    if 2 * d > 9 then 2 * d - 9 else 2 * d
  }

  /** Whether position `i` is doubled under the given parity (`i % 2 == parity`). */
  predicate IsDoubled(i: nat, parity: int) {
    i % 2 == parity
  }

  /** What position `i` holding value `d` adds to the sum. */
  function Weight(i: nat, parity: int, d: int): int {
    if IsDoubled(i, parity) then Doubled(d) else d
  }

  /**
   * The value of `sum` after the loop has visited positions 0 .. n-1 of `s`.
   * When those positions hold digits, every step adds 0..9.
   */
  function WeightedSum(s: string, n: nat, parity: int): (sum: int)
    requires n <= |s|
    ensures (forall k :: 0 <= k < n ==> IsDigit(s[k])) ==> 0 <= sum <= 9 * n
  {
    if n == 0 then 0 else WeightedSum(s, n - 1, parity) + Weight(n - 1, parity, DigitValue(s[n - 1]))
  }

  /**
   * What `luhn_checksum` returns (1 as true): the full weighted sum is
   * divisible by 10. The parity rule `i % 2 == strlen % 2` makes this the
   * textbook Luhn test on the right-to-left sum.
   */
  function LuhnAccepts(s: string): (ok: bool)
    ensures ok <==> CRem10(StandardSum(s)) == 0
  {
    WeightedIsRightToLeft(s, |s|, |s| % 2);
    assert s[..|s|] == s;
    CRem10(WeightedSum(s, |s|, |s| % 2)) == 0
  }

  /** Number of positions `get_correct_checksum` sums: `length - 1`, or none for the empty string. */
  function PayloadLength(s: string): (n: nat)
    ensures n <= |s| && (|s| > 0 ==> n == |s| - 1)
  {
    if |s| == 0 then 0 else |s| - 1
  }

  /**
   * What `get_correct_checksum` returns: `'0' + (10 - sum % 10) % 10` over the
   * first `length - 1` positions, with the parity of the whole length. Because
   * `sum % 10` lies in -9..9 even for a negative sum, the result is a digit
   * character for every input, digits or not.
   */
  function ExpectedCheckDigit(s: string): (c: char)
    ensures IsDigit(c)
  {
    var rem := CRem10(WeightedSum(s, PayloadLength(s), |s| % 2));
    DigitChar(CRem10(10 - rem))
  }

  // ---------------------------------------------------------------------------
  // The two loops of the source
  // ---------------------------------------------------------------------------

  /** `luhn_checksum`: one pass over the whole string, then the divisibility test. */
  method LuhnChecksum(imei: string) returns (ok: bool)
    ensures ok == LuhnAccepts(imei)
  {
    var sum := 0;
    var length := |imei|;
    var parity := length % 2;
    var i := 0;
    while i < length
      invariant 0 <= i <= length
      invariant sum == WeightedSum(imei, i, parity)
    {
      var digit := imei[i] as int - '0' as int;
      if i % 2 == parity {
        digit := digit * 2;
        if digit > 9 {
          digit := digit - 9;
        }
      }
      sum := sum + digit;
      i := i + 1;
    }
    ok := CRem10(sum) == 0;
  }

  /** `get_correct_checksum`: the check digit that would make the string pass. */
  method CorrectChecksum(imei: string) returns (c: char)
    ensures c == ExpectedCheckDigit(imei)
    ensures IsDigit(c)
  {
    var sum := 0;
    var length := |imei|;
    var parity := length % 2;
    var i := 0;
    while i < length - 1
      invariant 0 <= i <= PayloadLength(imei)
      invariant sum == WeightedSum(imei, i, parity)
    {
      var digit := imei[i] as int - '0' as int;
      if i % 2 == parity {
        digit := digit * 2;
        if digit > 9 {
          digit := digit - 9;
        }
      }
      sum := sum + digit;
      i := i + 1;
    }
    var correctDigit := CRem10(10 - CRem10(sum));
    c := ('0' as int + correctDigit) as char;
  }

  // ---------------------------------------------------------------------------
  // validate_imei
  // ---------------------------------------------------------------------------

  /**
   * The outcome of `validate_imei`: it returns 1 only for `Accepted`; on a
   * checksum failure it also prints the expected check digit. `NotDigits` is
   * only produced by the corrected validator below.
   */
  datatype Verdict = WrongLength | NotDigits | Accepted | Mismatch(expected: char)

  /**
   * `validate_imei`: a length test, then the Luhn test, then (on failure) the
   * expected digit. No test that the characters are digits is made.
   */
  function ValidateImei(imei: string): (v: Verdict)
    ensures |imei| != 15 <==> v == WrongLength
    ensures v != NotDigits
    ensures v == Accepted <==> |imei| == 15 && CRem10(StandardSum(imei)) == 0
    ensures v.Mismatch? ==> v.expected == ExpectedCheckDigit(imei) && IsDigit(v.expected)
  {
    if |imei| != 15 then WrongLength
    else if LuhnAccepts(imei) then Accepted
    else Mismatch(ExpectedCheckDigit(imei))
  }

  // ---------------------------------------------------------------------------
  // Properties
  // ---------------------------------------------------------------------------

  /** Position i is doubled exactly when it is an odd distance from the last position. */
  lemma DoubledCountingFromRight(s: string, i: nat)
    requires i < |s|
    ensures IsDoubled(i, |s| % 2) <==> (|s| - 1 - i) % 2 == 1
    ensures !IsDoubled(|s| - 1, |s| % 2)
  {
  }

  /** The sum over positions 0 .. n-1 reads nothing beyond them. */
  lemma {:induction false} WeightedSumPrefix(s: string, t: string, n: nat, parity: int)
    requires n <= |s| && n <= |t|
    requires s[..n] == t[..n]
    ensures WeightedSum(s, n, parity) == WeightedSum(t, n, parity)
  {
    if n > 0 {
      assert s[n - 1] == s[..n][n - 1] == t[..n][n - 1] == t[n - 1];
      assert s[..n - 1] == s[..n][..n - 1] == t[..n][..n - 1] == t[..n - 1];
      WeightedSumPrefix(s, t, n - 1, parity);
    }
  }

  /** The full sum is the payload's sum plus the last value, which is never doubled. */
  lemma FullSumSplits(s: string)
    requires |s| > 0
    ensures WeightedSum(s, |s|, |s| % 2)
         == WeightedSum(s, |s| - 1, |s| % 2) + DigitValue(s[|s| - 1])
  {
    DoubledCountingFromRight(s, |s| - 1);
  }

  /** Last-digit arithmetic: w + d is a multiple of 10 exactly when d is (10 - w % 10) % 10. */
  lemma CheckDigitArithmetic(w: int, d: int)
    requires w >= 0 && 0 <= d <= 9
    ensures (w + d) % 10 == 0 <==> d == (10 - w % 10) % 10
  {
    var q := w / 10;
    var r := w % 10;
    assert w == 10 * q + r;
    assert w + d == 10 * q + (r + d);
    if r + d < 10 {
      assert (w + d) % 10 == r + d;
    } else {
      assert (w + d) % 10 == r + d - 10;
    }
  }

  /**
   * The two modes agree: a digit string of any positive length passes
   * `luhn_checksum` exactly when its last character is the one
   * `get_correct_checksum` computes.
   */
  lemma ModesAgree(s: string)
    requires |s| > 0 && AllDigits(s)
    ensures LuhnAccepts(s) <==> s[|s| - 1] == ExpectedCheckDigit(s)
  {
    var n := |s|;
    var w := WeightedSum(s, n - 1, n % 2);
    FullSumSplits(s);
    assert IsDigit(s[n - 1]);
    var d := DigitValue(s[n - 1]);
    CheckDigitArithmetic(w, d);
    var e := (10 - w % 10) % 10;
    assert ExpectedCheckDigit(s) == DigitChar(e);
    assert s[n - 1] == DigitChar(e) <==> d == e;
  }

  /** The check digit depends only on the payload: the last character is never read. */
  lemma CheckDigitIgnoresLast(s: string, c: char)
    requires |s| > 0
    ensures ExpectedCheckDigit(s[..|s| - 1] + [c]) == ExpectedCheckDigit(s)
  {
    var t := s[..|s| - 1] + [c];
    assert t[..|s| - 1] == s[..|s| - 1];
    WeightedSumPrefix(s, t, |s| - 1, |s| % 2);
  }

  /**
   * Round trip: replacing the last character by the computed check digit
   * yields a string `luhn_checksum` accepts, and that digit is the only one
   * that does.
   */
  lemma CompletionAccepted(s: string, d: char)
    requires |s| > 0 && AllDigits(s[..|s| - 1]) && IsDigit(d)
    ensures LuhnAccepts(s[..|s| - 1] + [d]) <==> d == ExpectedCheckDigit(s)
  {
    var t := s[..|s| - 1] + [d];
    assert AllDigits(t) by {
      forall i | 0 <= i < |t| ensures IsDigit(t[i]) {
        if i < |s| - 1 {
          assert t[i] == s[..|s| - 1][i];
        }
      }
    }
    ModesAgree(t);
    CheckDigitIgnoresLast(s, d);
    assert t[|t| - 1] == d;
  }

  /**
   * `validate_imei` on a 15-digit string: accepted exactly when the 15th
   * character is the computed check digit; otherwise that digit is reported.
   */
  lemma ValidateAgreesWithCheckDigit(s: string)
    requires |s| == 15 && AllDigits(s)
    ensures ValidateImei(s) == (if s[14] == ExpectedCheckDigit(s) then Accepted
                                else Mismatch(ExpectedCheckDigit(s)))
  {
    ModesAgree(s);
  }

  /**
   * Correcting a rejected 15-digit string with the reported digit makes
   * `validate_imei` accept it.
   */
  lemma CorrectionValidates(s: string)
    requires |s| == 15 && AllDigits(s)
    requires ValidateImei(s).Mismatch?
    ensures ValidateImei(s[..14] + [ValidateImei(s).expected]) == Accepted
  {
    assert AllDigits(s[..14]) by {
      forall i | 0 <= i < 14 ensures IsDigit(s[..14][i]) {
        assert s[..14][i] == s[i];
      }
    }
    CompletionAccepted(s, ExpectedCheckDigit(s));
  }

  // ---------------------------------------------------------------------------
  // The textbook formulation, for comparison
  // ---------------------------------------------------------------------------

  /**
   * Luhn's sum as ISO/IEC 7812-1 states it: from the rightmost character
   * leftwards, every second value doubled, starting with the rightmost when
   * `doubleLast` holds.
   */
  function RightToLeftSum(s: string, doubleLast: bool): int
    decreases |s|
  {
    if s == [] then 0
    else
      var d := DigitValue(s[|s| - 1]);
      (if doubleLast then Doubled(d) else d) + RightToLeftSum(s[..|s| - 1], !doubleLast)
  }

  /** The standard sum of a full string: its last character is not doubled. */
  function StandardSum(s: string): int {
    RightToLeftSum(s, false)
  }

  /** The left-to-right loop with parity `p` computes the right-to-left sum of the prefix. */
  lemma {:induction false} WeightedIsRightToLeft(s: string, n: nat, p: int)
    requires n <= |s| && (p == 0 || p == 1)
    ensures WeightedSum(s, n, p) == RightToLeftSum(s[..n], (n + 1) % 2 == p)
  {
    if n > 0 {
      WeightedIsRightToLeft(s, n - 1, p);
      var t := s[..n];
      assert t[..|t| - 1] == s[..n - 1];
      assert t[|t| - 1] == s[n - 1];
    }
  }

  // ---------------------------------------------------------------------------
  // Sample strings
  // ---------------------------------------------------------------------------

  /** 490154203237518 passes `validate_imei`; its check digit is 8. */
  lemma AcceptedSample()
    ensures ValidateImei("490154203237518") == Accepted
    ensures ExpectedCheckDigit("490154203237518") == '8'
  {
    var s := "490154203237518";
    assert WeightedSum(s, 5, 1) == 20;
    assert WeightedSum(s, 10, 1) == 37;
    assert WeightedSum(s, 14, 1) == 52;
    assert WeightedSum(s, 15, 1) == 60;
  }

  /** 490010108561989 fails `validate_imei`, which reports 2 as the expected digit. */
  lemma RejectedSample()
    ensures ValidateImei("490010108561989") == Mismatch('2')
    ensures ValidateImei("12345") == WrongLength
  {
    var s := "490010108561989";
    assert WeightedSum(s, 5, 1) == 14;
    assert WeightedSum(s, 10, 1) == 24;
    assert WeightedSum(s, 14, 1) == 48;
    assert WeightedSum(s, 15, 1) == 57;
  }

  // ---------------------------------------------------------------------------
  // The missing digit test
  // ---------------------------------------------------------------------------

  /**
   * `validate_imei` accepts a 15-character string that is not all digits:
   * '>' is '4' + 10, and at the undoubled position 0 it adds 10 to the sum of
   * the valid 490154203237518.
   */
  lemma NonDigitStringAccepted()
    ensures !AllDigits(">90154203237518")
    ensures ValidateImei(">90154203237518") == Accepted
  {
    var s := ">90154203237518";
    assert !IsDigit(s[0]);
    assert WeightedSum(s, 5, 1) == 30;
    assert WeightedSum(s, 10, 1) == 47;
    assert WeightedSum(s, 15, 1) == 70;
  }

  /**
   * `validate_imei` with the digit test its error message asks for ("15
   * digits"): a 15-character string is accepted exactly when it is all digits
   * and its last digit is the computed check digit.
   */
  function ValidateImeiDigits(imei: string): (v: Verdict)
    ensures |imei| != 15 <==> v == WrongLength
    ensures v == Accepted <==> |imei| == 15 && AllDigits(imei) && imei[14] == ExpectedCheckDigit(imei)
    ensures v.Mismatch? ==> AllDigits(imei) && v.expected == ExpectedCheckDigit(imei) != imei[14]
  {
    if |imei| != 15 then WrongLength
    else if !AllDigits(imei) then NotDigits
    else
      ModesAgree(imei);
      if LuhnAccepts(imei) then Accepted
      else Mismatch(ExpectedCheckDigit(imei))
  }
}
