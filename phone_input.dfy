/**
 * The as-you-type formatter of the sign-in phone field
 * (src/components/auth/phone-input.tsx): at most ten digits, shown
 * progressively as `(XXX) XXX-XXXX`.
 */
module PhoneInput {
  import opened Strings

  /** `digits.slice(0, 10)` */
  function FirstTen(digits: string): (r: string)
    ensures |r| <= 10 && r <= digits
    ensures |digits| <= 10 ==> r == digits
  {
    if |digits| <= 10 then digits else digits[..10]
  }

  /** `formatPhoneNumber` */
  function FormatPhoneNumber(value: string): (r: string) {
    var limited := FirstTen(Digits(value));
    if |limited| == 0 then ""
    else if |limited| <= 3 then "(" + limited
    else if |limited| <= 6 then "(" + limited[..3] + ") " + limited[3..]
    else "(" + limited[..3] + ") " + limited[3..6] + "-" + limited[6..]
  }

  /** `getDigits` */
  function GetDigits(value: string): (r: string)
    ensures AllDigits(r) && |r| <= |value|
  {
    Digits(value)
  }

  /** `isValidPhone` */
  predicate IsValidPhone(value: string) {
    |GetDigits(value)| == 10
  }

  /** A digit-free prefix or suffix leaves the digits of a string alone. */
  lemma PunctuationAround(p: string, x: string, q: string)
    requires forall k :: 0 <= k < |p| ==> !IsDigit(p[k])
    requires forall k :: 0 <= k < |q| ==> !IsDigit(q[k])
    ensures Digits(p + x) == Digits(x) && Digits(x + q) == Digits(x)
  {
    DigitsOfNoDigit(p);
    DigitsOfNoDigit(q);
    DigitsAppend(p, x);
    DigitsAppend(x, q);
  }

  /** The punctuation of the US layout contributes no digit. */
  lemma PunctuatedDigits(a: string, b: string, c: string)
    ensures Digits("(" + a + ") " + b + "-" + c) == Digits(a) + Digits(b) + Digits(c)
  {
    var s1 := "(" + a;
    var s2 := s1 + ") ";
    var s3 := s2 + b;
    var s4 := s3 + "-";
    PunctuationAround("(", a, ") ");
    PunctuationAround("(", s1, ") ");
    PunctuationAround("(", s3, "-");
    DigitsAppend(s2, b);
    DigitsAppend(s4, c);
  }

  lemma PartialDigits(a: string, b: string)
    ensures Digits("(" + a + ") " + b) == Digits(a) + Digits(b)
    ensures Digits("(" + a) == Digits(a)
  {
    var s1 := "(" + a;
    var s2 := s1 + ") ";
    PunctuationAround("(", a, ") ");
    PunctuationAround("(", s1, ") ");
    DigitsAppend(s2, b);
  }

  /** The field shows exactly the first ten digits typed, whatever else was typed. */
  lemma FormattedDigits(value: string)
    ensures Digits(FormatPhoneNumber(value)) == FirstTen(Digits(value))
  {
    var limited := FirstTen(Digits(value));
    var n := |limited|;
    DigitsOfAllDigits(limited);
    if 1 <= n <= 3 {
      PartialDigits(limited, "");
    } else if 4 <= n <= 6 {
      var a, b := limited[..3], limited[3..];
      assert limited == a + b;
      PartialDigits(a, b);
      DigitsOfAllDigits(a);
      DigitsOfAllDigits(b);
    } else if n >= 7 {
      var a, b, c := limited[..3], limited[3..6], limited[6..];
      assert limited == a + b + c;
      PunctuatedDigits(a, b, c);
      DigitsOfAllDigits(a);
      DigitsOfAllDigits(b);
      DigitsOfAllDigits(c);
    }
  }

  /**
   * The layout by number of digits kept: nothing for none, an opening
   * parenthesis from the first, `) ` after the third, `-` after the sixth;
   * so never more than 14 characters.
   */
  lemma FormatShape(value: string)
    ensures var n := |FirstTen(Digits(value))|;
      var r := FormatPhoneNumber(value);
      (r == [] <==> n == 0)
      && |r| == (if n == 0 then 0 else if n <= 3 then n + 1 else if n <= 6 then n + 3 else n + 4)
      && (n >= 1 ==> r[0] == '(')
      && (n >= 4 ==> r[4] == ')' && r[5] == ' ')
      && (n >= 7 ==> r[9] == '-')
      && |r| <= 14
  {
  }

  /** Re-formatting the field's own text changes nothing. */
  lemma FormatIdempotent(value: string)
    ensures FormatPhoneNumber(FormatPhoneNumber(value)) == FormatPhoneNumber(value)
  {
    FormattedDigits(value);
  }

  /**
   * The submit check accepts the formatted field exactly when at least ten
   * digits were typed; on raw text it wants exactly ten.
   */
  lemma FormattedValid(value: string)
    ensures IsValidPhone(FormatPhoneNumber(value)) <==> |Digits(value)| >= 10
    ensures IsValidPhone(value) ==> FormatPhoneNumber(value) == FormatPhoneNumber(FormatPhoneNumber(value))
  {
    FormattedDigits(value);
    FormatIdempotent(value);
  }
}
