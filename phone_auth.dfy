/**
 * The server-side phone helpers of src/lib/auth.ts: normalisation to an
 * E.164-like `+digits` form and its validity test.
 */
module PhoneAuth {
  import opened Strings

  /** `/^\+\d{10,15}$/.test(s)` */
  predicate E164Shape(s: string) {
    |s| >= 1 && s[0] == '+' && AllDigits(s[1..]) && 10 <= |s| - 1 <= 15
  }

  /**
   * `formatPhoneNumber`: the digits of `phone`, with `+1` in front of ten
   * of them (a US number without country code) and `+` otherwise. The
   * output is `+` followed by digits only, the input's digits last.
   */
  function FormatPhoneNumber(phone: string): (r: string)
    ensures |r| >= 1 && r[0] == '+' && AllDigits(r[1..])
    ensures |r| >= |Digits(phone)| + 1 && r[|r| - |Digits(phone)|..] == Digits(phone)
  {
    var digits := Digits(phone);
    if |digits| == 11 && digits[0] == '1' then "+" + digits
    else if |digits| == 10 then "+1" + digits
    else "+" + digits
  }

  /** `isValidPhoneNumber` */
  predicate IsValidPhoneNumber(phone: string) {
    E164Shape(FormatPhoneNumber(phone))
  }

  /** What follows the `+`: the input's digits, with a `1` added exactly when there are ten. */
  lemma FormattedDigits(phone: string)
    ensures var r := FormatPhoneNumber(phone);
      r == "+" + Digits(r)
      && Digits(r) == (if |Digits(phone)| == 10 then "1" + Digits(phone) else Digits(phone))
  {
    var d := Digits(phone);
    var tail := if |d| == 10 then "1" + d else d;
    assert FormatPhoneNumber(phone) == "+" + tail;
    assert AllDigits(tail) by {
      if |d| == 10 {
        assert forall k :: 0 < k < |tail| ==> tail[k] == d[k - 1];
      }
    }
    PlusDigits(tail);
  }

  lemma PlusDigits(t: string)
    requires AllDigits(t)
    ensures Digits("+" + t) == t
  {
    DigitsAppend("+", t);
    DigitsOfNoDigit("+");
    DigitsOfAllDigits(t);
  }

  /** The non-digits of the input are irrelevant: only its digit sequence decides the result. */
  lemma OnlyDigitsMatter(p: string, q: string)
    requires Digits(p) == Digits(q)
    ensures FormatPhoneNumber(p) == FormatPhoneNumber(q)
    ensures FormatPhoneNumber(p) == FormatPhoneNumber(Digits(p))
  {
    DigitsIdempotent(p);
  }

  /** Formatting an already formatted number changes nothing. */
  lemma FormatIdempotent(phone: string)
    ensures FormatPhoneNumber(FormatPhoneNumber(phone)) == FormatPhoneNumber(phone)
  {
    var r := FormatPhoneNumber(phone);
    FormattedDigits(phone);
    FormattedDigits(r);
  }

  /** A number is valid exactly when it has 10 to 15 digits, whatever else it contains. */
  lemma ValidIff(phone: string)
    ensures IsValidPhoneNumber(phone) <==> 10 <= |Digits(phone)| <= 15
  {
    FormattedDigits(phone);
  }

  /** In particular every ten-digit US number without country code is valid. */
  lemma TenDigitsValid(phone: string)
    requires |Digits(phone)| == 10
    ensures IsValidPhoneNumber(phone)
    ensures FormatPhoneNumber(phone) == "+1" + Digits(phone)
  {
    ValidIff(phone);
  }
}
