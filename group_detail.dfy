/**
 * The member-list display helper of src/components/groups/group-detail.tsx:
 * a stored number with ten digits, or eleven starting with the US country
 * code, is shown as `(XXX) XXX-XXXX`; anything else as stored.
 */
module GroupDetail {
  import opened Strings
  import PhoneInput

  /** `formatPhoneNumber` of the group page. */
  function DisplayPhone(phone: string): (r: string) {
    var digits := Digits(phone);
    if |digits| == 11 && StartsWith(digits, "1") then
      "(" + digits[1..4] + ") " + digits[4..7] + "-" + digits[7..]
    else if |digits| == 10 then
      "(" + digits[..3] + ") " + digits[3..6] + "-" + digits[6..]
    else phone
  }

  /** Whether the helper reformats: ten digits, or eleven led by `1`. */
  predicate UsNumber(phone: string) {
    var digits := Digits(phone);
    |digits| == 10 || (|digits| == 11 && digits[0] == '1')
  }

  /** The layout `(XXX) XXX-XXXX` of ten digits. */
  function UsLayout(ten: string): (r: string)
    requires |ten| == 10
  {
    "(" + ten[..3] + ") " + ten[3..6] + "-" + ten[6..]
  }

  lemma UsLayoutShape(ten: string)
    requires |ten| == 10 && AllDigits(ten)
    ensures var r := UsLayout(ten);
      |r| == 14 && r[0] == '(' && r[4] == ')' && r[5] == ' ' && r[9] == '-' && Digits(r) == ten
  {
    var a, b, c := ten[..3], ten[3..6], ten[6..];
    assert ten == a + b + c;
    PhoneInput.PunctuatedDigits(a, b, c);
    DigitsOfAllDigits(a);
    DigitsOfAllDigits(b);
    DigitsOfAllDigits(c);
  }

  /**
   * A US number is shown in 14 characters, `(XXX) XXX-XXXX`, carrying its
   * last ten digits (the country code dropped); any other input is shown
   * unchanged.
   */
  lemma DisplayShape(phone: string)
    ensures var r := DisplayPhone(phone);
      var digits := Digits(phone);
      if UsNumber(phone) then
        |r| == 14 && r[0] == '(' && r[4] == ')' && r[5] == ' ' && r[9] == '-'
        && Digits(r) == digits[|digits| - 10..]
      else r == phone
  {
    var digits := Digits(phone);
    if UsNumber(phone) {
      var ten := digits[|digits| - 10..];
      if |digits| == 11 {
        assert digits[1..4] == ten[..3] && digits[4..7] == ten[3..6] && digits[7..] == ten[6..];
      }
      assert DisplayPhone(phone) == UsLayout(ten);
      UsLayoutShape(ten);
    }
  }

  /** The sign-up field and the display agree on ten-digit numbers. */
  lemma AgreesWithField(phone: string)
    requires |Digits(phone)| == 10
    ensures DisplayPhone(phone) == PhoneInput.FormatPhoneNumber(phone)
  {
  }
}
