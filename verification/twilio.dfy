/** The pure parts of the SMS service: the text of the one-time-password message and the
    normalisation of a phone number towards the `+`-prefixed international form of ITU-T
    Recommendation E.164 (clause 6), with India's country code 91 as the default. Sending the
    SMS is outside the model. */
module Twilio {
  import opened Wrappers
  import opened Text

  const SmsPrefix: string := "Your RelishApprovals verification code is: "
  const SmsSuffix: string := ". Valid for 5 minutes."
  const IndiaCode: string := "91"

  /** The body of the verification SMS for `otp`. */
  function SmsBody(otp: string): (body: string)
    ensures StartsWith(body, SmsPrefix) && EndsWith(body, SmsSuffix)
    ensures |body| == |SmsPrefix| + |otp| + |SmsSuffix|
    ensures body[|SmsPrefix|..|SmsPrefix| + |otp|] == otp
  {
    SmsPrefix + otp + SmsSuffix
  }

  /** Reads the code back out of a verification SMS, if the text has that shape. */
  function SmsCode(body: string): (otp: Option<string>)
    ensures otp.Some? ==> SmsBody(otp.value) == body
  {
    if |body| >= |SmsPrefix| + |SmsSuffix| && StartsWith(body, SmsPrefix) && EndsWith(body, SmsSuffix)
    then
      var otp := body[|SmsPrefix|..|body| - |SmsSuffix|];
      assert SmsPrefix + otp + SmsSuffix == body;
      Some(otp)
    else None
  }

  /** The code can always be recovered from the message that carries it. */
  lemma SmsRoundTrip(otp: string)
    ensures SmsCode(SmsBody(otp)) == Some(otp)
  {
    var body := SmsBody(otp);
    assert body[|SmsPrefix|..|body| - |SmsSuffix|] == otp;
  }

  /** `s.replace(/\D/g, '')`: the decimal digits of `s`, in order. */
  function Digits(s: string): (d: string)
    ensures AllDigits(d) && |d| <= |s|
  {
    if s == [] then []
    else if IsDigit(s[0]) then [s[0]] + Digits(s[1..])
    else Digits(s[1..])
  }

  /** `formatPhoneNumber(s)`. */
  function FormatPhoneNumber(s: string): (r: string)
    ensures |r| >= 1 && r[0] == '+' && AllDigits(r[1..])
    ensures r[1..] == Digits(s) || r[1..] == IndiaCode + Digits(s)
    ensures StartsWith(r[1..], IndiaCode)
    ensures StartsWith(Digits(s), IndiaCode) <==> r[1..] == Digits(s)
  {
    var cleaned := Digits(s);
    if !StartsWith(cleaned, IndiaCode) then
      var r := "+" + IndiaCode + cleaned;
      assert r[1..] == IndiaCode + cleaned;
      assert r[1..][..2] == IndiaCode;
      r
    else
      "+" + cleaned
  }

  /* ---------- properties ---------- */

  /** Digit extraction distributes over concatenation: the result keeps the input's order. */
  lemma {:induction false} DigitsAppend(a: string, b: string)
    ensures Digits(a + b) == Digits(a) + Digits(b)
    decreases |a|
  {
    if a == [] {
      assert a + b == b;
    } else {
      assert (a + b)[0] == a[0];
      assert (a + b)[1..] == a[1..] + b;
      DigitsAppend(a[1..], b);
    }
  }

  /** A string of digits is its own digit extraction, and only such strings are. */
  lemma {:induction false} DigitsFixedPoint(s: string)
    ensures Digits(s) == s <==> AllDigits(s)
    decreases |s|
  {
    if s != [] {
      DigitsFixedPoint(s[1..]);
      if IsDigit(s[0]) {
        assert AllDigits(s) <==> AllDigits(s[1..]) by {
          if AllDigits(s[1..]) {
            forall i | 0 <= i < |s| ensures IsDigit(s[i]) {
              if i > 0 { assert s[i] == s[1..][i - 1]; }
            }
          }
        }
        assert Digits(s) == s <==> Digits(s[1..]) == s[1..] by {
          if Digits(s) == s { assert Digits(s)[1..] == Digits(s[1..]); }
          if Digits(s[1..]) == s[1..] { assert [s[0]] + s[1..] == s; }
        }
      } else {
        assert |Digits(s)| < |s| by { assert |Digits(s[1..])| <= |s[1..]|; }
      }
    }
  }

  /** A character that is not a digit contributes nothing. */
  lemma DigitsSkipsNonDigit(c: char, s: string)
    requires !IsDigit(c)
    ensures Digits([c] + s) == Digits(s)
  {
    assert ([c] + s)[1..] == s;
  }

  /** Formatting an already formatted number changes nothing. */
  lemma FormatIdempotent(s: string)
    ensures FormatPhoneNumber(FormatPhoneNumber(s)) == FormatPhoneNumber(s)
  {
    var r := FormatPhoneNumber(s);
    assert r == [r[0]] + r[1..];
    DigitsSkipsNonDigit('+', r[1..]);
    DigitsFixedPoint(r[1..]);
    assert Digits(r) == r[1..];
    assert "+" + r[1..] == r;
  }

  /** The digits after the '+' are the input's digits, with "91" in front exactly when the
      input's digits do not already start with it. */
  lemma FormatDigits(s: string)
    ensures Digits(FormatPhoneNumber(s)) == FormatPhoneNumber(s)[1..]
    ensures !StartsWith(Digits(s), IndiaCode) ==> FormatPhoneNumber(s) == "+91" + Digits(s)
    ensures StartsWith(Digits(s), IndiaCode) ==> FormatPhoneNumber(s) == "+" + Digits(s)
  {
    var r := FormatPhoneNumber(s);
    assert r == [r[0]] + r[1..];
    DigitsSkipsNonDigit('+', r[1..]);
    DigitsFixedPoint(r[1..]);
  }

  /** An input without digits becomes the bare country code. */
  lemma FormatNoDigits(s: string)
    requires forall i | 0 <= i < |s| :: !IsDigit(s[i])
    ensures FormatPhoneNumber(s) == "+91"
  {
    DigitsNoneFound(s);
  }

  lemma {:induction false} DigitsNoneFound(s: string)
    requires forall i | 0 <= i < |s| :: !IsDigit(s[i])
    ensures Digits(s) == []
    decreases |s|
  {
    if s != [] {
      assert forall i | 0 <= i < |s[1..]| :: !IsDigit(s[1..][i]) by {
        forall i | 0 <= i < |s[1..]| ensures !IsDigit(s[1..][i]) { assert s[1..][i] == s[i + 1]; }
      }
      DigitsNoneFound(s[1..]);
    }
  }

  /** A digit string that begins with 91 is taken as already carrying the country code, even
      when it is a ten-digit national number that merely starts with those digits. */
  lemma LeadingNinetyOneKept(s: string)
    requires AllDigits(s) && StartsWith(s, IndiaCode)
    ensures FormatPhoneNumber(s) == "+" + s
  {
    DigitsFixedPoint(s);
  }

  /* ---------- ten-digit national numbers ---------- */

  const NationalLength: nat := 10

  /** As written, a ten-digit national number that happens to begin with 91 loses its
      country code: the result has eleven characters where "+91" and the number make
      thirteen. */
  lemma NationalNumberLosesCode(s: string)
    requires AllDigits(s) && |s| == NationalLength && StartsWith(s, IndiaCode)
    ensures FormatPhoneNumber(s) != "+91" + s
  {
    LeadingNinetyOneKept(s);
  }

  /** The country-code rule with ten-digit national numbers recognised by their length:
      those always get +91, and every other digit string is treated as before. */
  function FormatPhoneNumberNational(s: string): (r: string)
    ensures |r| >= 1 && r[0] == '+' && AllDigits(r[1..])
    ensures r[1..] == Digits(s) || r[1..] == IndiaCode + Digits(s)
  {
    var cleaned := Digits(s);
    if |cleaned| == NationalLength then
      var r := "+" + IndiaCode + cleaned;
      assert r[1..] == IndiaCode + cleaned;
      r
    else FormatPhoneNumber(s)
  }

  /** Every ten-digit national number, whatever its leading digits, becomes +91 followed by
      the number; a twelve-digit number that already starts with 91 is kept as it is. */
  lemma NationalNumbersGetCode(s: string)
    ensures |Digits(s)| == NationalLength ==> FormatPhoneNumberNational(s) == "+91" + Digits(s)
    ensures (|Digits(s)| == NationalLength + 2 && StartsWith(Digits(s), IndiaCode)) ==>
              FormatPhoneNumberNational(s) == "+" + Digits(s)
  {
    FormatDigits(s);
  }
}
