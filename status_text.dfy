/**
 * The one status line whose text is computed: `"Match Return: $matchResult"`,
 * where Kotlin renders the integer score in decimal with a leading `-` when it
 * is negative. The parser below shows that the score can be read back from the
 * line.
 */
module StatusText {

  datatype Option<T> = None | Some(value: T)

  const MatchPrefix := "Match Return: "

  // The fixed status lines sent to the caller.
  const OpenOkText := "Open Device OK"
  const PermissionText := "Request Permission"
  const CloseText := "Close Device"
  const DetachedText := "Device Detached - Closed"
  const OpenFailText := "Open Device Fail"
  const PlaceText := "Place Finger"
  const LiftText := "Lift Finger"
  const CaptureOkText := "Capture Image OK"
  const CaptureFailText := "Capture Image Fail"
  const GenerateOkText := "Generate Template OK"
  const GenerateFailText := "Generate Template Fail"
  const EnrollOkText := "Enroll Template OK"
  const EnrollFailText := "Enroll Template Fail"
  const TimeOutText := "Time Out"

  /** Every status line other than the match line. */
  const Vocabulary: set<string> := {
    OpenOkText, PermissionText, CloseText, DetachedText, OpenFailText, PlaceText, LiftText,
    CaptureOkText, CaptureFailText, GenerateOkText, GenerateFailText, EnrollOkText, EnrollFailText,
    TimeOutText
  }

  predicate IsDigit(c: char)
  {
    '0' <= c <= '9'
  }

  predicate AllDigits(s: string)
  {
    forall i :: 0 <= i < |s| ==> IsDigit(s[i])
  }

  function Digit(d: nat): (c: char)
    requires d < 10
    ensures IsDigit(c) && c as int - '0' as int == d
  {
    ('0' as int + d) as char
  }

  function DigitValue(c: char): nat
    requires IsDigit(c)
  {
    c as int - '0' as int
  }

  /** Decimal digits of `n`, most significant first, without leading zeros. */
  function NatToString(n: nat): (s: string)
    ensures s != [] && AllDigits(s)
    ensures |s| > 1 ==> s[0] != '0'
    decreases n
  {
    if n < 10 then [Digit(n)] else NatToString(n / 10) + [Digit(n % 10)]
  }

  /** The value of a string of decimal digits. */
  function DigitsValue(s: string): nat
    requires AllDigits(s)
    decreases |s|
  {
    if s == [] then 0 else DigitsValue(s[..|s| - 1]) * 10 + DigitValue(s[|s| - 1])
  }

  /** Kotlin's `Int.toString()`. */
  function IntToString(i: int): (s: string)
  {
    if i < 0 then "-" + NatToString(-i) else NatToString(i)
  }

  /** Reads back an optional `-` followed by at least one decimal digit. */
  function ParseInt(s: string): Option<int>
  {
    if |s| > 1 && s[0] == '-' && AllDigits(s[1..]) then Some(0 - DigitsValue(s[1..]) as int)
    else if s != [] && AllDigits(s) then Some(DigitsValue(s))
    else None
  }

  /** The status line the wrapper emits after matching a generated template. */
  function MatchLine(score: int): string
  {
    MatchPrefix + IntToString(score)
  }

  lemma {:induction false} NatRoundTrip(n: nat)
    ensures DigitsValue(NatToString(n)) == n
  {
    if n >= 10 {
      NatRoundTrip(n / 10);
      var s := NatToString(n);
      assert s[..|s| - 1] == NatToString(n / 10);
    }
  }

  lemma IntRoundTrip(i: int)
    ensures ParseInt(IntToString(i)) == Some(i)
  {
    var s := IntToString(i);
    if i < 0 {
      NatRoundTrip(-i);
      assert s[1..] == NatToString(-i);
    } else {
      NatRoundTrip(i);
      assert IsDigit(s[0]);
    }
  }

  /** The score is recoverable from the status line: distinct scores give distinct lines. */
  lemma MatchLineInjective(a: int, b: int)
    requires MatchLine(a) == MatchLine(b)
    ensures a == b
  {
    var n := |MatchPrefix|;
    assert MatchLine(a)[n..] == IntToString(a);
    assert MatchLine(b)[n..] == IntToString(b);
    IntRoundTrip(a);
    IntRoundTrip(b);
  }

  /** The match line can never be mistaken for one of the fixed status texts. */
  lemma MatchLineIsDistinct(score: int)
    ensures MatchLine(score) !in Vocabulary
  {
    assert MatchLine(score)[0] == 'M';
  }
}
