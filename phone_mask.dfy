/** The phone input mask: on every input event the field's digits are
    re-formatted as a Brazilian mobile or landline number. */
module PhoneMask {
  import opened Text

  /** The replacement applied to a string of digits. Each regular expression
      matches at position 0 of an all-digit string, its last group is greedy
      and the unmatched tail is kept, which gives these cases:
      11 or more digits: "(DD) DDDDD-DDDD" followed by the remaining digits;
      7 to 10 digits: "(DD) DDDD-" followed by the rest;
      3 to 6 digits: "(DD) " followed by the rest;
      fewer than 3: unchanged. */
  function FormatDigits(d: string): string {
    if |d| >= 11 then "(" + d[..2] + ") " + d[2..7] + "-" + d[7..11] + d[11..]
    else if |d| >= 7 then "(" + d[..2] + ") " + d[2..6] + "-" + d[6..]
    else if |d| >= 3 then "(" + d[..2] + ") " + d[2..]
    else d
  }

  /** The value the input listener writes back into the phone field. */
  function MaskPhone(input: string): string {
    FormatDigits(Digits(input))
  }

  /** Digits are unaffected by a separator between two parts. */
  lemma DigitsAcrossSeparator(x: string, sep: string, y: string)
    requires forall i :: 0 <= i < |sep| ==> !IsDigit(sep[i])
    requires forall i :: 0 <= i < |y| ==> IsDigit(y[i])
    ensures Digits(x + sep + y) == Digits(x) + y
  {
    calc {
      Digits(x + sep + y);
    == { DigitsAppend(x + sep, y); }
      Digits(x + sep) + Digits(y);
    == { DigitsAppend(x, sep); DigitsOfNoDigits(sep); }
      Digits(x) + [] + Digits(y);
    == { assert Digits(x) + [] == Digits(x); DigitsOfDigitString(y); }
      Digits(x) + y;
    }
  }

  /** The "(DD) " head of every formatted value of 3 or more digits. */
  lemma DigitsOfAreaCode(d: string)
    requires |d| >= 2 && forall i :: 0 <= i < |d| ==> IsDigit(d[i])
    ensures Digits("(" + d[..2]) == d[..2]
  {
    DigitsAcrossSeparator([], "(", d[..2]);
    assert [] + "(" + d[..2] == "(" + d[..2];
  }

  lemma FormatKeepsDigitsMobile(d: string)
    requires |d| >= 11 && forall i :: 0 <= i < |d| ==> IsDigit(d[i])
    ensures Digits(FormatDigits(d)) == d
  {
    var head := "(" + d[..2];
    DigitsOfAreaCode(d);
    DigitsAcrossSeparator(head, ") ", d[2..7]);
    DigitsAcrossSeparator(head + ") " + d[2..7], "-", d[7..11]);
    DigitsAcrossSeparator(head + ") " + d[2..7] + "-" + d[7..11], [], d[11..]);
    assert head + ") " + d[2..7] + "-" + d[7..11] + [] == head + ") " + d[2..7] + "-" + d[7..11];
    assert d[..2] + d[2..7] + d[7..11] + d[11..] == d;
  }

  lemma FormatKeepsDigitsLandline(d: string)
    requires 7 <= |d| < 11 && forall i :: 0 <= i < |d| ==> IsDigit(d[i])
    ensures Digits(FormatDigits(d)) == d
  {
    var head := "(" + d[..2];
    DigitsOfAreaCode(d);
    DigitsAcrossSeparator(head, ") ", d[2..6]);
    DigitsAcrossSeparator(head + ") " + d[2..6], "-", d[6..]);
    assert d[..2] + d[2..6] + d[6..] == d;
  }

  lemma FormatKeepsDigitsShort(d: string)
    requires 3 <= |d| < 7 && forall i :: 0 <= i < |d| ==> IsDigit(d[i])
    ensures Digits(FormatDigits(d)) == d
  {
    DigitsOfAreaCode(d);
    DigitsAcrossSeparator("(" + d[..2], ") ", d[2..]);
    assert d[..2] + d[2..] == d;
  }

  /** Formatting adds only separators: removing the non-digits from the
      output gives back the digit string. */
  lemma FormatKeepsDigits(d: string)
    requires forall i :: 0 <= i < |d| ==> IsDigit(d[i])
    ensures Digits(FormatDigits(d)) == d
  {
    if |d| >= 11 {
      FormatKeepsDigitsMobile(d);
    } else if |d| >= 7 {
      FormatKeepsDigitsLandline(d);
    } else if |d| >= 3 {
      FormatKeepsDigitsShort(d);
    } else {
      DigitsOfDigitString(d);
    }
  }

  /** The mask never adds or loses a digit: the digits of the masked value
      are the digits of the typed value, in order. */
  lemma MaskKeepsDigits(input: string)
    ensures Digits(MaskPhone(input)) == Digits(input)
  {
    FormatKeepsDigits(Digits(input));
  }

  /** Masking an already masked value changes nothing, so repeated input
      events are harmless. */
  lemma MaskIdempotent(input: string)
    ensures MaskPhone(MaskPhone(input)) == MaskPhone(input)
  {
    MaskKeepsDigits(input);
  }

  /** The "(DD) DDDDD-DDDD" layout. */
  predicate IsMobileLayout(s: string) {
    |s| == 15 && s[0] == '(' && s[3] == ')' && s[4] == ' ' && s[10] == '-'
    && forall i :: 0 <= i < 15 && i !in {0, 3, 4, 10} ==> IsDigit(s[i])
  }

  /** A value with exactly 11 digits is shown as "(DD) DDDDD-DDDD", with the
      digits in their typed order. */
  lemma ElevenDigitsMobileLayout(input: string)
    requires |Digits(input)| == 11
    ensures IsMobileLayout(MaskPhone(input))
    ensures var d := Digits(input);
            MaskPhone(input) == "(" + d[..2] + ") " + d[2..7] + "-" + d[7..]
  {
  }

  /** Fewer than 3 digits are left as the bare digits. */
  lemma ShortInputIsBareDigits(input: string)
    requires |Digits(input)| < 3
    ensures MaskPhone(input) == Digits(input)
  {
  }
}
