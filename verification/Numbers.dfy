// std::to_string and the std::stoi / std::stoll family ([string.conversions] of
// ISO C++17), which RuntimeConfig and the message timestamps rely on.
module Numbers {
  import opened Wrappers

  const INT_MIN := -0x8000_0000
  const INT_MAX := 0x7fff_ffff
  const LONG_LONG_MIN := -0x8000_0000_0000_0000
  const LONG_LONG_MAX := 0x7fff_ffff_ffff_ffff

  predicate IsDigit(c: char) {
    '0' <= c <= '9'
  }

  // isspace in the "C" locale.
  predicate IsSpace(c: char) {
    c == ' ' || 9 <= c as int <= 13
  }

  predicate AllDigits(s: string) {
    forall i | 0 <= i < |s| :: IsDigit(s[i])
  }

  // ---------------------------------------------------------------- to_string

  function DigitChar(n: nat): (c: char)
    requires n < 10
    ensures IsDigit(c) && c as int - '0' as int == n
  {
    ('0' as int + n) as char
  }

  function Digits(n: nat): (ds: string)
    ensures ds != "" && AllDigits(ds)
  {
    if n < 10 then [DigitChar(n)] else Digits(n / 10) + [DigitChar(n % 10)]
  }

  function ToText(n: int): string {
    if n < 0 then "-" + Digits(-n) else Digits(n)
  }

  // --------------------------------------------------------------------- stoi

  function Value(ds: string): nat
    requires AllDigits(ds)
  {
    if ds == "" then 0 else 10 * Value(ds[..|ds| - 1]) + (ds[|ds| - 1] as int - '0' as int)
  }

  lemma {:induction false} ValueOfDigits(n: nat)
    ensures Value(Digits(n)) == n
  {
    if n >= 10 {
      ValueOfDigits(n / 10);
      assert Digits(n)[..|Digits(n)| - 1] == Digits(n / 10);
    }
  }

  // The longest prefix of digits.
  function DigitPrefix(s: string): (ds: string)
    ensures AllDigits(ds) && ds <= s
  {
    if s == "" || !IsDigit(s[0]) then "" else [s[0]] + DigitPrefix(s[1..])
  }

  // None stands for invalid_argument (no digits) and out_of_range.
  function Checked(negative: bool, ds: string, lo: int, hi: int): Option<int>
    requires AllDigits(ds)
  {
    var v: int := if negative then -(Value(ds) as int) else Value(ds);
    if ds == "" || v < lo || v > hi then None else Some(v)
  }

  // An integer read from the front of the text: blanks, an optional sign, then as many
  // digits as there are.
  function ReadInt(s: string, lo: int, hi: int): (r: Option<int>)
    ensures r.Some? ==> lo <= r.value <= hi
  {
    if s != "" && IsSpace(s[0]) then ReadInt(s[1..], lo, hi)
    else if s != "" && (s[0] == '-' || s[0] == '+') then Checked(s[0] == '-', DigitPrefix(s[1..]), lo, hi)
    else Checked(false, DigitPrefix(s), lo, hi)
  }

  function Stoi(s: string): Option<int> {
    ReadInt(s, INT_MIN, INT_MAX)
  }

  function Stoll(s: string): Option<int> {
    ReadInt(s, LONG_LONG_MIN, LONG_LONG_MAX)
  }

  lemma {:induction false} DigitPrefixOf(ds: string, tail: string)
    requires AllDigits(ds) && (tail == "" || !IsDigit(tail[0]))
    ensures DigitPrefix(ds + tail) == ds
  {
    if ds == "" {
      assert ds + tail == tail;
    } else {
      assert (ds + tail)[0] == ds[0];
      assert (ds + tail)[1..] == ds[1..] + tail;
      DigitPrefixOf(ds[1..], tail);
    }
  }

  lemma ReadSigned(sign: string, ds: string, tail: string, lo: int, hi: int)
    requires sign == "" || sign == "+" || sign == "-"
    requires ds != "" && AllDigits(ds) && (tail == "" || !IsDigit(tail[0]))
    ensures ReadInt(sign + ds + tail, lo, hi) == Checked(sign == "-", ds, lo, hi)
  {
    hide Checked, Value, DigitPrefix;
    var s := sign + ds + tail;
    DigitPrefixOf(ds, tail);
    if sign == "" {
      assert s == ds + tail;
      assert s[0] == ds[0] && IsDigit(ds[0]);
    } else {
      assert s[0] == sign[0];
      assert s[1..] == ds + tail;
    }
  }

  // Blanks before and anything but a digit after a number are ignored.
  lemma {:induction false} ReadPadded(pad: string, sign: string, ds: string, tail: string, lo: int, hi: int)
    requires forall i | 0 <= i < |pad| :: IsSpace(pad[i])
    requires sign == "" || sign == "+" || sign == "-"
    requires ds != "" && AllDigits(ds) && (tail == "" || !IsDigit(tail[0]))
    ensures ReadInt(pad + (sign + ds + tail), lo, hi) == Checked(sign == "-", ds, lo, hi)
  {
    hide Checked, Value, DigitPrefix;
    var number := sign + ds + tail;
    if pad == "" {
      assert pad + number == number;
      ReadSigned(sign, ds, tail, lo, hi);
    } else {
      ReadPadded(pad[1..], sign, ds, tail, lo, hi);
      assert (pad + number)[0] == pad[0];
      assert (pad + number)[1..] == pad[1..] + number;
    }
  }

  // Reading back what to_string wrote, whatever follows it: the number, or out of range.
  lemma ReadToText(n: int, tail: string, lo: int, hi: int)
    requires tail == "" || !IsDigit(tail[0])
    ensures ReadInt(ToText(n) + tail, lo, hi) == if lo <= n <= hi then Some(n) else None
  {
    hide ReadInt, Digits, DigitPrefix, Value;
    var m := if n < 0 then -n else n;
    var sign := if n < 0 then "-" else "";
    ValueOfDigits(m);
    ReadSigned(sign, Digits(m), tail, lo, hi);
    assert sign + Digits(m) + tail == ToText(n) + tail;
  }

  // The text of a number is the decimal one: no zero in front, so that every such text is
  // the text of its value.
  lemma {:induction false} DigitsOfValue(ds: string)
    requires ds != "" && AllDigits(ds) && (|ds| == 1 || ds[0] != '0')
    ensures Digits(Value(ds)) == ds
    ensures |ds| > 1 ==> Value(ds) >= 10
  {
    if |ds| > 1 {
      DigitsOfValue(ds[..|ds| - 1]);
      assert ds == ds[..|ds| - 1] + [ds[|ds| - 1]];
      assert Value(ds[..|ds| - 1]) > 0;
    }
  }

  lemma {:induction false} NoLeadingZero(n: nat)
    ensures |Digits(n)| == 1 || Digits(n)[0] != '0'
    ensures n > 0 ==> Digits(n)[0] != '0'
    ensures Digits(0) == "0" && Digits(10) == "10"
  {
    if n >= 10 { NoLeadingZero(n / 10); }
  }

  // Text without a digit is no number.
  lemma {:induction false} NoDigitsNoNumber(s: string, lo: int, hi: int)
    requires forall i | 0 <= i < |s| :: !IsDigit(s[i])
    ensures ReadInt(s, lo, hi) == None
  {
    if s != "" { NoDigitsNoNumber(s[1..], lo, hi); }
  }

  // A number's text consists of digits and perhaps a minus sign.
  lemma ToTextChars(n: int)
    ensures ToText(n) != "" && forall i | 0 <= i < |ToText(n)| :: IsDigit(ToText(n)[i]) || ToText(n)[i] == '-'
  {
  }
}
