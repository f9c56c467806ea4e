/** C strings as the firmware uses them: `strchr`, the terminator, `strtol` and `%d`. */
module CText {
  import opened Streams

  /** Position of the first `c`, or the length. */
  function IndexOf(s: string, c: char): (i: nat)
    ensures i <= |s| && (i < |s| ==> s[i] == c) && forall k :: 0 <= k < i ==> s[k] != c
  {
    if s == "" || s[0] == c then 0 else 1 + IndexOf(s[1..], c)
  }

  /** What C sees of a buffer: everything before the first NUL. */
  function CString(s: string): (t: string)
    ensures |t| <= |s| && '\0' !in t
  {
    s[..IndexOf(s, '\0')]
  }

  lemma CStringOfTerminated(s: string, rest: string)
    requires '\0' !in s
    ensures CString(s + "\0" + rest) == s
  {
    var t := s + "\0" + rest;
    assert t[|s|] == '\0' && forall k :: 0 <= k < |s| ==> t[k] == s[k];
  }

  /** `toupper`. */
  function UpperChar(c: char): char {
    if 'a' <= c <= 'z' then (c as int - 'a' as int + 'A' as int) as char else c
  }

  const LOWER := "abcdefghijklmnopqrstuvwxyz"
  const UPPER := "ABCDEFGHIJKLMNOPQRSTUVWXYZ"

  /** Small letters become their capitals, everything else stays. */
  lemma UpperLetters(c: char, k: nat)
    requires k < 26
    ensures UpperChar(LOWER[k]) == UPPER[k]
    ensures c !in LOWER ==> UpperChar(c) == c
  {
    SmallLetter(k);
    CapitalLetter(k);
    if 'a' <= c <= 'z' {
      SmallLetter(c as int - 97);
    }
  }

  lemma CapitalLetter(k: nat)
    requires k < 26
    ensures UPPER[k] as int == 65 + k
  {
  }

  lemma SmallLetter(k: nat)
    requires k < 26
    ensures LOWER[k] as int == 97 + k
  {
  }

  /** `toupper` of every character. */
  function ToUpper(s: string): (t: string)
    ensures |t| == |s| && forall i :: 0 <= i < |s| ==> t[i] == UpperChar(s[i])
  {
    seq(|s|, i requires 0 <= i < |s| => UpperChar(s[i]))
  }

  predicate IsDigit(c: char) { '0' <= c <= '9' }

  predicate IsSpace(c: char) {
    c == ' ' || c == '\t' || c == '\n' || c == '\r' || c == '\U{000B}' || c == '\U{000C}'
  }

  predicate AllDigits(s: string) {
    forall i :: 0 <= i < |s| ==> IsDigit(s[i])
  }

  function DigitVal(c: char): (d: nat)
    requires IsDigit(c)
    ensures d < 10
  {
    c as int - '0' as int
  }

  function DigitChar(d: nat): (c: char)
    requires d < 10
    ensures IsDigit(c) && DigitVal(c) == d
  {
    ('0' as int + d) as char
  }

  /** The value of a run of decimal digits. */
  function DecVal(s: string): nat
    requires AllDigits(s)
  {
    if s == "" then 0 else 10 * DecVal(s[..|s| - 1]) + DigitVal(s[|s| - 1])
  }

  /** `%u`. */
  function FmtU(v: nat): (s: string)
    ensures s != "" && AllDigits(s) && DecVal(s) == v
    ensures v < 1000 ==> |s| <= 3
    ensures v < 100 ==> |s| <= 2
    ensures v < 10 ==> |s| == 1
  {
    if v < 10 then
      var s := [DigitChar(v)];
      assert s[..0] == "";
      s
    else
      var s := FmtU(v / 10) + [DigitChar(v % 10)];
      assert s[..|s| - 1] == FmtU(v / 10);
      s
  }

  /** `%d`. */
  function FmtD(v: int): (s: string)
    ensures s != ""
  {
    if v < 0 then "-" + FmtU(-v) else FmtU(v)
  }

  /** Length of the longest prefix of digits. */
  function DigitRun(s: string): (n: nat)
    ensures n <= |s| && AllDigits(s[..n]) && (n < |s| ==> !IsDigit(s[n]))
  {
    if s == "" || !IsDigit(s[0]) then 0
    else
      var n := 1 + DigitRun(s[1..]);
      assert forall i :: 1 <= i < n ==> s[i] == s[1..][i - 1];
      n
  }

  function SpaceRun(s: string): (n: nat)
    ensures n <= |s|
  {
    if s == "" || !IsSpace(s[0]) then 0 else 1 + SpaceRun(s[1..])
  }

  /** A sign or none, then the number and where it ends; nothing if there is no digit. */
  function SignedNumber(s: string): (r: (int, nat))
    ensures r.1 <= |s|
  {
    var b := if s != "" && (s[0] == '+' || s[0] == '-') then 1 else 0;
    var n := DigitRun(s[b..]);
    if n == 0 then (0, 0)
    else
      var v: int := DecVal(s[b..][..n]);
      (if s[0] == '-' then -v else v, b + n)
  }

  /**
   `strtol(s, &end, 10)` as (value, end). The callers only ask whether the value lies in a small
   range, so saturation at LONG_MAX makes no difference to them and is not modelled.
   */
  function Strtol(s: string): (r: (int, nat))
    ensures r.1 <= |s|
  {
    var a := SpaceRun(s);
    var (v, n) := SignedNumber(s[a..]);
    if n == 0 then (0, 0) else (v, a + n)
  }

  lemma DecimalDigit(d: nat)
    requires d < 10
    ensures DigitChar(d) == "0123456789"[d]
  {
  }

  /** Blanks in front change nothing else. */
  lemma {:induction false} StrtolBlanks(blanks: string, text: string)
    requires forall i :: 0 <= i < |blanks| ==> IsSpace(blanks[i])
    requires text == "" || !IsSpace(text[0])
    ensures Strtol(blanks + text) ==
            (Strtol(text).0, if Strtol(text).1 == 0 then 0 else |blanks| + Strtol(text).1)
  {
    SpacesCounted(blanks, text);
    CutBehind(blanks, text);
    assert text[SpaceRun(text)..] == text;
  }

  lemma {:induction false} SpacesCounted(blanks: string, text: string)
    requires forall i :: 0 <= i < |blanks| ==> IsSpace(blanks[i])
    requires text == "" || !IsSpace(text[0])
    ensures SpaceRun(blanks + text) == |blanks|
  {
    if blanks != "" {
      assert (blanks + text)[1..] == blanks[1..] + text;
      SpacesCounted(blanks[1..], text);
    } else {
      Nothing(text);
    }
  }

  /** What cannot go on a number ends it. */
  lemma StrtolStops(number: string, rest: string)
    requires rest != "" && !IsDigit(rest[0]) && !IsSpace(rest[0]) && rest[0] != '+' && rest[0] != '-'
    ensures Strtol(number + rest) == Strtol(number)
  {
    SpacesStop(number, rest);
    var a := SpaceRun(number);
    assert (number + rest)[a..] == number[a..] + rest;
    SignedStops(number[a..], rest);
  }

  lemma {:induction false} SpacesStop(number: string, rest: string)
    requires rest != "" && !IsSpace(rest[0])
    ensures SpaceRun(number + rest) == SpaceRun(number)
  {
    if number != "" {
      assert (number + rest)[1..] == number[1..] + rest;
      SpacesStop(number[1..], rest);
    } else {
      Nothing(rest);
    }
  }

  lemma SignedStops(text: string, rest: string)
    requires rest != "" && !IsDigit(rest[0]) && rest[0] != '+' && rest[0] != '-'
    ensures SignedNumber(text + rest) == SignedNumber(text)
  {
    var b := if text != "" && (text[0] == '+' || text[0] == '-') then 1 else 0;
    DigitsStop(text[b..], rest);
    assert (text + rest)[b..] == text[b..] + rest;
    var n := DigitRun(text[b..]);
    assert (text[b..] + rest)[..n] == text[b..][..n];
  }

  lemma {:induction false} DigitsStop(text: string, rest: string)
    requires rest != "" && !IsDigit(rest[0])
    ensures DigitRun(text + rest) == DigitRun(text)
  {
    if text != "" {
      assert (text + rest)[1..] == text[1..] + rest;
      DigitsStop(text[1..], rest);
    } else {
      Nothing(rest);
    }
  }

  /** Without a digit behind blanks and sign there is no number. */
  lemma StrtolEnds(s: string)
    ensures var n := Strtol(s).1; if n == 0 then Strtol(s).0 == 0 else IsDigit(s[n - 1]) && (n < |s| ==> !IsDigit(s[n]))
  {
    var text := s[SpaceRun(s)..];
    var b := if text != "" && (text[0] == '+' || text[0] == '-') then 1 else 0;
    var n := DigitRun(text[b..]);
    if n > 0 {
      assert text[b..][..n][n - 1] == text[b + n - 1];
    }
  }

  /** No blanks in front: a sign or none, then a run of digits and something else. */
  lemma StrtolAt(s: string, sign: string, text: string, digits: string)
    requires sign == "-" || sign == "+" || sign == ""
    requires digits != "" && |sign| < |s| && s[|sign|..] == text && s[0] == (if sign == "" then digits else sign)[0]
    requires AllDigits(digits) && DigitRun(text) == |digits| && text[..|digits|] == digits
    ensures Strtol(s) == (if sign == "-" then -(DecVal(digits) as int) else DecVal(digits), |sign| + |digits|)
  {
    assert IsDigit(digits[0]) && !IsSpace(s[0]);
    assert SpaceRun(s) == 0 && s[0..] == s;
  }

  lemma SignInFront(sign: string, text: string)
    requires text != ""
    ensures (sign + text)[|sign|..] == text && |sign| < |sign + text|
    ensures (sign + text)[0] == if sign == "" then text[0] else sign[0]
  {
  }

  lemma StrtolSigned(sign: string, digits: string, rest: string)
    requires sign == "-" || sign == "+" || sign == ""
    requires digits != "" && AllDigits(digits) && (rest == "" || !IsDigit(rest[0]))
    ensures Strtol(sign + (digits + rest)) ==
            (if sign == "-" then -(DecVal(digits) as int) else DecVal(digits), |sign| + |digits|)
  {
    var text := digits + rest;
    DigitRunOf(digits, rest);
    CutBehind(digits, rest);
    SignInFront(sign, text);
    StrtolAt(sign + text, sign, text, digits);
  }

  /** A printed number is read back, with whatever follows it. */
  lemma StrtolPrinted(v: int, rest: string)
    requires rest == "" || !IsDigit(rest[0])
    ensures Strtol(FmtD(v) + rest) == (v, |FmtD(v)|)
  {
    if v < 0 {
      PartsRead("-", FmtU(-v), rest);
    } else {
      PartsRead("", FmtU(v), rest);
      Nothing(FmtU(v));
    }
  }

  lemma PartsRead(sign: string, digits: string, rest: string)
    requires (sign == "-" || sign == "") && digits != "" && AllDigits(digits) && (rest == "" || !IsDigit(rest[0]))
    ensures Strtol(sign + digits + rest) ==
            (if sign == "-" then -(DecVal(digits) as int) else DecVal(digits), |sign + digits|)
  {
    Regroup(sign, digits, rest);
    StrtolSigned(sign, digits, rest);
  }

  lemma StrtolWhole(sign: string, digits: string)
    requires (sign == "-" || sign == "+" || sign == "") && digits != "" && AllDigits(digits)
    ensures Strtol(sign + digits) ==
            (if sign == "-" then -(DecVal(digits) as int) else DecVal(digits), |sign| + |digits|)
  {
    StrtolSigned(sign, digits, "");
    Nothing(digits);
  }

  lemma {:induction false} DigitRunOf(digits: string, rest: string)
    requires AllDigits(digits) && (rest == "" || !IsDigit(rest[0]))
    ensures DigitRun(digits + rest) == |digits|
  {
    var s := digits + rest;
    if digits != "" {
      assert s[1..] == digits[1..] + rest;
      DigitRunOf(digits[1..], rest);
    } else {
      assert s == rest;
    }
  }
}
