/**
 Hex helpers of app/src/at_fmt.c, and the printf conversions the firmware uses.

 Text is a `string`; a byte of a text stream is a `char` with a code below 256.
 Bytes of addresses and keys are numbers (`uint8`).
 */
module AtFmt {
  import opened Wrappers

  type uint8 = n: nat | n < 256

  // ------------------------------------------------------------- hex digits

  /** `hex_nibble`: the value of a hex digit of either case, -1 for anything else. */
  function HexNibble(c: char): (d: int)
    ensures -1 <= d < 16
  {
    if '0' <= c <= '9' then c as int - '0' as int
    else if 'A' <= c <= 'F' then c as int - 'A' as int + 10
    else if 'a' <= c <= 'f' then c as int - 'a' as int + 10
    else -1
  }

  /** The digit printed by `%X`. */
  function HexDigit(d: nat): (c: char)
    requires d < 16
    ensures HexNibble(c) == d && !('a' <= c <= 'f')
  {
    if d < 10 then ('0' as int + d) as char else ('A' as int + (d - 10)) as char
  }

  const UPPER_DIGITS := "0123456789ABCDEF"
  const LOWER_DIGITS := "0123456789abcdef"

  /** The digits of both cases, and no others; `%X` prints the upper case. */
  lemma DigitsExactly(c: char, d: nat)
    requires d < 16
    ensures HexNibble(c) == d <==> c == UPPER_DIGITS[d] || c == LOWER_DIGITS[d]
    ensures HexDigit(d) == UPPER_DIGITS[d]
  {
    assert UPPER_DIGITS[d] as int == if d < 10 then 48 + d else 55 + d;
    assert LOWER_DIGITS[d] as int == if d < 10 then 48 + d else 87 + d;
  }

  /** Hex digits only, as tested with `isxdigit`. */
  predicate AllHex(s: string) {
    forall i :: 0 <= i < |s| ==> HexNibble(s[i]) >= 0
  }

  /** What `%X` prints: hex digits without lower case. */
  predicate UpperHex(s: string) {
    forall i :: 0 <= i < |s| ==> HexNibble(s[i]) >= 0 && !('a' <= s[i] <= 'f')
  }

  function Pow16(n: nat): (p: nat)
    ensures p >= 1
  {
    if n == 0 then 1 else 16 * Pow16(n - 1)
  }

  /** `(v >> b) & 1`. */
  function BitOf(v: nat, b: nat): (bit: nat)
    ensures bit < 2
  {
    if b == 0 then v % 2 else BitOf(v / 2, b - 1)
  }

  /** `%0<width>X`: at least `width` digits, more when the value needs them. */
  function FmtX(width: nat, v: nat): (s: string)
    ensures |s| >= width && |s| >= 1 && UpperHex(s)
    decreases v, width
  {
    if v < 16 && width <= 1 then [HexDigit(v)]
    else FmtX(if width == 0 then 0 else width - 1, v / 16) + [HexDigit(v % 16)]
  }

  /** The number a hex text stands for; `None` if some character is not a hex digit. */
  function HexVal(s: string): Option<nat> {
    if s == "" then Some(0)
    else
      var d := HexNibble(s[|s| - 1]);
      match HexVal(s[..|s| - 1])
      case None => None
      case Some(v) => if d < 0 then None else Some(16 * v + d)
  }

  lemma {:induction false} HexValSnoc(front: string, d: nat)
    requires d < 16 && HexVal(front).Some?
    ensures HexVal(front + [HexDigit(d)]) == Some(16 * HexVal(front).value + d)
  {
    var s := front + [HexDigit(d)];
    assert s[..|s| - 1] == front;
  }

  lemma HexValOne(d: nat)
    requires d < 16
    ensures HexVal([HexDigit(d)]) == Some(d)
  {
    HexValSnoc("", d);
    assert "" + [HexDigit(d)] == [HexDigit(d)];
  }

  /** The printed number is read back, whatever the width. */
  lemma {:induction false} HexValOfFmtX(width: nat, v: nat)
    ensures HexVal(FmtX(width, v)) == Some(v)
    decreases v, width
  {
    if v < 16 && width <= 1 {
      HexValOne(v);
    } else {
      var w := if width == 0 then 0 else width - 1;
      HexValOfFmtX(w, v / 16);
      HexValSnoc(FmtX(w, v / 16), v % 16);
    }
  }

  /** `%0<width>X` keeps its width exactly for the values that fit it. */
  lemma {:induction false} FmtXWidth(width: nat, v: nat)
    requires width >= 1
    ensures |FmtX(width, v)| == width <==> v < Pow16(width)
    decreases v, width
  {
    if v < 16 && width <= 1 {
      assert Pow16(width) == 16 * Pow16(0);
    } else if width == 1 {
      assert Pow16(1) == 16 * Pow16(0);
      assert |FmtX(0, v / 16)| >= 1;
    } else {
      FmtXWidth(width - 1, v / 16);
    }
  }

  lemma PowersOf16()
    ensures Pow16(1) == 0x10 && Pow16(2) == 0x100 && Pow16(4) == 0x1_0000 && Pow16(8) == 0x1_0000_0000
  {
    assert Pow16(1) == 16 * Pow16(0);
    assert Pow16(2) == 16 * Pow16(1);
    assert Pow16(3) == 16 * Pow16(2);
    assert Pow16(4) == 16 * Pow16(3);
    assert Pow16(5) == 16 * Pow16(4);
    assert Pow16(6) == 16 * Pow16(5);
    assert Pow16(7) == 16 * Pow16(6);
  }

  /** A text is a number exactly when all its characters are hex digits, and then it is below 16^length. */
  lemma {:induction false} HexValDefined(s: string)
    ensures HexVal(s).Some? <==> AllHex(s)
    ensures HexVal(s).Some? ==> HexVal(s).value < Pow16(|s|)
  {
    if s != "" {
      HexValDefined(s[..|s| - 1]);
    }
  }

  /** Upper-case hex of its own width is what printing its value gives: the canonical form is unique. */
  lemma {:induction false} FmtXOfHexVal(s: string)
    requires s != "" && UpperHex(s)
    ensures HexVal(s).Some? && FmtX(|s|, HexVal(s).value) == s
  {
    HexValDefined(s);
    var front, c := s[..|s| - 1], s[|s| - 1];
    assert s == front + [c];
    if |s| > 1 {
      FmtXOfHexVal(front);
      OneDigitMore(|front|, HexVal(front).value, HexNibble(c));
    } else {
      HexValOne(HexNibble(c));
    }
    DigitBack(c);
  }

  lemma DigitBack(c: char)
    requires HexNibble(c) >= 0 && !('a' <= c <= 'f')
    ensures HexDigit(HexNibble(c)) == c
  {
  }

  lemma OneDigitMore(width: nat, v: nat, d: nat)
    requires d < 16 && width > 0
    ensures FmtX(width + 1, 16 * v + d) == FmtX(width, v) + [HexDigit(d)]
  {
    assert (16 * v + d) / 16 == v && (16 * v + d) % 16 == d;
  }

  /** `at_parse_hex_n`: 1 to 8 hex digits. */
  function ParseHexN(s: string): Option<nat> {
    if |s| == 0 || |s| > 8 then None else HexVal(s)
  }

  /** A number is taken exactly if it is 1 to 8 hex digits, and then it fits 32 bits. */
  lemma ParseHexNExactly(s: string, v: nat)
    ensures ParseHexN(s).Some? <==> 1 <= |s| <= 8 && AllHex(s)
    ensures ParseHexN(s) == Some(v) ==> HexVal(s) == Some(v) && v < 0x1_0000_0000
  {
    HexValDefined(s);
    PowersOf16();
    if |s| <= 8 {
      Pow16Monotone(|s|, 8);
    }
  }

  /** The digit loop of `at_parse_hex_n` over the first `len` characters; the shifts never leave 32 bits. */
  method AtParseHexN(s: string, len: nat) returns (out: Option<nat>)
    requires len <= |s|
    ensures out == ParseHexN(s[..len])
    ensures out.Some? ==> out.value < 0x1_0000_0000
  {
    if len == 0 || len > 8 {
      return None;
    }
    var v := 0;
    PowersOf16();
    for i := 0 to len
      invariant HexVal(s[..i]) == Some(v)
    {
      assert s[..i + 1][..i] == s[..i];
      var d := HexNibble(s[i]);
      if d < 0 {
        HexValDefined(s[..len]);
        return None;
      }
      HexValDefined(s[..i + 1]);
      assert v * 16 + d < 0x1_0000_0000 by { Pow16Monotone(i + 1, 8); }
      v := v * 16 + d;
    }
    HexValDefined(s[..len]);
    Pow16Monotone(len, 8);
    out := Some(v);
  }

  lemma {:induction false} Pow16Monotone(a: nat, b: nat)
    requires a <= b
    ensures Pow16(a) <= Pow16(b)
    decreases b
  {
    if a < b {
      Pow16Monotone(a, b - 1);
    }
  }

  // ------------------------------------------- addresses, least significant byte first

  /** `%02X` of one byte. */
  function Hex2(b: uint8): (s: string)
    ensures |s| == 2
  {
    [HexDigit(b / 16), HexDigit(b % 16)]
  }

  /** `%02X` of every byte, the last byte first. */
  function HexRev(lsbFirst: seq<uint8>): (s: string)
    ensures |s| == 2 * |lsbFirst|
  {
    if lsbFirst == [] then "" else HexRev(lsbFirst[1..]) + Hex2(lsbFirst[0])
  }

  /** The inverse: 2 digits a byte, most significant digit first. */
  function ParseHexRev(s: string): Option<seq<uint8>> {
    if s == "" then Some([])
    else if |s| == 1 then None
    else
      var hi, lo := HexNibble(s[|s| - 2]), HexNibble(s[|s| - 1]);
      match ParseHexRev(s[..|s| - 2])
      case None => None
      case Some(rest) => if hi < 0 || lo < 0 then None else Some([hi * 16 + lo] + rest)
  }

  lemma {:induction false} ParseHexRevSnoc(front: string, b: uint8)
    requires ParseHexRev(front).Some?
    ensures ParseHexRev(front + Hex2(b)) == Some([b] + ParseHexRev(front).value)
  {
    var s := front + Hex2(b);
    assert s[..|s| - 2] == front && s[|s| - 2] == HexDigit(b / 16) && s[|s| - 1] == HexDigit(b % 16);
  }

  lemma {:induction false} HexRevUpper(b: seq<uint8>)
    ensures UpperHex(HexRev(b))
  {
    if b != [] {
      HexRevUpper(b[1..]);
    }
  }

  /** An address printed by `at_hex_rev` has 2 upper-case digits a byte and is read back unchanged. */
  lemma {:induction false} HexRevRoundTrip(b: seq<uint8>)
    ensures |HexRev(b)| == 2 * |b| && UpperHex(HexRev(b))
    ensures ParseHexRev(HexRev(b)) == Some(b)
  {
    HexRevUpper(b);
    if b != [] {
      HexRevRoundTrip(b[1..]);
      ParseHexRevSnoc(HexRev(b[1..]), b[0]);
      assert b == [b[0]] + b[1..];
    }
  }

  lemma Hex2Value(b: uint8)
    ensures HexVal(Hex2(b)) == Some(b) && UpperHex(Hex2(b))
  {
    HexValOne(b / 16);
    HexValSnoc([HexDigit(b / 16)], b % 16);
    assert [HexDigit(b / 16)] + [HexDigit(b % 16)] == Hex2(b);
  }

  /** The most significant byte is printed first. */
  lemma {:induction false} HexRevOrder(b: seq<uint8>, k: nat)
    requires k < |b|
    ensures HexVal(HexRev(b)[2 * k..2 * k + 2]) == Some(b[|b| - 1 - k])
    decreases |b|
  {
    var front := HexRev(b[1..]);
    if k == |b| - 1 {
      assert HexRev(b)[2 * k..2 * k + 2] == Hex2(b[0]);
      Hex2Value(b[0]);
    } else {
      HexRevOrder(b[1..], k);
      assert HexRev(b)[2 * k..2 * k + 2] == front[2 * k..2 * k + 2];
    }
  }

  /** Pair `k` of the text, from the front, is byte `k` from the back. */
  predicate PairsAre(s: string, b: seq<uint8>) {
    |s| == 2 * |b| && forall k :: 0 <= k < |b| ==> HexVal(s[2 * k..2 * k + 2]) == Some(b[|b| - 1 - k])
  }

  lemma PairOfDigits(s: string, v: uint8)
    requires |s| == 2
    ensures HexVal(s) == Some(v) <==>
            HexNibble(s[0]) >= 0 && HexNibble(s[1]) >= 0 && v == 16 * HexNibble(s[0]) + HexNibble(s[1])
  {
    assert s[..1] == [s[0]] && s[..1][..0] == "";
    assert HexVal("") == Some(0);
  }

  lemma PairsAreSnoc(s: string, b: seq<uint8>)
    requires |s| == 2 * |b| > 0
    ensures PairsAre(s, b) <==>
            PairsAre(s[..|s| - 2], b[1..]) && HexVal(s[|s| - 2..]) == Some(b[0])
  {
    var n, front, rest := |b|, s[..|s| - 2], b[1..];
    assert forall k :: 0 <= k < n - 1 ==>
             front[2 * k..2 * k + 2] == s[2 * k..2 * k + 2] && rest[n - 2 - k] == b[n - 1 - k];
    assert s[2 * (n - 1)..2 * (n - 1) + 2] == s[|s| - 2..];
    if PairsAre(front, rest) && HexVal(s[|s| - 2..]) == Some(b[0]) {
      forall k | 0 <= k < n ensures HexVal(s[2 * k..2 * k + 2]) == Some(b[n - 1 - k]) {
        if k < n - 1 {
          assert HexVal(front[2 * k..2 * k + 2]) == Some(rest[n - 2 - k]);
        }
      }
    }
  }

  /** A text is this address exactly if its pairs are, from the last byte to the first. */
  lemma {:induction false} ParseHexRevExactly(s: string, b: seq<uint8>)
    ensures ParseHexRev(s) == Some(b) <==> PairsAre(s, b)
    decreases |s|
  {
    if |s| >= 2 {
      var front := s[..|s| - 2];
      if b != [] {
        ParseHexRevExactly(front, b[1..]);
        PairOfDigits(s[|s| - 2..], b[0]);
        if |s| == 2 * |b| {
          PairsAreSnoc(s, b);
        }
        assert b == [b[0]] + b[1..];
      }
      if ParseHexRev(s).Some? {
        var rest := ParseHexRev(front).value;
        ParseHexRevExactly(front, rest);
      }
    }
  }

  /** A text is an address exactly if it is pairs of hex digits. */
  lemma {:induction false} ParseHexRevAccepts(s: string)
    ensures ParseHexRev(s).Some? <==> |s| % 2 == 0 && AllHex(s)
    ensures ParseHexRev(s).Some? ==> |s| == 2 * |ParseHexRev(s).value|
    decreases |s|
  {
    if |s| >= 2 {
      ParseHexRevAccepts(s[..|s| - 2]);
      assert s == s[..|s| - 2] + [s[|s| - 2]] + [s[|s| - 1]];
    }
  }

  /** `at_hex_rev`: prints into `out`, which has room for the terminator. */
  method AtHexRev(out: array<char>, lsbFirst: seq<uint8>)
    requires out.Length >= 2 * |lsbFirst| + 1
    modifies out
    ensures out[..2 * |lsbFirst|] == HexRev(lsbFirst) && out[2 * |lsbFirst|] == '\0'
    ensures forall k :: 2 * |lsbFirst| < k < out.Length ==> out[k] == old(out[k])
  {
    var n := |lsbFirst|;
    assert lsbFirst[n..] == [];
    for i := 0 to n
      invariant out[..2 * i] == HexRev(lsbFirst[n - i..])
      invariant forall k :: 2 * n < k < out.Length ==> out[k] == old(out[k])
    {
      var b := lsbFirst[n - 1 - i];
      ghost var printed := out[..2 * i];
      assert lsbFirst[n - (i + 1)..] == [b] + lsbFirst[n - i..];
      out[2 * i], out[2 * i + 1] := HexDigit(b / 16), HexDigit(b % 16);
      assert out[..2 * (i + 1)] == printed + Hex2(b);
    }
    assert lsbFirst[0..] == lsbFirst;
    out[2 * n] := '\0';
  }

  /** One more pair. */
  lemma ParsePair(s: string, i: nat)
    requires 2 * i + 2 <= |s|
    ensures var hi, lo := HexNibble(s[2 * i]), HexNibble(s[2 * i + 1]);
            ParseHexRev(s[..2 * i + 2]) ==
            match ParseHexRev(s[..2 * i])
            case None => None
            case Some(rest) => if hi < 0 || lo < 0 then None else Some([hi * 16 + lo] + rest)
  {
    var t := s[..2 * i + 2];
    assert t[..|t| - 2] == s[..2 * i] && t[|t| - 2] == s[2 * i] && t[|t| - 1] == s[2 * i + 1];
  }

  /** A bad pair makes the whole text bad. */
  lemma BadPair(s: string, n: nat, i: nat)
    requires i < n && 2 * n <= |s| && ParseHexRev(s[..2 * i + 2]).None?
    ensures ParseHexRev(s[..2 * n]).None?
  {
    assert s[..2 * n][..2 * (i + 1)] == s[..2 * i + 2];
    ParseHexRevStops(s[..2 * n], i + 1);
  }

  /** `at_parse_hex_rev`: fills the bytes from the last one down; on an error the text is not an address. */
  method AtParseHexRev(s: string, lsbFirst: array<uint8>) returns (ok: bool)
    requires |s| >= 2 * lsbFirst.Length
    modifies lsbFirst
    ensures ok <==> ParseHexRev(s[..2 * lsbFirst.Length]).Some?
    ensures ok ==> ParseHexRev(s[..2 * lsbFirst.Length]) == Some(lsbFirst[..])
  {
    var n := lsbFirst.Length;
    assert lsbFirst[n..] == [];
    for i := 0 to n
      invariant ParseHexRev(s[..2 * i]) == Some(lsbFirst[n - i..])
    {
      ghost var done := lsbFirst[n - i..];
      var hi, lo := HexNibble(s[2 * i]), HexNibble(s[2 * i + 1]);
      ParsePair(s, i);
      if hi < 0 || lo < 0 {
        BadPair(s, n, i);
        return false;
      }
      lsbFirst[n - 1 - i] := hi * 16 + lo;
      assert lsbFirst[n - (i + 1)..] == [hi * 16 + lo] + done;
    }
    ok := true;
  }

  /** A bad pair makes every longer text bad. */
  lemma {:induction false} ParseHexRevStops(s: string, i: nat)
    requires 2 * i <= |s| && |s| % 2 == 0 && ParseHexRev(s[..2 * i]).None?
    ensures ParseHexRev(s).None?
    decreases |s|
  {
    if 2 * i < |s| {
      assert s[..|s| - 2][..2 * i] == s[..2 * i];
      ParseHexRevStops(s[..|s| - 2], i);
    } else {
      assert s[..2 * i] == s;
    }
  }

  function Reversed<T>(s: seq<T>): seq<T> {
    seq(|s|, i requires 0 <= i < |s| => s[|s| - 1 - i])
  }

  /** `at_reverse`: swaps in place; the bytes above `n` stay. */
  method AtReverse(buf: array<uint8>, n: nat)
    requires n <= buf.Length
    modifies buf
    ensures buf[..n] == Reversed(old(buf[..n])) && buf[n..] == old(buf[n..])
  {
    for i := 0 to n / 2
      invariant forall k :: 0 <= k < n ==>
                  buf[k] == if k < i || k >= n - i then old(buf[n - 1 - k]) else old(buf[k])
      invariant buf[n..] == old(buf[n..])
    {
      var t := buf[i];
      buf[i] := buf[n - 1 - i];
      buf[n - 1 - i] := t;
    }
  }
}
