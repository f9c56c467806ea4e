/** From a frame to the prompt object on the host, app/src/zb_msg.c. */
module Printer {
  import opened Wrappers
  import opened AtFmt
  import opened CText
  import opened TextFields
  import opened Prompts
  import opened Streams
  import UartTx
  import LineReader

  const RX_SHOW_MAX := 128

  type int8 = n: int | -128 <= n < 128
  type uint16 = n: nat | n < 0x1_0000

  /** A byte of a payload is a character below 256. */
  type Payload = s: string | forall k :: 0 <= k < |s| ==> s[k] as int < 256

  /** What `data_indication` shows of a frame: `eui` is the sender's, if the stack knows it. */
  datatype Frame = Frame(
    eui: Option<seq<uint8>>, src: uint16, profile: uint16, dstEp: uint8, srcEp: uint8, cluster: uint16,
    payload: Payload, rssi: int8, lqi: uint8)

  predicate Valid(f: Frame) {
    f.eui.Some? ==> |f.eui.value| == 8
  }

  // ------------------------------------------------------------ the firmware

  /** `snprintf` into `size` bytes. */
  function Snprintf(size: nat, s: string): string
    requires size > 0
  {
    if |s| < size then s else s[..size - 1]
  }

  /** `eui_part`. */
  function EuiPart(f: Frame): string {
    match f.eui
    case None => ""
    case Some(b) => HexRev(b) + ","
  }

  function TailText(f: Frame, show: bool): string {
    if show then Snprintf(16, "," + FmtD(f.rssi) + "," + FmtU(f.lqi)) else ""
  }

  /** `%02X` of every byte. */
  function HexText(payload: Payload): string {
    if payload == "" then "" else Hex2(payload[0] as int) + HexText(payload[1..])
  }

  /** The six numbers of `print_rx`, `%04X,%04X,%02X,%02X,%04X,%02X`. */
  function RxNumbers(f: Frame, len: nat): seq<string> {
    [FmtX(4, f.src), FmtX(4, f.profile), FmtX(2, f.dstEp), FmtX(2, f.srcEp), FmtX(4, f.cluster), FmtX(2, len)]
  }

  function Shown(f: Frame): Payload {
    if |f.payload| > RX_SHOW_MAX then f.payload[..RX_SHOW_MAX] else f.payload
  }

  function RxHeadText(f: Frame): string {
    Snprintf(64, "RX:" + EuiPart(f) + Join(RxNumbers(f, |Shown(f)|)) + ":")
  }

  /** The line `print_rx` prints. */
  function RxLine(f: Frame, hex: bool, showTail: bool): string {
    RxHeadText(f) + (if hex then HexText(Shown(f)) else Shown(f)) + TailText(f, showTail)
  }

  /** The word `data_indication` passes on. */
  type Kind = s: string | s == "UCAST" || s == "BCAST" witness "UCAST"

  function TextHeadText(kind: Kind, f: Frame): string {
    Snprintf(40, kind + ":" + EuiPart(f) + FmtX(2, |f.payload|) + "=")
  }

  /** The line `print_text` prints. */
  function TextLine(kind: Kind, f: Frame, showTail: bool): string {
    TextHeadText(kind, f) + f.payload + TailText(f, showTail)
  }

  // ------------------------------------------------------------ the host reads the pieces

  predicate GroupsOf(fields: seq<string>, widths: seq<nat>) {
    |fields| == |widths| && forall i :: 0 <= i < |fields| ==> |fields[i]| == widths[i] && UpperHex(fields[i])
  }

  lemma {:induction false} HexGroupsOfJoin(fields: seq<string>, widths: seq<nat>, rest: string)
    requires fields != [] && GroupsOf(fields, widths)
    ensures HexGroups(widths, Join(fields) + rest) == Some((fields, rest))
  {
    var line, w := Join(fields) + rest, widths[0];
    if |fields| == 1 {
      CutBehind(fields[0], rest);
      assert fields == [fields[0]];
    } else {
      var more := Join(fields[1..]) + rest;
      CommaBehind(fields[0], Join(fields[1..]), rest);
      HexGroupsOfJoin(fields[1..], widths[1..], rest);
      assert [fields[0]] + fields[1..] == fields;
    }
  }

  lemma CommaBehind(a: string, b: string, c: string)
    ensures var line := a + "," + b + c;
            |line| > |a| && line[..|a|] == a && line[|a|] == ',' && line[|a| + 1..] == b + c
  {
  }

  /** A field of another width in front makes the whole pattern fail. */
  lemma WrongFirstWidth(widths: seq<nat>, field: string, rest: string)
    requires |widths| > 0 && |field| < widths[0] && rest != "" && HexNibble(rest[0]) < 0
    ensures HexGroups(widths, field + rest) == None
  {
    var line := field + rest;
    assert line[|field|] == rest[0];
    if |line| >= widths[0] {
      assert line[..widths[0]][|field|] == rest[0];
    }
  }

  lemma {:induction false} FromHexOfHexText(payload: Payload)
    ensures |HexText(payload)| == 2 * |payload| && FromHex(HexText(payload)) == Some(payload)
  {
    if payload != "" {
      var b: uint8 := payload[0] as int;
      FromHexOfHexText(payload[1..]);
      PairBehind(b, HexText(payload[1..]));
      assert b / 16 * 16 + b % 16 == b;
      assert payload == [payload[0]] + payload[1..];
    }
  }

  lemma PairBehind(b: uint8, rest: string)
    ensures var s := Hex2(b) + rest;
            && |s| >= 2 && s[0] == HexDigit(b / 16) && s[1] == HexDigit(b % 16) && s[2..] == rest && !IsSpace(s[0])
  {
  }

  /** The tail prompt object. */
  function SignalOf(f: Frame, show: bool): Signal {
    if show then Some((f.rssi, f.lqi)) else None
  }

  /** `,%d,%u` fits its buffer and is read back. */
  lemma TailRead(f: Frame, show: bool)
    ensures Tail(TailText(f, show)) == Some(SignalOf(f, show))
    ensures show ==> TailText(f, show) == "," + FmtD(f.rssi) + "," + FmtU(f.lqi)
  {
    if show {
      TailNumbers(f.rssi, f.lqi);
    }
  }

  lemma TailNumbers(rssi: int, lqi: nat)
    requires -1000 < rssi < 1000 && lqi < 1000
    ensures var text := "," + FmtD(rssi) + "," + FmtU(lqi); |text| < 16 && Tail(text) == Some(Some((rssi, lqi)))
  {
    if rssi < 0 {
      TailOfMinus(FmtU(-rssi), FmtU(lqi));
    } else {
      TailOfPlus(FmtU(rssi), FmtU(lqi));
    }
  }

  lemma RunBeforeComma(a: string, b: string)
    requires AllDigits(a)
    ensures DigitRun(a + "," + b) == |a|
  {
    DigitRunOf(a, "," + b);
    Regroup(a, ",", b);
  }

  lemma NumbersAt(s: string, a: string, b: string)
    requires a != "" && AllDigits(a) && DigitRun(s) == |a| < |s|
    requires s[..|a|] == a && s[|a|] == ',' && s[|a| + 1..] == b && LastNumber(b).Some?
    ensures TwoNumbers(s) == Some((DecVal(a), LastNumber(b).value))
  {
  }

  lemma NumbersRead(a: string, b: string)
    requires a != "" && AllDigits(a) && b != "" && AllDigits(b)
    ensures TwoNumbers(a + "," + b) == Some((DecVal(a), DecVal(b)))
  {
    LastRead(b);
    CommaBetween(a, b);
    RunBeforeComma(a, b);
    NumbersAt(a + "," + b, a, b);
  }

  lemma LastRead(b: string)
    requires b != "" && AllDigits(b)
    ensures LastNumber(b) == Some(DecVal(b))
  {
    DigitRunOf(b, "");
    NothingBehind(b);
  }

  lemma NothingBehind(s: string)
    ensures s + "" == s && s[..|s|] == s && s[|s|..] == ""
  {
  }

  lemma CommaBetween(a: string, b: string)
    ensures var s := a + "," + b; s[..|a|] == a && s[|a|] == ',' && s[|a| + 1..] == b
  {
  }

  lemma TailAt(s: string, neg: bool, numbers: string, x: nat, y: nat)
    requires |s| > 1 && s[0] == ',' && (s[1] == '-' <==> neg) && s[if neg then 2 else 1..] == numbers
    requires TwoNumbers(numbers) == Some((x, y))
    ensures Tail(s) == Some(Some((if neg then -(x as int) else x, y)))
  {
  }

  lemma MinusInFront(a: string, numbers: string)
    requires numbers != ""
    ensures var s := "," + ("-" + a) + "," + numbers;
            |s| > 1 && s[0] == ',' && s[1] == '-' && s[2..] == a + "," + numbers
  {
  }

  lemma NothingInFront(a: string, numbers: string)
    requires a != "" && IsDigit(a[0])
    ensures var s := "," + a + "," + numbers; |s| > 1 && s[0] == ',' && s[1] != '-' && s[1..] == a + "," + numbers
  {
  }

  lemma TailRest(s: string, neg: bool, a: string, b: string)
    requires a != "" && AllDigits(a) && b != "" && AllDigits(b)
    requires |s| > 1 && s[0] == ',' && (s[1] == '-' <==> neg) && s[if neg then 2 else 1..] == a + "," + b
    ensures Tail(s) == Some(Some((if neg then -(DecVal(a) as int) else DecVal(a), DecVal(b))))
  {
    NumbersRead(a, b);
    TailAt(s, neg, a + "," + b, DecVal(a), DecVal(b));
  }

  lemma TailOfMinus(a: string, b: string)
    requires a != "" && AllDigits(a) && b != "" && AllDigits(b)
    ensures Tail("," + ("-" + a) + "," + b) == Some(Some((-(DecVal(a) as int), DecVal(b))))
  {
    MinusInFront(a, b);
    TailRest("," + ("-" + a) + "," + b, true, a, b);
  }

  lemma TailOfPlus(a: string, b: string)
    requires a != "" && AllDigits(a) && b != "" && AllDigits(b)
    ensures Tail("," + a + "," + b) == Some(Some((DecVal(a) as int, DecVal(b))))
  {
    NothingInFront(a, b);
    TailRest("," + a + "," + b, false, a, b);
  }

  // ------------------------------------------------------------ heads

  /** The EUI64 as the host sees it. */
  function EuiText(f: Frame): Option<string> {
    match f.eui
    case None => None
    case Some(b) => Some(HexRev(b))
  }

  lemma NumberGroup(width: nat, v: nat)
    requires width == 2 || width == 4
    requires v < if width == 2 then 0x100 else 0x1_0000
    ensures |FmtX(width, v)| == width && UpperHex(FmtX(width, v)) && Num(FmtX(width, v)) == v
  {
    PowersOf16();
    FmtXWidth(width, v);
    HexValOfFmtX(width, v);
  }

  /** The six numbers are groups of the widths the host expects, and hold what was printed. */
  lemma NumbersAreGroups(f: Frame, len: nat)
    requires len < 0x100
    ensures var g := RxNumbers(f, len);
            && GroupsOf(g, RX_WIDTHS) && |g| == 6
            && Num(g[0]) == f.src && Num(g[1]) == f.profile && Num(g[2]) == f.dstEp && Num(g[3]) == f.srcEp
            && Num(g[4]) == f.cluster && Num(g[5]) == len
  {
    NumberGroup(4, f.src);
    NumberGroup(4, f.profile);
    NumberGroup(2, f.dstEp);
    NumberGroup(2, f.srcEp);
    NumberGroup(4, f.cluster);
    NumberGroup(2, len);
  }

  /** What stands between the literal and the separator of a head: an optional EUI64, then numbers. */
  function HeadFields(f: Frame, numbers: seq<string>): seq<string> {
    match f.eui
    case None => numbers
    case Some(b) => [HexRev(b)] + numbers
  }

  lemma HeadJoined(f: Frame, numbers: seq<string>)
    requires numbers != []
    ensures EuiPart(f) + Join(numbers) == Join(HeadFields(f, numbers))
  {
    match f.eui
    case None => Nothing(Join(numbers));
    case Some(b) => JoinConcat([HexRev(b)], numbers);
  }

  /** The host takes the longer pattern exactly when there is an EUI64. */
  lemma HeadRead(f: Frame, numbers: seq<string>, widths: seq<nat>, rest: string)
    requires Valid(f) && numbers != [] && GroupsOf(numbers, widths) && widths[0] < 16
    requires rest != "" && HexNibble(rest[0]) < 0
    ensures var s := EuiPart(f) + Join(numbers) + rest;
            && HexGroups([16] + widths, s) == (if f.eui.Some? then Some((HeadFields(f, numbers), rest)) else None)
            && (f.eui.None? ==> HexGroups(widths, s) == Some((numbers, rest)))
  {
    HeadJoined(f, numbers);
    match f.eui
    case Some(b) =>
      HexRevRoundTrip(b);
      HexGroupsOfJoin([HexRev(b)] + numbers, [16] + widths, rest);
    case None =>
      HexGroupsOfJoin(numbers, widths, rest);
      FirstField(numbers, rest);
      WrongFirstWidth([16] + widths, numbers[0], Behind(numbers, rest));
  }

  /** What stands behind the first field. */
  function Behind(fields: seq<string>, rest: string): string
    requires fields != []
  {
    if |fields| == 1 then rest else "," + Join(fields[1..]) + rest
  }

  lemma Regroup4(a: string, b: string, c: string, d: string)
    ensures a + b + c + d == a + (b + c + d)
  {
  }

  lemma FirstField(fields: seq<string>, rest: string)
    requires fields != [] && rest != ""
    ensures Join(fields) + rest == fields[0] + Behind(fields, rest)
    ensures Behind(fields, rest) != "" && (Behind(fields, rest)[0] == ',' || Behind(fields, rest)[0] == rest[0])
  {
    if |fields| > 1 {
      Regroup4(fields[0], ",", Join(fields[1..]), rest);
    }
  }

  /** A separator in front. */
  lemma DropFirst(c: string, s: string)
    requires |c| == 1
    ensures (c + s)[1..] == s && c + s != "" && (c + s)[0] == c[0] && c <= c + s
  {
  }

  lemma RxHeadRead(f: Frame, len: nat, rest: string)
    requires Valid(f) && len < 0x100
    ensures RxHead(EuiPart(f) + Join(RxNumbers(f, len)) + (":" + rest)) == Some((EuiText(f), RxNumbers(f, len), rest))
  {
    NumbersAreGroups(f, len);
    DropFirst(":", rest);
    HeadRead(f, RxNumbers(f, len), RX_WIDTHS, ":" + rest);
    assert f.eui.Some? ==> HeadFields(f, RxNumbers(f, len))[1..] == RxNumbers(f, len);
  }

  lemma ColonDropped(widths: seq<nat>, s: string)
    ensures Groups(":", widths, ":" + s) == HexGroups(widths, s)
  {
    DropFirst(":", s);
  }

  lemma TextHeadRead(f: Frame, len: nat, rest: string)
    requires Valid(f) && len < 0x100
    ensures TextHead(":" + (EuiPart(f) + FmtX(2, len) + ("=" + rest))) == Some((EuiText(f), len, rest))
  {
    NumberGroup(2, len);
    TextHeadOf(f, FmtX(2, len), rest);
  }

  lemma TextHeadOf(f: Frame, len: string, rest: string)
    requires Valid(f) && GroupsOf([len], [2])
    ensures TextHead(":" + (EuiPart(f) + len + ("=" + rest))) == Some((EuiText(f), Num(len), rest))
  {
    var s := EuiPart(f) + len + ("=" + rest);
    DropFirst("=", rest);
    HeadRead(f, [len], [2], "=" + rest);
    assert [16] + [2] == [16, 2];
    match f.eui
    case Some(b) => LongTextHead(s, HexRev(b), len, rest);
    case None => ShortTextHead(s, len, rest);
  }

  lemma LongTextHead(s: string, eui: string, len: string, rest: string)
    requires HexGroups([16, 2], s) == Some(([eui] + [len], "=" + rest))
    ensures TextHead(":" + s) == Some((Some(eui), Num(len), rest))
  {
    ColonDropped([16, 2], s);
    DropFirst("=", rest);
  }

  lemma ShortTextHead(s: string, len: string, rest: string)
    requires HexGroups([16, 2], s) == None && HexGroups([2], s) == Some(([len], "=" + rest))
    ensures TextHead(":" + s) == Some((None, Num(len), rest))
  {
    ColonDropped([16, 2], s);
    ColonDropped([2], s);
    DropFirst("=", rest);
  }

  // ------------------------------------------------------------ RX

  lemma EuiPartFits(f: Frame)
    requires Valid(f)
    ensures |EuiPart(f)| + 1 <= 18 && LineReader.OneLine(EuiPart(f))
  {
    if f.eui.Some? {
      HexRevRoundTrip(f.eui.value);
      UpperOneLine(HexRev(f.eui.value));
    }
  }

  lemma UpperOneLine(s: string)
    requires UpperHex(s)
    ensures LineReader.OneLine(s)
  {
    assert HexNibble('\r') == -1 && HexNibble('\n') == -1;
  }

  lemma {:induction false} JoinOneLine(fields: seq<string>)
    requires forall i :: 0 <= i < |fields| ==> UpperHex(fields[i])
    ensures LineReader.OneLine(Join(fields))
  {
    if fields != [] {
      UpperOneLine(fields[0]);
      JoinOneLine(fields[1..]);
    }
  }

  lemma {:induction false} JoinLength(fields: seq<string>)
    requires forall i :: 0 <= i < |fields| ==> |fields[i]| <= 4
    ensures |Join(fields)| <= 5 * |fields|
  {
    if |fields| > 1 {
      JoinLength(fields[1..]);
    }
  }

  lemma NumbersFit(f: Frame, len: nat)
    requires len < 0x100
    ensures var s := Join(RxNumbers(f, len)); |s| <= 30 && LineReader.OneLine(s)
  {
    var numbers := RxNumbers(f, len);
    NumbersAreGroups(f, len);
    assert forall i :: 0 <= i < 6 ==> |numbers[i]| == RX_WIDTHS[i] <= 4 && UpperHex(numbers[i]);
    JoinLength(numbers);
    JoinOneLine(numbers);
  }

  /** No fixed buffer of `print_rx` cuts its text: eui_part[18], head[64], hex[257], tail[16]. */
  lemma NothingCut(f: Frame, showTail: bool)
    requires Valid(f)
    ensures |EuiPart(f)| < 18 && |HexText(Shown(f))| < 2 * RX_SHOW_MAX + 1
    ensures RxHeadText(f) == "RX:" + EuiPart(f) + Join(RxNumbers(f, |Shown(f)|)) + ":"
    ensures showTail ==> TailText(f, showTail) == "," + FmtD(f.rssi) + "," + FmtU(f.lqi)
    ensures LineReader.OneLine(RxHeadText(f))
  {
    EuiPartFits(f);
    FromHexOfHexText(Shown(f));
    TailRead(f, showTail);
    NumbersFit(f, |Shown(f)|);
  }

  lemma {:induction false} HexTextUpper(payload: Payload)
    ensures UpperHex(HexText(payload))
  {
    if payload != "" {
      HexTextUpper(payload[1..]);
    }
  }

  lemma DigitsOneLine(s: string)
    requires AllDigits(s)
    ensures LineReader.OneLine(s)
  {
    assert !IsDigit('\r') && !IsDigit('\n');
  }

  lemma CommasOneLine(a: string, b: string)
    requires LineReader.OneLine(a) && LineReader.OneLine(b)
    ensures LineReader.OneLine("," + a + "," + b)
  {
  }

  lemma SignedOneLine(v: int)
    ensures LineReader.OneLine(FmtD(v))
  {
    DigitsOneLine(FmtU(if v < 0 then -v else v));
  }

  lemma TailOneLine(f: Frame, show: bool)
    ensures LineReader.OneLine(TailText(f, show))
  {
    TailRead(f, show);
    DigitsOneLine(FmtU(f.lqi));
    SignedOneLine(f.rssi);
    CommasOneLine(FmtD(f.rssi), FmtU(f.lqi));
  }

  lemma RxSplit(lit: string, eui: string, numbers: string, colon: string, body: string, tail: string)
    ensures lit + eui + numbers + colon + body + tail == lit + (eui + numbers + (colon + (body + tail)))
  {
  }

  function RxMeaning(f: Frame, showTail: bool): Prompt {
    Rx(EuiText(f), f.src, f.profile, f.dstEp, f.srcEp, f.cluster, Shown(f), SignalOf(f, showTail))
  }

  lemma RxBodyRead(f: Frame, hex: bool, showTail: bool)
    ensures var body := if hex then HexText(Shown(f)) else Shown(f);
            RxBody(EuiText(f), RxNumbers(f, |Shown(f)|), body + TailText(f, showTail), hex) ==
            Some(RxMeaning(f, showTail))
  {
    var body := if hex then HexText(Shown(f)) else Shown(f);
    NumbersAreGroups(f, |Shown(f)|);
    FromHexOfHexText(Shown(f));
    CutBehind(body, TailText(f, showTail));
    TailRead(f, showTail);
  }

  /** What `print_rx` prints means the frame, in either mode. */
  lemma RxRoundTrip(f: Frame, hex: bool, showTail: bool)
    requires Valid(f)
    ensures ParsePrompt(RxLine(f, hex, showTail), hex) == Some(RxMeaning(f, showTail))
  {
    var body, tail, len := if hex then HexText(Shown(f)) else Shown(f), TailText(f, showTail), |Shown(f)|;
    NothingCut(f, showTail);
    RxSplit("RX:", EuiPart(f), Join(RxNumbers(f, len)), ":", body, tail);
    RxHeadRead(f, len, body + tail);
    NumbersAreGroups(f, len);
    RxBodyRead(f, hex, showTail);
    RxPartsRead(EuiPart(f) + Join(RxNumbers(f, len)) + (":" + (body + tail)), EuiText(f), RxNumbers(f, len),
                body + tail, hex);
  }

  lemma RxPartsRead(s: string, eui: Option<string>, g: seq<string>, rest: string, hex: bool)
    requires |g| == 6 && RxHead(s) == Some((eui, g, rest))
    ensures ParsePrompt("RX:" + s, hex) == RxBody(eui, g, rest, hex)
  {
    StripRx(s);
  }

  lemma StripRx(s: string)
    ensures After("RX:", "RX:" + s) == Some(s) && "RX:" <= "RX:" + s && ParseSimple("RX:" + s) == None
  {
    if ParseSimple("RX:" + s).Some? {
      SimpleFirstLetter("RX:" + s);
    }
  }

  // ------------------------------------------------------------ over the line

  lemma PrintedLine(head: string, body: string, tail: string)
    ensures UartTx.Line(head, body, tail) == "\r\n" + (head + body + tail) + "\r\n"
  {
  }

  lemma OneLineParts(head: string, body: string, tail: string)
    ensures LineReader.OneLine(head + body + tail) <==>
            LineReader.OneLine(head) && LineReader.OneLine(body) && LineReader.OneLine(tail)
  {
    var s := head + body + tail;
    assert forall k :: 0 <= k < |head| ==> s[k] == head[k];
    assert forall k :: 0 <= k < |body| ==> s[|head| + k] == body[k];
    assert forall k :: 0 <= k < |tail| ==> s[|head| + |body| + k] == tail[k];
  }

  /** A printed line without CR or LF reaches the host whole, in however many reads and whatever was read before. */
  lemma LineArrives(buf: string, head: string, body: string, tail: string, chunks: seq<string>)
    requires LineReader.OneLine(head) && LineReader.OneLine(body) && LineReader.OneLine(tail)
    requires head != "" && head[0] != '>' && Flatten(chunks) == UartTx.Line(head, body, tail)
    ensures LineReader.ReadAll(buf, chunks) == [buf, head + body + tail]
  {
    OneLineParts(head, body, tail);
    PrintedLine(head, body, tail);
    LineReader.AnyChunks(buf, chunks);
    LineReader.FramedLineArrives(buf, head + body + tail);
  }

  /**
   In hex mode every received frame, its payload cut to 128 bytes, reaches the host as one line that parses to
   exactly that frame.
   */
  lemma RxHexArrives(buf: string, f: Frame, showTail: bool, chunks: seq<string>)
    requires Valid(f)
    requires Flatten(chunks) == UartTx.Line(RxHeadText(f), HexText(Shown(f)), TailText(f, showTail))
    ensures LineReader.ReadAll(buf, chunks) == [buf, RxLine(f, true, showTail)]
    ensures ParsePrompt(RxLine(f, true, showTail), true) == Some(RxMeaning(f, showTail))
  {
    NothingCut(f, showTail);
    HexTextUpper(Shown(f));
    UpperOneLine(HexText(Shown(f)));
    TailOneLine(f, showTail);
    LineArrives(buf, RxHeadText(f), HexText(Shown(f)), TailText(f, showTail), chunks);
    RxRoundTrip(f, true, showTail);
  }

  // ------------------------------------------------------------ data is part of its line

  lemma {:induction false} GroupsRest(widths: seq<nat>, line: string)
    requires HexGroups(widths, line).Some? && LineReader.OneLine(line)
    ensures LineReader.OneLine(HexGroups(widths, line).value.1)
    decreases widths, line
  {
    if |widths| > 1 {
      GroupsRest(widths[1..], line[widths[0] + 1..]);
    }
  }

  lemma RxDataOneLine(line: string)
    requires ParseRx(line, false).Some? && LineReader.OneLine(line)
    ensures ParseRx(line, false).value.Rx? && LineReader.OneLine(ParseRx(line, false).value.data)
  {
    var s := After("RX:", line).value;
    if HexGroups([16] + RX_WIDTHS, s).Some? {
      GroupsRest([16] + RX_WIDTHS, s);
    }
    if HexGroups(RX_WIDTHS, s).Some? {
      GroupsRest(RX_WIDTHS, s);
    }
  }

  /** A pattern of hex groups behind a ':'. */
  lemma ColonGroups(widths: seq<nat>, s: string)
    requires Groups(":", widths, s).Some? && LineReader.OneLine(s) && widths != [] && widths[|widths| - 1] == 2
    ensures var (g, rest) := Groups(":", widths, s).value;
            |g| == |widths| && Num(g[|widths| - 1]) < 0x100 && LineReader.OneLine(rest)
  {
    var t := After(":", s).value;
    GroupsRest(widths, t);
    TwoDigits(widths, t, |widths| - 1);
    GroupWidths(widths, t);
  }

  lemma TextHeadBound(s: string)
    requires TextHead(s).Some? && LineReader.OneLine(s)
    ensures TextHead(s).value.1 < 0x100 && LineReader.OneLine(TextHead(s).value.2)
  {
    if Groups(":", [16, 2], s).Some? {
      ColonGroups([16, 2], s);
    }
    if Groups(":", [2], s).Some? {
      ColonGroups([2], s);
    }
  }

  lemma TextDataOneLine(line: string)
    requires ParseText(line).Some? && LineReader.OneLine(line)
    ensures var p := ParseText(line).value; p.Text? && LineReader.OneLine(p.data) && |p.data| < 0x100
  {
    TextHeadBound(line[5..]);
  }

  /** A 2-digit group is below 256. */
  lemma TwoDigits(widths: seq<nat>, line: string, i: nat)
    requires HexGroups(widths, line).Some? && i < |widths| && widths[i] == 2
    ensures i < |HexGroups(widths, line).value.0| && Num(HexGroups(widths, line).value.0[i]) < 0x100
  {
    GroupWidths(widths, line);
    PowersOf16();
    HexValDefined(HexGroups(widths, line).value.0[i]);
  }

  lemma {:induction false} GroupWidths(widths: seq<nat>, line: string)
    requires HexGroups(widths, line).Some?
    ensures GroupsOf(HexGroups(widths, line).value.0, widths)
    decreases widths, line
  {
    if |widths| > 1 {
      GroupWidths(widths[1..], line[widths[0] + 1..]);
    }
  }

  lemma PromptDataOneLine(line: string, rxHex: bool)
    requires ParsePrompt(line, rxHex).Some? && LineReader.OneLine(line)
    ensures var p := ParsePrompt(line, rxHex).value;
            && (p.Text? ==> LineReader.OneLine(p.data) && |p.data| < 0x100)
            && (p.Rx? && !rxHex ==> LineReader.OneLine(p.data))
  {
    if ParseSimple(line).Some? {
      SimpleIsSimple(line);
    } else if "RX:" <= line {
      if !rxHex {
        RxDataOneLine(line);
      }
    } else {
      TextDataOneLine(line);
    }
  }

  lemma SimpleIsSimple(line: string)
    requires ParseSimple(line).Some?
    ensures !ParseSimple(line).value.Text? && !ParseSimple(line).value.Rx?
  {
  }

  /** Some line of these reads parses to this prompt. */
  predicate Arrives(buf: string, chunks: seq<string>, rxHex: bool, p: Prompt) {
    exists line :: line in LineReader.ReadAll(buf, chunks) && ParsePrompt(line, rxHex) == Some(p)
  }

  lemma ArrivedLine(buf: string, chunks: seq<string>, rxHex: bool, p: Prompt)
    requires LineReader.OneLine(buf) && Arrives(buf, chunks, rxHex, p) && (p.Text? || (p.Rx? && !rxHex))
    ensures LineReader.OneLine(p.data) && (p.Text? ==> |p.data| < 0x100)
  {
    var line :| line in LineReader.ReadAll(buf, chunks) && ParsePrompt(line, rxHex) == Some(p);
    LineReader.AnyChunks(buf, chunks);
    LineReader.LinesAreLines(buf, Flatten(chunks));
    PromptDataOneLine(line, rxHex);
  }

  /** Without hex mode a frame reaches the host exactly when the shown payload has neither CR nor LF. */
  lemma RxRawArrives(buf: string, f: Frame, showTail: bool, chunks: seq<string>)
    requires Valid(f) && LineReader.OneLine(buf)
    requires Flatten(chunks) == UartTx.Line(RxHeadText(f), Shown(f), TailText(f, showTail))
    ensures Arrives(buf, chunks, false, RxMeaning(f, showTail)) <==> LineReader.OneLine(Shown(f))
  {
    if LineReader.OneLine(Shown(f)) {
      NothingCut(f, showTail);
      TailOneLine(f, showTail);
      LineArrives(buf, RxHeadText(f), Shown(f), TailText(f, showTail), chunks);
      RxRoundTrip(f, false, showTail);
      assert RxLine(f, false, showTail) in [buf, RxLine(f, false, showTail)];
    }
    if Arrives(buf, chunks, false, RxMeaning(f, showTail)) {
      ArrivedLine(buf, chunks, false, RxMeaning(f, showTail));
    }
  }

  // ------------------------------------------------------------ text

  function TextMeaning(kind: Kind, f: Frame, showTail: bool): Prompt {
    Text(kind, EuiText(f), f.payload, SignalOf(f, showTail))
  }

  lemma TextHeadFits(kind: Kind, f: Frame)
    requires Valid(f) && |f.payload| < 0x100
    ensures TextHeadText(kind, f) == kind + ":" + EuiPart(f) + FmtX(2, |f.payload|) + "="
    ensures LineReader.OneLine(TextHeadText(kind, f))
  {
    EuiPartFits(f);
    NumberGroup(2, |f.payload|);
    UpperOneLine(FmtX(2, |f.payload|));
  }

  lemma TextSplit(kind: string, colon: string, eui: string, len: string, eq: string, data: string, tail: string)
    ensures kind + colon + eui + len + eq + data + tail == kind + (colon + (eui + len + (eq + (data + tail))))
  {
  }

  lemma KindInFront(kind: Kind, s: string)
    ensures var line := kind + s;
            && |line| >= 5 && line[..5] == kind && line[5..] == s
            && !("RX:" <= line) && ParseSimple(line) == None
  {
    var line := kind + s;
    assert line[0] == kind[0];
    if ParseSimple(line).Some? {
      SimpleFirstLetter(line);
    }
  }

  lemma TextRoundTrip(kind: Kind, f: Frame, showTail: bool, rxHex: bool)
    requires Valid(f) && |f.payload| < 0x100
    ensures ParsePrompt(TextLine(kind, f, showTail), rxHex) == Some(TextMeaning(kind, f, showTail))
  {
    var tail, len := TailText(f, showTail), |f.payload|;
    var s := ":" + (EuiPart(f) + FmtX(2, len) + ("=" + (f.payload + tail)));
    TextHeadFits(kind, f);
    TextSplit(kind, ":", EuiPart(f), FmtX(2, len), "=", f.payload, tail);
    assert TextLine(kind, f, showTail) == kind + s;
    KindInFront(kind, s);
    TextHeadRead(f, len, f.payload + tail);
    CutBehind(f.payload, tail);
    TailRead(f, showTail);
  }

  /**
   A text prompt reaches the host with its data intact, whatever separators or fake tails the data contains,
   exactly when the data has at most 255 bytes and neither CR nor LF.
   */
  lemma TextArrives(buf: string, kind: Kind, f: Frame, showTail: bool, rxHex: bool, chunks: seq<string>)
    requires Valid(f) && LineReader.OneLine(buf)
    requires Flatten(chunks) == UartTx.Line(TextHeadText(kind, f), f.payload, TailText(f, showTail))
    ensures Arrives(buf, chunks, rxHex, TextMeaning(kind, f, showTail)) <==>
            |f.payload| < 0x100 && LineReader.OneLine(f.payload)
  {
    if |f.payload| < 0x100 && LineReader.OneLine(f.payload) {
      TextHeadFits(kind, f);
      TailOneLine(f, showTail);
      LineArrives(buf, TextHeadText(kind, f), f.payload, TailText(f, showTail), chunks);
      TextRoundTrip(kind, f, showTail, rxHex);
      assert TextLine(kind, f, showTail) in [buf, TextLine(kind, f, showTail)];
    }
    if Arrives(buf, chunks, rxHex, TextMeaning(kind, f, showTail)) {
      ArrivedLine(buf, chunks, rxHex, TextMeaning(kind, f, showTail));
    }
  }

  // ------------------------------------------------------------ the print functions

  /** The `sprintf` loop of `print_rx` into `hex`. */
  method PrintHex(payload: Payload, hex: array<char>)
    requires 2 * |payload| + 1 <= hex.Length
    modifies hex
    ensures hex[..2 * |payload|] == HexText(payload)
  {
    assert payload[0..] == payload;
    for i := 0 to |payload|
      invariant hex[..2 * i] + HexText(payload[i..]) == HexText(payload)
    {
      ghost var done, rest := hex[..2 * i], payload[i..];
      var b: uint8 := payload[i] as int;
      hex[2 * i], hex[2 * i + 1] := HexDigit(b / 16), HexDigit(b % 16);
      assert hex[..2 * (i + 1)] == done + Hex2(b);
      assert rest[1..] == payload[i + 1..];
      OneByteMore(done, rest);
    }
    assert payload[|payload|..] == "";
    NothingBehind(hex[..2 * |payload|]);
  }

  lemma OneByteMore(done: string, rest: Payload)
    requires rest != ""
    ensures done + HexText(rest) == done + Hex2(rest[0] as int) + HexText(rest[1..])
  {
  }

  /** `print_rx`: puts the frame's line, framed by CR LF, behind everything written before. */
  method PrintRx(uart: UartTx.Uart, f: Frame, hexMode: bool, showTail: bool)
    requires Valid(f) && uart.Valid() && uart.idle != uart.running
    modifies uart
    ensures uart.Valid() && uart.idle != uart.running && old(uart.wire) <= uart.wire && uart.Draining()
    ensures uart.Stream() == old(uart.Stream()) + "\r\n" + RxLine(f, hexMode, showTail) + "\r\n"
  {
    var shown := Shown(f);
    var body := shown;
    if hexMode {
      var hex := new char[2 * RX_SHOW_MAX + 1];
      PrintHex(shown, hex);
      body := hex[..2 * |shown|];
    }
    uart.PrintParts(RxHeadText(f), body, TailText(f, showTail));
    LineBehind(old(uart.Stream()), RxHeadText(f), body, TailText(f, showTail));
  }

  /** `print_text`. */
  method PrintText(uart: UartTx.Uart, kind: Kind, f: Frame, showTail: bool)
    requires Valid(f) && uart.Valid() && uart.idle != uart.running
    modifies uart
    ensures uart.Valid() && uart.idle != uart.running && old(uart.wire) <= uart.wire && uart.Draining()
    ensures uart.Stream() == old(uart.Stream()) + "\r\n" + TextLine(kind, f, showTail) + "\r\n"
  {
    uart.PrintParts(TextHeadText(kind, f), f.payload, TailText(f, showTail));
    LineBehind(old(uart.Stream()), TextHeadText(kind, f), f.payload, TailText(f, showTail));
  }

  lemma LineBehind(before: string, head: string, body: string, tail: string)
    ensures before + UartTx.Line(head, body, tail) == before + "\r\n" + (head + body + tail) + "\r\n"
  {
  }
}
