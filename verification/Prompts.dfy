/**
 Prompts: the parser of host/etrx/prompts.py.

 The patterns there never need to back up except over their optional EUI64, so each is a scan from left to
 right. `$` also matches in front of a last LF.
 */
module Prompts {
  import opened Wrappers
  import opened AtFmt
  import opened CText

  datatype Prompt =
    | Ok
    | Error(code: nat)
    | Seq(seq_: nat)
    | Ack(seq_: nat)
    | Nack(seq_: nat)
    | Jpan(channel: nat, pan: nat, epid: string)
    | LeftPan
    | NewNode(nwk: nat, eui: string, parent: nat)
    | Announce(kind: string, eui: string, nwk: nat, tail: Signal)
    | NodeLeft(nwk: nat, eui: string)
    | MatchDesc(nwk: nat, status: nat, endpoints: seq<nat>)
    | Text(kind: string, from: Option<string>, data: string, tail: Signal)
    | Rx(from: Option<string>, nwk: nat, profile: nat, dstEp: nat, srcEp: nat, cluster: nat, data: string, tail: Signal)

  /** The optional RSSI and LQI at the end of a prompt. */
  type Signal = Option<(int, nat)>

  // ------------------------------------------------------------ pieces of patterns

  /** What follows a literal. */
  function After(prefix: string, line: string): Option<string> {
    if prefix <= line then Some(line[|prefix|..]) else None
  }

  /** `$`. */
  predicate AtEnd(s: string) {
    s == "" || s == "\n"
  }

  /** Groups `([0-9A-F]{w})` of these widths with commas between, and what follows them. */
  function HexGroups(widths: seq<nat>, line: string): Option<(seq<string>, string)>
    decreases widths, line
  {
    if widths == [] then Some(([], line))
    else
      var w := widths[0];
      if |line| < w || !UpperHex(line[..w]) then None
      else if |widths| == 1 then Some(([line[..w]], line[w..]))
      else if |line| == w || line[w] != ',' then None
      else
        match HexGroups(widths[1..], line[w + 1..])
        case None => None
        case Some((gs, rest)) => Some(([line[..w]] + gs, rest))
  }

  /** `int(group, 16)`. */
  function Num(group: string): nat {
    match HexVal(group)
    case Some(v) => v
    case None => 0
  }

  /** `(\d+),(\d+)$`. */
  function TwoNumbers(s: string): Option<(nat, nat)> {
    var n := DigitRun(s);
    if n == 0 || n == |s| || s[n] != ',' then None
    else
      match LastNumber(s[n + 1..])
      case None => None
      case Some(v) => Some((DecVal(s[..n]), v))
  }

  /** `(\d+)$`. */
  function LastNumber(s: string): Option<nat> {
    var n := DigitRun(s);
    if n == 0 || !AtEnd(s[n..]) then None else Some(DecVal(s[..n]))
  }

  /** `^(?:,(-?\d+),(\d+))?$`. */
  function Tail(s: string): Option<Signal> {
    if AtEnd(s) then Some(None)
    else if s[0] != ',' then None
    else
      var neg := |s| > 1 && s[1] == '-';
      match TwoNumbers(if neg then s[2..] else s[1..])
      case None => None
      case Some((a, b)) =>
        var rssi: int := a;
        Some(Some((if neg then -rssi else rssi, b)))
  }

  /** `((?:,[0-9A-F]{2})*)$`. */
  function HexPairs(s: string): Option<seq<nat>> {
    if AtEnd(s) then Some([])
    else if |s| < 3 || s[0] != ',' || !UpperHex(s[1..3]) then None
    else
      match HexPairs(s[3..])
      case None => None
      case Some(rest) => Some([Num(s[1..3])] + rest)
  }

  // ------------------------------------------------------------ simple prompts

  function ParseOk(line: string): Option<Prompt> {
    match After("OK", line)
    case Some(rest) => if AtEnd(rest) then Some(Prompt.Ok) else None
    case None => None
  }

  function ParseLeft(line: string): Option<Prompt> {
    match After("LeftPAN", line)
    case Some(rest) => if AtEnd(rest) then Some(LeftPan) else None
    case None => None
  }

  /** Hex groups behind a literal, and what follows. */
  function Groups(prefix: string, widths: seq<nat>, line: string): Option<(seq<string>, string)> {
    match After(prefix, line)
    case Some(rest) => HexGroups(widths, rest)
    case None => None
  }

  function ParseError(line: string): Option<Prompt> {
    match Groups("ERROR:", [2], line)
    case Some((g, rest)) => if |g| == 1 && AtEnd(rest) then Some(Error(Num(g[0]))) else None
    case None => None
  }

  function ParseSeq(line: string): Option<Prompt> {
    match Groups("SEQ:", [2], line)
    case Some((g, rest)) => if |g| == 1 && AtEnd(rest) then Some(Seq(Num(g[0]))) else None
    case None => None
  }

  /** `(?:,.*)?$`. */
  predicate Ignored(s: string) {
    AtEnd(s) || (s[0] == ',' && '\n' !in s[..|s| - 1])
  }

  function ParseAck(line: string): Option<Prompt> {
    match Groups("ACK:", [2], line)
    case Some((g, rest)) => if |g| == 1 && Ignored(rest) then Some(Ack(Num(g[0]))) else None
    case None => None
  }

  function ParseNack(line: string): Option<Prompt> {
    match Groups("NACK:", [2], line)
    case Some((g, rest)) => if |g| == 1 && Ignored(rest) then Some(Nack(Num(g[0]))) else None
    case None => None
  }

  function ParseJpan(line: string): Option<Prompt> {
    match After("JPAN:", line)
    case None => None
    case Some(s) =>
      var n := DigitRun(s);
      if n == 0 || n == |s| || s[n] != ',' then None
      else
        match HexGroups([4, 16], s[n + 1..])
        case Some((g, rest)) => if |g| == 2 && AtEnd(rest) then Some(Jpan(DecVal(s[..n]), Num(g[0]), g[1])) else None
        case None => None
  }

  /** ` ?`. */
  function DropSpace(s: string): string {
    if s != "" && s[0] == ' ' then s[1..] else s
  }

  function ParseNewNode(line: string): Option<Prompt> {
    match After("NEWNODE:", line)
    case None => None
    case Some(s) =>
      match HexGroups([4, 16, 4], DropSpace(s))
      case Some((g, rest)) => if |g| == 3 && AtEnd(rest) then Some(NewNode(Num(g[0]), g[1], Num(g[2]))) else None
      case None => None
  }

  function ParseNodeLeft(line: string): Option<Prompt> {
    match After("NODELEFT:", line)
    case None => None
    case Some(s) =>
      match HexGroups([4, 16], DropSpace(s))
      case Some((g, rest)) => if |g| == 2 && AtEnd(rest) then Some(NodeLeft(Num(g[0]), g[1])) else None
      case None => None
  }

  function ParseMatchDesc(line: string): Option<Prompt> {
    match Groups("MatchDesc:", [4, 2], line)
    case None => None
    case Some((g, rest)) =>
      match HexPairs(rest)
      case Some(eps) => if |g| == 2 then Some(MatchDesc(Num(g[0]), Num(g[1]), eps)) else None
      case None => None
  }

  function ParseAnnounce(line: string): Option<Prompt> {
    if |line| < 3 || line[..3] !in {"FFD", "ZED", "SED", "MED", "COO"} then None
    else
      match Groups(":", [16, 4], line[3..])
      case None => None
      case Some((g, rest)) =>
        match Tail(rest)
        case Some(t) => if |g| == 2 then Some(Announce(line[..3], g[0], Num(g[1]), t)) else None
        case None => None
  }

  function OrElse(a: Option<Prompt>, b: Option<Prompt>): Option<Prompt> {
    if a.Some? then a else b
  }

  /** `_SIMPLE`, in its order. */
  function ParseSimple(line: string): Option<Prompt> {
    OrElse(ParseOk(line), OrElse(ParseError(line), OrElse(ParseSeq(line), OrElse(ParseAck(line),
      OrElse(ParseNack(line), OrElse(ParseJpan(line), OrElse(ParseLeft(line), OrElse(ParseNewNode(line),
        OrElse(ParseNodeLeft(line), OrElse(ParseMatchDesc(line), ParseAnnounce(line)))))))))))
  }

  /** No simple prompt begins like RX, UCAST or BCAST. */
  lemma SimpleFirstLetter(line: string)
    requires ParseSimple(line).Some?
    ensures line != "" && line[0] !in {'R', 'U', 'B'}
  {
  }

  // ------------------------------------------------------------ text and RX

  /** `_TEXT_HEAD` behind the kind: EUI64 or not, length, and the rest. */
  function TextHead(s: string): Option<(Option<string>, nat, string)> {
    match Groups(":", [16, 2], s)
    case Some((g, rest)) =>
      if |g| == 2 && rest != "" && rest[0] == '=' then Some((Some(g[0]), Num(g[1]), rest[1..])) else TextHeadShort(s)
    case None => TextHeadShort(s)
  }

  function TextHeadShort(s: string): Option<(Option<string>, nat, string)> {
    match Groups(":", [2], s)
    case Some((g, rest)) =>
      if |g| == 1 && rest != "" && rest[0] == '=' then Some((None, Num(g[0]), rest[1..])) else None
    case None => None
  }

  /** `_parse_text`. */
  function ParseText(line: string): Option<Prompt> {
    if |line| < 5 || line[..5] !in {"UCAST", "BCAST", "MCAST"} then None
    else
      match TextHead(line[5..])
      case None => None
      case Some((eui, n, rest)) =>
        if |rest| < n then None
        else
          match Tail(rest[n..])
          case None => None
          case Some(t) => Some(Text(line[..5], eui, rest[..n], t))
  }

  const RX_WIDTHS: seq<nat> := [4, 4, 2, 2, 4, 2]

  /** `_RX_HEAD` behind "RX:": EUI64 or not, the six numbers, and the rest. */
  function RxHead(s: string): Option<(Option<string>, seq<string>, string)> {
    match HexGroups([16] + RX_WIDTHS, s)
    case Some((g, rest)) =>
      if |g| == 7 && rest != "" && rest[0] == ':' then Some((Some(g[0]), g[1..], rest[1..])) else RxHeadShort(s)
    case None => RxHeadShort(s)
  }

  function RxHeadShort(s: string): Option<(Option<string>, seq<string>, string)> {
    match HexGroups(RX_WIDTHS, s)
    case Some((g, rest)) => if |g| == 6 && rest != "" && rest[0] == ':' then Some((None, g, rest[1..])) else None
    case None => None
  }

  /** `bytes.fromhex`: two digits a byte; white space between bytes is skipped. */
  function FromHex(s: string): Option<string> {
    if s == "" then Some("")
    else if IsSpace(s[0]) then FromHex(s[1..])
    else if |s| < 2 || HexNibble(s[0]) < 0 || HexNibble(s[1]) < 0 then None
    else
      match FromHex(s[2..])
      case None => None
      case Some(rest) => Some([(16 * HexNibble(s[0]) + HexNibble(s[1])) as char] + rest)
  }

  /** `_parse_rx`. */
  function ParseRx(line: string, rxHex: bool): Option<Prompt> {
    match After("RX:", line)
    case None => None
    case Some(s) =>
      match RxHead(s)
      case None => None
      case Some((eui, g, rest)) => if |g| == 6 then RxBody(eui, g, rest, rxHex) else None
  }

  function RxBody(eui: Option<string>, g: seq<string>, rest: string, rxHex: bool): Option<Prompt>
    requires |g| == 6
  {
    var n := Num(g[5]);
    var width := if rxHex then 2 * n else n;
    if |rest| < width then None
    else
      match (Tail(rest[width..]), if rxHex then FromHex(rest[..width]) else Some(rest[..width]))
      case (Some(t), Some(data)) => Some(Rx(eui, Num(g[0]), Num(g[1]), Num(g[2]), Num(g[3]), Num(g[4]), data, t))
      case _ => None
  }

  /** `parse_prompt`. */
  function ParsePrompt(line: string, rxHex: bool): Option<Prompt> {
    match ParseSimple(line)
    case Some(p) => Some(p)
    case None => if "RX:" <= line then ParseRx(line, rxHex) else ParseText(line)
  }
}
