/** `AT+SENDUCAST` from host to firmware. */
module Senducast {
  import opened Wrappers
  import opened AtResults
  import opened AtFmt
  import opened CText
  import opened TextFields
  import opened Requests
  import opened Streams
  import LineEditor

  /** <addr>: a network address, or an EUI64 least significant byte first. */
  datatype Address = Short(nwk: nat) | Eui(lsbFirst: seq<uint8>)

  datatype Target = Target(dst: Address, srcEp: nat, dstEp: nat, profile: nat, cluster: nat)

  /** The syntax `resolve` accepts. */
  function ParseAddress(addr: string): Option<Address> {
    if |addr| == 4 then
      match ParseHexN(addr)
      case None => None
      case Some(v) => Some(Short(v))
    else if |addr| == 16 then
      match ParseHexRev(addr)
      case None => None
      case Some(b) => Some(Eui(b))
    else None
  }

  /** What the text of an address says. */
  predicate Means(addr: string, a: Address) {
    match a
    case Short(nwk) => Holds(addr, 4, nwk)
    case Eui(lsbFirst) => |addr| == 16 && PairsAre(addr, lsbFirst)
  }

  /** 4 or 16 hex digits. */
  predicate Spelled(addr: string) {
    (|addr| == 4 || |addr| == 16) && AllHex(addr)
  }

  /** A text is read as the address it says, and every 4 or 16 hex digits are one. */
  lemma AddressExactly(addr: string, a: Address)
    ensures ParseAddress(addr) == Some(a) <==> Means(addr, a)
    ensures ParseAddress(addr).Some? <==> Spelled(addr)
  {
    AddressAccepted(addr);
    if a.Eui? && |addr| == 16 {
      EuiExactly(addr, a.lsbFirst);
    }
  }

  lemma AddressAccepted(addr: string)
    ensures ParseAddress(addr).Some? <==> Spelled(addr)
  {
    if |addr| == 4 {
      HexValDefined(addr);
    } else if |addr| == 16 {
      ParseHexRevAccepts(addr);
    }
  }

  lemma EuiExactly(addr: string, b: seq<uint8>)
    requires |addr| == 16
    ensures ParseAddress(addr) == Some(Eui(b)) <==> PairsAre(addr, b)
  {
    ParseHexRevExactly(addr, b);
  }

  /** The address as the firmware prints one. */
  function AddressText(a: Address): string {
    match a
    case Short(nwk) => FmtX(4, nwk)
    case Eui(lsbFirst) => HexRev(lsbFirst)
  }

  /** A printed address is read back as itself exactly if it has its width. */
  lemma AddressRoundTrip(a: Address)
    ensures ParseAddress(AddressText(a)) == Some(a) <==> if a.Short? then a.nwk < 0x1_0000 else |a.lsbFirst| == 8
  {
    PowersOf16();
    match a
    case Short(nwk) =>
      FmtXWidth(4, nwk);
      HexValOfFmtX(4, nwk);
      AddressExactly(AddressText(a), a);
    case Eui(lsbFirst) =>
      HexRevRoundTrip(lsbFirst);
  }

  /** `parse_target`. */
  function ParseTarget(p0: Cursor): Option<Target> {
    var (addr, p1) := NextField(p0);
    var (src, p2) := NextField(p1);
    var (dst, p3) := NextField(p2);
    var (profile, p4) := NextField(p3);
    var (cluster, _) := NextField(p4);
    TargetOf(addr, src, dst, profile, cluster)
  }

  function TargetOf(addr: Cursor, src: Cursor, dst: Cursor, profile: Cursor, cluster: Cursor): Option<Target> {
    if addr.None? then None
    else
      match (HexField(src, 2), HexField(dst, 2), HexField(profile, 4), HexField(cluster, 4), ParseAddress(addr.value))
      case (Some(s), Some(d), Some(p), Some(c), Some(a)) => Some(Target(a, s, d, p, c))
      case _ => None
  }

  /** The pointer behind the `n`th comma, NULL if there are not so many. */
  function SkipFields(p: Cursor, n: nat): (q: Cursor)
    ensures q.Some? && n > 0 ==> p.Some? && |q.value| < |p.value|
    decreases n, p
  {
    if n == 0 then p else SkipFields(NextField(p).1, n - 1)
  }

  /** The checks behind the fifth comma. */
  function CheckParts(target: string, data: string): Result<(Target, string)> {
    if |data| > PAYLOAD_MAX then Err(AT_ERR_MSG_TOO_LONG)
    else
      match ParseTarget(Some(target))
      case None => Err(AT_ERR_INVALID_PARAM)
      case Some(t) => Ok((t, data))
  }

  /** The argument cut at its fifth comma. */
  function CutData(args: string): Option<(string, string)> {
    if args == "" || args[0] != ':' then None
    else
      match SkipFields(Some(args[1..]), 5)
      case None => None
      case Some(data) => Some((args[1..|args| - |data| - 1], data))
  }

  /** `cmd_senducast` up to the sending: target and data, or the error. */
  function ParseSend(args: string): Result<(Target, string)> {
    match CutData(args)
    case None => Err(AT_ERR_INVALID_PARAM)
    case Some((target, data)) => CheckParts(target, data)
  }

  // ------------------------------------------------------------ the host

  const SENDUCAST := "AT+SENDUCAST"

  function HostFields(addr: string, src: nat, dst: nat, profile: nat, cluster: nat): seq<string> {
    [addr, FmtX(2, src), FmtX(2, dst), FmtX(4, profile), FmtX(4, cluster)]
  }

  /** The command `senducast` sends. */
  function HostSend(addr: string, src: nat, dst: nat, profile: nat, cluster: nat, text: string): string {
    SENDUCAST + ":" + addr + "," + FmtX(2, src) + "," + FmtX(2, dst) + "," + FmtX(4, profile) + ","
    + FmtX(4, cluster) + "," + text
  }

  lemma TwoCommas(a: string, b: string, c: string)
    ensures a + "," + b + "," + c == a + "," + (b + "," + c)
  {
  }

  lemma Cons(x: string, xs: seq<string>, ys: seq<string>)
    ensures [x] + (xs + ys) == ([x] + xs) + ys
  {
  }

  /** Fields without commas, then anything. */
  lemma {:induction false} SplitJoined(fields: seq<string>, data: string)
    requires fields != [] && NoCommas(fields)
    ensures Split(Join(fields) + "," + data) == fields + Split(data)
  {
    var head, rest := fields[0], fields[1..];
    assert fields == [head] + rest;
    if rest == [] {
      SplitFirst(head, data);
    } else {
      SplitJoined(rest, data);
      TwoCommas(head, Join(rest), data);
      SplitFirst(head, Join(rest) + "," + data);
      Cons(head, rest, Split(data));
    }
  }

  lemma DropMore(fields: seq<string>, n: nat)
    ensures 0 < n < |fields| ==> fields[1..][n - 1..] == fields[n..]
  {
  }

  lemma {:induction false} SkipOnFields(p: Cursor, n: nat)
    ensures FieldsOf(SkipFields(p, n)) == if n < |FieldsOf(p)| then FieldsOf(p)[n..] else []
    decreases n
  {
    if n > 0 {
      var fields := FieldsOf(p);
      NextFieldTakesOne(p);
      SkipOnFields(NextField(p).1, n - 1);
      DropMore(fields, n);
    }
  }

  /** The data is found behind the fields, whatever it contains. */
  lemma DataFound(fields: seq<string>, data: string)
    requires fields != [] && NoCommas(fields)
    ensures SkipFields(Some(Join(fields) + "," + data), |fields|) == Some(data)
  {
    var text := Join(fields) + "," + data;
    SplitJoined(fields, data);
    SkipOnFields(Some(text), |fields|);
    var q := SkipFields(Some(text), |fields|);
    assert FieldsOf(q) == Split(data);
    JoinOfSplit(data);
    JoinOfSplit(q.value);
  }

  lemma JoinFive(a: string, b: string, c: string, d: string, e: string)
    ensures Join([a, b, c, d, e]) == a + "," + b + "," + c + "," + d + "," + e
  {
    JoinConcat([a], [b, c, d, e]);
    JoinConcat([b], [c, d, e]);
    JoinConcat([c], [d, e]);
    JoinConcat([d], [e]);
    assert [a] + [b, c, d, e] == [a, b, c, d, e];
    assert [b] + [c, d, e] == [b, c, d, e];
    assert [c] + [d, e] == [c, d, e];
    assert [d] + [e] == [d, e];
    Assoc(a, b, c, d, e);
  }

  lemma Assoc(a: string, b: string, c: string, d: string, e: string)
    ensures a + "," + (b + "," + (c + "," + (d + "," + e))) == a + "," + b + "," + c + "," + d + "," + e
  {
  }

  /** `parse_target` on five fields. */
  lemma TargetOfFields(s: string)
    requires |Split(s)| == 5
    ensures var f := Split(s);
            ParseTarget(Some(s)) == TargetOf(Some(f[0]), Some(f[1]), Some(f[2]), Some(f[3]), Some(f[4]))
  {
    var p0: Cursor := Some(s);
    NextFieldTakesOne(p0);
    var p1 := NextField(p0).1;
    NextFieldTakesOne(p1);
    var p2 := NextField(p1).1;
    NextFieldTakesOne(p2);
    var p3 := NextField(p2).1;
    NextFieldTakesOne(p3);
    NextFieldTakesOne(NextField(p3).1);
  }

  /** Five fields that hold this target. */
  predicate TargetFields(fields: seq<string>, t: Target) {
    && |fields| == 5 && Means(fields[0], t.dst) && Holds(fields[1], 2, t.srcEp) && Holds(fields[2], 2, t.dstEp)
    && Holds(fields[3], 4, t.profile) && Holds(fields[4], 4, t.cluster)
  }

  lemma TargetExactly(fields: seq<string>, t: Target)
    requires |fields| == 5
    ensures TargetOf(Some(fields[0]), Some(fields[1]), Some(fields[2]), Some(fields[3]), Some(fields[4])) == Some(t)
            <==> TargetFields(fields, t)
  {
    AddressExactly(fields[0], t.dst);
  }

  /** A printed number is a field of its width exactly when it fits. */
  lemma PrintedField(width: nat, v: nat)
    requires width == 2 || width == 4
    ensures ',' !in FmtX(width, v)
    ensures HexField(Some(FmtX(width, v)), width) == if v < Pow16(width) then Some(v) else None
  {
    NumberField(width, v, v);
    FmtXWidth(width, v);
  }

  /** The numbers fit their fields. */
  predicate Fit(src: nat, dst: nat, profile: nat, cluster: nat) {
    src < 0x100 && dst < 0x100 && profile < 0x1_0000 && cluster < 0x1_0000
  }

  predicate Sendable(addr: string, src: nat, dst: nat, profile: nat, cluster: nat) {
    Spelled(addr) && Fit(src, dst, profile, cluster)
  }

  lemma HostNoCommas(addr: string, src: nat, dst: nat, profile: nat, cluster: nat)
    requires ',' !in addr
    ensures NoCommas(HostFields(addr, src, dst, profile, cluster))
  {
    PrintedField(2, src);
    PrintedField(2, dst);
    PrintedField(4, profile);
    PrintedField(4, cluster);
  }

  /** What the host prints for its numbers holds them exactly if they fit. */
  lemma PrintedTarget(addr: string, src: nat, dst: nat, profile: nat, cluster: nat, t: Target)
    ensures TargetFields(HostFields(addr, src, dst, profile, cluster), t) <==>
            t == Target(t.dst, src, dst, profile, cluster) && Means(addr, t.dst) && Fit(src, dst, profile, cluster)
  {
    PowersOf16();
    NumberField(2, src, t.srcEp);
    NumberField(2, dst, t.dstEp);
    NumberField(4, profile, t.profile);
    NumberField(4, cluster, t.cluster);
  }

  lemma TargetParsed(fields: seq<string>, t: Target)
    requires |fields| == 5 && NoCommas(fields)
    ensures ParseTarget(Some(Join(fields))) == Some(t) <==> TargetFields(fields, t)
  {
    SplitOfJoin(fields);
    TargetOfFields(Join(fields));
    TargetExactly(fields, t);
  }

  lemma LineShape(addr: string, src: nat, dst: nat, profile: nat, cluster: nat, text: string)
    ensures HostSend(addr, src, dst, profile, cluster, text) ==
            SENDUCAST + (":" + (Join(HostFields(addr, src, dst, profile, cluster)) + "," + text))
  {
    JoinFive(addr, FmtX(2, src), FmtX(2, dst), FmtX(4, profile), FmtX(4, cluster));
    Regrouped(SENDUCAST, ":", addr, FmtX(2, src), FmtX(2, dst), FmtX(4, profile), FmtX(4, cluster), text);
  }

  lemma Regrouped(name: string, colon: string, a: string, b: string, c: string, d: string, e: string, text: string)
    ensures name + colon + a + "," + b + "," + c + "," + d + "," + e + "," + text
         == name + (colon + ((a + "," + b + "," + c + "," + d + "," + e) + "," + text))
  {
  }

  lemma TargetAndText(target: string, text: string)
    ensures var args := ":" + (target + "," + text);
            && args[0] == ':' && args[1..] == target + "," + text && args[1..|args| - |text| - 1] == target
  {
  }

  lemma DataCut(fields: seq<string>, text: string)
    requires |fields| == 5 && NoCommas(fields)
    ensures CutData(":" + (Join(fields) + "," + text)) == Some((Join(fields), text))
  {
    DataFound(fields, text);
    TargetAndText(Join(fields), text);
    CutAtText(":" + (Join(fields) + "," + text), text);
  }

  lemma CutAtText(args: string, data: string)
    requires args != "" && args[0] == ':' && SkipFields(Some(args[1..]), 5) == Some(data)
    ensures |data| + 2 <= |args| && CutData(args) == Some((args[1..|args| - |data| - 1], data))
  {
  }

  /** Five fields and data: accepted exactly if the fields hold the target and the data is not too long. */
  lemma SendOfFields(fields: seq<string>, text: string, t: Target)
    requires |fields| == 5 && NoCommas(fields)
    ensures var r := ParseSend(":" + (Join(fields) + "," + text));
            && (r == Ok((t, text)) <==> TargetFields(fields, t) && |text| <= PAYLOAD_MAX)
            && (r.Ok? ==> r.value.1 == text)
            && (r.Err? ==> r.code == if |text| > PAYLOAD_MAX then AT_ERR_MSG_TOO_LONG else AT_ERR_INVALID_PARAM)
  {
    DataCut(fields, text);
    TargetParsed(fields, t);
  }

  /** Every argument behind a colon with five commas is such fields and data; without them nothing is sent. */
  lemma SendShape(args: string)
    ensures var fields := if args == "" then [""] else Split(args[1..]);
            if args != "" && args[0] == ':' && |fields| > 5
            then NoCommas(fields[..5]) && args == ":" + (Join(fields[..5]) + "," + Join(fields[5..]))
            else ParseSend(args) == Err(AT_ERR_INVALID_PARAM)
  {
    if args != "" && args[0] == ':' {
      var rest := args[1..];
      if |Split(rest)| > 5 {
        JoinedApart(rest, 5);
        assert args == ":" + rest;
      } else {
        SkipOnFields(Some(rest), 5);
        assert SkipFields(Some(rest), 5) == None;
      }
    }
  }

  lemma JoinedApart(s: string, n: nat)
    requires 0 < n < |Split(s)|
    ensures NoCommas(Split(s)[..n]) && s == Join(Split(s)[..n]) + "," + Join(Split(s)[n..])
  {
    var fields := Split(s);
    JoinOfSplit(s);
    JoinConcat(fields[..n], fields[n..]);
    assert fields[..n] + fields[n..] == fields;
  }

  /** The fields the firmware sees: an address with commas is several of them. */
  function SentFields(addr: string, src: nat, dst: nat, profile: nat, cluster: nat): (fields: seq<string>)
    ensures |fields| >= 5
  {
    Split(addr) + HostFields(addr, src, dst, profile, cluster)[1..]
  }

  /** What of them is taken for data. */
  function Shifted(fields: seq<string>): string {
    if |fields| <= 5 then "" else Join(fields[5..]) + ","
  }

  lemma SentJoined(addr: string, src: nat, dst: nat, profile: nat, cluster: nat)
    ensures var fields := SentFields(addr, src, dst, profile, cluster);
            NoCommas(fields) && Join(fields) == Join(HostFields(addr, src, dst, profile, cluster))
  {
    var numbers := HostFields(addr, src, dst, profile, cluster)[1..];
    PrintedField(2, src);
    PrintedField(2, dst);
    PrintedField(4, profile);
    PrintedField(4, cluster);
    JoinOfSplit(addr);
    JoinConcat(Split(addr), numbers);
    JoinConcat([addr], numbers);
    assert [addr] + numbers == HostFields(addr, src, dst, profile, cluster);
  }

  lemma CutBehindFive(fields: seq<string>, text: string)
    requires |fields| >= 5 && NoCommas(fields)
    ensures Join(fields) + "," + text == Join(fields[..5]) + "," + (Shifted(fields) + text)
  {
    if |fields| > 5 {
      JoinConcat(fields[..5], fields[5..]);
      assert fields[..5] + fields[5..] == fields;
      Further(Join(fields[..5]), Join(fields[5..]), text);
    } else {
      assert fields[..5] == fields;
      Nothing(text);
    }
  }

  lemma Further(a: string, b: string, text: string)
    ensures a + "," + b + "," + text == a + "," + (b + "," + text)
  {
  }

  /** Any command of the host, with any address: five fields for the target, everything behind them is the data. */
  lemma SendCut(addr: string, src: nat, dst: nat, profile: nat, cluster: nat, text: string)
    ensures var line := HostSend(addr, src, dst, profile, cluster, text);
            var fields := SentFields(addr, src, dst, profile, cluster);
            && line[..|SENDUCAST|] == SENDUCAST
            && ParseSend(line[|SENDUCAST|..]) == CheckParts(Join(fields[..5]), Shifted(fields) + text)
  {
    var fields := SentFields(addr, src, dst, profile, cluster);
    LineShape(addr, src, dst, profile, cluster, text);
    SentJoined(addr, src, dst, profile, cluster);
    CutBehind(SENDUCAST, ":" + (Join(fields) + "," + text));
    CutBehindFive(fields, text);
    DataCut(fields[..5], Shifted(fields) + text);
  }

  lemma OneField(addr: string, src: nat, dst: nat, profile: nat, cluster: nat)
    requires ',' !in addr
    ensures SentFields(addr, src, dst, profile, cluster) == HostFields(addr, src, dst, profile, cluster)
  {
    SplitOfJoin([addr]);
  }

  lemma MoreThanOne(addr: string)
    ensures ',' in addr <==> |Split(addr)| > 1
  {
    JoinOfSplit(addr);
    if ',' !in addr {
      SplitOfJoin([addr]);
    }
  }

  /** An address of several fields leaves more behind the fifth comma than the host's data. */
  lemma NotSent(addr: string, src: nat, dst: nat, profile: nat, cluster: nat, text: string, t: Target)
    requires ',' in addr
    ensures !ReadAs(addr, src, dst, profile, cluster, text, t)
  {
    var fields := SentFields(addr, src, dst, profile, cluster);
    MoreThanOne(addr);
    SendCut(addr, src, dst, profile, cluster, text);
    assert |Shifted(fields) + text| > |text|;
  }

  /** The host's command is read as this target and the host's data. */
  predicate ReadAs(addr: string, src: nat, dst: nat, profile: nat, cluster: nat, text: string, t: Target) {
    ParseSend(HostSend(addr, src, dst, profile, cluster, text)[|SENDUCAST|..]) == Ok((t, text))
  }

  /**
   The firmware reads the host's command as a target and the data the host meant, whatever commas the data
   contains, if and only if the address says the target's, the numbers are the target's and fit their fields, and
   the data is not too long.
   */
  lemma SendRoundTrip(addr: string, src: nat, dst: nat, profile: nat, cluster: nat, text: string, t: Target)
    ensures ReadAs(addr, src, dst, profile, cluster, text, t) <==>
            && t == Target(t.dst, src, dst, profile, cluster)
            && Means(addr, t.dst) && Fit(src, dst, profile, cluster) && |text| <= PAYLOAD_MAX
  {
    if ',' in addr {
      NotSent(addr, src, dst, profile, cluster, text, t);
      MeansNothing(addr, t.dst);
    } else {
      OneFieldSent(addr, src, dst, profile, cluster, text, t);
    }
  }

  lemma MeansNothing(addr: string, a: Address)
    requires ',' in addr
    ensures !Means(addr, a)
  {
    AddressExactly(addr, a);
    if Spelled(addr) {
      AddressTypable(addr);
    }
  }

  lemma SentArgs(addr: string, src: nat, dst: nat, profile: nat, cluster: nat, text: string)
    ensures HostSend(addr, src, dst, profile, cluster, text)[|SENDUCAST|..] ==
            ":" + (Join(HostFields(addr, src, dst, profile, cluster)) + "," + text)
  {
    LineShape(addr, src, dst, profile, cluster, text);
    CutBehind(SENDUCAST, ":" + (Join(HostFields(addr, src, dst, profile, cluster)) + "," + text));
  }

  lemma OneFieldSent(addr: string, src: nat, dst: nat, profile: nat, cluster: nat, text: string, t: Target)
    requires ',' !in addr
    ensures ReadAs(addr, src, dst, profile, cluster, text, t) <==>
            && t == Target(t.dst, src, dst, profile, cluster)
            && Means(addr, t.dst) && Fit(src, dst, profile, cluster) && |text| <= PAYLOAD_MAX
  {
    HostNoCommas(addr, src, dst, profile, cluster);
    SentArgs(addr, src, dst, profile, cluster, text);
    SendOfFields(HostFields(addr, src, dst, profile, cluster), text, t);
    PrintedTarget(addr, src, dst, profile, cluster, t);
  }

  /** An address that is one field is refused otherwise. */
  lemma SendRefused(addr: string, src: nat, dst: nat, profile: nat, cluster: nat, text: string)
    requires ',' !in addr && !(Sendable(addr, src, dst, profile, cluster) && |text| <= PAYLOAD_MAX)
    ensures ParseSend(HostSend(addr, src, dst, profile, cluster, text)[|SENDUCAST|..]) ==
            Err(if |text| > PAYLOAD_MAX then AT_ERR_MSG_TOO_LONG else AT_ERR_INVALID_PARAM)
  {
    var r := ParseSend(HostSend(addr, src, dst, profile, cluster, text)[|SENDUCAST|..]);
    var t := if r.Ok? then r.value.0 else Target(Short(0), 0, 0, 0, 0);
    HostNoCommas(addr, src, dst, profile, cluster);
    SentArgs(addr, src, dst, profile, cluster, text);
    SendOfFields(HostFields(addr, src, dst, profile, cluster), text, t);
    PrintedTarget(addr, src, dst, profile, cluster, t);
    AddressExactly(addr, t.dst);
  }

  lemma AddressTypable(addr: string)
    requires Spelled(addr)
    ensures |addr| <= 16 && ',' !in addr && forall k :: 0 <= k < |addr| ==> LineEditor.Typable(addr[k])
  {
    assert HexNibble(',') == -1;
    assert HexNibble('\r') == -1 && HexNibble('\n') == -1;
    assert HexNibble(LineEditor.BS) == -1 && HexNibble(LineEditor.DEL) == -1;
  }

  predicate AllTypable(s: string) {
    forall k :: 0 <= k < |s| ==> LineEditor.Typable(s[k])
  }

  lemma {:induction false} JoinTypable(fields: seq<string>)
    requires forall i :: 0 <= i < |fields| ==> AllTypable(fields[i]) && |fields[i]| <= 16
    ensures AllTypable(Join(fields)) && |Join(fields)| <= 17 * |fields|
  {
    if fields != [] {
      JoinTypable(fields[1..]);
    }
  }

  lemma TypableConcat(a: string, b: string)
    requires AllTypable(a) && AllTypable(b)
    ensures AllTypable(a + b)
  {
  }

  lemma NumbersTypable(width: nat, v: nat)
    requires width == 2 || width == 4
    requires v < if width == 2 then 0x100 else 0x1_0000
    ensures |FmtX(width, v)| == width && AllTypable(FmtX(width, v))
  {
    PowersOf16();
    FmtXWidth(width, v);
    HexTypable(FmtX(width, v));
  }

  /** Whatever can be sent fits one command line; if its data can be typed, the editor hands over that line. */
  lemma SendFitsOneLine(addr: string, src: nat, dst: nat, profile: nat, cluster: nat, text: string)
    requires Sendable(addr, src, dst, profile, cluster) && |text| <= PAYLOAD_MAX && AllTypable(text)
    ensures var line := HostSend(addr, src, dst, profile, cluster, text);
            LineEditor.Sendable(line) && LineEditor.Lines(LineEditor.EMPTY, line + "\r") == [line]
  {
    var fields := HostFields(addr, src, dst, profile, cluster);
    AddressTypable(addr);
    NumbersTypable(2, src);
    NumbersTypable(2, dst);
    NumbersTypable(4, profile);
    NumbersTypable(4, cluster);
    JoinTypable(fields);
    LineShape(addr, src, dst, profile, cluster, text);
    TypableConcat(Join(fields), ",");
    TypableConcat(Join(fields) + ",", text);
    TypableConcat(":", Join(fields) + "," + text);
    TypableConcat(SENDUCAST, ":" + (Join(fields) + "," + text));
    LineEditor.SentLineArrives(HostSend(addr, src, dst, profile, cluster, text));
  }

  // ------------------------------------------------------------ in place

  /** What a field pointer points at, read before the next field is taken. */
  method TakeField(buf: array<char>, p: int) returns (field: Cursor, rest: int)
    requires Points(buf[..], p)
    modifies buf
    ensures Points(buf[..], rest) && (field, Text(buf[..], rest)) == NextField(old(Text(buf[..], p)))
  {
    var at: int;
    at, rest := NextFieldInPlace(buf, p);
    field := Text(buf[..], at);
  }

  /** `parse_target`. */
  method ReadTarget(buf: array<char>, p0: int) returns (target: Option<Target>)
    requires Points(buf[..], p0)
    modifies buf
    ensures target == ParseTarget(old(Text(buf[..], p0)))
  {
    var addr, p1 := TakeField(buf, p0);
    var src, p2 := TakeField(buf, p1);
    var dst, p3 := TakeField(buf, p2);
    var profile, p4 := TakeField(buf, p3);
    var cluster: Cursor := None;
    if p4 >= 0 {
      var p5: int;
      cluster, p5 := TakeField(buf, p4);
    }
    target := TargetOf(addr, src, dst, profile, cluster);
  }

  /** A pointer reached from `p` over commas, or NULL. */
  predicate Reached(buf: string, p: nat, q: int) {
    Points(buf, q) && (q >= 0 ==> q >= p && forall k :: p <= k < q ==> buf[k] != '\0')
  }

  /** Where `strchr` stops is where `next_field` would cut. */
  lemma StopMeansNext(buf: string, p: nat, q: nat, i: nat)
    requires Points(buf, q) && Reached(buf, p, q) && StopsAt(buf, q, i) && '\0' in buf[i..]
    ensures var next := if buf[i] == ',' then i + 1 else -1;
            Reached(buf, p, next) && NextField(Text(buf, q)).1 == Text(buf, next)
  {
    if buf[i] == ',' {
      TakenField(buf, q, i);
      assert buf[i := '\0'][i + 1..] == buf[i + 1..];
    } else {
      LastField(buf, q, i);
    }
  }

  lemma SkipStep(p: Cursor, n: nat)
    requires n > 0
    ensures SkipFields(p, n) == SkipFields(NextField(p).1, n - 1)
  {
  }

  lemma {:induction false} SkipNothing(n: nat)
    ensures SkipFields(None, n) == None
    decreases n
  {
    if n > 0 {
      SkipNothing(n - 1);
    }
  }

  /** The `strchr` calls for `n` commas. */
  method FindData(buf: array<char>, p: nat, n: nat) returns (comma: int)
    requires Points(buf[..], p) && n > 0
    ensures Reached(buf[..], p, comma) && Text(buf[..], comma) == SkipFields(Text(buf[..], p), n)
    ensures comma >= 0 ==> comma > p && buf[comma - 1] == ','
  {
    comma := p;
    ghost var cursor, data := Text(buf[..], p), SkipFields(Text(buf[..], p), n);
    var i := 0;
    while i < n && comma >= 0
      invariant i <= n && Reached(buf[..], p, comma) && cursor == Text(buf[..], comma)
      invariant SkipFields(cursor, n - i) == data
      invariant comma >= 0 && i > 0 ==> comma > p && buf[comma - 1] == ','
    {
      var at := FindComma(buf, comma);
      StopMeansNext(buf[..], p, comma, at);
      SkipStep(cursor, n - i);
      cursor := NextField(cursor).1;
      comma := if buf[at] == ',' then at + 1 else -1;
      i := i + 1;
    }
    if comma < 0 {
      SkipNothing(n - i);
    }
  }

  /** Cutting at the last of these commas leaves the fields in front and the data behind. */
  lemma CutAtData(buf: string, comma: nat)
    requires Points(buf, 0) && buf[0] == ':' && Reached(buf, 1, comma) && comma > 1 && buf[comma - 1] == ','
    ensures var cut, args, data := buf[comma - 1 := '\0'], CString(buf), CString(buf[comma..]);
            && Points(cut, 1) && Points(cut, comma)
            && Text(cut, comma) == Some(data) && |data| + 2 <= |args|
            && Text(cut, 1) == Some(args[1..|args| - |data| - 1])
  {
    var cut, args := buf[comma - 1 := '\0'], CString(buf);
    assert forall k :: 0 <= k < comma ==> buf[k] != '\0';
    assert IndexOf(buf, '\0') >= comma;
    CStringCut(buf, comma);
    assert cut[comma..] == buf[comma..];
    CStringEnds(cut[1..], comma - 2);
    assert cut[1..][comma - 2] == '\0';
    assert cut[1..][..comma - 2] == args[1..comma - 1];
  }

  /** Writes the terminator over the fifth comma; `data` is behind it. */
  method CutInPlace(args: array<char>) returns (data: int)
    requires Points(args[..], 0)
    modifies args
    ensures Points(args[..], data) && (data >= 0 ==> Points(args[..], 1))
    ensures CutData(CString(old(args[..]))) ==
            if data < 0 then None else Some((Text(args[..], 1).value, Text(args[..], data).value))
  {
    if args[0] != ':' {
      return -1;
    }
    SkipOne(args[..]);
    data := FindData(args, 1, 5);
    if data >= 0 {
      CutAtData(args[..], data);
      args[data - 1] := '\0';
      assert args[..] == old(args[..])[data - 1 := '\0'];
    }
  }

  /** `cmd_senducast` up to the sending. */
  method CmdSenducast(args: array<char>, joined: bool) returns (r: Result<(Target, string)>)
    requires Points(args[..], 0)
    modifies args
    ensures r == if !joined then Err(AT_ERR_NOT_JOINED) else ParseSend(CString(old(args[..])))
  {
    if !joined {
      return Err(AT_ERR_NOT_JOINED);
    }
    var at := CutInPlace(args);
    if at < 0 {
      return Err(AT_ERR_INVALID_PARAM);
    }
    var data := Text(args[..], at).value;
    if |data| > PAYLOAD_MAX {
      return Err(AT_ERR_MSG_TOO_LONG);
    }
    var target := ReadTarget(args, 1);
    r := if target.None? then Err(AT_ERR_INVALID_PARAM) else Ok((target.value, data));
  }
}
