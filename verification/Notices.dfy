/**
 The one-line prompts of the firmware (`at_print` in app/src/at_cmd.c, app/src/zb_core.c and
 app/src/zb_msg.c) and what the host makes of them.
 */
module Notices {
  import opened AtFmt
  import opened CText
  import opened TextFields
  import opened Prompts
  import opened Printer
  import opened Streams
  import opened Wrappers
  import UartTx
  import LineReader

  type Ieee = b: seq<uint8> | |b| == 8 witness [0, 0, 0, 0, 0, 0, 0, 0]

  datatype Notice =
    | Done
    | Failed(code: uint8)
    | Sent(seq_: uint8)
    | Delivered(seq_: uint8)
    | Undelivered(seq_: uint8)
    | Joined(channel: uint8, pan: uint16, epid: Ieee)
    | Left
    | NewDevice(nwk: uint16, ieee: Ieee)
    | DeviceLeft(nwk: uint16, ieee: Ieee)
    | Announced(capability: uint8, ieee: Ieee, nwk: uint16)
    | Matched(nwk: uint16, status: uint8, endpoints: seq<uint8>)

  const CAP_DEVICE_TYPE_FFD := 1
  const CAP_RX_ON_WHEN_IDLE := 3

  /** The word `print_announce` finds for a device. */
  function DeviceText(capability: uint8): string {
    if BitOf(capability, CAP_DEVICE_TYPE_FFD) == 1 then "FFD"
    else if BitOf(capability, CAP_RX_ON_WHEN_IDLE) == 1 then "ZED"
    else "SED"
  }

  lemma {:induction false} BitUp(m: nat, r: nat, b: nat)
    requires r < 2
    ensures BitOf(2 * m + r, b + 1) == BitOf(m, b) && BitOf(2 * m + r, 0) == r
  {
    Halved(m, r);
    BitBelow(2 * m + r, m, b);
  }

  lemma Halved(m: nat, r: nat)
    requires r < 2
    ensures (2 * m + r) / 2 == m && (2 * m + r) % 2 == r
  {
  }

  lemma {:induction false} BitBelow(v: nat, half: nat, b: nat)
    requires v / 2 == half
    ensures BitOf(v, b + 1) == BitOf(half, b)
  {
  }

  /** Every capability by its bits: bit 1 makes the device an FFD, else bit 3 a ZED; the others say nothing of it. */
  lemma DeviceWords(high: nat, b3: nat, b2: nat, b1: nat, b0: nat)
    requires high < 16 && b3 < 2 && b2 < 2 && b1 < 2 && b0 < 2
    ensures DeviceText(2 * (2 * (2 * (2 * high + b3) + b2) + b1) + b0) ==
            if b1 == 1 then "FFD" else if b3 == 1 then "ZED" else "SED"
  {
    var m3 := 2 * high + b3;
    var m2 := 2 * m3 + b2;
    var m1 := 2 * m2 + b1;
    BitUp(m1, b0, 0);
    BitUp(m1, b0, 2);
    BitUp(m2, b1, 0);
    BitUp(m2, b1, 1);
    BitUp(m3, b2, 0);
    BitUp(high, b3, 0);
  }

  /** `,%02X` of every byte. */
  function Pairs(bytes: seq<uint8>): string {
    if bytes == [] then "" else "," + FmtX(2, bytes[0]) + Pairs(bytes[1..])
  }

  /** How many endpoints fit behind the head in line[112]. */
  const MATCH_SHOWN := 31

  /** The endpoints `match_resp` prints: of a successful answer only, and as many as fit. */
  function ShownEndpoints(status: uint8, endpoints: seq<uint8>): seq<uint8> {
    if status != 0 then [] else if |endpoints| > MATCH_SHOWN then endpoints[..MATCH_SHOWN] else endpoints
  }

  function NoticeText(n: Notice): string {
    match n
    case Done => "OK"
    case Failed(code) => "ERROR:" + FmtX(2, code)
    case Sent(s) => "SEQ:" + FmtX(2, s)
    case Delivered(s) => "ACK:" + FmtX(2, s)
    case Undelivered(s) => "NACK:" + FmtX(2, s)
    case Joined(channel, pan, epid) => "JPAN:" + FmtU(channel) + "," + Join([FmtX(4, pan), HexRev(epid)])
    case Left => "LeftPAN"
    case NewDevice(nwk, ieee) => "NEWNODE:" + Join([FmtX(4, nwk), HexRev(ieee), "FFFF"])
    case DeviceLeft(nwk, ieee) => "NODELEFT:" + Join([FmtX(4, nwk), HexRev(ieee)])
    case Announced(d, ieee, nwk) => DeviceText(d) + ":" + Join([HexRev(ieee), FmtX(4, nwk)])
    case Matched(nwk, status, eps) =>
      "MatchDesc:" + Join([FmtX(4, nwk), FmtX(2, status)]) + Pairs(ShownEndpoints(status, eps))
  }

  /** What each says. */
  function NoticeMeaning(n: Notice): Prompt {
    match n
    case Done => Prompt.Ok
    case Failed(code) => Error(code)
    case Sent(s) => Seq(s)
    case Delivered(s) => Ack(s)
    case Undelivered(s) => Nack(s)
    case Joined(channel, pan, epid) => Jpan(channel, pan, HexRev(epid))
    case Left => LeftPan
    case NewDevice(nwk, ieee) => NewNode(nwk, HexRev(ieee), 0xFFFF)
    case DeviceLeft(nwk, ieee) => NodeLeft(nwk, HexRev(ieee))
    case Announced(d, ieee, nwk) => Announce(DeviceText(d), HexRev(ieee), nwk, None)
    case Matched(nwk, status, eps) => MatchDesc(nwk, status, ShownEndpoints(status, eps))
  }

  // ------------------------------------------------------------ each is read back

  lemma Behind0(lit: string, s: string)
    ensures After(lit, lit + s) == Some(s)
  {
  }

  /** Groups behind a literal. */
  lemma GroupsRead(lit: string, fields: seq<string>, widths: seq<nat>, rest: string)
    requires fields != [] && GroupsOf(fields, widths)
    ensures Groups(lit, widths, lit + (Join(fields) + rest)) == Some((fields, rest))
  {
    Behind0(lit, Join(fields) + rest);
    HexGroupsOfJoin(fields, widths, rest);
  }

  /** Groups and nothing behind them. */
  lemma GroupsReadAll(lit: string, fields: seq<string>, widths: seq<nat>)
    requires fields != [] && GroupsOf(fields, widths)
    ensures Groups(lit, widths, lit + Join(fields)) == Some((fields, ""))
  {
    GroupsRead(lit, fields, widths, "");
    Nothing(Join(fields));
  }

  lemma EuiGroup(b: Ieee)
    ensures |HexRev(b)| == 16 && UpperHex(HexRev(b))
  {
    HexRevRoundTrip(b);
  }

  lemma ByteNotice(v: uint8)
    ensures GroupsOf([FmtX(2, v)], [2]) && Num(FmtX(2, v)) == v
  {
    NumberGroup(2, v);
  }

  lemma OneGroup(lit: string, a: string)
    requires GroupsOf([a], [2])
    ensures Groups(lit, [2], lit + a) == Some(([a], ""))
  {
    GroupsReadAll(lit, [a], [2]);
  }

  /** Literals with different letters exclude each other. */
  lemma Excluded(line: string)
    requires line != ""
    ensures line[0] != 'O' ==> ParseOk(line) == None
    ensures line[0] != 'E' ==> ParseError(line) == None
    ensures line[0] != 'A' ==> ParseAck(line) == None
    ensures line[0] != 'J' ==> ParseJpan(line) == None
    ensures line[0] != 'L' ==> ParseLeft(line) == None
    ensures line[0] != 'M' ==> ParseMatchDesc(line) == None
  {
  }

  lemma ExcludedNext(line: string)
    requires |line| > 2
    ensures line[0] != 'S' || line[2] != 'Q' ==> ParseSeq(line) == None
    ensures line[0] != 'N' || line[1] != 'A' ==> ParseNack(line) == None
    ensures line[0] != 'N' || line[1] != 'E' ==> ParseNewNode(line) == None
    ensures line[0] != 'N' || line[1] != 'O' ==> ParseNodeLeft(line) == None
  {
  }

  lemma ReadDone()
    ensures ParsePrompt("OK", true) == Some(Prompt.Ok) == ParsePrompt("OK", false)
  {
    Nothing("OK");
    Behind0("OK", "");
  }

  lemma ReadLeft(h: bool)
    ensures ParsePrompt("LeftPAN", h) == Some(LeftPan)
  {
    Nothing("LeftPAN");
    Behind0("LeftPAN", "");
    Excluded("LeftPAN");
    ExcludedNext("LeftPAN");
  }

  lemma ReadError(v: uint8, h: bool)
    ensures ParsePrompt("ERROR:" + FmtX(2, v), h) == Some(Error(v))
  {
    ByteNotice(v);
    ErrorRead(FmtX(2, v), h);
  }

  lemma ErrorRead(a: string, h: bool)
    requires GroupsOf([a], [2])
    ensures ParsePrompt("ERROR:" + a, h) == Some(Error(Num(a)))
  {
    OneGroup("ERROR:", a);
    Excluded("ERROR:" + a);
  }

  lemma ReadSeq(v: uint8, h: bool)
    ensures ParsePrompt("SEQ:" + FmtX(2, v), h) == Some(Seq(v))
  {
    ByteNotice(v);
    SeqRead(FmtX(2, v), h);
  }

  lemma SeqRead(a: string, h: bool)
    requires GroupsOf([a], [2])
    ensures ParsePrompt("SEQ:" + a, h) == Some(Seq(Num(a)))
  {
    OneGroup("SEQ:", a);
    Excluded("SEQ:" + a);
  }

  lemma ReadAck(v: uint8, h: bool)
    ensures ParsePrompt("ACK:" + FmtX(2, v), h) == Some(Ack(v))
  {
    ByteNotice(v);
    AckRead(FmtX(2, v), h);
  }

  lemma AckRead(a: string, h: bool)
    requires GroupsOf([a], [2])
    ensures ParsePrompt("ACK:" + a, h) == Some(Ack(Num(a)))
  {
    OneGroup("ACK:", a);
    Excluded("ACK:" + a);
    ExcludedNext("ACK:" + a);
  }

  lemma ReadNack(v: uint8, h: bool)
    ensures ParsePrompt("NACK:" + FmtX(2, v), h) == Some(Nack(v))
  {
    ByteNotice(v);
    NackRead(FmtX(2, v), h);
  }

  lemma NackRead(a: string, h: bool)
    requires GroupsOf([a], [2])
    ensures ParsePrompt("NACK:" + a, h) == Some(Nack(Num(a)))
  {
    OneGroup("NACK:", a);
    Excluded("NACK:" + a);
    ExcludedNext("NACK:" + a);
  }

  lemma ReadNewDevice(nwk: uint16, ieee: Ieee, h: bool)
    ensures ParsePrompt("NEWNODE:" + Join([FmtX(4, nwk), HexRev(ieee), "FFFF"]), h) ==
            Some(NewNode(nwk, HexRev(ieee), 0xFFFF))
  {
    NumberGroup(4, nwk);
    EuiGroup(ieee);
    FourF();
    NewNodePrompt(FmtX(4, nwk), HexRev(ieee), "FFFF", h);
  }

  lemma NewNodePrompt(a: string, b: string, c: string, h: bool)
    requires GroupsOf([a, b, c], [4, 16, 4])
    ensures ParsePrompt("NEWNODE:" + Join([a, b, c]), h) == Some(NewNode(Num(a), b, Num(c)))
  {
    NewNodeRead(a, b, c);
    Excluded("NEWNODE:" + Join([a, b, c]));
    ExcludedNext("NEWNODE:" + Join([a, b, c]));
  }

  lemma NewNodeRead(a: string, b: string, c: string)
    requires GroupsOf([a, b, c], [4, 16, 4])
    ensures ParseNewNode("NEWNODE:" + Join([a, b, c])) == Some(NewNode(Num(a), b, Num(c)))
  {
    HexGroupsOfJoin([a, b, c], [4, 16, 4], "");
    Nothing(Join([a, b, c]));
    Behind0("NEWNODE:", Join([a, b, c]));
    NoSpace(a, [a, b, c]);
  }

  lemma FourF()
    ensures |"FFFF"| == 4 && UpperHex("FFFF") && Num("FFFF") == 0xFFFF
  {
    assert "FFFF"[..3] == "FFF" && "FFF"[..2] == "FF" && "FF"[..1] == "F" && "F"[..0] == "";
  }

  lemma NoSpace(first: string, fields: seq<string>)
    requires |fields| > 1 && fields[0] == first && first != "" && UpperHex(first)
    ensures DropSpace(Join(fields)) == Join(fields)
  {
    assert HexNibble(' ') == -1;
    assert Join(fields)[0] == first[0];
  }

  lemma ReadDeviceLeft(nwk: uint16, ieee: Ieee, h: bool)
    ensures ParsePrompt("NODELEFT:" + Join([FmtX(4, nwk), HexRev(ieee)]), h) == Some(NodeLeft(nwk, HexRev(ieee)))
  {
    NumberGroup(4, nwk);
    EuiGroup(ieee);
    NodeLeftPrompt(FmtX(4, nwk), HexRev(ieee), h);
  }

  lemma NodeLeftPrompt(a: string, b: string, h: bool)
    requires GroupsOf([a, b], [4, 16])
    ensures ParsePrompt("NODELEFT:" + Join([a, b]), h) == Some(NodeLeft(Num(a), b))
  {
    NodeLeftRead(a, b);
    Excluded("NODELEFT:" + Join([a, b]));
    ExcludedNext("NODELEFT:" + Join([a, b]));
  }

  lemma NodeLeftRead(a: string, b: string)
    requires GroupsOf([a, b], [4, 16])
    ensures ParseNodeLeft("NODELEFT:" + Join([a, b])) == Some(NodeLeft(Num(a), b))
  {
    HexGroupsOfJoin([a, b], [4, 16], "");
    Nothing(Join([a, b]));
    Behind0("NODELEFT:", Join([a, b]));
    NoSpace(a, [a, b]);
  }

  lemma JpanSplit(lit: string, channel: string, rest: string)
    ensures lit + channel + "," + rest == lit + (channel + "," + rest)
  {
  }

  lemma ReadJoined(channel: uint8, pan: uint16, epid: Ieee, h: bool)
    ensures ParsePrompt("JPAN:" + FmtU(channel) + "," + Join([FmtX(4, pan), HexRev(epid)]), h) ==
            Some(Jpan(channel, pan, HexRev(epid)))
  {
    NumberGroup(4, pan);
    EuiGroup(epid);
    JpanPrompt(channel, FmtX(4, pan), HexRev(epid), h);
  }

  lemma JpanPrompt(channel: uint8, a: string, b: string, h: bool)
    requires GroupsOf([a, b], [4, 16])
    ensures ParsePrompt("JPAN:" + FmtU(channel) + "," + Join([a, b]), h) == Some(Jpan(channel, Num(a), b))
  {
    JpanRead(channel, a, b);
    Excluded("JPAN:" + FmtU(channel) + "," + Join([a, b]));
    ExcludedNext("JPAN:" + FmtU(channel) + "," + Join([a, b]));
  }

  lemma JpanRead(channel: uint8, a: string, b: string)
    requires GroupsOf([a, b], [4, 16])
    ensures ParseJpan("JPAN:" + FmtU(channel) + "," + Join([a, b])) == Some(Jpan(channel, Num(a), b))
  {
    var rest := Join([a, b]);
    HexGroupsOfJoin([a, b], [4, 16], "");
    Nothing(rest);
    JpanSplit("JPAN:", FmtU(channel), rest);
    Behind0("JPAN:", FmtU(channel) + "," + rest);
    CommaBetween(FmtU(channel), rest);
    RunBeforeComma(FmtU(channel), rest);
  }

  lemma KindSplit(kind: string, rest: string)
    requires |kind| == 3
    ensures var line := kind + ":" + rest; line[..3] == kind && line[3..] == ":" + rest
  {
  }

  lemma ReadAnnounced(d: uint8, ieee: Ieee, nwk: uint16, h: bool)
    ensures ParsePrompt(DeviceText(d) + ":" + Join([HexRev(ieee), FmtX(4, nwk)]), h) ==
            Some(Announce(DeviceText(d), HexRev(ieee), nwk, None))
  {
    NumberGroup(4, nwk);
    EuiGroup(ieee);
    AnnouncePrompt(DeviceText(d), HexRev(ieee), FmtX(4, nwk), h);
  }

  lemma AnnouncePrompt(kind: string, a: string, b: string, h: bool)
    requires kind in {"FFD", "ZED", "SED"} && GroupsOf([a, b], [16, 4])
    ensures ParsePrompt(kind + ":" + Join([a, b]), h) == Some(Announce(kind, a, Num(b), None))
  {
    var line := kind + ":" + Join([a, b]);
    AnnounceRead(kind, a, b);
    assert line[0] == kind[0] && line[2] == kind[2];
    Excluded(line);
    ExcludedNext(line);
  }

  lemma AnnounceRead(kind: string, a: string, b: string)
    requires kind in {"FFD", "ZED", "SED"} && GroupsOf([a, b], [16, 4])
    ensures ParseAnnounce(kind + ":" + Join([a, b])) == Some(Announce(kind, a, Num(b), None))
  {
    GroupsReadAll(":", [a, b], [16, 4]);
    KindSplit(kind, Join([a, b]));
    AnnounceGroups(kind + ":" + Join([a, b]), [a, b]);
  }

  lemma AnnounceGroups(line: string, g: seq<string>)
    requires |line| >= 3 && line[..3] in {"FFD", "ZED", "SED"} && |g| == 2
    requires Groups(":", [16, 4], line[3..]) == Some((g, ""))
    ensures ParseAnnounce(line) == Some(Announce(line[..3], g[0], Num(g[1]), None))
  {
  }

  lemma {:induction false} PairsRead(bytes: seq<uint8>)
    ensures HexPairs(Pairs(bytes)) == Some(bytes)
    ensures |Pairs(bytes)| == 3 * |bytes|
    decreases |bytes|
  {
    if bytes != [] {
      NumberGroup(2, bytes[0]);
      PairInFront(FmtX(2, bytes[0]), Pairs(bytes[1..]));
      PairsRead(bytes[1..]);
      assert bytes == [bytes[0]] + bytes[1..];
    }
  }

  lemma PairInFront(pair: string, rest: string)
    requires |pair| == 2
    ensures var s := "," + pair + rest; |s| >= 3 && s[0] == ',' && s[1..3] == pair && s[3..] == rest
  {
  }

  lemma ReadMatched(nwk: uint16, status: uint8, eps: seq<uint8>, h: bool)
    ensures ParsePrompt("MatchDesc:" + Join([FmtX(4, nwk), FmtX(2, status)]) + Pairs(eps), h) ==
            Some(MatchDesc(nwk, status, eps))
  {
    NumberGroup(4, nwk);
    NumberGroup(2, status);
    MatchDescPrompt(FmtX(4, nwk), FmtX(2, status), eps, h);
  }

  lemma MatchDescPrompt(a: string, b: string, eps: seq<uint8>, h: bool)
    requires GroupsOf([a, b], [4, 2])
    ensures ParsePrompt("MatchDesc:" + Join([a, b]) + Pairs(eps), h) == Some(MatchDesc(Num(a), Num(b), eps))
  {
    MatchDescRead(a, b, eps);
    Excluded("MatchDesc:" + Join([a, b]) + Pairs(eps));
    ExcludedNext("MatchDesc:" + Join([a, b]) + Pairs(eps));
  }

  lemma MatchDescRead(a: string, b: string, eps: seq<uint8>)
    requires GroupsOf([a, b], [4, 2])
    ensures ParseMatchDesc("MatchDesc:" + Join([a, b]) + Pairs(eps)) == Some(MatchDesc(Num(a), Num(b), eps))
  {
    PairsRead(eps);
    Regroup("MatchDesc:", Join([a, b]), Pairs(eps));
    GroupsRead("MatchDesc:", [a, b], [4, 2], Pairs(eps));
  }

  lemma ReadShort(n: Notice, h: bool)
    requires n.Done? || n.Left? || n.Failed? || n.Sent? || n.Delivered? || n.Undelivered?
    ensures ParsePrompt(NoticeText(n), h) == Some(NoticeMeaning(n))
  {
    match n
    case Done => ReadDone();
    case Left => ReadLeft(h);
    case Failed(code) => ReadError(code, h);
    case Sent(s) => ReadSeq(s, h);
    case Delivered(s) => ReadAck(s, h);
    case Undelivered(s) => ReadNack(s, h);
  }

  lemma ReadDevice(n: Notice, h: bool)
    requires n.NewDevice? || n.DeviceLeft?
    ensures ParsePrompt(NoticeText(n), h) == Some(NoticeMeaning(n))
  {
    DeviceTexts(n);
    match n
    case NewDevice(nwk, ieee) => ReadNewDevice(nwk, ieee, h);
    case DeviceLeft(nwk, ieee) => ReadDeviceLeft(nwk, ieee, h);
  }

  /** The device notices, spelled out. */
  lemma DeviceTexts(n: Notice)
    requires n.NewDevice? || n.DeviceLeft? || n.Announced?
    ensures n.NewDevice? ==> NoticeText(n) == "NEWNODE:" + Join([FmtX(4, n.nwk), HexRev(n.ieee), "FFFF"])
    ensures n.DeviceLeft? ==> NoticeText(n) == "NODELEFT:" + Join([FmtX(4, n.nwk), HexRev(n.ieee)])
    ensures n.Announced? ==> NoticeText(n) == DeviceText(n.capability) + ":" + Join([HexRev(n.ieee), FmtX(4, n.nwk)])
    ensures NoticeMeaning(n) == match n
                                case NewDevice(nwk, ieee) => NewNode(nwk, HexRev(ieee), 0xFFFF)
                                case DeviceLeft(nwk, ieee) => NodeLeft(nwk, HexRev(ieee))
                                case Announced(d, ieee, nwk) => Announce(DeviceText(d), HexRev(ieee), nwk, None)
  {
  }

  lemma ReadAnnouncement(n: Notice, h: bool)
    requires n.Announced?
    ensures ParsePrompt(NoticeText(n), h) == Some(NoticeMeaning(n))
  {
    DeviceTexts(n);
    ReadAnnounced(n.capability, n.ieee, n.nwk, h);
  }

  /** The host reads every notice of the firmware as what it says. */
  lemma NoticeRoundTrip(n: Notice, rxHex: bool)
    ensures ParsePrompt(NoticeText(n), rxHex) == Some(NoticeMeaning(n))
  {
    match n
    case Joined(c, p, e) => ReadJoined(c, p, e, rxHex);
    case Matched(nwk, st, eps) => ReadMatched(nwk, st, ShownEndpoints(st, eps), rxHex);
    case NewDevice(_, _) => ReadDevice(n, rxHex);
    case DeviceLeft(_, _) => ReadDevice(n, rxHex);
    case Announced(_, _, _) => ReadAnnouncement(n, rxHex);
    case _ => ReadShort(n, rxHex);
  }

  // ------------------------------------------------------------ printing

  lemma {:induction false} PairsSnoc(bytes: seq<uint8>, b: uint8)
    ensures Pairs(bytes + [b]) == Pairs(bytes) + ("," + FmtX(2, b))
  {
    if bytes == [] {
      assert [] + [b] == [b] && [b][1..] == [];
      Nothing("," + FmtX(2, b));
    } else {
      assert (bytes + [b])[1..] == bytes[1..] + [b];
      PairsSnoc(bytes[1..], b);
      Regroup("," + FmtX(2, bytes[0]), Pairs(bytes[1..]), "," + FmtX(2, b));
    }
  }

  lemma JoinTwo(a: string, b: string)
    ensures |Join([a, b])| == |a| + 1 + |b|
  {
    assert [a, b][1..] == [b];
  }

  lemma OneEndpointMore(head: string, endpoints: seq<uint8>, i: nat)
    requires i < |endpoints|
    ensures |FmtX(2, endpoints[i])| == 2
    ensures head + Pairs(endpoints[..i + 1]) == head + Pairs(endpoints[..i]) + ("," + FmtX(2, endpoints[i]))
  {
    assert endpoints[..i + 1] == endpoints[..i] + [endpoints[i]];
    NumberGroup(2, endpoints[i]);
    PairsSnoc(endpoints[..i], endpoints[i]);
    Regroup(head, Pairs(endpoints[..i]), "," + FmtX(2, endpoints[i]));
  }

  lemma MatchHeadLength(nwk: uint16, status: uint8)
    ensures |"MatchDesc:" + Join([FmtX(4, nwk), FmtX(2, status)])| == 17
  {
    JoinTwo(FmtX(4, nwk), FmtX(2, status));
    NumberGroup(4, nwk);
    NumberGroup(2, status);
  }

  /** The line `match_resp` builds in line[112]. */
  method MatchLine(nwk: uint16, status: uint8, endpoints: seq<uint8>) returns (line: string)
    ensures line == NoticeText(Matched(nwk, status, endpoints)) && |line| < 112
  {
    var head := "MatchDesc:" + Join([FmtX(4, nwk), FmtX(2, status)]);
    MatchHeadLength(nwk, status);
    line := head;
    Nothing(head);
    var i := 0;
    while status == 0 && i < |endpoints| && |line| + 3 < 112
      invariant i <= |endpoints| && (status != 0 ==> i == 0)
      invariant line == head + Pairs(endpoints[..i]) && |line| == 17 + 3 * i && i <= MATCH_SHOWN
    {
      OneEndpointMore(head, endpoints, i);
      line := line + ("," + FmtX(2, endpoints[i]));
      i := i + 1;
    }
    ShownAre(status, endpoints, i);
  }

  lemma ShownAre(status: uint8, endpoints: seq<uint8>, i: nat)
    requires i <= |endpoints| && i <= MATCH_SHOWN
    requires if status != 0 then i == 0 else i == |endpoints| || i == MATCH_SHOWN
    ensures endpoints[..i] == ShownEndpoints(status, endpoints)
  {
  }

  lemma ByteFits(v: uint8)
    ensures |FmtX(2, v)| == 2 && LineReader.OneLine(FmtX(2, v))
  {
    NumberGroup(2, v);
    UpperOneLine(FmtX(2, v));
  }

  lemma {:induction false} PairsOneLine(bytes: seq<uint8>)
    ensures LineReader.OneLine(Pairs(bytes))
    decreases |bytes|
  {
    if bytes != [] {
      ByteFits(bytes[0]);
      PairsOneLine(bytes[1..]);
    }
  }

  lemma {:induction false} FieldsFit(fields: seq<string>)
    requires forall i :: 0 <= i < |fields| ==> |fields[i]| <= 16 && UpperHex(fields[i])
    ensures |Join(fields)| <= 17 * |fields| && LineReader.OneLine(Join(fields))
  {
    if fields != [] {
      UpperOneLine(fields[0]);
      FieldsFit(fields[1..]);
    }
  }

  lemma Prefixed(lit: string, s: string, n: nat)
    requires LineReader.OneLine(lit) && LineReader.OneLine(s) && |lit| + |s| < n
    ensures LineReader.OneLine(lit + s) && |lit + s| < n
  {
  }

  predicate Fits(n: Notice) {
    var s := NoticeText(n);
    |s| < 256 && LineReader.OneLine(s) && s != "" && s[0] != '>'
  }

  lemma AddressFits(nwk: uint16, ieee: Ieee)
    ensures |FmtX(4, nwk)| <= 16 && UpperHex(FmtX(4, nwk)) && |HexRev(ieee)| <= 16 && UpperHex(HexRev(ieee))
  {
    NumberGroup(4, nwk);
    EuiGroup(ieee);
  }

  lemma JoinedFits(channel: uint8, pan: uint16, epid: Ieee)
    ensures Fits(Joined(channel, pan, epid))
  {
    AddressFits(pan, epid);
    DigitsOneLine(FmtU(channel));
    var fields := [FmtX(4, pan), HexRev(epid)];
    FieldsFit(fields);
    Prefixed("JPAN:", FmtU(channel), 9);
    Prefixed("JPAN:" + FmtU(channel), ",", 10);
    Prefixed("JPAN:" + FmtU(channel) + ",", Join(fields), 256);
  }

  lemma MatchHeadFits(nwk: uint16, status: uint8)
    ensures var s := Join([FmtX(4, nwk), FmtX(2, status)]); |s| < 40 && LineReader.OneLine(s)
  {
    NumberGroup(4, nwk);
    NumberGroup(2, status);
    FieldsFit([FmtX(4, nwk), FmtX(2, status)]);
  }

  lemma PairsFit(bytes: seq<uint8>)
    requires |bytes| <= MATCH_SHOWN
    ensures |Pairs(bytes)| < 100 && LineReader.OneLine(Pairs(bytes))
  {
    PairsRead(bytes);
    PairsOneLine(bytes);
  }

  lemma MatchedFits(nwk: uint16, status: uint8, eps: seq<uint8>)
    ensures Fits(Matched(nwk, status, eps))
  {
    var head, pairs := Join([FmtX(4, nwk), FmtX(2, status)]), Pairs(ShownEndpoints(status, eps));
    MatchHeadFits(nwk, status);
    PairsFit(ShownEndpoints(status, eps));
    Prefixed("MatchDesc:", head, 50);
    Prefixed("MatchDesc:" + head, pairs, 256);
  }

  lemma NewDeviceFits(nwk: uint16, ieee: Ieee)
    ensures Fits(NewDevice(nwk, ieee))
  {
    var fields := [FmtX(4, nwk), HexRev(ieee), "FFFF"];
    AddressFits(nwk, ieee);
    FourF();
    FieldsFit(fields);
    Prefixed("NEWNODE:", Join(fields), 256);
  }

  lemma DeviceLeftFits(nwk: uint16, ieee: Ieee)
    ensures Fits(DeviceLeft(nwk, ieee))
  {
    var fields := [FmtX(4, nwk), HexRev(ieee)];
    AddressFits(nwk, ieee);
    FieldsFit(fields);
    Prefixed("NODELEFT:", Join(fields), 256);
  }

  lemma AnnouncedFits(d: uint8, ieee: Ieee, nwk: uint16)
    ensures Fits(Announced(d, ieee, nwk))
  {
    var fields := [HexRev(ieee), FmtX(4, nwk)];
    AddressFits(nwk, ieee);
    FieldsFit(fields);
    Prefixed(DeviceText(d) + ":", Join(fields), 256);
  }

  /** `at_print` has room for every notice, and none contains CR or LF. */
  lemma NoticeFits(n: Notice)
    ensures Fits(n)
  {
    match n
    case Done =>
    case Left =>
    case Failed(code) => ByteFits(code);
    case Sent(s) => ByteFits(s);
    case Delivered(s) => ByteFits(s);
    case Undelivered(s) => ByteFits(s);
    case Joined(c, pan, epid) => JoinedFits(c, pan, epid);
    case Matched(nwk, st, eps) => MatchedFits(nwk, st, eps);
    case NewDevice(nwk, ieee) => NewDeviceFits(nwk, ieee);
    case DeviceLeft(nwk, ieee) => DeviceLeftFits(nwk, ieee);
    case Announced(d, ieee, nwk) => AnnouncedFits(d, ieee, nwk);
  }

  /** Every notice reaches the host as one line that says what it says. */
  lemma NoticeArrives(buf: string, n: Notice, rxHex: bool, chunks: seq<string>)
    requires Flatten(chunks) == UartTx.Line(NoticeText(n), "", "")
    ensures LineReader.ReadAll(buf, chunks) == [buf, NoticeText(n)]
    ensures ParsePrompt(NoticeText(n), rxHex) == Some(NoticeMeaning(n))
  {
    NoticeFits(n);
    LineArrives(buf, NoticeText(n), "", "", chunks);
    assert NoticeText(n) + "" + "" == NoticeText(n);
    NoticeRoundTrip(n, rxHex);
  }
}