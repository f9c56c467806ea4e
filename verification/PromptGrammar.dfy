/** Which lines `parse_prompt` of host/etrx/prompts.py reads as a prompt, and as which: its grammar, as spellings. */
module PromptGrammar {
  import opened Wrappers
  import opened AtFmt
  import opened CText
  import opened TextFields
  import opened Prompts
  import opened Printer
  import opened Notices
  import opened Streams

  // ------------------------------------------------------------ spellings

  /** `$` matches in front of a last LF, too. */
  predicate LineIs(line: string, text: string) {
    line == text || line == text + "\n"
  }

  /** Nothing behind the text, or a comma and a rest of the line. */
  ghost predicate Commented(line: string, text: string) {
    LineIs(line, text) || exists c: string :: '\n' !in c && LineIs(line, text + "," + c)
  }

  predicate Decimal(text: string, v: nat) {
    text != "" && AllDigits(text) && DecVal(text) == v
  }

  predicate SignalBy(s: string, sign: string, a: string, b: string, rssi: int, lqi: nat) {
    && (sign == "-" || sign == "") && AllDigits(a) && a != "" && Decimal(b, lqi)
    && rssi == (if sign == "-" then -(DecVal(a) as int) else DecVal(a))
    && LineIs(s, "," + (sign + (a + ("," + b))))
  }

  /** RSSI and LQI in decimal, or neither. */
  ghost predicate SignalSpelled(s: string, signal: Signal) {
    match signal
    case None => LineIs(s, "")
    case Some((rssi, lqi)) =>
      exists sign: string, a: string, b: string :: SignalBy(s, sign, a, b, rssi, lqi)
  }

  predicate EuiSpelled(eui: string) {
    |eui| == 16 && UpperHex(eui)
  }

  predicate SenderSpelled(from: Option<string>) {
    from.Some? ==> EuiSpelled(from.value)
  }

  /** The optional EUI64 of a head. */
  function Sender(from: Option<string>): string {
    if from.Some? then from.value + "," else ""
  }

  predicate AllBytes(v: seq<nat>) {
    forall i :: 0 <= i < |v| ==> v[i] < 0x100
  }

  const KINDS: seq<string> := ["FFD", "ZED", "SED", "MED", "COO"]
  const TEXT_KINDS: seq<string> := ["UCAST", "BCAST", "MCAST"]

  /** The prompts without data. */
  ghost predicate SimpleSpelled(line: string, p: Prompt) {
    match p
    case Ok => LineIs(line, "OK")
    case Error(code) => code < 0x100 && LineIs(line, "ERROR:" + FmtX(2, code))
    case Seq(s) => s < 0x100 && LineIs(line, "SEQ:" + FmtX(2, s))
    case Ack(s) => s < 0x100 && Commented(line, "ACK:" + FmtX(2, s))
    case Nack(s) => s < 0x100 && Commented(line, "NACK:" + FmtX(2, s))
    case Jpan(channel, pan, epid) =>
      && pan < 0x1_0000 && EuiSpelled(epid)
      && exists d: string :: Decimal(d, channel) && LineIs(line, "JPAN:" + (d + ("," + Join([FmtX(4, pan), epid]))))
    case LeftPan => LineIs(line, "LeftPAN")
    case NewNode(nwk, eui, parent) =>
      && nwk < 0x1_0000 && parent < 0x1_0000 && EuiSpelled(eui)
      && Spaced(line, "NEWNODE:", Join([FmtX(4, nwk), eui, FmtX(4, parent)]))
    case NodeLeft(nwk, eui) =>
      nwk < 0x1_0000 && EuiSpelled(eui) && Spaced(line, "NODELEFT:", Join([FmtX(4, nwk), eui]))
    case MatchDesc(nwk, status, endpoints) =>
      && nwk < 0x1_0000 && status < 0x100 && AllBytes(endpoints)
      && LineIs(line, "MatchDesc:" + (Join([FmtX(4, nwk), FmtX(2, status)]) + Pairs(endpoints)))
    case Announce(kind, eui, nwk, signal) =>
      && kind in KINDS && EuiSpelled(eui) && nwk < 0x1_0000
      && exists s: string :: SignalSpelled(s, signal) && line == kind + (":" + (Join([eui, FmtX(4, nwk)]) + s))
    case _ => false
  }

  /** One blank or none behind the literal. */
  predicate Spaced(line: string, lit: string, text: string) {
    LineIs(line, lit + text) || LineIs(line, lit + (" " + text))
  }

  // ------------------------------------------------------------ pieces

  lemma EndExactly(line: string, text: string, rest: string)
    requires line == text + rest
    ensures AtEnd(rest) <==> LineIs(line, text)
  {
    if LineIs(line, text) {
      assert rest == line[|text|..];
    }
    Nothing(text);
  }

  lemma {:induction false} HexGroupsExactly(widths: seq<nat>, line: string, gs: seq<string>, rest: string)
    requires widths != []
    ensures HexGroups(widths, line) == Some((gs, rest)) <==> GroupsOf(gs, widths) && line == Join(gs) + rest
    decreases |widths|
  {
    if GroupsOf(gs, widths) && line == Join(gs) + rest {
      HexGroupsOfJoin(gs, widths, rest);
    }
    if HexGroups(widths, line) == Some((gs, rest)) {
      GroupsFound(widths, line, gs, rest);
    }
  }

  lemma {:induction false} GroupsFound(widths: seq<nat>, line: string, gs: seq<string>, rest: string)
    requires widths != [] && HexGroups(widths, line) == Some((gs, rest))
    ensures GroupsOf(gs, widths) && line == Join(gs) + rest
    decreases |widths|
  {
    var w := widths[0];
    var front := line[..w];
    if |widths| == 1 {
      assert line == front + rest;
    } else {
      var more := HexGroups(widths[1..], line[w + 1..]).value.0;
      GroupsFound(widths[1..], line[w + 1..], more, rest);
      assert gs == [front] + more && gs[1..] == more;
      CommaJoined(line, w, Join(more), rest);
    }
  }

  lemma CommaJoined(line: string, w: nat, joined: string, rest: string)
    requires w < |line| && line[w] == ',' && line[w + 1..] == joined + rest
    ensures line == line[..w] + "," + joined + rest
  {
    assert line == line[..w] + [line[w]] + line[w + 1..];
  }

  lemma AfterExactly(lit: string, line: string, rest: string)
    ensures After(lit, line) == Some(rest) <==> line == lit + rest
  {
    CutBehind(lit, rest);
  }

  /** Groups behind a literal, both ways. */
  lemma GroupsExactly(lit: string, widths: seq<nat>, line: string, gs: seq<string>, rest: string)
    requires widths != []
    ensures Groups(lit, widths, line) == Some((gs, rest)) <==> GroupsOf(gs, widths) && line == lit + (Join(gs) + rest)
  {
    if After(lit, line).Some? {
      var behind := After(lit, line).value;
      AfterExactly(lit, line, behind);
      HexGroupsExactly(widths, behind, gs, rest);
      CutBehind(lit, Join(gs) + rest);
    } else {
      CutBehind(lit, Join(gs) + rest);
    }
  }

  /** A group is the print of its number. */
  lemma GroupNumber(g: string, width: nat, v: nat)
    requires width == 2 || width == 4
    ensures |g| == width && UpperHex(g) && Num(g) == v <==>
            g == FmtX(width, v) && v < if width == 2 then 0x100 else 0x1_0000
  {
    PowersOf16();
    if |g| == width && UpperHex(g) {
      HexValDefined(g);
      FmtXOfHexVal(g);
    }
    if v < Pow16(width) {
      NumberGroup(width, v);
    }
  }

  lemma JoinOne(a: string)
    ensures Join([a]) == a
  {
  }

  // ------------------------------------------------------------ one number

  /** A byte behind a literal, and what follows. */
  lemma ByteExactly(lit: string, line: string, v: nat, rest: string)
    ensures (var r := Groups(lit, [2], line);
             r.Some? && |r.value.0| == 1 && Num(r.value.0[0]) == v && r.value.1 == rest)
            <==> v < 0x100 && line == lit + FmtX(2, v) + rest
  {
    var r := Groups(lit, [2], line);
    Regroup(lit, FmtX(2, v), rest);
    JoinOne(FmtX(2, v));
    GroupNumber(FmtX(2, v), 2, v);
    GroupsExactly(lit, [2], line, [FmtX(2, v)], rest);
    if r.Some? && |r.value.0| == 1 {
      var g := r.value.0;
      GroupsExactly(lit, [2], line, g, r.value.1);
      GroupNumber(g[0], 2, Num(g[0]));
      JoinOne(g[0]);
      assert g == [g[0]];
    }
  }

  lemma ErrorExactly(line: string, v: nat)
    ensures ParseError(line) == Some(Error(v)) <==> v < 0x100 && LineIs(line, "ERROR:" + FmtX(2, v))
  {
    ByteWhole("ERROR:", line, v);
  }

  /** A byte behind a literal, and nothing else on the line. */
  lemma ByteWhole(lit: string, line: string, v: nat)
    ensures (var r := Groups(lit, [2], line);
             r.Some? && |r.value.0| == 1 && Num(r.value.0[0]) == v && AtEnd(r.value.1))
            <==> v < 0x100 && LineIs(line, lit + FmtX(2, v))
  {
    var r, text := Groups(lit, [2], line), lit + FmtX(2, v);
    if r.Some? {
      ByteExactly(lit, line, v, r.value.1);
      if line == text + r.value.1 {
        EndExactly(line, text, r.value.1);
      }
    }
    if LineIs(line, text) {
      ByteExactly(lit, line, v, line[|text|..]);
      EndExactly(line, text, line[|text|..]);
    }
  }

  lemma SeqExactly(line: string, v: nat)
    ensures ParseSeq(line) == Some(Seq(v)) <==> v < 0x100 && LineIs(line, "SEQ:" + FmtX(2, v))
  {
    ByteWhole("SEQ:", line, v);
  }

  lemma CommentExactly(line: string, text: string, rest: string)
    requires line == text + rest
    ensures Ignored(rest) <==> Commented(line, text)
  {
    EndExactly(line, text, rest);
    if Ignored(rest) && !AtEnd(rest) {
      var c := CommentFound(rest);
      WholeBehind(text, rest, "," + c);
      Regroup(text, ",", c);
    }
    if !LineIs(line, text) {
      if c: string :| '\n' !in c && LineIs(line, text + "," + c) {
        Regroup(text, ",", c);
        WholeBehind(text, rest, "," + c);
        CommentGiven(rest, c);
      }
    }
  }

  lemma CommentFound(rest: string) returns (c: string)
    requires Ignored(rest) && !AtEnd(rest)
    ensures '\n' !in c && LineIs(rest, "," + c)
  {
    var n := |rest|;
    if rest[n - 1] == '\n' {
      c := rest[1..n - 1];
      assert rest == "," + c + "\n";
    } else {
      c := rest[1..];
      assert rest == "," + c && rest == rest[..n - 1] + [rest[n - 1]];
    }
  }

  lemma CommentGiven(rest: string, c: string)
    requires '\n' !in c && LineIs(rest, "," + c)
    ensures Ignored(rest)
  {
    assert rest[0] == ',';
    if rest == "," + c {
      assert forall i :: 0 <= i < |rest| ==> rest[i] != '\n';
    } else {
      assert rest[..|rest| - 1] == "," + c;
    }
  }

  lemma ByteCommented(lit: string, line: string, v: nat)
    ensures (var r := Groups(lit, [2], line);
             r.Some? && |r.value.0| == 1 && Num(r.value.0[0]) == v && Ignored(r.value.1))
            <==> v < 0x100 && Commented(line, lit + FmtX(2, v))
  {
    var r, text := Groups(lit, [2], line), lit + FmtX(2, v);
    if r.Some? {
      ByteExactly(lit, line, v, r.value.1);
      if line == text + r.value.1 {
        CommentExactly(line, text, r.value.1);
      }
    }
    if Commented(line, text) {
      BeginsWith(line, text);
      ByteExactly(lit, line, v, line[|text|..]);
      CommentExactly(line, text, line[|text|..]);
    }
  }

  lemma BeginsWith(line: string, text: string)
    requires Commented(line, text)
    ensures text <= line && line == text + line[|text|..]
  {
    if !LineIs(line, text) {
      var c: string :| '\n' !in c && LineIs(line, text + "," + c);
      Regroup(text, ",", c);
    }
  }

  lemma AckExactly(line: string, v: nat)
    ensures ParseAck(line) == Some(Ack(v)) <==> v < 0x100 && Commented(line, "ACK:" + FmtX(2, v))
  {
    ByteCommented("ACK:", line, v);
  }

  lemma NackExactly(line: string, v: nat)
    ensures ParseNack(line) == Some(Nack(v)) <==> v < 0x100 && Commented(line, "NACK:" + FmtX(2, v))
  {
    ByteCommented("NACK:", line, v);
  }

  lemma WordExactly(line: string, word: string)
    ensures (var r := After(word, line); r.Some? && AtEnd(r.value)) <==> LineIs(line, word)
  {
    if After(word, line).Some? {
      AfterExactly(word, line, After(word, line).value);
      EndExactly(line, word, After(word, line).value);
    }
    if LineIs(line, word) {
      assert line == word + line[|word|..];
      AfterExactly(word, line, line[|word|..]);
    }
  }

  // ------------------------------------------------------------ several fields

  /** Fields and the end of the line. */
  lemma FieldsWhole(widths: seq<nat>, s: string, gs: seq<string>)
    requires widths != []
    ensures (var r := HexGroups(widths, s); r.Some? && r.value.0 == gs && AtEnd(r.value.1))
            <==> GroupsOf(gs, widths) && LineIs(s, Join(gs))
  {
    var r := HexGroups(widths, s);
    if r.Some? {
      HexGroupsExactly(widths, s, r.value.0, r.value.1);
      if s == Join(gs) + r.value.1 {
        EndExactly(s, Join(gs), r.value.1);
      }
    }
    if LineIs(s, Join(gs)) {
      var rest := s[|Join(gs)|..];
      assert s == Join(gs) + rest;
      EndExactly(s, Join(gs), rest);
      HexGroupsExactly(widths, s, gs, rest);
    }
  }

  lemma ThreeGroups(g: seq<string>, nwk: nat, eui: string, parent: nat)
    requires |g| == 3
    ensures GroupsOf(g, [4, 16, 4]) && Num(g[0]) == nwk && g[1] == eui && Num(g[2]) == parent <==>
            && g == [FmtX(4, nwk), eui, FmtX(4, parent)]
            && nwk < 0x1_0000 && parent < 0x1_0000 && EuiSpelled(eui)
  {
    GroupNumber(g[0], 4, nwk);
    GroupNumber(g[2], 4, parent);
  }

  lemma NumberAndEui(g: seq<string>, nwk: nat, eui: string)
    requires |g| == 2
    ensures GroupsOf(g, [4, 16]) && Num(g[0]) == nwk && g[1] == eui <==>
            g == [FmtX(4, nwk), eui] && nwk < 0x1_0000 && EuiSpelled(eui)
  {
    GroupNumber(g[0], 4, nwk);
  }

  lemma EuiAndNumber(g: seq<string>, eui: string, nwk: nat)
    requires |g| == 2
    ensures GroupsOf(g, [16, 4]) && g[0] == eui && Num(g[1]) == nwk <==>
            g == [eui, FmtX(4, nwk)] && nwk < 0x1_0000 && EuiSpelled(eui)
  {
    GroupNumber(g[1], 4, nwk);
  }

  lemma TwoNumberGroups(g: seq<string>, nwk: nat, status: nat)
    requires |g| == 2
    ensures GroupsOf(g, [4, 2]) && Num(g[0]) == nwk && Num(g[1]) == status <==>
            g == [FmtX(4, nwk), FmtX(2, status)] && nwk < 0x1_0000 && status < 0x100
  {
    GroupNumber(g[0], 4, nwk);
    GroupNumber(g[1], 2, status);
  }

  lemma WholeBehind(lit: string, s: string, text: string)
    ensures LineIs(lit + s, lit + text) <==> LineIs(s, text)
  {
    CutBehind(lit, s);
    CutBehind(lit, text);
    Regroup(lit, text, "\n");
    CutBehind(lit, text + "\n");
  }

  lemma WholeBegins(line: string, lit: string, text: string)
    requires LineIs(line, lit + text)
    ensures lit <= line && line == lit + line[|lit|..]
  {
    Regroup(lit, text, "\n");
  }

  lemma SpaceDropped(s: string, text: string)
    requires text != "" && text[0] != ' '
    ensures LineIs(DropSpace(s), text) <==> LineIs(s, text) || LineIs(s, " " + text)
  {
    if s != "" && s[0] == ' ' {
      assert s == " " + s[1..];
      WholeBehind(" ", s[1..], text);
    } else {
      assert (" " + text)[0] == ' ' && (" " + text + "\n")[0] == ' ';
    }
  }

  lemma SpacedExactly(line: string, lit: string, text: string)
    requires text != "" && text[0] != ' '
    ensures Spaced(line, lit, text) <==> After(lit, line).Some? && LineIs(DropSpace(After(lit, line).value), text)
  {
    if After(lit, line).Some? {
      var s := After(lit, line).value;
      AfterExactly(lit, line, s);
      WholeBehind(lit, s, text);
      WholeBehind(lit, s, " " + text);
      SpaceDropped(s, text);
    } else if LineIs(line, lit + text) {
      WholeBegins(line, lit, text);
    } else if LineIs(line, lit + (" " + text)) {
      WholeBegins(line, lit, " " + text);
    }
  }

  lemma FirstDigit(g: string, more: seq<string>)
    requires g != "" && UpperHex(g)
    ensures Join([g] + more) != "" && Join([g] + more)[0] != ' '
  {
    assert Join([g] + more)[0] == g[0];
    assert HexNibble(g[0]) >= 0;
  }

  lemma NewNodeExactly(line: string, nwk: nat, eui: string, parent: nat)
    ensures ParseNewNode(line) == Some(NewNode(nwk, eui, parent)) <==>
            && nwk < 0x1_0000 && parent < 0x1_0000 && EuiSpelled(eui)
            && Spaced(line, "NEWNODE:", Join([FmtX(4, nwk), eui, FmtX(4, parent)]))
  {
    var gs := [FmtX(4, nwk), eui, FmtX(4, parent)];
    FirstDigit(FmtX(4, nwk), [eui, FmtX(4, parent)]);
    assert gs == [FmtX(4, nwk)] + [eui, FmtX(4, parent)];
    SpacedExactly(line, "NEWNODE:", Join(gs));
    ThreeGroups(gs, nwk, eui, parent);
    if After("NEWNODE:", line).Some? {
      var s := DropSpace(After("NEWNODE:", line).value);
      FieldsWhole([4, 16, 4], s, gs);
      NewNodeGroups(line, s, nwk, eui, parent);
    }
  }

  lemma NewNodeGroups(line: string, s: string, nwk: nat, eui: string, parent: nat)
    requires After("NEWNODE:", line).Some? && s == DropSpace(After("NEWNODE:", line).value)
    ensures ParseNewNode(line) == Some(NewNode(nwk, eui, parent)) <==>
            var r := HexGroups([4, 16, 4], s);
            && r.Some? && r.value.0 == [FmtX(4, nwk), eui, FmtX(4, parent)] && AtEnd(r.value.1)
            && nwk < 0x1_0000 && parent < 0x1_0000 && EuiSpelled(eui)
  {
    var r := HexGroups([4, 16, 4], s);
    if r.Some? {
      HexGroupsExactly([4, 16, 4], s, r.value.0, r.value.1);
      if |r.value.0| == 3 {
        ThreeGroups(r.value.0, nwk, eui, parent);
      }
    }
  }

  lemma NodeLeftExactly(line: string, nwk: nat, eui: string)
    ensures ParseNodeLeft(line) == Some(NodeLeft(nwk, eui)) <==>
            nwk < 0x1_0000 && EuiSpelled(eui) && Spaced(line, "NODELEFT:", Join([FmtX(4, nwk), eui]))
  {
    var gs := [FmtX(4, nwk), eui];
    FirstDigit(FmtX(4, nwk), [eui]);
    assert gs == [FmtX(4, nwk)] + [eui];
    SpacedExactly(line, "NODELEFT:", Join(gs));
    NumberAndEui(gs, nwk, eui);
    if After("NODELEFT:", line).Some? {
      var s := DropSpace(After("NODELEFT:", line).value);
      FieldsWhole([4, 16], s, gs);
      NodeLeftGroups(line, s, nwk, eui);
    }
  }

  lemma NodeLeftGroups(line: string, s: string, nwk: nat, eui: string)
    requires After("NODELEFT:", line).Some? && s == DropSpace(After("NODELEFT:", line).value)
    ensures ParseNodeLeft(line) == Some(NodeLeft(nwk, eui)) <==>
            var r := HexGroups([4, 16], s);
            && r.Some? && r.value.0 == [FmtX(4, nwk), eui] && AtEnd(r.value.1)
            && nwk < 0x1_0000 && EuiSpelled(eui)
  {
    var r := HexGroups([4, 16], s);
    if r.Some? {
      HexGroupsExactly([4, 16], s, r.value.0, r.value.1);
      if |r.value.0| == 2 {
        NumberAndEui(r.value.0, nwk, eui);
      }
    }
  }

  // ------------------------------------------------------------ JPAN

  lemma DigitsCut(s: string, d: string, rest: string)
    requires AllDigits(d) && (rest == "" || !IsDigit(rest[0])) && s == d + rest
    ensures DigitRun(s) == |d| && s[..|d|] == d && s[|d|..] == rest
  {
    DigitRunOf(d, rest);
  }

  lemma JpanExactly(line: string, channel: nat, pan: nat, epid: string)
    ensures ParseJpan(line) == Some(Jpan(channel, pan, epid)) <==> SimpleSpelled(line, Jpan(channel, pan, epid))
  {
    var gs := [FmtX(4, pan), epid];
    if ParseJpan(line) == Some(Jpan(channel, pan, epid)) {
      JpanSpelled(line, channel, pan, epid);
    }
    if SimpleSpelled(line, Jpan(channel, pan, epid)) {
      var d: string :| Decimal(d, channel) && LineIs(line, "JPAN:" + (d + ("," + Join(gs))));
      JpanTaken(line, d, channel, pan, epid);
    }
  }

  lemma JpanSpelled(line: string, channel: nat, pan: nat, epid: string)
    requires ParseJpan(line) == Some(Jpan(channel, pan, epid))
    ensures SimpleSpelled(line, Jpan(channel, pan, epid))
  {
    var s := After("JPAN:", line).value;
    var n := DigitRun(s);
    var d, behind := s[..n], s[n + 1..];
    var (g, rest) := HexGroups([4, 16], behind).value;
    AfterExactly("JPAN:", line, s);
    CommaCut(s, n);
    Regroup(d, ",", behind);
    PanFields(behind, g, rest, pan, epid);
    DigitsBehind("JPAN:", d, behind, Join([FmtX(4, pan), epid]));
    assert Decimal(d, channel);
  }

  lemma PanFields(behind: string, g: seq<string>, rest: string, pan: nat, epid: string)
    requires HexGroups([4, 16], behind) == Some((g, rest)) && |g| == 2 && AtEnd(rest)
    requires Num(g[0]) == pan && g[1] == epid
    ensures pan < 0x1_0000 && EuiSpelled(epid) && LineIs(behind, Join([FmtX(4, pan), epid]))
  {
    FieldsWhole([4, 16], behind, g);
    NumberAndEui(g, pan, epid);
  }

  lemma DigitsBehind(lit: string, d: string, behind: string, joined: string)
    requires LineIs(behind, joined)
    ensures LineIs(lit + (d + ("," + behind)), lit + (d + ("," + joined)))
  {
    WholeBehind(",", behind, joined);
    WholeBehind(d, "," + behind, "," + joined);
    WholeBehind(lit, d + ("," + behind), d + ("," + joined));
  }

  lemma JpanTaken(line: string, d: string, channel: nat, pan: nat, epid: string)
    requires Decimal(d, channel) && pan < 0x1_0000 && EuiSpelled(epid)
    requires LineIs(line, "JPAN:" + (d + ("," + Join([FmtX(4, pan), epid]))))
    ensures ParseJpan(line) == Some(Jpan(channel, pan, epid))
  {
    var gs := [FmtX(4, pan), epid];
    NumberAndEui(gs, pan, epid);
    WholeBegins(line, "JPAN:", d + ("," + Join(gs)));
    var s := line[|"JPAN:"|..];
    AfterExactly("JPAN:", line, s);
    WholeBehind("JPAN:", s, d + ("," + Join(gs)));
    WholeBegins(s, d, "," + Join(gs));
    WholeBehind(d, s[|d|..], "," + Join(gs));
    WholeBegins(s[|d|..], ",", Join(gs));
    var behind := s[|d|..][1..];
    WholeBehind(",", behind, Join(gs));
    DigitsCut(s, d, "," + behind);
    FieldsWhole([4, 16], behind, gs);
    assert s[|d| + 1..] == behind;
  }

  // ------------------------------------------------------------ MatchDesc

  lemma {:induction false} HexPairsExactly(s: string, v: seq<nat>)
    ensures HexPairs(s) == Some(v) <==> AllBytes(v) && LineIs(s, Pairs(v))
    decreases |s|
  {
    if AtEnd(s) {
      EmptyPairs(s, v);
    } else if HexPairs(s).Some? {
      PairFound(s);
      var w := HexPairs(s).value;
      HexPairsExactly(s[3..], w[1..]);
      PairCut(s, w);
      if AllBytes(v) && LineIs(s, Pairs(v)) {
        FirstPair(s, v);
        HexPairsExactly(s[3..], v[1..]);
        assert v == [v[0]] + v[1..] && w == [w[0]] + w[1..];
      }
    } else if AllBytes(v) && LineIs(s, Pairs(v)) {
      FirstPair(s, v);
      HexPairsExactly(s[3..], v[1..]);
    }
  }

  lemma EmptyPairs(s: string, v: seq<nat>)
    requires AtEnd(s)
    ensures HexPairs(s) == Some(v) <==> AllBytes(v) && LineIs(s, Pairs(v))
  {
    if AllBytes(v) && v != [] {
      assert |Pairs(v)| >= 3;
    }
  }

  lemma PairFound(s: string)
    requires !AtEnd(s) && HexPairs(s).Some?
    ensures var w := HexPairs(s).value;
            && |s| >= 3 && s[0] == ',' && UpperHex(s[1..3]) && w != [] && w[0] == Num(s[1..3])
            && HexPairs(s[3..]) == Some(w[1..])
  {
  }

  lemma PairCut(s: string, w: seq<nat>)
    requires |s| >= 3 && s[0] == ',' && UpperHex(s[1..3]) && w != [] && w[0] == Num(s[1..3])
    requires AllBytes(w[1..]) && LineIs(s[3..], Pairs(w[1..]))
    ensures AllBytes(w) && LineIs(s, Pairs(w))
  {
    GroupNumber(s[1..3], 2, w[0]);
    assert w == [w[0]] + w[1..];
    assert s == "," + s[1..3] + s[3..];
    WholeBehind("," + FmtX(2, w[0]), s[3..], Pairs(w[1..]));
  }

  lemma FirstPair(s: string, v: seq<nat>)
    requires AllBytes(v) && LineIs(s, Pairs(v)) && !AtEnd(s)
    ensures v != [] && AllBytes(v[1..]) && |s| >= 3 && s[0] == ',' && UpperHex(s[1..3]) && Num(s[1..3]) == v[0]
    ensures LineIs(s[3..], Pairs(v[1..])) && s != ""
  {
    var front := "," + FmtX(2, v[0]);
    GroupNumber(FmtX(2, v[0]), 2, v[0]);
    WholeBegins(s, front, Pairs(v[1..]));
    WholeBehind(front, s[3..], Pairs(v[1..]));
    assert s[..3] == front && s[1..3] == front[1..];
  }

  lemma MatchDescExactly(line: string, nwk: nat, status: nat, endpoints: seq<nat>)
    ensures ParseMatchDesc(line) == Some(MatchDesc(nwk, status, endpoints)) <==>
            && nwk < 0x1_0000 && status < 0x100 && AllBytes(endpoints)
            && LineIs(line, "MatchDesc:" + (Join([FmtX(4, nwk), FmtX(2, status)]) + Pairs(endpoints)))
  {
    var gs := [FmtX(4, nwk), FmtX(2, status)];
    if ParseMatchDesc(line) == Some(MatchDesc(nwk, status, endpoints)) {
      var (g, rest) := Groups("MatchDesc:", [4, 2], line).value;
      GroupsExactly("MatchDesc:", [4, 2], line, g, rest);
      TwoNumberGroups(g, nwk, status);
      HexPairsExactly(rest, endpoints);
      PairsBehind("MatchDesc:", Join(gs), rest, endpoints);
    } else if nwk < 0x1_0000 && status < 0x100 && AllBytes(endpoints) &&
              LineIs(line, "MatchDesc:" + (Join(gs) + Pairs(endpoints))) {
      MatchDescTaken(line, gs, nwk, status, endpoints);
    }
  }

  lemma PairsBehind(lit: string, joined: string, rest: string, v: seq<nat>)
    requires AllBytes(v)
    ensures LineIs(lit + (joined + rest), lit + (joined + Pairs(v))) <==> LineIs(rest, Pairs(v))
  {
    WholeBehind(joined, rest, Pairs(v));
    WholeBehind(lit, joined + rest, joined + Pairs(v));
  }

  lemma MatchDescTaken(line: string, gs: seq<string>, nwk: nat, status: nat, endpoints: seq<nat>)
    requires nwk < 0x1_0000 && status < 0x100 && AllBytes(endpoints) && gs == [FmtX(4, nwk), FmtX(2, status)]
    requires LineIs(line, "MatchDesc:" + (Join(gs) + Pairs(endpoints)))
    ensures ParseMatchDesc(line) == Some(MatchDesc(nwk, status, endpoints))
  {
    TwoNumberGroups(gs, nwk, status);
    WholeBegins(line, "MatchDesc:", Join(gs) + Pairs(endpoints));
    var behind := line[|"MatchDesc:"|..];
    WholeBehind("MatchDesc:", behind, Join(gs) + Pairs(endpoints));
    WholeBegins(behind, Join(gs), Pairs(endpoints));
    var rest := behind[|Join(gs)|..];
    PairsBehind("MatchDesc:", Join(gs), rest, endpoints);
    HexPairsExactly(rest, endpoints);
    GroupsExactly("MatchDesc:", [4, 2], line, gs, rest);
  }

  // ------------------------------------------------------------ RSSI and LQI

  lemma LastExactly(s: string, y: nat)
    ensures LastNumber(s) == Some(y) <==> exists b: string :: Decimal(b, y) && LineIs(s, b)
  {
    if LastNumber(s) == Some(y) {
      var n := DigitRun(s);
      assert s == s[..n] + s[n..];
      EndExactly(s, s[..n], s[n..]);
      assert Decimal(s[..n], y);
    }
    if b: string :| Decimal(b, y) && LineIs(s, b) {
      var rest := s[|b|..];
      assert s == b + rest;
      EndExactly(s, b, rest);
      DigitsCut(s, b, rest);
    }
  }

  /** Two numbers and the end of the line, spelled. */
  ghost predicate PairSpelled(s: string, a: string, b: string, x: nat, y: nat) {
    Decimal(a, x) && Decimal(b, y) && LineIs(s, a + ("," + b))
  }

  lemma NumbersSpelled(s: string, x: nat, y: nat) returns (a: string, b: string)
    requires TwoNumbers(s) == Some((x, y))
    ensures PairSpelled(s, a, b, x, y)
  {
    var n := DigitRun(s);
    a := s[..n];
    LastExactly(s[n + 1..], y);
    b :| Decimal(b, y) && LineIs(s[n + 1..], b);
    CommaCut(s, n);
    Regroup(a, ",", s[n + 1..]);
    WholeBehind(",", s[n + 1..], b);
    WholeBehind(a, "," + s[n + 1..], "," + b);
  }

  lemma SpelledNumbers(s: string, a: string, b: string, x: nat, y: nat)
    requires PairSpelled(s, a, b, x, y)
    ensures TwoNumbers(s) == Some((x, y))
  {
    WholeBegins(s, a, "," + b);
    WholeBehind(a, s[|a|..], "," + b);
    WholeBegins(s[|a|..], ",", b);
    var rest := s[|a|..][1..];
    WholeBehind(",", rest, b);
    DigitsCut(s, a, "," + rest);
    LastExactly(rest, y);
    assert s[|a| + 1..] == rest;
  }

  lemma SignalRead(s: string, sign: string, a: string, b: string, rssi: int, lqi: nat)
    requires SignalBy(s, sign, a, b, rssi, lqi)
    ensures Tail(s) == Some(Some((rssi, lqi)))
  {
    var numbers := SignCut(s, sign, a + ("," + b));
    SpelledNumbers(numbers, a, b, DecVal(a), lqi);
    DigitInFront(numbers, a, b);
    SignSeen(s, sign, numbers);
    TailAt(s, sign == "-", numbers, DecVal(a), lqi);
  }

  lemma SignCut(s: string, sign: string, text: string) returns (numbers: string)
    requires LineIs(s, "," + (sign + text))
    ensures s == "," + (sign + numbers) && LineIs(numbers, text)
  {
    WholeBegins(s, ",", sign + text);
    var behind := s[1..];
    WholeBehind(",", behind, sign + text);
    WholeBegins(behind, sign, text);
    numbers := behind[|sign|..];
    WholeBehind(sign, numbers, text);
  }

  lemma DigitInFront(numbers: string, a: string, b: string)
    requires a != "" && AllDigits(a) && LineIs(numbers, a + ("," + b))
    ensures numbers != "" && IsDigit(numbers[0])
  {
    WholeBegins(numbers, a, "," + b);
    assert numbers[0] == a[0];
  }

  lemma SignSeen(s: string, sign: string, numbers: string)
    requires (sign == "-" || sign == "") && numbers != "" && IsDigit(numbers[0]) && s == "," + (sign + numbers)
    ensures |s| > 1 && s[0] == ',' && (s[1] == '-' <==> sign == "-")
    ensures s[if sign == "-" then 2 else 1..] == numbers
  {
  }

  lemma TailSpelled(s: string, rssi: int, lqi: nat)
    requires Tail(s) == Some(Some((rssi, lqi)))
    ensures SignalSpelled(s, Some((rssi, lqi)))
  {
    var neg := |s| > 1 && s[1] == '-';
    var sign, numbers := if neg then "-" else "", if neg then s[2..] else s[1..];
    var (x, y) := TwoNumbers(numbers).value;
    var a, b := NumbersSpelled(numbers, x, y);
    SignTaken(s, sign, numbers);
    WholeBehind(sign, numbers, a + ("," + b));
    WholeBehind(",", sign + numbers, sign + (a + ("," + b)));
    assert SignalBy(s, sign, a, b, rssi, lqi);
  }

  lemma SignTaken(s: string, sign: string, numbers: string)
    requires s != "" && s[0] == ','
    requires if |s| > 1 && s[1] == '-' then sign == "-" && numbers == s[2..] else sign == "" && numbers == s[1..]
    ensures s == "," + (sign + numbers)
  {
  }

  /** The tail of a prompt, both ways. */
  lemma TailExactly(s: string, signal: Signal)
    ensures Tail(s) == Some(signal) <==> SignalSpelled(s, signal)
  {
    match signal
    case None =>
    case Some((rssi, lqi)) =>
      if Tail(s) == Some(signal) {
        TailSpelled(s, rssi, lqi);
      }
      if sign: string, a: string, b: string :| SignalBy(s, sign, a, b, rssi, lqi) {
        SignalRead(s, sign, a, b, rssi, lqi);
      }
  }

  // ------------------------------------------------------------ announcements

  lemma AnnounceFound(line: string, kind: string, eui: string, nwk: nat, signal: Signal)
    requires ParseAnnounce(line) == Some(Announce(kind, eui, nwk, signal))
    ensures SimpleSpelled(line, Announce(kind, eui, nwk, signal))
  {
    var (g, rest) := Groups(":", [16, 4], line[3..]).value;
    GroupsExactly(":", [16, 4], line[3..], g, rest);
    EuiAndNumber(g, eui, nwk);
    TailExactly(rest, signal);
    assert line == kind + line[3..];
  }

  lemma AnnounceGiven(line: string, kind: string, eui: string, nwk: nat, signal: Signal)
    requires SimpleSpelled(line, Announce(kind, eui, nwk, signal))
    ensures ParseAnnounce(line) == Some(Announce(kind, eui, nwk, signal))
  {
    var gs := [eui, FmtX(4, nwk)];
    var s: string :| SignalSpelled(s, signal) && line == kind + (":" + (Join(gs) + s));
    var behind := ":" + (Join(gs) + s);
    EuiAndNumber(gs, eui, nwk);
    GroupsExactly(":", [16, 4], behind, gs, s);
    TailExactly(s, signal);
    CutBehind(kind, behind);
    AnnounceOf(line, kind, behind);
  }

  lemma AnnounceOf(line: string, kind: string, behind: string)
    requires kind in KINDS && line == kind + behind
    ensures |line| >= 3 && line[..3] == kind && line[3..] == behind
    ensures line[..3] in {"FFD", "ZED", "SED", "MED", "COO"}
  {
    CutBehind(kind, behind);
  }

  // ------------------------------------------------------------ the prompts without data

  /** The pattern of a prompt's kind. */
  function PatternOf(line: string, p: Prompt): Option<Prompt> {
    match p
    case Ok => ParseOk(line)
    case Error(_) => ParseError(line)
    case Seq(_) => ParseSeq(line)
    case Ack(_) => ParseAck(line)
    case Nack(_) => ParseNack(line)
    case Jpan(_, _, _) => ParseJpan(line)
    case LeftPan => ParseLeft(line)
    case NewNode(_, _, _) => ParseNewNode(line)
    case NodeLeft(_, _) => ParseNodeLeft(line)
    case MatchDesc(_, _, _) => ParseMatchDesc(line)
    case Announce(_, _, _, _) => ParseAnnounce(line)
    case _ => None
  }

  lemma PatternExactly(line: string, p: Prompt)
    ensures PatternOf(line, p) == Some(p) <==> SimpleSpelled(line, p)
  {
    match p
    case Ok => WordExactly(line, "OK");
    case Error(v) => ErrorExactly(line, v);
    case Seq(v) => SeqExactly(line, v);
    case Ack(v) => AckExactly(line, v);
    case Nack(v) => NackExactly(line, v);
    case Jpan(channel, pan, epid) => JpanExactly(line, channel, pan, epid);
    case LeftPan => WordExactly(line, "LeftPAN");
    case NewNode(nwk, eui, parent) => NewNodeExactly(line, nwk, eui, parent);
    case NodeLeft(nwk, eui) => NodeLeftExactly(line, nwk, eui);
    case MatchDesc(nwk, status, endpoints) => MatchDescExactly(line, nwk, status, endpoints);
    case Announce(kind, eui, nwk, signal) =>
      if ParseAnnounce(line) == Some(p) {
        AnnounceFound(line, kind, eui, nwk, signal);
      }
      if SimpleSpelled(line, p) {
        AnnounceGiven(line, kind, eui, nwk, signal);
      }
    case _ =>
  }

  /** Whatever `_SIMPLE` finds, the pattern of its kind finds. */
  lemma SimpleIsPattern(line: string, p: Prompt)
    requires ParseSimple(line) == Some(p)
    ensures PatternOf(line, p) == Some(p)
  {
  }

  /** And no other pattern does: the letters in front differ. */
  lemma PatternIsSimple(line: string, p: Prompt)
    requires PatternOf(line, p) == Some(p)
    ensures ParseSimple(line) == Some(p)
  {
    if !p.Ok? {
      PatternBegins(line, p);
      Excluded(line);
      ExcludedNext(line);
      if p.Announce? {
        AnnounceIsSimple(line, p);
      }
    }
  }

  lemma AnnounceIsSimple(line: string, p: Prompt)
    requires p.Announce? && ParseAnnounce(line) == Some(p)
    ensures ParseSimple(line) == Some(p)
  {
    PatternBegins(line, p);
    AnnounceLetters(line);
    Excluded(line);
    ExcludedNext(line);
  }

  lemma AnnounceLetters(line: string)
    requires ParseAnnounce(line).Some?
    ensures |line| > 2 && line[0] !in {'O', 'E', 'A', 'J', 'L', 'N'} && (line[0] == 'S' ==> line[2] == 'D')
  {
    assert line[0] == line[..3][0] && line[2] == line[..3][2];
  }

  lemma PatternBegins(line: string, p: Prompt)
    requires PatternOf(line, p) == Some(p) && !p.Ok?
    ensures |line| > 2 && line[0] != 'O'
    ensures p.Announce? ==> ParseMatchDesc(line) == None
  {
  }

  // ------------------------------------------------------------ text

  /** A head with an EUI64 is its two groups; without one, its one. */
  lemma LongHead(s: string, eui: string, n: nat, rest: string)
    ensures Groups(":", [16, 2], s) == Some(([eui, FmtX(2, n)], "=" + rest)) && EuiSpelled(eui) && n < 0x100 <==>
            EuiSpelled(eui) && n < 0x100 && s == ":" + (eui + "," + (FmtX(2, n) + ("=" + rest)))
  {
    var gs := [eui, FmtX(2, n)];
    GroupNumber(FmtX(2, n), 2, n);
    GroupsExactly(":", [16, 2], s, gs, "=" + rest);
    Regroup(eui + ",", FmtX(2, n), "=" + rest);
  }

  lemma ShortHead(s: string, n: nat, rest: string)
    ensures Groups(":", [2], s) == Some(([FmtX(2, n)], "=" + rest)) && n < 0x100 <==>
            n < 0x100 && s == ":" + (FmtX(2, n) + ("=" + rest))
  {
    GroupNumber(FmtX(2, n), 2, n);
    JoinOne(FmtX(2, n));
    GroupsExactly(":", [2], s, [FmtX(2, n)], "=" + rest);
  }

  /** With the separator behind its length, a head has no EUI64. */
  lemma NoLongHead(s: string, n: nat, rest: string)
    requires n < 0x100 && s == ":" + (FmtX(2, n) + ("=" + rest))
    ensures Groups(":", [16, 2], s) == None
  {
    GroupNumber(FmtX(2, n), 2, n);
    CutBehind(":", FmtX(2, n) + ("=" + rest));
    WrongFirstWidth([16, 2], FmtX(2, n), "=" + rest);
  }

  lemma TextHeadGiven(s: string, from: Option<string>, n: nat, rest: string)
    requires SenderSpelled(from) && n < 0x100 && s == ":" + (Sender(from) + (FmtX(2, n) + ("=" + rest)))
    ensures TextHead(s) == Some((from, n, rest))
  {
    CutBehind("=", rest);
    GroupNumber(FmtX(2, n), 2, n);
    if from.Some? {
      LongHead(s, from.value, n, rest);
    } else {
      Nothing(FmtX(2, n) + ("=" + rest));
      NoLongHead(s, n, rest);
      ShortHead(s, n, rest);
    }
  }

  lemma TextHeadFound(s: string, from: Option<string>, n: nat, rest: string)
    requires TextHead(s) == Some((from, n, rest))
    ensures SenderSpelled(from) && n < 0x100 && s == ":" + (Sender(from) + (FmtX(2, n) + ("=" + rest)))
  {
    if from.Some? {
      var (g, behind) := Groups(":", [16, 2], s).value;
      GroupsExactly(":", [16, 2], s, g, behind);
      GroupNumber(g[1], 2, n);
      assert behind == "=" + rest && g == [from.value, FmtX(2, n)];
      LongHead(s, from.value, n, rest);
    } else {
      var (g, behind) := Groups(":", [2], s).value;
      GroupsExactly(":", [2], s, g, behind);
      GroupNumber(g[0], 2, n);
      assert behind == "=" + rest && g == [FmtX(2, n)];
      ShortHead(s, n, rest);
      Nothing(FmtX(2, n) + ("=" + rest));
    }
  }

  /** A text prompt, with the tail's text given. */
  predicate TextBy(line: string, kind: string, from: Option<string>, data: string, s: string) {
    && kind in TEXT_KINDS && SenderSpelled(from) && |data| < 0x100
    && line == kind + (":" + (Sender(from) + (FmtX(2, |data|) + ("=" + (data + s)))))
  }

  lemma TextGiven(line: string, kind: string, from: Option<string>, data: string, s: string, signal: Signal)
    requires TextBy(line, kind, from, data, s) && SignalSpelled(s, signal)
    ensures ParseText(line) == Some(Text(kind, from, data, signal))
  {
    var head := ":" + (Sender(from) + (FmtX(2, |data|) + ("=" + (data + s))));
    CutBehind(kind, head);
    TextHeadGiven(head, from, |data|, data + s);
    CutBehind(data, s);
    TailExactly(s, signal);
    TextKindCut(line, kind, head);
  }

  lemma TextKindCut(line: string, kind: string, head: string)
    requires kind in TEXT_KINDS && line == kind + head
    ensures |line| >= 5 && line[..5] == kind && line[5..] == head && line[..5] in {"UCAST", "BCAST", "MCAST"}
  {
    CutBehind(kind, head);
  }

  lemma TextFound(line: string, kind: string, from: Option<string>, data: string, signal: Signal) returns (s: string)
    requires ParseText(line) == Some(Text(kind, from, data, signal))
    ensures TextBy(line, kind, from, data, s) && SignalSpelled(s, signal)
  {
    var n, rest := TextTaken(line, kind, from, data, signal);
    s := rest[n..];
    Apart(rest, n);
    TextHeadFound(line[5..], from, n, rest);
    TailExactly(s, signal);
    TextKindTaken(line);
  }

  lemma TextTaken(line: string, kind: string, from: Option<string>, data: string, signal: Signal)
    returns (n: nat, rest: string)
    requires ParseText(line) == Some(Text(kind, from, data, signal))
    ensures |line| >= 5 && TextHead(line[5..]) == Some((from, n, rest)) && n <= |rest| && data == rest[..n]
    ensures Tail(rest[n..]) == Some(signal) && kind == line[..5]
  {
    n, rest := TextHead(line[5..]).value.1, TextHead(line[5..]).value.2;
  }

  lemma Apart(s: string, n: nat)
    requires n <= |s|
    ensures s == s[..n] + s[n..]
  {
  }

  lemma TextKindTaken(line: string)
    requires ParseText(line).Some?
    ensures line[..5] in TEXT_KINDS && line == line[..5] + line[5..]
  {
  }

  // ------------------------------------------------------------ RX

  /** With the separator behind its six numbers, a head has no EUI64. */
  lemma RxHeadGiven(s: string, from: Option<string>, g: seq<string>, rest: string)
    requires SenderSpelled(from) && GroupsOf(g, RX_WIDTHS) && s == Sender(from) + (Join(g) + (":" + rest))
    ensures RxHead(s) == Some((from, g, rest))
  {
    CutBehind(":", rest);
    if from.Some? {
      RxHeadLong(s, from.value, g, rest);
    } else {
      Nothing(Join(g) + (":" + rest));
      HexGroupsExactly(RX_WIDTHS, s, g, ":" + rest);
      RxHeadNotLong(s, g, rest);
    }
  }

  lemma RxHeadLong(s: string, eui: string, g: seq<string>, rest: string)
    requires EuiSpelled(eui) && GroupsOf(g, RX_WIDTHS) && s == eui + "," + (Join(g) + (":" + rest))
    ensures HexGroups([16] + RX_WIDTHS, s) == Some(([eui] + g, ":" + rest)) && ([eui] + g)[1..] == g
  {
    var gs := [eui] + g;
    assert gs[1..] == g;
    assert Join(gs) == eui + "," + Join(g);
    Regroup(eui + ",", Join(g), ":" + rest);
    HexGroupsExactly([16] + RX_WIDTHS, s, gs, ":" + rest);
  }

  lemma RxHeadNotLong(s: string, g: seq<string>, rest: string)
    requires GroupsOf(g, RX_WIDTHS) && s == Join(g) + (":" + rest)
    ensures HexGroups([16] + RX_WIDTHS, s) == None
  {
    var more := Join(g[1..]) + (":" + rest);
    Regroup(g[0] + ",", Join(g[1..]), ":" + rest);
    Regroup(g[0], ",", more);
    WrongFirstWidth([16] + RX_WIDTHS, g[0], "," + more);
  }

  lemma RxHeadFound(s: string, from: Option<string>, g: seq<string>, rest: string)
    requires RxHead(s) == Some((from, g, rest))
    ensures SenderSpelled(from) && GroupsOf(g, RX_WIDTHS) && s == Sender(from) + (Join(g) + (":" + rest))
  {
    if from.Some? {
      var (gs, behind) := HexGroups([16] + RX_WIDTHS, s).value;
      HexGroupsExactly([16] + RX_WIDTHS, s, gs, behind);
      assert behind == ":" + rest && gs[1..] == g && from.value == gs[0];
      assert Join(gs) == gs[0] + "," + Join(g);
      Regroup(gs[0] + ",", Join(g), ":" + rest);
    } else {
      var behind := HexGroups(RX_WIDTHS, s).value.1;
      assert behind == ":" + rest;
      HexGroupsExactly(RX_WIDTHS, s, g, behind);
      Nothing(Join(g) + (":" + rest));
    }
  }

  /** The six numbers of a frame. */
  function Numbers(nwk: nat, profile: nat, dstEp: nat, srcEp: nat, cluster: nat, n: nat): seq<string> {
    [FmtX(4, nwk), FmtX(4, profile), FmtX(2, dstEp), FmtX(2, srcEp), FmtX(4, cluster), FmtX(2, n)]
  }

  predicate NumbersFitted(nwk: nat, profile: nat, dstEp: nat, srcEp: nat, cluster: nat, n: nat) {
    nwk < 0x1_0000 && profile < 0x1_0000 && dstEp < 0x100 && srcEp < 0x100 && cluster < 0x1_0000 && n < 0x100
  }

  lemma SixGroups(g: seq<string>, nwk: nat, profile: nat, dstEp: nat, srcEp: nat, cluster: nat, n: nat)
    requires |g| == 6
    ensures GroupsOf(g, RX_WIDTHS) && Num(g[0]) == nwk && Num(g[1]) == profile && Num(g[2]) == dstEp
            && Num(g[3]) == srcEp && Num(g[4]) == cluster && Num(g[5]) == n <==>
            && g == Numbers(nwk, profile, dstEp, srcEp, cluster, n)
            && NumbersFitted(nwk, profile, dstEp, srcEp, cluster, n)
  {
    SixWidths(g);
    GroupNumber(g[0], 4, nwk);
    GroupNumber(g[1], 4, profile);
    GroupNumber(g[2], 2, dstEp);
    GroupNumber(g[3], 2, srcEp);
    GroupNumber(g[4], 4, cluster);
    GroupNumber(g[5], 2, n);
  }

  predicate Sized(g: string, width: nat) {
    |g| == width && UpperHex(g)
  }

  lemma SixWidths(g: seq<string>)
    requires |g| == 6
    ensures GroupsOf(g, RX_WIDTHS) <==>
            Sized(g[0], 4) && Sized(g[1], 4) && Sized(g[2], 2) && Sized(g[3], 2) && Sized(g[4], 4) && Sized(g[5], 2)
  {
  }

  /** The `n` bytes of a payload, as they are or as hex digits. */
  predicate BodyOf(body: string, n: nat, data: string, rxHex: bool) {
    if rxHex then |body| == 2 * n && FromHex(body) == Some(data) else |body| == n && body == data
  }

  predicate PairsOf(body: string, data: string) {
    && |body| == 2 * |data|
    && forall k :: 0 <= k < |data| ==> HexVal(body[2 * k..2 * k + 2]) == Some(data[k] as int)
  }

  /** Without blanks in it, a body is its pairs of digits, one a byte. */
  lemma {:induction false} BodyExactly(body: string, data: string)
    requires forall i :: 0 <= i < |body| ==> !IsSpace(body[i])
    ensures FromHex(body) == Some(data) <==> PairsOf(body, data)
    decreases |body|
  {
    if |body| >= 2 && data != "" {
      BodyExactly(body[2..], data[1..]);
      PairsOfFirst(body, data);
      FromHexFirst(body, data);
    } else if |body| >= 2 {
      assert FromHex(body) != Some("");
    }
  }

  lemma PairsOfFirst(body: string, data: string)
    requires |body| >= 2 && data != ""
    ensures PairsOf(body, data) <==> HexVal(body[..2]) == Some(data[0] as int) && PairsOf(body[2..], data[1..])
  {
    assert body[0..2] == body[..2];
    if |body| == 2 * |data| {
      if PairsOf(body, data) {
        forall k | 0 <= k < |data[1..]| ensures HexVal(body[2..][2 * k..2 * k + 2]) == Some(data[1..][k] as int) {
          PairMoved(body, k + 1);
        }
      }
      if HexVal(body[..2]) == Some(data[0] as int) && PairsOf(body[2..], data[1..]) {
        forall k | 0 <= k < |data| ensures HexVal(body[2 * k..2 * k + 2]) == Some(data[k] as int) {
          if k > 0 {
            PairMoved(body, k);
            assert HexVal(body[2..][2 * (k - 1)..2 * (k - 1) + 2]) == Some(data[1..][k - 1] as int);
          }
        }
      }
    }
  }

  lemma PairMoved(body: string, k: nat)
    requires 0 < k && 2 * k + 2 <= |body|
    ensures body[2..][2 * (k - 1)..2 * (k - 1) + 2] == body[2 * k..2 * k + 2]
  {
  }

  lemma FromHexFirst(body: string, data: string)
    requires |body| >= 2 && data != "" && !IsSpace(body[0])
    ensures FromHex(body) == Some(data) <==>
            HexVal(body[..2]) == Some(data[0] as int) && FromHex(body[2..]) == Some(data[1..])
  {
    var hi, lo := HexNibble(body[0]), HexNibble(body[1]);
    if hi >= 0 && lo >= 0 {
      PairOfDigits(body[..2], 16 * hi + lo);
    }
    HexValDefined(body[..2]);
    assert data == [data[0]] + data[1..];
  }

  /** Blanks between bytes are skipped, and nowhere else are they allowed. */
  lemma {:induction false} BlanksSkipped(a: string, blanks: string, b: string)
    requires FromHex(a).Some? && forall i :: 0 <= i < |blanks| ==> IsSpace(blanks[i])
    ensures FromHex(a + (blanks + b)) ==
            if FromHex(b).None? then None else Some(FromHex(a).value + FromHex(b).value)
    decreases |a|, |blanks|
  {
    var s := a + (blanks + b);
    if a != "" {
      var n := if IsSpace(a[0]) then 1 else 2;
      assert s[n..] == a[n..] + (blanks + b);
      assert s[0] == a[0] && (n == 2 ==> s[1] == a[1]);
      BlanksSkipped(a[n..], blanks, b);
      if n == 2 && FromHex(b).Some? {
        Regroup([FromHex(a).value[0]], FromHex(a[n..]).value, FromHex(b).value);
      }
    } else if blanks != "" {
      assert s == blanks + b && s[1..] == "" + (blanks[1..] + b);
      BlanksSkipped(a, blanks[1..], b);
    } else {
      assert s == b;
      if FromHex(b).Some? {
        Nothing(FromHex(b).value);
      }
    }
  }

  lemma BlankInByte(s: string)
    requires |s| >= 2 && !IsSpace(s[0]) && IsSpace(s[1])
    ensures FromHex(s) == None
  {
    assert HexNibble(s[1]) == -1;
  }

  /** A frame, with its length, its body and the tail's text given. */
  predicate RxBy(line: string, p: Prompt, rxHex: bool, n: nat, body: string, s: string) {
    && p.Rx? && SenderSpelled(p.from) && BodyOf(body, n, p.data, rxHex)
    && NumbersFitted(p.nwk, p.profile, p.dstEp, p.srcEp, p.cluster, n)
    && line == "RX:" + (Sender(p.from) + (Join(Numbers(p.nwk, p.profile, p.dstEp, p.srcEp, p.cluster, n))
                                          + (":" + (body + s))))
  }

  lemma RxGiven(line: string, p: Prompt, rxHex: bool, n: nat, body: string, s: string)
    requires RxBy(line, p, rxHex, n, body, s) && SignalSpelled(s, p.tail)
    ensures ParseRx(line, rxHex) == Some(p)
  {
    var g := Numbers(p.nwk, p.profile, p.dstEp, p.srcEp, p.cluster, n);
    var head := Sender(p.from) + (Join(g) + (":" + (body + s)));
    SixGroups(g, p.nwk, p.profile, p.dstEp, p.srcEp, p.cluster, n);
    AfterExactly("RX:", line, head);
    RxHeadGiven(head, p.from, g, body + s);
    TailExactly(s, p.tail);
    BodyRead(p, g, rxHex, n, body, s);
  }

  lemma BodyRead(p: Prompt, g: seq<string>, rxHex: bool, n: nat, body: string, s: string)
    requires p.Rx? && |g| == 6 && Num(g[5]) == n && BodyOf(body, n, p.data, rxHex) && Tail(s) == Some(p.tail)
    requires Num(g[0]) == p.nwk && Num(g[1]) == p.profile && Num(g[2]) == p.dstEp && Num(g[3]) == p.srcEp
    requires Num(g[4]) == p.cluster
    ensures RxBody(p.from, g, body + s, rxHex) == Some(p)
  {
    CutBehind(body, s);
  }

  lemma RxFound(line: string, p: Prompt, rxHex: bool) returns (n: nat, body: string, s: string)
    requires ParseRx(line, rxHex) == Some(p)
    ensures RxBy(line, p, rxHex, n, body, s) && SignalSpelled(s, p.tail)
  {
    var head, from, g, rest := RxTaken(line, p, rxHex);
    RxHeadFound(head, from, g, rest);
    n, body, s := BodyTaken(from, g, rest, p, rxHex);
    SixGroups(g, p.nwk, p.profile, p.dstEp, p.srcEp, p.cluster, n);
    TailExactly(s, p.tail);
  }

  lemma RxTaken(line: string, p: Prompt, rxHex: bool)
    returns (head: string, from: Option<string>, g: seq<string>, rest: string)
    requires ParseRx(line, rxHex) == Some(p)
    ensures line == "RX:" + head && RxHead(head) == Some((from, g, rest)) && |g| == 6
    ensures RxBody(from, g, rest, rxHex) == Some(p)
  {
    head := After("RX:", line).value;
    AfterExactly("RX:", line, head);
    var r := RxHead(head).value;
    from, g, rest := r.0, r.1, r.2;
  }

  lemma BodyTaken(from: Option<string>, g: seq<string>, rest: string, p: Prompt, rxHex: bool)
    returns (n: nat, body: string, s: string)
    requires |g| == 6 && RxBody(from, g, rest, rxHex) == Some(p)
    ensures rest == body + s && p.Rx? && p.from == from && n == Num(g[5]) && BodyOf(body, n, p.data, rxHex)
    ensures Tail(s) == Some(p.tail)
    ensures Num(g[0]) == p.nwk && Num(g[1]) == p.profile && Num(g[2]) == p.dstEp && Num(g[3]) == p.srcEp
    ensures Num(g[4]) == p.cluster
  {
    n := Num(g[5]);
    var width := if rxHex then 2 * n else n;
    BodyParts(from, g, rest, p, rxHex, width);
    body, s := rest[..width], rest[width..];
    Apart(rest, width);
  }

  lemma BodyParts(from: Option<string>, g: seq<string>, rest: string, p: Prompt, rxHex: bool, width: nat)
    requires |g| == 6 && RxBody(from, g, rest, rxHex) == Some(p) && width == Num(g[5]) * if rxHex then 2 else 1
    ensures width <= |rest| && p.Rx? && p.from == from && Tail(rest[width..]) == Some(p.tail)
    ensures if rxHex then FromHex(rest[..width]) == Some(p.data) else p.data == rest[..width]
    ensures Num(g[0]) == p.nwk && Num(g[1]) == p.profile && Num(g[2]) == p.dstEp && Num(g[3]) == p.srcEp
    ensures Num(g[4]) == p.cluster
  {
  }

  // ------------------------------------------------------------ every line

  ghost predicate Spells(line: string, p: Prompt, rxHex: bool) {
    match p
    case Text(kind, from, data, signal) =>
      exists s: string :: SignalSpelled(s, signal) && TextBy(line, kind, from, data, s)
    case Rx(_, _, _, _, _, _, _, signal) =>
      exists n: nat, body: string, s: string :: SignalSpelled(s, signal) && RxBy(line, p, rxHex, n, body, s)
    case _ => SimpleSpelled(line, p)
  }

  lemma TextIsNotSimple(line: string)
    requires ParseText(line).Some?
    ensures ParseSimple(line) == None && !("RX:" <= line)
  {
    TextLetters(line);
    if line[0] == 'M' {
      Excluded(line);
      ExcludedNext(line);
      MulticastIsNone(line);
    } else if ParseSimple(line).Some? {
      SimpleFirstLetter(line);
    }
  }

  lemma TextLetters(line: string)
    requires ParseText(line).Some?
    ensures |line| >= 5 && (line[0] == 'U' || line[0] == 'B' || (line[0] == 'M' && line[1] == 'C'))
  {
    TextKindTaken(line);
    assert line[0] == line[..5][0] && line[1] == line[..5][1];
  }

  lemma MulticastIsNone(line: string)
    requires |line| >= 5 && line[0] == 'M' && line[1] == 'C'
    ensures ParseMatchDesc(line) == None && ParseAnnounce(line) == None
  {
  }

  lemma FoundIsSpelled(line: string, p: Prompt, rxHex: bool)
    requires ParsePrompt(line, rxHex) == Some(p)
    ensures Spells(line, p, rxHex)
  {
    if ParseSimple(line).Some? {
      SimpleIsPattern(line, p);
      PatternExactly(line, p);
    } else if "RX:" <= line {
      var n, body, s := RxFound(line, p, rxHex);
    } else {
      var s := TextFound(line, p.kind, p.from, p.data, p.tail);
    }
  }

  lemma SpelledIsFound(line: string, p: Prompt, rxHex: bool)
    requires Spells(line, p, rxHex)
    ensures ParsePrompt(line, rxHex) == Some(p)
  {
    match p
    case Text(kind, from, data, signal) =>
      var s: string :| SignalSpelled(s, signal) && TextBy(line, kind, from, data, s);
      TextGiven(line, kind, from, data, s, signal);
      TextIsNotSimple(line);
    case Rx(_, _, _, _, _, _, _, signal) =>
      var n: nat, body: string, s: string :| SignalSpelled(s, signal) && RxBy(line, p, rxHex, n, body, s);
      RxGiven(line, p, rxHex, n, body, s);
      RxIsNotSimple(line);
    case _ =>
      PatternExactly(line, p);
      PatternIsSimple(line, p);
  }

  lemma RxIsNotSimple(line: string)
    requires "RX:" <= line
    ensures ParseSimple(line) == None
  {
    if ParseSimple(line).Some? {
      SimpleFirstLetter(line);
    }
  }

  /**
   `parse_prompt` reads a line as a prompt exactly if the line spells it, in either mode; a line that spells none
   is none, and no line spells two.
   */
  lemma ParseExactly(line: string, p: Prompt, rxHex: bool)
    ensures ParsePrompt(line, rxHex) == Some(p) <==> Spells(line, p, rxHex)
  {
    if ParsePrompt(line, rxHex) == Some(p) {
      FoundIsSpelled(line, p, rxHex);
    }
    if Spells(line, p, rxHex) {
      SpelledIsFound(line, p, rxHex);
    }
  }
}
