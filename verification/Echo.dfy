/** The echo of a command between the firmware's lines. */
module Echo {
  import opened Wrappers
  import opened CText
  import opened Streams
  import opened Prompts
  import opened Delivery
  import Host
  import LineReader
  import Notices
  import UartTx

  // ------------------------------------------------------------ stretches

  function EchoOf(items: seq<Item>): string {
    if items == [] then "" else (if items[0].Echoes? then items[0].bytes else "") + EchoOf(items[1..])
  }

  /** The echo cut at the lines of the firmware, behind `acc`: what stands in front of each of them. */
  function Stretches(acc: string, items: seq<Item>): seq<string>
    decreases |items|
  {
    if items == [] then []
    else if items[0].Echoes? then Stretches(acc + items[0].bytes, items[1..])
    else [acc] + Stretches("", items[1..])
  }

  /** And what follows the last of them. */
  function LastStretch(acc: string, items: seq<Item>): string
    decreases |items|
  {
    if items == [] then acc
    else if items[0].Echoes? then LastStretch(acc + items[0].bytes, items[1..])
    else LastStretch("", items[1..])
  }

  lemma {:induction false} StretchesAreEcho(acc: string, items: seq<Item>)
    ensures Flatten(Stretches(acc, items)) + LastStretch(acc, items) == acc + EchoOf(items)
    decreases |items|
  {
    if items == [] {
      Nothing(acc);
    } else if items[0].Echoes? {
      StretchesAreEcho(acc + items[0].bytes, items[1..]);
      Regroup(acc, items[0].bytes, EchoOf(items[1..]));
    } else {
      StretchesAreEcho("", items[1..]);
      Nothing(EchoOf(items[1..]));
      Regroup(acc, Flatten(Stretches("", items[1..])), LastStretch("", items[1..]));
    }
  }

  /** The lines of a stretch that a line of the firmware ends. */
  function Ended(s: string): seq<string> {
    LineReader.Lines("", s) + [LineReader.Fed("", s)]
  }

  function AllEnded(stretches: seq<string>): seq<string> {
    if stretches == [] then [] else Ended(stretches[0]) + AllEnded(stretches[1..])
  }

  lemma {:induction false} NoiseByStretch(acc: string, items: seq<Item>)
    ensures LineReader.Lines("", acc) + Noise(LineReader.Fed("", acc), items) ==
            AllEnded(Stretches(acc, items)) + LineReader.Lines("", LastStretch(acc, items))
    decreases |items|
  {
    if items == [] {
      Nothing(LineReader.Lines("", acc));
    } else if items[0].Echoes? {
      var b := items[0].bytes;
      NoiseByStretch(acc + b, items[1..]);
      LineReader.FeedInPieces("", acc, b);
      Regroup(LineReader.Lines("", acc), LineReader.Lines(LineReader.Fed("", acc), b),
              Noise(LineReader.Fed("", acc + b), items[1..]));
    } else {
      NoiseByStretch("", items[1..]);
      Nothing(Noise("", items[1..]));
      Regroup(LineReader.Lines("", acc), [LineReader.Fed("", acc)], Noise("", items[1..]));
      Regroup(Ended(acc), AllEnded(Stretches("", items[1..])), LineReader.Lines("", LastStretch("", items[1..])));
    }
  }

  // ------------------------------------------------------------ one stretch

  /** Nothing of the command, or all of it, with or without its CR; or the CR alone. */
  predicate Entire(cmd: string, s: string) {
    s == "" || s == "\r" || s == cmd || s == cmd + "\r"
  }

  /** A command line as the host sends it. */
  predicate Pending(cmd: string) {
    Host.Command(Some(cmd)) && LineReader.OneLine(cmd)
  }

  lemma FirstLetter(cmd: string)
    requires Pending(cmd)
    ensures |cmd| >= 2 && UpperChar(cmd[0]) == 'A' && cmd[0] != '>' && cmd[0] != '\r'
  {
    assert ToUpper(cmd)[..2][0] == ToUpper(cmd)[0];
  }

  lemma WithoutLastCr(u: string)
    requires LineReader.OneLine(u)
    ensures LineReader.WithoutCr(u + "\r") == u
  {
    assert (u + "\r")[..|u|] == u;
  }

  lemma PromptIsNoise(cmd: string, n: nat)
    requires Pending(cmd) && n > 0
    ensures !AllHidden(Some(cmd), LineReader.Alone(n))
  {
    var lines := LineReader.Alone(n);
    FirstLetter(cmd);
    assert lines[|lines| - 1] == ">";
    assert |ToUpper(">")| < |ToUpper(cmd)|;
  }

  /** The characters of a stretch without its CR. */
  function BeforeCr(s: string): string {
    if s != "" && s[|s| - 1] == '\r' then s[..|s| - 1] else s
  }

  lemma StretchReads(s: string)
    requires LineReader.OneLine(BeforeCr(s))
    ensures var u := BeforeCr(s); var n := LineReader.Prompts(u); Ended(s) == LineReader.Alone(n) + [u[n..]]
  {
    if BeforeCr(s) != s {
      assert s == BeforeCr(s) + "\r";
      WithoutLastCr(BeforeCr(s));
    }
    assert '\n' !in s;
    LineReader.FedLine(s);
  }

  lemma NoPrompt(cmd: string, u: string)
    requires Pending(cmd) && LineReader.Prompts(u) > 0
    ensures !Hidden(Some(cmd), u)
  {
    FirstLetter(cmd);
    assert u[0] == '>';
    assert ToUpper(u)[0] == '>' && ToUpper(cmd)[0] == 'A';
  }

  /** A stretch without '>' in front gives one line, its characters; one with '>' in front gives noise. */
  lemma StretchLines(cmd: string, s: string)
    requires Pending(cmd) && LineReader.OneLine(BeforeCr(s))
    ensures AllHidden(Some(cmd), Ended(s)) <==> Hidden(Some(cmd), BeforeCr(s))
  {
    var u := BeforeCr(s);
    var n := LineReader.Prompts(u);
    StretchReads(s);
    FrontShows(cmd, LineReader.Alone(n), [u[n..]]);
    if n == 0 {
      assert u[0..] == u && [u][0] == u;
    } else {
      PromptIsNoise(cmd, n);
      NoPrompt(cmd, u);
    }
  }

  lemma FrontShows(cmd: string, a: seq<string>, b: seq<string>)
    ensures AllHidden(Some(cmd), a + b) <==> AllHidden(Some(cmd), a) && AllHidden(Some(cmd), b)
  {
    assert forall i :: 0 <= i < |a| ==> (a + b)[i] == a[i];
    assert forall i :: 0 <= i < |b| ==> (a + b)[|a| + i] == b[i];
  }

  /** Of the bytes of a command and its CR, a stretch is hidden exactly if it is entire. */
  lemma StretchExactly(cmd: string, k: nat, s: string)
    requires Pending(cmd) && k + |s| <= |cmd| + 1 && s == (cmd + "\r")[k..k + |s|]
    ensures AllHidden(Some(cmd), Ended(s)) <==> Entire(cmd, s)
  {
    PartOf(cmd, k, s);
    StretchLines(cmd, s);
    HiddenPart(cmd, k, BeforeCr(s));
  }

  lemma PartOf(cmd: string, k: nat, s: string)
    requires LineReader.OneLine(cmd) && k + |s| <= |cmd| + 1 && s == (cmd + "\r")[k..k + |s|]
    ensures k + |BeforeCr(s)| <= |cmd| + 1 && |BeforeCr(s)| <= |cmd| && LineReader.OneLine(BeforeCr(s))
    ensures BeforeCr(s) != "" ==> k + |BeforeCr(s)| <= |cmd| && BeforeCr(s) == cmd[k..k + |BeforeCr(s)|]
    ensures s == BeforeCr(s) || s == BeforeCr(s) + "\r"
  {
    var u := BeforeCr(s);
    assert forall i :: 0 <= i < |s| ==> s[i] == (cmd + "\r")[k + i];
    if u != "" {
      assert k + |u| <= |cmd|;
      assert forall i :: 0 <= i < |u| ==> u[i] == cmd[k + i];
    }
  }

  lemma HiddenPart(cmd: string, k: nat, u: string)
    requires u != "" ==> k + |u| <= |cmd| && u == cmd[k..k + |u|]
    ensures Hidden(Some(cmd), u) <==> u == "" || u == cmd
  {
    if |u| == |cmd| {
      assert u == "" || u == cmd;
    } else {
      assert |ToUpper(u)| != |ToUpper(cmd)|;
    }
  }

  // ------------------------------------------------------------ all of them

  predicate AllEntire(cmd: string, stretches: seq<string>) {
    forall i :: 0 <= i < |stretches| ==> Entire(cmd, stretches[i])
  }

  /** The stretches are pieces of `whole` from `k` on. */
  lemma {:induction false} StretchesExactly(cmd: string, k: nat, stretches: seq<string>, rest: string)
    requires Pending(cmd) && k <= |cmd| + 1 && Flatten(stretches) + rest == (cmd + "\r")[k..]
    ensures AllHidden(Some(cmd), AllEnded(stretches)) <==> AllEntire(cmd, stretches)
    decreases |stretches|
  {
    if stretches != [] {
      var s, later := stretches[0], stretches[1..];
      PieceInFront(cmd + "\r", k, s, Flatten(later), rest);
      StretchExactly(cmd, k, s);
      StretchesExactly(cmd, k + |s|, later, rest);
      FrontShows(cmd, Ended(s), AllEnded(later));
      assert forall i :: 0 <= i < |later| ==> later[i] == stretches[i + 1];
      assert forall i :: 0 < i < |stretches| ==> stretches[i] == later[i - 1];
    }
  }

  lemma PieceInFront(whole: string, k: nat, s: string, later: string, rest: string)
    requires k <= |whole| && s + later + rest == whole[k..]
    ensures k + |s| <= |whole| && s == whole[k..k + |s|] && later + rest == whole[k + |s|..]
  {
    assert s + later + rest == s + (later + rest);
    CutBehind(s, later + rest);
    assert whole[k..][..|s|] == whole[k..k + |s|];
    assert whole[k..][|s|..] == whole[k + |s|..];
  }

  /** Entire stretches leave the whole command, or nothing but its CR. */
  lemma {:induction false} EntireLeave(cmd: string, stretches: seq<string>, rest: string)
    requires Pending(cmd) && AllEntire(cmd, stretches) && Flatten(stretches) + rest == cmd + "\r"
    ensures Entire(cmd, rest)
    decreases |stretches|
  {
    if stretches == [] {
      Nothing(rest);
    } else {
      var s := stretches[0];
      PieceInFront(cmd + "\r", 0, s, Flatten(stretches[1..]), rest);
      FirstLetter(cmd);
      if s == "" {
        EntireLeave(cmd, stretches[1..], rest);
      } else {
        assert s[0] == cmd[0];
        assert (cmd + "\r")[|s|..] == "" || (cmd + "\r")[|s|..] == "\r";
        LastOne(Flatten(stretches[1..]), rest, (cmd + "\r")[|s|..]);
      }
    }
  }

  lemma LastOne(a: string, b: string, whole: string)
    requires a + b == whole && |whole| <= 1
    ensures b == "" || b == whole
  {
    if b != "" {
      assert a == "";
    }
  }

  lemma EntireIsQuiet(cmd: string, s: string)
    requires Pending(cmd) && Entire(cmd, s)
    ensures LineReader.Lines("", s) == []
  {
    FirstLetter(cmd);
    var u := BeforeCr(s);
    assert u == "" || u == cmd;
    if u != s {
      assert s == u + "\r";
      WithoutLastCr(u);
    }
    LineReader.FedLine(s);
  }

  /**
   A pending command whose echo is on the line: the host's history and answers are exactly those meant if and
   only if no line of the firmware falls into the echo, that is, in front of each of them stands nothing of the
   command or all of it.
   */
  lemma HiddenExactlyWhole(cmd: string, items: seq<Item>)
    requires Pending(cmd) && EchoOf(items) == cmd + "\r"
    ensures AllHidden(Some(cmd), Noise("", items)) <==> AllEntire(cmd, Stretches("", items))
  {
    var stretches, rest := Stretches("", items), LastStretch("", items);
    StretchesAreEcho("", items);
    Nothing(cmd + "\r");
    NoiseByStretch("", items);
    Nothing(Noise("", items));
    assert (cmd + "\r")[0..] == cmd + "\r";
    StretchesExactly(cmd, 0, stretches, rest);
    FrontShows(cmd, AllEnded(stretches), LineReader.Lines("", rest));
    if AllEntire(cmd, stretches) {
      EntireLeave(cmd, stretches, rest);
      EntireIsQuiet(cmd, rest);
    }
  }

  /** The same end to end, for any interleaving of the writers and any reads. */
  lemma CommandEchoExactlyWhen(es: seq<UartTx.Event>, t: UartTx.State, k: nat, hex: bool, items: seq<Item>,
                               cmd: string, chunks: seq<string>)
    requires SentAndRead(es, t, k, hex, items, chunks) && forall i :: 0 <= i < |items| ==> Sound(items[i], hex)
    requires Pending(cmd) && EchoOf(items) == cmd + "\r"
    ensures Exact(Some(cmd), hex, items, LineReader.ReadAll("", chunks)) <==> AllEntire(cmd, Stretches("", items))
  {
    ReportsReachTheHost(es, t, k, hex, items, Some(cmd), "", chunks);
    HiddenExactlyWhole(cmd, items);
  }

  // ------------------------------------------------------------ runs in which it is cut

  /** A report printed between two pieces of a command's echo. */
  function CutItems(cmd: string, k: nat, r: Report): (items: seq<Item>)
    requires k <= |cmd|
  {
    [Echoes(cmd[..k])] + [Says(r)] + [Echoes(cmd[k..] + "\r")]
  }

  lemma CutEcho(cmd: string, k: nat, r: Report)
    requires k <= |cmd|
    ensures EchoOf(CutItems(cmd, k, r)) == cmd + "\r"
  {
    var items := CutItems(cmd, k, r);
    assert items[1..] == [Says(r)] + [Echoes(cmd[k..] + "\r")];
    assert items[1..][1..] == [Echoes(cmd[k..] + "\r")] && items[1..][1..][1..] == [];
    assert items[1..][0] == Says(r) && items[1..][1..][0] == Echoes(cmd[k..] + "\r");
    Nothing(cmd[k..] + "\r");
    assert EchoOf(items[1..][1..]) == cmd[k..] + "\r";
    assert cmd == cmd[..k] + cmd[k..];
    Regroup(cmd[..k], cmd[k..], "\r");
  }

  /** The beginning of a command is no prompt. */
  lemma CutIsNoPrompt(cmd: string, k: nat, hex: bool)
    requires Pending(cmd) && 0 < k < |cmd|
    ensures Host.ToAnswers(Some(cmd), hex, cmd[..k]) == [cmd[..k]]
  {
    FirstLetter(cmd);
    SecondLetter(cmd);
    assert |ToUpper(cmd[..k])| < |ToUpper(cmd)|;
    BeginningOfAt(cmd[..k], hex);
  }

  lemma SecondLetter(cmd: string)
    requires Pending(cmd)
    ensures |cmd| >= 2 && UpperChar(cmd[1]) == 'T'
  {
    assert ToUpper(cmd)[..2][1] == ToUpper(cmd)[1];
  }

  lemma BeginningOfAt(line: string, hex: bool)
    requires line != "" && UpperChar(line[0]) == 'A' && (|line| > 1 ==> UpperChar(line[1]) == 'T')
    ensures ParsePrompt(line, hex) == None
  {
    Notices.Excluded(line);
    NotAnnounced(line);
    NotNumbered(line);
    assert ParseSimple(line) == None;
    assert !("RX:" <= line);
    if |line| >= 5 {
      assert line[..5][0] == line[0];
    }
  }

  lemma NotAnnounced(line: string)
    requires line != "" && UpperChar(line[0]) == 'A'
    ensures ParseAnnounce(line) == None
  {
    if |line| >= 3 {
      assert line[..3][0] == line[0];
    }
  }

  lemma NotNumbered(line: string)
    requires line != "" && UpperChar(line[0]) == 'A' && (|line| > 1 ==> UpperChar(line[1]) == 'T')
    ensures ParseAck(line) == None && ParseSeq(line) == None && ParseNack(line) == None
    ensures ParseNewNode(line) == None && ParseNodeLeft(line) == None
  {
  }

  lemma CutReads(cmd: string, k: nat, r: Report, hex: bool)
    requires Pending(cmd) && 0 < k < |cmd| && Whole(r, hex)
    ensures var lines := Reads("", Spoken(CutItems(cmd, k, r), hex)); lines != [] && lines[0] == cmd[..k]
  {
    var items := CutItems(cmd, k, r);
    FirstLetter(cmd);
    LineReader.Gathered(cmd[..k]);
    ReadsNext("", items, hex);
    assert items[1..][0] == Says(r);
    ReadsNext(cmd[..k], items[1..], hex);
  }

  lemma FirstAnswer(pending: Option<string>, hex: bool, lines: seq<string>)
    requires lines != [] && Host.ToAnswers(pending, hex, lines[0]) == [lines[0]]
    ensures var answers := Host.AllAnswers(pending, hex, lines); answers != [] && answers[0] == lines[0]
  {
    assert lines == [lines[0]] + lines[1..];
    ConcatRouted(pending, hex, [lines[0]], lines[1..]);
    OneRouted(pending, hex, lines[0]);
  }

  /**
   Whatever the command, wherever its echo is cut and whatever is printed there, there is such a run, and in it
   the first half of the echo is handed to the command as a line of its answer.
   */
  lemma CutEchoIsAnAnswer(cmd: string, k: nat, r: Report, hex: bool)
    requires Pending(cmd) && 0 < k < |cmd| && Whole(r, hex)
    ensures EchoOf(CutItems(cmd, k, r)) == cmd + "\r"
    ensures exists es: seq<UartTx.Event>, t: UartTx.State, chunks: seq<string> ::
              && SentAndRead(es, t, 0, hex, CutItems(cmd, k, r), chunks)
              && (var answers := Host.AllAnswers(Some(cmd), hex, LineReader.ReadAll("", chunks));
                  answers != [] && answers[0] == cmd[..k])
  {
    var items := CutItems(cmd, k, r);
    var lines := seq(|items|, i requires 0 <= i < |items| => Bytes(SaidOf(items[i], hex)));
    var es, t := UartTx.AnythingCanBeSent(lines);
    var chunks := [t.tx.wire];
    UartTx.OnePart(t.tx.wire);
    assert t.lines[..0] == [] && Flatten(t.lines[..0]) + Flatten(chunks) == t.tx.wire;
    assert SentAndRead(es, t, 0, hex, items, chunks);
    CutEcho(cmd, k, r);
    CutReads(cmd, k, r, hex);
    ItemsRead(es, t, 0, hex, items, "", chunks);
    CutIsNoPrompt(cmd, k, hex);
    FirstAnswer(Some(cmd), hex, LineReader.ReadAll("", chunks));
  }
}
