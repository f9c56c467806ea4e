/** From all writers to the host's history and answers. */
module Delivery {
  import opened Wrappers
  import opened Streams
  import opened Prompts
  import opened Printer
  import opened Notices
  import opened CText
  import Host
  import LineReader
  import UartTx

  /**
   What a writer puts out while it holds the lock: a line, the '>' of a binary entry, or what the RX thread
   echoes of one received piece.
   */
  datatype Said = Line(text: string) | Ask | Echo(bytes: string)

  function Bytes(x: Said): string {
    match x
    case Line(text) => "\r\n" + text + "\r\n"
    case Ask => "\r\n>"
    case Echo(bytes) => bytes
  }

  predicate Printable(x: Said) {
    x.Line? ==> LineReader.OneLine(x.text) && (x.text != "" ==> x.text[0] != '>')
  }

  /** What the host reads of it: a line and a '>' end the line before them, an echo may end nothing. */
  function Heard(buf: string, x: Said): seq<string> {
    match x
    case Line(text) => [buf, text]
    case Ask => [buf, ">"]
    case Echo(bytes) => LineReader.Lines(buf, bytes)
  }

  function Left(buf: string, x: Said): string {
    match x
    case Echo(bytes) => LineReader.Fed(buf, bytes)
    case _ => ""
  }

  function Reads(buf: string, xs: seq<Said>): seq<string>
    decreases |xs|
  {
    if xs == [] then [] else Heard(buf, xs[0]) + Reads(Left(buf, xs[0]), xs[1..])
  }

  lemma OneArrives(buf: string, x: Said)
    requires Printable(x)
    ensures LineReader.Lines(buf, Bytes(x)) == Heard(buf, x) && LineReader.Fed(buf, Bytes(x)) == Left(buf, x)
  {
    match x
    case Line(text) => LineReader.FramedLineArrives(buf, text);
    case Ask =>
      LineReader.CrLf(buf);
      AskAlone();
      LineReader.FeedInPieces(buf, "\r\n", ">");
    case Echo(_) =>
  }

  lemma AskAlone()
    ensures LineReader.Lines("", ">") == [">"] && LineReader.Fed("", ">") == ""
  {
    assert ">" == "" + ['>'];
    LineReader.FeedOne("", "", '>');
    assert LineReader.Lines("", "") == [] && LineReader.Fed("", "") == "";
  }

  /** Lines of the transmit machine that say `xs`. */
  predicate Say(lines: seq<string>, xs: seq<Said>) {
    |lines| == |xs| && forall i :: 0 <= i < |xs| ==> Printable(xs[i]) && lines[i] == Bytes(xs[i])
  }

  lemma {:induction false} AllArrive(buf: string, lines: seq<string>, xs: seq<Said>)
    requires Say(lines, xs)
    ensures LineReader.Lines(buf, Flatten(lines)) == Reads(buf, xs)
    decreases |xs|
  {
    if xs != [] {
      OneArrives(buf, xs[0]);
      LineReader.FeedInPieces(buf, lines[0], Flatten(lines[1..]));
      AllArrive(Left(buf, xs[0]), lines[1..], xs[1..]);
    }
  }

  lemma EarlierLines(buf: string, a: string, b: string)
    requires a <= b
    ensures LineReader.Lines(buf, a) <= LineReader.Lines(buf, b)
  {
    LineReader.FeedInPieces(buf, a, b[|a|..]);
    Joined(a, b);
  }

  lemma Joined(a: string, b: string)
    requires a <= b
    ensures a + b[|a|..] == b
  {
  }

  /** The stream from the `k`th line on. */
  lemma FromLine(lines: seq<string>, k: nat, data: string)
    requires k <= |lines| && Flatten(lines[..k]) + data <= Flatten(lines)
    ensures data <= Flatten(lines[k..])
    ensures Flatten(lines[..k]) + data == Flatten(lines) ==> data == Flatten(lines[k..])
  {
    assert lines[..k] + lines[k..] == lines;
    FlattenConcat(lines[..k], lines[k..]);
    PrefixCancels(Flatten(lines[..k]), data, Flatten(lines[k..]));
  }

  lemma PrefixCancels(front: string, a: string, b: string)
    requires front + a <= front + b
    ensures a <= b && (front + a == front + b ==> a == b)
  {
    CutBehind(front, a);
    CutBehind(front, b);
    assert a == (front + b)[..|front + a|][|front|..];
  }

  /**
   Every interleaving of all writers, the echo included, and of the callbacks; every way of reading: of what is
   said from the `k`th holder of the lock on, the host has at any moment read a beginning, in the order of the
   lock, each line whole; once everything is sent it has read exactly that.
   */
  lemma LinesArriveInOrder(es: seq<UartTx.Event>, t: UartTx.State, k: nat, xs: seq<Said>, buf: string,
                           chunks: seq<string>)
    requires UartTx.Run(UartTx.BOOT, es, t) && k <= |t.lines| && Say(t.lines[k..], xs)
    requires Flatten(t.lines[..k]) + Flatten(chunks) <= t.tx.wire
    ensures LineReader.ReadAll(buf, chunks) <= Reads(buf, xs)
    ensures t.pc.Unlocked? && t.tx.ring == "" && Flatten(t.lines[..k]) + Flatten(chunks) == t.tx.wire ==>
              LineReader.ReadAll(buf, chunks) == Reads(buf, xs)
  {
    UartTx.StreamConservation(es, t);
    FromLine(t.lines, k, Flatten(chunks));
    LineReader.AnyChunks(buf, chunks);
    EarlierLines(buf, Flatten(chunks), Flatten(t.lines[k..]));
    AllArrive(buf, t.lines[k..], xs);
  }

  // ------------------------------------------------------------ events and answers on the host

  /** What the firmware reports: a frame by `print_rx`, a text by `print_text`, or a notice by `at_print`. */
  datatype Report =
    | Received(frame: Frame, showTail: bool)
    | Message(kind: Kind, frame: Frame, showTail: bool)
    | Reported(notice: Notice)

  function ReportLine(r: Report, hex: bool): string {
    match r
    case Received(f, tail) => RxLine(f, hex, tail)
    case Message(kind, f, tail) => TextLine(kind, f, tail)
    case Reported(n) => NoticeText(n)
  }

  /** The reports whose data can travel in a line: every frame in hex mode and every notice. */
  predicate Whole(r: Report, hex: bool) {
    match r
    case Received(f, _) => Valid(f) && (hex || LineReader.OneLine(Shown(f)))
    case Message(_, f, _) => Valid(f) && |f.payload| < 0x100 && LineReader.OneLine(f.payload)
    case Reported(_) => true
  }

  function EventsOf(r: Report): seq<Prompt> {
    match r
    case Received(f, tail) => [RxMeaning(f, tail)]
    case Message(kind, f, tail) => [TextMeaning(kind, f, tail)]
    case Reported(n) => if Host.Answers(n) && !n.Joined? then [] else [NoticeMeaning(n)]
  }

  function AnswersOf(r: Report): seq<string> {
    if r.Reported? && Host.Answers(r.notice) then [NoticeText(r.notice)] else []
  }

  /** What the holders of the lock put out, one after the other. */
  datatype Item = Says(report: Report) | Asks | Echoes(bytes: string)

  function SaidOf(x: Item, hex: bool): Said {
    match x
    case Says(r) => Said.Line(ReportLine(r, hex))
    case Asks => Ask
    case Echoes(bytes) => Echo(bytes)
  }

  predicate Sound(x: Item, hex: bool) {
    x.Says? ==> Whole(x.report, hex)
  }

  /** The line of an item that is not an echo. */
  function ItemLine(x: Item, hex: bool): string {
    match x
    case Says(r) => ReportLine(r, hex)
    case _ => ">"
  }

  /** The events and the answers that are meant; the '>' is an answer too. */
  function ItemEvents(x: Item): seq<Prompt> {
    if x.Says? then EventsOf(x.report) else []
  }

  function ItemAnswers(x: Item): seq<string> {
    match x
    case Says(r) => AnswersOf(r)
    case Asks => [">"]
    case Echoes(_) => []
  }

  function Events(items: seq<Item>): seq<Prompt> {
    if items == [] then [] else ItemEvents(items[0]) + Events(items[1..])
  }

  function AnswerLines(pending: Option<string>, items: seq<Item>): seq<string> {
    if items == [] || pending.None? then [] else ItemAnswers(items[0]) + AnswerLines(pending, items[1..])
  }

  function Spoken(items: seq<Item>, hex: bool): (xs: seq<Said>)
    ensures |xs| == |items| && forall i :: 0 <= i < |items| ==> xs[i] == SaidOf(items[i], hex)
  {
    if items == [] then [] else [SaidOf(items[0], hex)] + Spoken(items[1..], hex)
  }

  lemma RxPrintable(f: Frame, hex: bool, showTail: bool)
    requires Valid(f) && (hex || LineReader.OneLine(Shown(f)))
    ensures var s := RxLine(f, hex, showTail); LineReader.OneLine(s) && s != "" && s[0] == 'R'
  {
    NothingCut(f, showTail);
    HexTextUpper(Shown(f));
    UpperOneLine(HexText(Shown(f)));
    TailOneLine(f, showTail);
    OneLineParts(RxHeadText(f), if hex then HexText(Shown(f)) else Shown(f), TailText(f, showTail));
  }

  lemma TextPrintable(kind: Kind, f: Frame, showTail: bool)
    requires Valid(f) && |f.payload| < 0x100 && LineReader.OneLine(f.payload)
    ensures var s := TextLine(kind, f, showTail); LineReader.OneLine(s) && s != "" && s[0] == kind[0]
  {
    TextHeadFits(kind, f);
    TailOneLine(f, showTail);
    OneLineParts(TextHeadText(kind, f), f.payload, TailText(f, showTail));
  }

  lemma WholeIsPrintable(r: Report, hex: bool)
    requires Whole(r, hex)
    ensures Printable(Said.Line(ReportLine(r, hex)))
  {
    match r
    case Received(f, tail) => RxPrintable(f, hex, tail);
    case Message(kind, f, tail) => TextPrintable(kind, f, tail);
    case Reported(n) => NoticeFits(n);
  }

  lemma OneReport(pending: Option<string>, hex: bool, r: Report)
    requires Host.Command(pending) && Whole(r, hex)
    ensures Host.ToHistory(pending, hex, ReportLine(r, hex)) == EventsOf(r)
    ensures Host.ToAnswers(pending, hex, ReportLine(r, hex)) == if pending.Some? then AnswersOf(r) else []
  {
    match r
    case Received(f, tail) => Host.FrameIsEvent(pending, f, hex, tail);
    case Message(kind, f, tail) => Host.TextIsEvent(pending, kind, f, tail, hex);
    case Reported(n) => Host.NoticeIsRouted(pending, n, hex);
  }

  lemma LastOf(a: seq<string>, b: seq<string>)
    requires b != []
    ensures (a + b)[..|a + b| - 1] == a + b[..|b| - 1] && (a + b)[|a + b| - 1] == b[|b| - 1]
  {
  }

  lemma {:induction false} HistoryConcat(pending: Option<string>, hex: bool, a: seq<string>, b: seq<string>)
    ensures Host.AllHistory(pending, hex, a + b) == Host.AllHistory(pending, hex, a) + Host.AllHistory(pending, hex, b)
    decreases |b|
  {
    if b == [] {
      Nothing(a);
      Nothing(Host.AllHistory(pending, hex, a));
    } else {
      var front, last := b[..|b| - 1], b[|b| - 1];
      LastOf(a, b);
      HistoryConcat(pending, hex, a, front);
      Regroup(Host.AllHistory(pending, hex, a), Host.AllHistory(pending, hex, front),
              Host.ToHistory(pending, hex, last));
    }
  }

  lemma {:induction false} AnswersConcat(pending: Option<string>, hex: bool, a: seq<string>, b: seq<string>)
    ensures Host.AllAnswers(pending, hex, a + b) == Host.AllAnswers(pending, hex, a) + Host.AllAnswers(pending, hex, b)
    decreases |b|
  {
    if b == [] {
      Nothing(a);
      Nothing(Host.AllAnswers(pending, hex, a));
    } else {
      var front, last := b[..|b| - 1], b[|b| - 1];
      LastOf(a, b);
      AnswersConcat(pending, hex, a, front);
      Regroup(Host.AllAnswers(pending, hex, a), Host.AllAnswers(pending, hex, front),
              Host.ToAnswers(pending, hex, last));
    }
  }

  lemma ConcatRouted(pending: Option<string>, hex: bool, a: seq<string>, b: seq<string>)
    ensures Host.AllHistory(pending, hex, a + b) == Host.AllHistory(pending, hex, a) + Host.AllHistory(pending, hex, b)
    ensures Host.AllAnswers(pending, hex, a + b) == Host.AllAnswers(pending, hex, a) + Host.AllAnswers(pending, hex, b)
  {
    HistoryConcat(pending, hex, a, b);
    AnswersConcat(pending, hex, a, b);
  }

  lemma OneRouted(pending: Option<string>, hex: bool, line: string)
    ensures Host.AllHistory(pending, hex, [line]) == Host.ToHistory(pending, hex, line)
    ensures Host.AllAnswers(pending, hex, [line]) == Host.ToAnswers(pending, hex, line)
  {
    assert [line][..0] == [];
    Nothing(Host.ToHistory(pending, hex, line));
    Nothing(Host.ToAnswers(pending, hex, line));
  }

  // ------------------------------------------------------------ with the echo between

  /** The lines the host reads besides: what a LF of the echo or of a following line ends. */
  function Noise(buf: string, items: seq<Item>): seq<string>
    decreases |items|
  {
    if items == [] then []
    else
      match items[0]
      case Echoes(bytes) => LineReader.Lines(buf, bytes) + Noise(LineReader.Fed(buf, bytes), items[1..])
      case _ => [buf] + Noise("", items[1..])
  }

  lemma AskRouted(pending: Option<string>, hex: bool)
    requires Host.Command(pending)
    ensures Host.ToHistory(pending, hex, ">") == []
    ensures Host.ToAnswers(pending, hex, ">") == if pending.Some? then [">"] else []
  {
    if pending.Some? {
      assert |ToUpper(">")| == 1 < |ToUpper(pending.value)|;
    }
    NotSimple(">");
  }

  lemma NotSimple(line: string)
    requires line == ">"
    ensures ParseSimple(line) == None
  {
  }

  lemma ItemRouted(pending: Option<string>, hex: bool, x: Item)
    requires Host.Command(pending) && Sound(x, hex) && !x.Echoes?
    ensures Host.ToHistory(pending, hex, ItemLine(x, hex)) == ItemEvents(x)
    ensures Host.ToAnswers(pending, hex, ItemLine(x, hex)) == if pending.Some? then ItemAnswers(x) else []
  {
    if x.Says? {
      OneReport(pending, hex, x.report);
    } else {
      AskRouted(pending, hex);
    }
  }

  lemma ReadsNext(buf: string, items: seq<Item>, hex: bool)
    requires items != []
    ensures Reads(buf, Spoken(items, hex)) ==
            Heard(buf, SaidOf(items[0], hex)) + Reads(Left(buf, SaidOf(items[0], hex)), Spoken(items[1..], hex))
  {
    assert Spoken(items, hex)[1..] == Spoken(items[1..], hex);
  }

  /** An item's own part, and in front of it what it ends. */
  lemma MergedNext<T>(own: seq<T>, noise: seq<T>, a: seq<T>, b: seq<T>, c: seq<T>)
    requires Merged(a, b, c)
    ensures Merged(own + a, noise + b, noise + own + c)
  {
    MergedLeft(own, a, b, c);
    MergedRight(noise, own + a, b, own + c);
    Regroup(noise, own, c);
  }

  lemma {:induction false} HistoryMerged(pending: Option<string>, hex: bool, buf: string, items: seq<Item>)
    requires Host.Command(pending) && forall i :: 0 <= i < |items| ==> Sound(items[i], hex)
    ensures Merged(Events(items), Host.AllHistory(pending, hex, Noise(buf, items)),
                   Host.AllHistory(pending, hex, Reads(buf, Spoken(items, hex))))
    decreases |items|
  {
    if items != [] {
      var x, rest := items[0], items[1..];
      var next := Left(buf, SaidOf(x, hex));
      var noise, heard := Noise(next, rest), Reads(next, Spoken(rest, hex));
      HistoryMerged(pending, hex, next, rest);
      ReadsNext(buf, items, hex);
      HistoryConcat(pending, hex, Heard(buf, SaidOf(x, hex)), heard);
      var before := if x.Echoes? then LineReader.Lines(buf, x.bytes) else [buf];
      HistoryConcat(pending, hex, before, noise);
      if x.Echoes? {
        Nothing(Host.AllHistory(pending, hex, before));
      } else {
        TwoRouted(pending, hex, buf, x);
      }
      MergedNext(ItemEvents(x), Host.AllHistory(pending, hex, before), Events(rest),
                 Host.AllHistory(pending, hex, noise), Host.AllHistory(pending, hex, heard));
    }
  }

  lemma TwoRouted(pending: Option<string>, hex: bool, buf: string, x: Item)
    requires Host.Command(pending) && Sound(x, hex) && !x.Echoes?
    ensures var heard := Heard(buf, SaidOf(x, hex));
            && Host.AllHistory(pending, hex, heard) == Host.AllHistory(pending, hex, [buf]) + ItemEvents(x)
            && Host.AllAnswers(pending, hex, heard) ==
               Host.AllAnswers(pending, hex, [buf]) + if pending.Some? then ItemAnswers(x) else []
  {
    assert Heard(buf, SaidOf(x, hex)) == [buf] + [ItemLine(x, hex)];
    ConcatRouted(pending, hex, [buf], [ItemLine(x, hex)]);
    OneRouted(pending, hex, ItemLine(x, hex));
    ItemRouted(pending, hex, x);
  }

  lemma {:induction false} AnswersMerged(pending: Option<string>, hex: bool, buf: string, items: seq<Item>)
    requires Host.Command(pending) && forall i :: 0 <= i < |items| ==> Sound(items[i], hex)
    ensures Merged(AnswerLines(pending, items), Host.AllAnswers(pending, hex, Noise(buf, items)),
                   Host.AllAnswers(pending, hex, Reads(buf, Spoken(items, hex))))
    decreases |items|
  {
    if items != [] {
      var x, rest := items[0], items[1..];
      var next := Left(buf, SaidOf(x, hex));
      var noise, heard := Noise(next, rest), Reads(next, Spoken(rest, hex));
      AnswersMerged(pending, hex, next, rest);
      ReadsNext(buf, items, hex);
      AnswersConcat(pending, hex, Heard(buf, SaidOf(x, hex)), heard);
      var before := if x.Echoes? then LineReader.Lines(buf, x.bytes) else [buf];
      AnswersConcat(pending, hex, before, noise);
      if x.Echoes? {
        Nothing(Host.AllAnswers(pending, hex, before));
      } else {
        TwoRouted(pending, hex, buf, x);
      }
      MergedNext(if pending.Some? then ItemAnswers(x) else [], Host.AllAnswers(pending, hex, before),
                 AnswerLines(pending, rest), Host.AllAnswers(pending, hex, noise),
                 Host.AllAnswers(pending, hex, heard));
    }
  }

  /** An empty line, or the echo of the pending command. */
  predicate Hidden(pending: Option<string>, line: string) {
    line == "" || Host.IsEcho(pending, line)
  }

  lemma HiddenExactly(pending: Option<string>, hex: bool, line: string)
    requires pending.Some?
    ensures Host.ToHistory(pending, hex, line) == [] && Host.ToAnswers(pending, hex, line) == [] <==>
            Hidden(pending, line)
  {
  }

  predicate AllHidden(pending: Option<string>, lines: seq<string>) {
    forall i :: 0 <= i < |lines| ==> Hidden(pending, lines[i])
  }

  /** Lines that add nothing to history and answers. */
  predicate AddNothing(pending: Option<string>, hex: bool, lines: seq<string>) {
    Host.AllHistory(pending, hex, lines) == [] && Host.AllAnswers(pending, hex, lines) == []
  }

  /** While a command is pending, lines add nothing exactly if they are empty or its echo. */
  lemma HiddenAddNothing(pending: Option<string>, hex: bool, lines: seq<string>)
    requires pending.Some?
    ensures AddNothing(pending, hex, lines) <==> AllHidden(pending, lines)
  {
    var p, q := ls => AddNothing(pending, hex, ls), l => Hidden(pending, l);
    forall front: seq<string>, last: string ensures p(front + [last]) <==> p(front) && q(last) {
      AddLast(pending, hex, front, last);
    }
    OneByOne(p, q, lines);
  }

  /** A property that a sequence has if its parts have it. */
  lemma {:induction false} OneByOne(p: seq<string> -> bool, q: string -> bool, lines: seq<string>)
    requires p([]) && forall front, last :: p(front + [last]) <==> p(front) && q(last)
    ensures p(lines) <==> forall i :: 0 <= i < |lines| ==> q(lines[i])
    decreases |lines|
  {
    if lines != [] {
      var front, last := lines[..|lines| - 1], lines[|lines| - 1];
      OneByOne(p, q, front);
      assert lines == front + [last];
    }
  }

  lemma AddLast(pending: Option<string>, hex: bool, front: seq<string>, last: string)
    requires pending.Some?
    ensures AddNothing(pending, hex, front + [last]) <==> AddNothing(pending, hex, front) && Hidden(pending, last)
  {
    AddOne(pending, hex, last);
    AddBoth(pending, hex, front, [last]);
  }

  lemma AddOne(pending: Option<string>, hex: bool, line: string)
    requires pending.Some?
    ensures AddNothing(pending, hex, [line]) <==> Hidden(pending, line)
  {
    OneRouted(pending, hex, line);
    HiddenExactly(pending, hex, line);
  }

  lemma AddBoth(pending: Option<string>, hex: bool, a: seq<string>, b: seq<string>)
    ensures AddNothing(pending, hex, a + b) <==> AddNothing(pending, hex, a) && AddNothing(pending, hex, b)
  {
    ConcatRouted(pending, hex, a, b);
    NothingIn(Host.AllHistory(pending, hex, a), Host.AllHistory(pending, hex, b));
    NothingIn(Host.AllAnswers(pending, hex, a), Host.AllAnswers(pending, hex, b));
  }

  lemma NothingIn<T>(a: seq<T>, b: seq<T>)
    ensures a + b == [] <==> a == [] && b == []
  {
    assert |a + b| == |a| + |b|;
  }

  /** The history and the answers are exactly those meant. */
  predicate Exact(pending: Option<string>, hex: bool, items: seq<Item>, lines: seq<string>) {
    && Host.AllHistory(pending, hex, lines) == Events(items)
    && Host.AllAnswers(pending, hex, lines) == AnswerLines(pending, items)
  }

  /** `lines` give the events and answers of `items` and of `noise`, each in its own order, and nothing else. */
  predicate Mixed(pending: Option<string>, hex: bool, items: seq<Item>, noise: seq<string>, lines: seq<string>) {
    && Merged(Events(items), Host.AllHistory(pending, hex, noise), Host.AllHistory(pending, hex, lines))
    && Merged(AnswerLines(pending, items), Host.AllAnswers(pending, hex, noise),
              Host.AllAnswers(pending, hex, lines))
  }

  lemma MixedExactly(pending: Option<string>, hex: bool, items: seq<Item>, noise: seq<string>, lines: seq<string>)
    requires Mixed(pending, hex, items, noise, lines)
    ensures Exact(pending, hex, items, lines) <==> AddNothing(pending, hex, noise)
  {
    MergedAlone(Events(items), Host.AllHistory(pending, hex, noise), Host.AllHistory(pending, hex, lines));
    MergedAlone(AnswerLines(pending, items), Host.AllAnswers(pending, hex, noise),
                Host.AllAnswers(pending, hex, lines));
  }

  /** A run that has sent everything, and reads of all of it from the `k`th holder of the lock on. */
  ghost predicate SentAndRead(es: seq<UartTx.Event>, t: UartTx.State, k: nat, hex: bool, items: seq<Item>,
                              chunks: seq<string>) {
    && UartTx.Run(UartTx.BOOT, es, t) && t.pc.Unlocked? && t.tx.ring == ""
    && |t.lines| == k + |items| && (forall i :: 0 <= i < |items| ==> t.lines[k + i] == Bytes(SaidOf(items[i], hex)))
    && Flatten(t.lines[..k]) + Flatten(chunks) == t.tx.wire
  }

  lemma ItemsRead(es: seq<UartTx.Event>, t: UartTx.State, k: nat, hex: bool, items: seq<Item>, buf: string,
                  chunks: seq<string>)
    requires SentAndRead(es, t, k, hex, items, chunks) && forall i :: 0 <= i < |items| ==> Sound(items[i], hex)
    ensures LineReader.ReadAll(buf, chunks) == Reads(buf, Spoken(items, hex))
  {
    var xs := Spoken(items, hex);
    forall i | 0 <= i < |items| ensures Printable(xs[i]) {
      if items[i].Says? {
        WholeIsPrintable(items[i].report, hex);
      }
    }
    assert forall i :: 0 <= i < |items| ==> t.lines[k..][i] == t.lines[k + i];
    LinesArriveInOrder(es, t, k, xs, buf, chunks);
  }

  /**
   End to end, for any mix of frames, texts, notices, binary entries and echoed bytes, any interleaving of their
   writers and any reads, from any holder of the lock on and whatever the host had in its buffer: once everything
   is sent, all events and all answers are there, whole and in order, with nothing between them but what the
   lines of the echo add. They are exactly these if and only if the lines of the echo add nothing, which with a
   command pending means that each of them is empty or the echo of that command.
   */
  lemma ReportsReachTheHost(es: seq<UartTx.Event>, t: UartTx.State, k: nat, hex: bool, items: seq<Item>,
                            pending: Option<string>, buf: string, chunks: seq<string>)
    requires SentAndRead(es, t, k, hex, items, chunks)
    requires Host.Command(pending) && forall i :: 0 <= i < |items| ==> Sound(items[i], hex)
    ensures var lines, noise := LineReader.ReadAll(buf, chunks), Noise(buf, items);
            && Mixed(pending, hex, items, noise, lines)
            && (Exact(pending, hex, items, lines) <==> AddNothing(pending, hex, noise))
            && (pending.Some? ==> (Exact(pending, hex, items, lines) <==> AllHidden(pending, noise)))
  {
    var noise := Noise(buf, items);
    ItemsRead(es, t, k, hex, items, buf, chunks);
    HistoryMerged(pending, hex, buf, items);
    AnswersMerged(pending, hex, buf, items);
    MixedExactly(pending, hex, items, noise, LineReader.ReadAll(buf, chunks));
    if pending.Some? {
      HiddenAddNothing(pending, hex, noise);
    }
  }
}
