/** Answers, events and `match`, host/etrx/protocol.py. */
module Host {
  import opened Wrappers
  import opened Prompts
  import opened Printer
  import opened Streams
  import opened Notices
  import opened CText
  import LineReader

  // ------------------------------------------------------------ one line

  predicate IsEcho(pending: Option<string>, line: string) {
    pending.Some? && ToUpper(line) == ToUpper(pending.value)
  }

  /** Answers of a command, as opposed to events. */
  predicate IsAnswer(p: Option<Prompt>) {
    p.None? || p.value == Prompt.Ok || p.value.Error? || p.value.Seq? || p.value.Jpan?
  }

  /** What a line adds to the answers of the pending command. */
  function ToAnswers(pending: Option<string>, rxHex: bool, line: string): seq<string> {
    if line != "" && !IsEcho(pending, line) && pending.Some? && IsAnswer(ParsePrompt(line, rxHex)) then [line] else []
  }

  /** What it adds to the history of events. */
  function ToHistory(pending: Option<string>, rxHex: bool, line: string): seq<Prompt> {
    var p := ParsePrompt(line, rxHex);
    if line == "" || IsEcho(pending, line) || p.None? || p.value == Prompt.Ok || p.value.Error? || p.value.Seq? then []
    else [p.value]
  }

  function AllAnswers(pending: Option<string>, rxHex: bool, lines: seq<string>): seq<string> {
    if lines == [] then []
    else AllAnswers(pending, rxHex, lines[..|lines| - 1]) + ToAnswers(pending, rxHex, lines[|lines| - 1])
  }

  function AllHistory(pending: Option<string>, rxHex: bool, lines: seq<string>): seq<Prompt> {
    if lines == [] then []
    else AllHistory(pending, rxHex, lines[..|lines| - 1]) + ToHistory(pending, rxHex, lines[|lines| - 1])
  }

  lemma OneLineMore(pending: Option<string>, rxHex: bool, lines: seq<string>, i: nat)
    requires i < |lines|
    ensures AllAnswers(pending, rxHex, lines[..i + 1]) ==
            AllAnswers(pending, rxHex, lines[..i]) + ToAnswers(pending, rxHex, lines[i])
    ensures AllHistory(pending, rxHex, lines[..i + 1]) ==
            AllHistory(pending, rxHex, lines[..i]) + ToHistory(pending, rxHex, lines[i])
  {
    assert lines[..i + 1][..i] == lines[..i];
  }

  // ------------------------------------------------------------ events are not taken for answers

  /** Commands begin with "AT", in any case. */
  predicate Command(pending: Option<string>) {
    pending.Some? ==> |pending.value| >= 2 && ToUpper(pending.value)[..2] == "AT"
  }

  lemma NotEcho(pending: Option<string>, line: string)
    requires Command(pending) && line != "" && ('A' <= line[0] <= 'Z')
    requires line[0] != 'A' || (|line| > 1 && line[1] == 'C')
    ensures !IsEcho(pending, line)
  {
    if pending.Some? {
      var command := ToUpper(pending.value);
      assert command[0] == command[..2][0] == 'A' && command[1] == command[..2][1] == 'T';
      assert ToUpper(line)[0] == line[0];
    }
  }

  /** A received frame is an event, whatever command is pending, in either mode. */
  lemma FrameIsEvent(pending: Option<string>, f: Frame, hex: bool, showTail: bool)
    requires Command(pending) && Valid(f)
    ensures var line := RxLine(f, hex, showTail);
            ToAnswers(pending, hex, line) == [] && ToHistory(pending, hex, line) == [RxMeaning(f, showTail)]
  {
    RxRoundTrip(f, hex, showTail);
    NothingCut(f, showTail);
    assert RxLine(f, hex, showTail)[0] == 'R';
    NotEcho(pending, RxLine(f, hex, showTail));
    Routed(pending, hex, RxLine(f, hex, showTail), RxMeaning(f, showTail));
  }

  /** So is a text, even one whose data looks like an answer. */
  lemma TextIsEvent(pending: Option<string>, kind: Kind, f: Frame, showTail: bool, rxHex: bool)
    requires Command(pending) && Valid(f) && |f.payload| < 0x100
    ensures var line := TextLine(kind, f, showTail);
            ToAnswers(pending, rxHex, line) == [] && ToHistory(pending, rxHex, line) == [TextMeaning(kind, f, showTail)]
  {
    TextRoundTrip(kind, f, showTail, rxHex);
    TextHeadFits(kind, f);
    assert TextLine(kind, f, showTail)[0] == kind[0];
    NotEcho(pending, TextLine(kind, f, showTail));
    Routed(pending, rxHex, TextLine(kind, f, showTail), TextMeaning(kind, f, showTail));
  }

  /** The notices a command waits for. */
  predicate Answers(n: Notice) {
    n.Done? || n.Failed? || n.Sent? || n.Joined?
  }

  lemma NoticeFirstLetter(n: Notice)
    ensures var s := NoticeText(n); s != "" && 'A' <= s[0] <= 'Z' && (s[0] != 'A' || (|s| > 1 && s[1] == 'C'))
  {
  }

  /**
   A notice goes to the pending command exactly when it is OK, ERROR, SEQ or JPAN, and to the history exactly
   when it is not OK, ERROR or SEQ.
   */
  lemma NoticeIsRouted(pending: Option<string>, n: Notice, rxHex: bool)
    requires Command(pending)
    ensures ToAnswers(pending, rxHex, NoticeText(n)) == if pending.Some? && Answers(n) then [NoticeText(n)] else []
    ensures ToHistory(pending, rxHex, NoticeText(n)) == if Answers(n) && !n.Joined? then [] else [NoticeMeaning(n)]
  {
    NoticeRoundTrip(n, rxHex);
    NoticeFirstLetter(n);
    NotEcho(pending, NoticeText(n));
    MeaningKind(n);
    Routed(pending, rxHex, NoticeText(n), NoticeMeaning(n));
  }

  lemma MeaningKind(n: Notice)
    ensures IsAnswer(Some(NoticeMeaning(n))) <==> Answers(n)
    ensures NoticeMeaning(n).Jpan? <==> n.Joined?
  {
  }

  lemma Routed(pending: Option<string>, rxHex: bool, line: string, p: Prompt)
    requires line != "" && !IsEcho(pending, line) && ParsePrompt(line, rxHex) == Some(p)
    ensures ToAnswers(pending, rxHex, line) == if pending.Some? && IsAnswer(Some(p)) then [line] else []
    ensures ToHistory(pending, rxHex, line) == if IsAnswer(Some(p)) && !p.Jpan? then [] else [p]
  {
  }

  // ------------------------------------------------------------ answers of AT+MATCHREQ

  predicate IsMatch(p: Prompt) {
    p.MatchDesc?
  }

  /** The successful answers among events, in order. */
  function Matches(events: seq<Prompt>): seq<Prompt> {
    if events == [] then []
    else
      var p := events[|events| - 1];
      Matches(events[..|events| - 1]) + if p.MatchDesc? && p.status == 0 && p.endpoints != [] then [p] else []
  }

  lemma {:induction false} MatchesConcat(a: seq<Prompt>, b: seq<Prompt>)
    ensures Matches(a + b) == Matches(a) + Matches(b)
    decreases |b|
  {
    if b == [] {
      assert a + b == a;
    } else {
      var front := b[..|b| - 1];
      assert (a + b)[..|a + b| - 1] == a + front;
      MatchesConcat(a, front);
    }
  }

  lemma {:induction false} NoMatches(events: seq<Prompt>)
    requires forall k :: 0 <= k < |events| ==> !IsMatch(events[k])
    ensures Matches(events) == []
  {
    if events != [] {
      NoMatches(events[..|events| - 1]);
    }
  }

  lemma SamePrefix(before: seq<Prompt>, now: seq<Prompt>, a: nat, b: nat)
    requires before <= now && a <= b <= |before|
    ensures before[a..b] == now[a..b]
  {
  }

  lemma NoneMore(events: seq<Prompt>, a: nat, b: nat)
    requires a <= b <= |events| && forall k :: b <= k < |events| ==> !IsMatch(events[k])
    ensures Matches(events[a..]) == Matches(events[a..b]) && events[a..] == events[a..|events|]
  {
    NoMatches(events[b..]);
    MatchesConcat(events[a..b], events[b..]);
    assert events[a..] == events[a..b] + events[b..];
  }

  lemma OneMore(events: seq<Prompt>, a: nat, b: nat, next: nat)
    requires a <= b < next <= |events| && forall k :: b <= k < next - 1 ==> !IsMatch(events[k])
    ensures var p := events[next - 1];
            Matches(events[a..next]) ==
            Matches(events[a..b]) + if p.MatchDesc? && p.status == 0 && p.endpoints != [] then [p] else []
  {
    NoMatches(events[b..next - 1]);
    MatchesConcat(events[a..b], events[b..next - 1]);
    CutInThree(events, a, b, next);
    OneAtTheEnd(events[a..next - 1], events[next - 1]);
  }

  lemma CutInThree(events: seq<Prompt>, a: nat, b: nat, next: nat)
    requires a <= b < next <= |events|
    ensures events[a..next - 1] == events[a..b] + events[b..next - 1]
    ensures events[a..next] == events[a..next - 1] + [events[next - 1]]
  {
  }

  lemma OneAtTheEnd(before: seq<Prompt>, p: Prompt)
    ensures Matches(before + [p]) ==
            Matches(before) + if p.MatchDesc? && p.status == 0 && p.endpoints != [] then [p] else []
  {
    assert (before + [p])[..|before|] == before;
  }

  class Etrx {
    const reader: LineReader.Reader
    var pending: Option<string>
    var rxHex: bool
    var resp: seq<string>
    var history: seq<Prompt>

    constructor ()
      ensures fresh(reader) && reader.buf == "" && pending == None && rxHex && resp == [] && history == []
    {
      reader := new LineReader.Reader();
      pending, rxHex, resp, history := None, true, [], [];
    }

    /** `_on_line`. */
    method OnLine(line: string)
      modifies `resp, `history
      ensures resp == old(resp) + ToAnswers(pending, rxHex, line)
      ensures history == old(history) + ToHistory(pending, rxHex, line)
    {
      if line == "" {
        return;
      }
      if pending.Some? && ToUpper(line) == ToUpper(pending.value) {
        return;
      }
      var prompt := ParsePrompt(line, rxHex);
      if pending.Some? && (prompt.None? || prompt.value == Prompt.Ok || prompt.value.Error? || prompt.value.Seq?
                           || prompt.value.Jpan?) {
        resp := resp + [line];
      }
      if prompt.None? || prompt.value == Prompt.Ok || prompt.value.Error? || prompt.value.Seq? {
        return;
      }
      history := history + [prompt.value];
    }

    /** The lines of one read. */
    method OnLines(lines: seq<string>)
      modifies `resp, `history
      ensures resp == old(resp) + AllAnswers(pending, rxHex, lines)
      ensures history == old(history) + AllHistory(pending, rxHex, lines)
    {
      ghost var answers: seq<string>, events: seq<Prompt> := [], [];
      for i := 0 to |lines|
        invariant answers == AllAnswers(pending, rxHex, lines[..i]) && resp == old(resp) + answers
        invariant events == AllHistory(pending, rxHex, lines[..i]) && history == old(history) + events
      {
        OneLineMore(pending, rxHex, lines, i);
        ghost var a, e := ToAnswers(pending, rxHex, lines[i]), ToHistory(pending, rxHex, lines[i]);
        OnLine(lines[i]);
        Regroup(old(resp), answers, a);
        Regroup(old(history), events, e);
        answers, events := answers + a, events + e;
      }
      assert lines[..|lines|] == lines;
    }

    /** One round of `_rx_loop`. */
    method Received(data: string)
      modifies `resp, `history, reader
      ensures reader.buf == LineReader.Fed(old(reader.buf), data)
      ensures var lines := LineReader.Lines(old(reader.buf), data);
              && resp == old(resp) + AllAnswers(pending, rxHex, lines)
              && history == old(history) + AllHistory(pending, rxHex, lines)
    {
      var lines := reader.Feed(data);
      OnLines(lines);
    }

    /**
     `_wait_index` for the first MatchDesc from `since` on. `arrivals` are the events the reader thread adds
     while this thread waits; when they are used up the wait times out.
     */
    method WaitIndex(since: nat, arrivals: seq<seq<Prompt>>)
      returns (found: Option<Prompt>, next: nat, left: seq<seq<Prompt>>)
      requires since <= |history|
      modifies `history
      ensures old(history) <= history && since <= next <= |history|
      ensures found.Some? ==> next > since && history[next - 1] == found.value && IsMatch(found.value)
      ensures forall k :: since <= k < (if found.Some? then next - 1 else |history|) ==> !IsMatch(history[k])
      ensures found.None? ==> next == |history|
      ensures |left| < |arrivals| || (left == arrivals && history == old(history))
    {
      next, left := since, arrivals;
      while true
        invariant old(history) <= history && since <= next <= |history|
        invariant |left| < |arrivals| || (left == arrivals && history == old(history))
        invariant forall k :: since <= k < next ==> !IsMatch(history[k])
        decreases |left|, |history| - next
      {
        if next < |history| {
          var ev := history[next];
          next := next + 1;
          if ev.MatchDesc? {
            return Some(ev), next, left;
          }
        } else if left == [] {
          return None, next, left;
        } else {
          history := history + left[0];
          left := left[1..];
        }
      }
    }

    /**
     The collecting loop of `match`: every successful answer between `mark` and the returned position, in order,
     once each; if it ended by a timeout of the wait, that position is the end of the history.
     */
    method CollectAnswers(mark: nat, arrivals: seq<seq<Prompt>>)
      returns (found: seq<Prompt>, upTo: nat, waitTimedOut: bool)
      requires mark <= |history|
      modifies `history
      ensures old(history) <= history && mark <= upTo <= |history|
      ensures found == Matches(history[mark..upTo])
      ensures waitTimedOut ==> upTo == |history|
    {
      found, upTo := [], mark;
      var left := arrivals;
      while true
        invariant old(history) <= history && mark <= upTo <= |history| && found == Matches(history[mark..upTo])
        decreases |left|, |history| - upTo
      {
        if * {
          return found, upTo, false;
        }
        ghost var before := history;
        var ev, next: nat;
        ev, next, left := WaitIndex(upTo, left);
        SamePrefix(before, history, mark, upTo);
        if ev.None? {
          NoneMore(history, mark, upTo);
          return found, next, true;
        }
        OneMore(history, mark, upTo, next);
        if ev.value.status == 0 && ev.value.endpoints != [] {
          found := found + [ev.value];
        }
        upTo := next;
      }
    }
  }
}
