/** `LineReader` of host/etrx/port.py. */
module LineReader {
  import opened Streams

  /** What one byte leaves in the buffer. */
  function Rest(buf: string, b: char): string {
    if b == '\n' then ""
    else if b == '\r' then buf
    else if buf + [b] == ">" then ""
    else buf + [b]
  }

  /** The lines one byte completes: at a LF, and at a '>' that stands alone. */
  function Completed(buf: string, b: char): seq<string> {
    if b == '\n' then [buf]
    else if b != '\r' && buf + [b] == ">" then [">"]
    else []
  }

  function Fed(buf: string, data: string): string
    decreases |data|
  {
    if data == "" then buf else Fed(Rest(buf, data[0]), data[1..])
  }

  function Lines(buf: string, data: string): seq<string>
    decreases |data|
  {
    if data == "" then [] else Completed(buf, data[0]) + Lines(Rest(buf, data[0]), data[1..])
  }

  /** How the bytes are cut into reads makes no difference. */
  lemma {:induction false} FeedInPieces(buf: string, a: string, b: string)
    ensures Fed(buf, a + b) == Fed(Fed(buf, a), b)
    ensures Lines(buf, a + b) == Lines(buf, a) + Lines(Fed(buf, a), b)
    decreases |a|
  {
    if a == "" {
      assert a + b == b;
    } else {
      assert (a + b)[1..] == a[1..] + b;
      FeedInPieces(Rest(buf, a[0]), a[1..], b);
    }
  }

  /** The lines of successive reads. */
  function ReadAll(buf: string, chunks: seq<string>): seq<string>
    decreases |chunks|
  {
    if chunks == [] then [] else Lines(buf, chunks[0]) + ReadAll(Fed(buf, chunks[0]), chunks[1..])
  }

  lemma {:induction false} AnyChunks(buf: string, chunks: seq<string>)
    ensures ReadAll(buf, chunks) == Lines(buf, Flatten(chunks))
    decreases |chunks|
  {
    if chunks != [] {
      FeedInPieces(buf, chunks[0], Flatten(chunks[1..]));
      AnyChunks(Fed(buf, chunks[0]), chunks[1..]);
    }
  }

  lemma FeedOne(buf: string, data: string, b: char)
    ensures Fed(buf, data + [b]) == Rest(Fed(buf, data), b)
    ensures Lines(buf, data + [b]) == Lines(buf, data) + Completed(Fed(buf, data), b)
  {
    FeedInPieces(buf, data, [b]);
    assert [b][1..] == "";
    assert Completed(Fed(buf, data), b) + [] == Completed(Fed(buf, data), b);
  }

  // ------------------------------------------------------------ the reference

  function FirstLf(s: string): (i: nat)
    ensures i <= |s| && (i < |s| ==> s[i] == '\n') && forall k :: 0 <= k < i ==> s[k] != '\n'
  {
    if s == "" || s[0] == '\n' then 0 else 1 + FirstLf(s[1..])
  }

  function WithoutCr(s: string): (t: string)
    ensures '\r' !in s ==> t == s
  {
    if s == "" then ""
    else
      var t := WithoutCr(s[..|s| - 1]);
      assert s == s[..|s| - 1] + [s[|s| - 1]];
      if s[|s| - 1] == '\r' then t else t + [s[|s| - 1]]
  }

  /** Number of '>' in front. */
  function Prompts(s: string): (n: nat)
    ensures n <= |s| && (forall k :: 0 <= k < n ==> s[k] == '>') && (n < |s| ==> s[n] != '>')
  {
    if s == "" then 0
    else
      var n := Prompts(s[..|s| - 1]);
      if n == |s| - 1 && s[|s| - 1] == '>' then |s| else n
  }

  /** That many '>' lines. */
  function Alone(n: nat): seq<string> {
    if n == 0 then [] else Alone(n - 1) + [">"]
  }

  /** What the bytes up to a LF, or so far, give: each '>' in front of the text, and the rest if there is a LF. */
  function Out(raw: string, ended: bool): seq<string> {
    var text := WithoutCr(raw);
    Alone(Prompts(text)) + if ended then [text[Prompts(text)..]] else []
  }

  /**
   Cut at every LF and drop the CRs; every '>' in front of such a line is a line of its own. What follows the
   last LF is not yet a line.
   */
  function Reference(s: string): seq<string>
    decreases |s|
  {
    var i := FirstLf(s);
    if i == |s| then Out(s, false) else Out(s[..i], true) + Reference(s[i + 1..])
  }

  /** Within one line the buffer holds what follows the '>'s. */
  lemma {:induction false} FedLine(s: string)
    requires '\n' !in s
    ensures var text := WithoutCr(s); var n := Prompts(text);
            Fed("", s) == text[n..] && Lines("", s) == Alone(n)
  {
    if s != "" {
      var front, b := s[..|s| - 1], s[|s| - 1];
      assert s == front + [b];
      FedLine(front);
      FeedOne("", front, b);
      FedByte(WithoutCr(front), b);
    }
  }

  lemma PromptsSnoc(text: string, b: char)
    ensures Prompts(text + [b]) == if Prompts(text) == |text| && b == '>' then |text| + 1 else Prompts(text)
  {
    assert (text + [b])[..|text|] == text;
  }

  lemma FedByte(text: string, b: char)
    requires b != '\n'
    ensures var n := Prompts(text); var next := if b == '\r' then text else text + [b]; var m := Prompts(next);
            && Rest(text[n..], b) == next[m..]
            && Alone(n) + Completed(text[n..], b) == Alone(m)
  {
    var n := Prompts(text);
    if b == '\r' {
      assert Alone(n) + [] == Alone(n);
    } else {
      PromptsSnoc(text, b);
      assert (text + [b])[n..] == text[n..] + [b];
      if n == |text| && b == '>' {
        assert text[n..] == "" && "" + [b] == ">";
      } else {
        assert text[n..] + [b] != ">";
        assert Alone(n) + [] == Alone(n);
      }
    }
  }

  lemma FedWhole(raw: string)
    requires '\n' !in raw
    ensures Fed("", raw + ['\n']) == "" && Lines("", raw + ['\n']) == Out(raw, true)
    ensures Lines("", raw) == Out(raw, false)
  {
    FedLine(raw);
    FeedOne("", raw, '\n');
  }

  lemma LineThenRest(raw: string, rest: string)
    requires '\n' !in raw
    ensures Lines("", raw + ['\n'] + rest) == Out(raw, true) + Lines("", rest)
  {
    FedWhole(raw);
    FeedInPieces("", raw + ['\n'], rest);
  }

  lemma CutAt(s: string, i: nat)
    requires i < |s|
    ensures s[..i] + [s[i]] + s[i + 1..] == s
  {
  }

  /** The reader meets the reference on every stream. */
  lemma {:induction false} ReaderMeetsReference(s: string)
    ensures Lines("", s) == Reference(s)
    decreases |s|
  {
    if FirstLf(s) == |s| {
      FedWhole(s);
    } else {
      CutAt(s, FirstLf(s));
      LineThenRest(s[..FirstLf(s)], s[FirstLf(s) + 1..]);
      ReaderMeetsReference(s[FirstLf(s) + 1..]);
    }
  }

  // ------------------------------------------------------------ lines of the firmware

  predicate OneLine(s: string) {
    '\r' !in s && '\n' !in s
  }

  /** Nothing the reader reports contains CR or LF. */
  lemma {:induction false} LinesAreLines(buf: string, data: string)
    requires OneLine(buf)
    ensures OneLine(Fed(buf, data)) && forall k :: 0 <= k < |Lines(buf, data)| ==> OneLine(Lines(buf, data)[k])
    decreases |data|
  {
    if data != "" {
      LinesAreLines(Rest(buf, data[0]), data[1..]);
    }
  }

  lemma {:induction false} Gathered(text: string)
    requires OneLine(text) && (text != "" ==> text[0] != '>')
    ensures Fed("", text) == text && Lines("", text) == []
  {
    FedLine(text);
    assert Prompts(text) == 0;
  }

  /**
   A printed line, framed by CR LF, ends whatever the buffer held and comes out whole; nothing stays behind.
   */
  lemma FramedLineArrives(buf: string, line: string)
    requires OneLine(line) && (line != "" ==> line[0] != '>')
    ensures Lines(buf, "\r\n" + line + "\r\n") == [buf, line]
    ensures Fed(buf, "\r\n" + line + "\r\n") == ""
  {
    CrLf(buf);
    Gathered(line);
    CrLf(line);
    FeedInPieces(buf, "\r\n", line);
    FeedInPieces(buf, "\r\n" + line, "\r\n");
  }

  lemma CrLf(buf: string)
    ensures Lines(buf, "\r\n") == [buf] && Fed(buf, "\r\n") == ""
  {
    assert "\r\n" == "\r" + "\n";
    assert "\r" == "" + ['\r'];
    FeedOne(buf, "", '\r');
    FeedOne(buf, "\r", '\n');
    assert Lines(buf, "") == [] && Fed(buf, "") == buf;
  }

  class Reader {
    var buf: string

    constructor ()
      ensures buf == ""
    {
      buf := "";
    }

    /** `feed`. */
    method Feed(data: string) returns (lines: seq<string>)
      modifies this
      ensures lines == Lines(old(buf), data) && buf == Fed(old(buf), data)
    {
      lines := [];
      assert data[..0] == "";
      for i := 0 to |data|
        invariant lines == Lines(old(buf), data[..i]) && buf == Fed(old(buf), data[..i])
      {
        var b := data[i];
        assert data[..i + 1] == data[..i] + [b];
        FeedOne(old(buf), data[..i], b);
        if b == '\n' {
          lines := lines + [buf];
          buf := "";
        } else if b != '\r' {
          buf := buf + [b];
          if buf == ">" {
            lines := lines + [">"];
            buf := "";
          }
        }
      }
      assert data[..|data|] == data;
    }
  }
}
