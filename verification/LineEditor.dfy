/** The line editor (`line_byte`), app/src/at_uart.c. */
module LineEditor {
  import opened AtResults

  /*
   `EditByte` and `Offered` are the editor, one byte at a time. `Reference` says what a whole
   stream means without any editor state; the two agree on every stream, however it is cut.
   */

  const LINE_Q_DEPTH := 8
  const BS := '\U{0008}'
  const DEL := '\U{007F}'
  /** The message that stands for a line beyond the limit. */
  const OVERFLOW := "\U{0001}"

  /** `rx_line[..rx_len]` and `rx_overflow`. */
  datatype Editor = Editor(text: string, overflow: bool)

  const EMPTY := Editor("", false)

  function EditByte(e: Editor, c: char): Editor {
    if c == '\r' then EMPTY
    else if c == '\n' then e
    else if c == BS || c == DEL then if e.text == "" then e else e.(text := e.text[..|e.text| - 1])
    else if |e.text| < AT_LINE_MAX - 1 then e.(text := e.text + [c])
    else e.(overflow := true)
  }

  /** The message, if any, that a byte makes the editor put on the line queue. */
  function Offered(e: Editor, c: char): seq<string> {
    if c != '\r' then []
    else if e.overflow then [OVERFLOW]
    else if e.text != "" then [e.text]
    else []
  }

  function Feed(e: Editor, s: string): Editor
    decreases |s|
  {
    if s == "" then e else Feed(EditByte(e, s[0]), s[1..])
  }

  function Lines(e: Editor, s: string): seq<string>
    decreases |s|
  {
    if s == "" then [] else Offered(e, s[0]) + Lines(EditByte(e, s[0]), s[1..])
  }

  /** Cutting the stream into pieces changes nothing. */
  lemma {:induction false} FeedInPieces(e: Editor, a: string, b: string)
    ensures Feed(e, a + b) == Feed(Feed(e, a), b)
    ensures Lines(e, a + b) == Lines(e, a) + Lines(Feed(e, a), b)
    decreases |a|
  {
    if a == "" {
      assert a + b == b;
    } else {
      assert (a + b)[1..] == a[1..] + b;
      FeedInPieces(EditByte(e, a[0]), a[1..], b);
    }
  }

  lemma FeedSnoc(e: Editor, s: string, c: char)
    ensures Feed(e, s + [c]) == EditByte(Feed(e, s), c)
    ensures Lines(e, s + [c]) == Lines(e, s) + Offered(Feed(e, s), c)
  {
    FeedInPieces(e, s, [c]);
    assert [c][1..] == "";
    assert Lines(Feed(e, s), [c]) == Offered(Feed(e, s), c) + [];
  }

  // ------------------------------------------------------------ the reference

  /** What is left of the typed characters of one line: no LF, and each BS or DEL takes one back. */
  function Erased(typed: string): string {
    if typed == "" then ""
    else
      var before, c := Erased(typed[..|typed| - 1]), typed[|typed| - 1];
      if c == '\n' then before
      else if c == BS || c == DEL then if before == "" then "" else before[..|before| - 1]
      else before + [c]
  }

  /** At some moment more than 199 characters were on the line; erasing them later does not help. */
  predicate TooLong(typed: string) {
    exists k :: 0 <= k <= |typed| && |Erased(typed[..k])| > AT_LINE_MAX - 1
  }

  /** The message for one CR-terminated line, if it gives one. */
  function LineOf(typed: string): seq<string> {
    if TooLong(typed) then [OVERFLOW] else if Erased(typed) == "" then [] else [Erased(typed)]
  }

  /** Position of the first CR, or the length. */
  function FirstCr(s: string): (i: nat)
    ensures i <= |s| && (i < |s| ==> s[i] == '\r') && forall k :: 0 <= k < i ==> s[k] != '\r'
  {
    if s == "" || s[0] == '\r' then 0 else 1 + FirstCr(s[1..])
  }

  /** Split at every CR; what follows the last one is not yet a line. */
  function Reference(s: string): seq<string>
    decreases |s|
  {
    var i := FirstCr(s);
    if i == |s| then [] else LineOf(s[..i]) + Reference(s[i + 1..])
  }

  // ------------------------------------------------------------ they agree

  /** Within one line the editor holds exactly the erased text, or knows that the line was too long. */
  lemma {:induction false} FeedTyped(typed: string)
    requires forall k :: 0 <= k < |typed| ==> typed[k] != '\r'
    ensures var e := Feed(EMPTY, typed);
            && (e.overflow <==> TooLong(typed))
            && (!e.overflow ==> e.text == Erased(typed))
            && |e.text| < AT_LINE_MAX
    ensures Lines(EMPTY, typed) == []
  {
    if typed == "" {
      assert forall k :: 0 <= k <= |typed| ==> typed[..k] == "";
    } else {
      var before, c := typed[..|typed| - 1], typed[|typed| - 1];
      assert typed == before + [c];
      FeedTyped(before);
      FeedSnoc(EMPTY, before, c);
      TooLongSnoc(before, c);
    }
  }

  lemma TooLongSnoc(before: string, c: char)
    ensures TooLong(before + [c]) <==> TooLong(before) || |Erased(before + [c])| > AT_LINE_MAX - 1
  {
    var typed := before + [c];
    assert forall k :: 0 <= k <= |before| ==> typed[..k] == before[..k];
    assert typed[..|typed|] == typed;
    if TooLong(before) {
      var k :| 0 <= k <= |before| && |Erased(before[..k])| > AT_LINE_MAX - 1;
      assert |Erased(typed[..k])| > AT_LINE_MAX - 1;
    }
    if |Erased(typed)| > AT_LINE_MAX - 1 {
      assert |Erased(typed[..|typed|])| > AT_LINE_MAX - 1;
    }
  }

  /** The editor refines the reference on every stream. */
  lemma {:induction false} EditorMeetsReference(s: string)
    ensures Lines(EMPTY, s) == Reference(s)
    decreases |s|
  {
    var i := FirstCr(s);
    FeedTyped(s[..i]);
    if i == |s| {
      assert s[..i] == s;
    } else {
      assert s == s[..i + 1] + s[i + 1..];
      assert s[..i + 1] == s[..i] + ['\r'];
      FeedSnoc(EMPTY, s[..i], '\r');
      FeedInPieces(EMPTY, s[..i + 1], s[i + 1..]);
      EditorMeetsReference(s[i + 1..]);
      assert Lines(EMPTY, s[..i + 1]) == LineOf(s[..i]);
    }
  }

  /** Every message is the overflow mark or a line of 1 to 199 characters without CR, LF, BS or DEL. */
  predicate Sendable(line: string) {
    0 < |line| < AT_LINE_MAX && forall k :: 0 <= k < |line| ==> Typable(line[k])
  }

  predicate Typable(c: char) {
    c != '\r' && c != '\n' && c != BS && c != DEL
  }

  lemma {:induction false} ErasedTypable(typed: string)
    requires forall k :: 0 <= k < |typed| ==> typed[k] != '\r'
    ensures forall k :: 0 <= k < |Erased(typed)| ==> Typable(Erased(typed)[k])
  {
    if typed != "" {
      ErasedTypable(typed[..|typed| - 1]);
    }
  }

  lemma {:induction false} MessagesFit(s: string)
    ensures forall j :: 0 <= j < |Reference(s)| ==> Reference(s)[j] == OVERFLOW || Sendable(Reference(s)[j])
    decreases |s|
  {
    var i := FirstCr(s);
    if i < |s| {
      MessagesFit(s[i + 1..]);
      ErasedTypable(s[..i]);
      if !TooLong(s[..i]) {
        assert s[..i][..i] == s[..i];
        assert |Erased(s[..i])| <= AT_LINE_MAX - 1;
      }
    }
  }

  /** A sendable line followed by CR comes out as it went in. */
  lemma {:induction false} SendableErased(line: string)
    requires forall k :: 0 <= k < |line| ==> Typable(line[k])
    ensures Erased(line) == line
  {
    if line != "" {
      SendableErased(line[..|line| - 1]);
      assert line == line[..|line| - 1] + [line[|line| - 1]];
    }
  }

  lemma SentLineArrives(line: string)
    requires Sendable(line)
    ensures Lines(EMPTY, line + "\r") == [line]
  {
    var s := line + "\r";
    EditorMeetsReference(s);
    assert FirstCr(s) == |line|;
    assert s[..|line|] == line && s[|line| + 1..] == "";
    SendableErased(line);
    forall k | 0 <= k <= |line|
      ensures |Erased(line[..k])| <= AT_LINE_MAX - 1
    {
      SendableErased(line[..k]);
    }
    assert Reference("") == [];
  }
}
