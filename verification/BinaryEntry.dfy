/** Binary entry, app/src/at_uart.c. */
module BinaryEntry {
  import opened Wrappers
  import opened AtResults
  import opened LineEditor
  import Streams

  /*
   In `at_uart_read_binary` and `bin_byte` the AT thread takes the next `len` received bytes for itself while
   the RX thread goes on feeding the line editor.

   A run of events interleaves the two threads: the AT thread is split at the semaphore and at the
   two places where it holds `bin_lock`; the RX thread brings one byte at a time.
   */

  /** Where the AT thread is in `at_uart_read_binary`. */
  datatype Pc =
    | Out                 // not in a call
    | Reset(len: nat)     // bin_done reset, not yet armed
    | Waiting             // armed, waiting for bin_done
    | Late                // the wait timed out, not yet disarmed

  /** One call, in positions of the received stream: armed at `start`, returned at `end`. */
  datatype Call = Call(start: nat, len: nat, end: Option<nat>, ok: bool)

  /**
   `need`, `have`: bin_need and bin_have. `token`: the semaphore bin_done. `bufs[k]`: what call `k` got.
   `stream`: all bytes received; `taken[i]`: byte `i` went to a binary entry; `muted[i]`: the echo was off when it came.
   `editor`, `offered`, `echo`: what the other bytes became.
   */
  datatype State = State(
    need: nat,
    have: nat,
    token: bool,
    pc: Pc,
    calls: seq<Call>,
    bufs: seq<string>,
    stream: string,
    taken: seq<bool>,
    muted: seq<bool>,
    echoOn: bool,
    editor: Editor,
    offered: seq<string>,
    echo: string)

  datatype Event =
    | Byte(c: char)    // RX thread: bin_byte, then echo and line_byte if it was not taken
    | Begin(len: nat)  // AT thread: k_sem_reset
    | Arm
    | Take             // k_sem_take succeeds
    | Timeout          // k_sem_take gives up
    | Disarm
    | SetEcho(on: bool) // AT thread, outside a call: bit 4 of S12 written

  predicate Enabled(s: State, e: Event) {
    match e
    case Byte(_) => s.have < s.need ==> s.bufs != []
    case Begin(_) => s.pc.Out?
    case Arm => s.pc.Reset?
    case Take => s.pc.Waiting? && s.token && s.calls != []
    case Timeout => s.pc.Waiting? && !s.token
    case Disarm => s.pc.Late? && s.calls != []
    case SetEcho(_) => s.pc.Out?
  }

  function Apply(s: State, e: Event): State
    requires Enabled(s, e)
  {
    match e
    case Byte(c) => if s.have < s.need then TakeByte(s, c) else PassByte(s, c)
    case Begin(len) => s.(token := false, pc := Reset(len))
    case Arm =>
      s.(have := 0, need := s.pc.len, pc := Waiting,
         calls := s.calls + [Call(|s.stream|, s.pc.len, None, false)], bufs := s.bufs + [""])
    case Take => Return(s.(token := false), true)
    case Timeout => s.(pc := Late)
    case Disarm => Return(s.(need := 0, have := 0), false)
    case SetEcho(on) => s.(echoOn := on)
  }

  function TakeByte(s: State, c: char): State
    requires s.have < s.need && s.bufs != []
  {
    var k := |s.bufs| - 1;
    var full := s.have + 1 == s.need;
    s.(stream := s.stream + [c], taken := s.taken + [true], muted := s.muted + [!s.echoOn],
       bufs := s.bufs[k := s.bufs[k] + [c]], have := s.have + 1, need := if full then 0 else s.need,
       token := full || s.token)
  }

  function PassByte(s: State, c: char): State {
    s.(stream := s.stream + [c], taken := s.taken + [false], muted := s.muted + [!s.echoOn],
       editor := EditByte(s.editor, c), offered := s.offered + Offered(s.editor, c),
       echo := if s.echoOn then s.echo + [c] else s.echo)
  }

  function Return(s: State, ok: bool): State
    requires s.calls != []
  {
    var k := |s.calls| - 1;
    s.(pc := Out, calls := s.calls[k := s.calls[k].(end := Some(|s.stream|), ok := ok)])
  }

  function Boot(echoOn: bool): State {
    State(0, 0, false, Out, [], [], "", [], [], echoOn, EMPTY, [], "")
  }

  ghost predicate Run(s: State, es: seq<Event>, t: State)
    decreases |es|
  {
    if es == [] then s == t else Enabled(s, es[0]) && Run(Apply(s, es[0]), es[1..], t)
  }

  // ------------------------------------------------------------ what a run means

  function Min(a: nat, b: nat): nat { if a <= b then a else b }

  /** How many bytes a call got: all it asked for, or what came before it returned. */
  function Got(c: Call, now: nat): nat
    requires c.start <= now && (c.end.Some? ==> c.start <= c.end.value)
  {
    Min(c.len, (match c.end case Some(e) => e case None => now) - c.start)
  }

  predicate Within(c: Call, now: nat) {
    c.start <= now && (c.end.Some? ==> c.start <= c.end.value <= now)
  }

  /** Byte `i` is one of the first `len` bytes received after call `k` was armed and before it returned. */
  predicate Belongs(s: State, i: nat, k: nat)
    requires k < |s.calls| && Within(s.calls[k], |s.stream|)
  {
    s.calls[k].start <= i < s.calls[k].start + Got(s.calls[k], |s.stream|)
  }

  /** The bytes that are not left out, in order. */
  function Passed(stream: string, out: seq<bool>): string
    requires |stream| == |out|
  {
    if stream == "" then ""
    else
      var n := |stream| - 1;
      Passed(stream[..n], out[..n]) + if out[n] then "" else [stream[n]]
  }

  lemma PassedSnoc(stream: string, out: seq<bool>, c: char, left: bool)
    requires |stream| == |out|
    ensures Passed(stream + [c], out + [left]) == if left then Passed(stream, out) else Passed(stream, out) + [c]
  {
    var n := |stream|;
    assert (stream + [c])[..n] == stream && (out + [left])[..n] == out;
    assert Passed(stream, out) + "" == Passed(stream, out);
  }

  function Either(a: seq<bool>, b: seq<bool>): seq<bool>
    requires |a| == |b|
  {
    seq(|a|, i requires 0 <= i < |a| => a[i] || b[i])
  }

  lemma EitherSnoc(a: seq<bool>, b: seq<bool>, x: bool, y: bool)
    requires |a| == |b|
    ensures Either(a + [x], b + [y]) == Either(a, b) + [x || y]
  {
  }

  predicate Open(s: State) {
    s.pc.Waiting? || s.pc.Late?
  }

  predicate CallsOrdered(s: State) {
    && |s.bufs| == |s.calls|
    && (forall k :: 0 <= k < |s.calls| ==> Within(s.calls[k], |s.stream|))
    && (forall k :: 0 <= k < |s.calls| ==> (s.calls[k].end.None? <==> k == |s.calls| - 1 && Open(s)))
    && (forall k :: 0 <= k < |s.calls| && s.calls[k].end.None? ==> !s.calls[k].ok)
    && (forall j, k :: 0 <= j < k < |s.calls| && s.calls[j].end.Some? ==> s.calls[j].end.value <= s.calls[k].start)
    && (Open(s) ==> s.calls != [])
  }

  /** A buffer holds its call's bytes of the stream, in order; a call that succeeded got all it asked for. */
  predicate BufferRight(c: Call, buf: string, stream: string)
    requires Within(c, |stream|)
  {
    && buf == stream[c.start..c.start + Got(c, |stream|)]
    && (c.ok ==> |buf| == c.len)
  }

  predicate BuffersRight(s: State)
    requires CallsOrdered(s)
  {
    forall k :: 0 <= k < |s.calls| ==> BufferRight(s.calls[k], s.bufs[k], s.stream)
  }

  predicate TakenRight(s: State)
    requires CallsOrdered(s)
  {
    && |s.taken| == |s.stream|
    && forall i :: 0 <= i < |s.stream| ==> (s.taken[i] <==> exists k :: 0 <= k < |s.calls| && Belongs(s, i, k))
  }

  /** The fields `bin_need`, `bin_have` and `bin_done` while call `c` is in progress. */
  predicate Counts(c: Call, need: nat, have: nat, token: bool, now: nat)
    requires Within(c, now)
  {
    var got := Got(c, now);
    have == got && need == (if got < c.len then c.len else 0) && (token <==> c.len > 0 && got == c.len)
  }

  predicate Armed(s: State)
    requires CallsOrdered(s)
  {
    if Open(s) then Counts(s.calls[|s.calls| - 1], s.need, s.have, s.token, |s.stream|)
    else s.need == 0 && (s.pc.Reset? ==> !s.token)
  }

  predicate TextRight(s: State)
    requires |s.taken| == |s.stream|
  {
    var text := Passed(s.stream, s.taken);
    && s.editor == Feed(EMPTY, text)
    && s.offered == Lines(EMPTY, text)
    && |s.muted| == |s.stream| && s.echo == Passed(s.stream, Either(s.taken, s.muted))
  }

  predicate Inv(s: State) {
    CallsOrdered(s) && Armed(s) && BuffersRight(s) && TakenRight(s) && TextRight(s)
  }

  // ------------------------------------------------------------ every step keeps it

  /** A byte more leaves the older bytes where they were. */
  lemma OlderBelong(s: State, t: State, i: nat, k: nat)
    requires CallsOrdered(s) && CallsOrdered(t) && t.calls == s.calls && |t.stream| == |s.stream| + 1
    requires i < |s.stream| && k < |s.calls|
    ensures Belongs(t, i, k) <==> Belongs(s, i, k)
  {
  }

  /** The new byte belongs to the call in progress exactly if that call still wants bytes. */
  lemma NewBelongs(s: State, t: State, k: nat)
    requires CallsOrdered(s) && CallsOrdered(t) && Armed(s) && t.calls == s.calls && |t.stream| == |s.stream| + 1
    requires k < |s.calls|
    ensures Belongs(t, |s.stream|, k) <==> k == |s.calls| - 1 && s.have < s.need
  {
  }

  /** The new byte belongs to a call exactly when `bin_byte` takes it; the older ones stay where they were. */
  lemma ByteKeepsTaken(s: State, t: State, c: char)
    requires CallsOrdered(s) && CallsOrdered(t) && TakenRight(s) && Armed(s)
    requires t.calls == s.calls && t.stream == s.stream + [c] && t.taken == s.taken + [s.have < s.need]
    ensures TakenRight(t)
  {
    var n := |s.stream|;
    forall i | 0 <= i < |t.stream|
      ensures t.taken[i] <==> exists k :: 0 <= k < |t.calls| && Belongs(t, i, k)
    {
      if i < n {
        forall k | 0 <= k < |s.calls|
          ensures Belongs(s, i, k) <==> Belongs(t, i, k)
        {
          OlderBelong(s, t, i, k);
        }
      } else {
        forall k | 0 <= k < |s.calls|
          ensures Belongs(t, n, k) <==> k == |s.calls| - 1 && s.have < s.need
        {
          NewBelongs(s, t, k);
        }
        if s.have < s.need {
          OpenWhenWanting(s);
          assert Belongs(t, n, |s.calls| - 1);
        }
      }
    }
  }

  lemma OpenWhenWanting(s: State)
    requires CallsOrdered(s) && Armed(s) && s.have < s.need
    ensures s.calls != []
  {
  }

  /** A byte changes nothing for a call that has returned. */
  lemma ReturnedBuffer(c: Call, buf: string, stream: string, x: char)
    requires c.end.Some? && Within(c, |stream|) && BufferRight(c, buf, stream)
    ensures Within(c, |stream| + 1) && BufferRight(c, buf, stream + [x])
  {
    var g := Got(c, |stream|);
    assert (stream + [x])[c.start..c.start + g] == stream[c.start..c.start + g];
  }

  /** For the call in progress it is one byte more, until it has all it asked for. */
  lemma OpenBuffer(c: Call, buf: string, stream: string, x: char)
    requires c.end.None? && Within(c, |stream|) && BufferRight(c, buf, stream) && !c.ok
    ensures Within(c, |stream| + 1)
    ensures BufferRight(c, if Got(c, |stream|) < c.len then buf + [x] else buf, stream + [x])
  {
    var g, all := Got(c, |stream|), stream + [x];
    assert all[c.start..c.start + g] == stream[c.start..c.start + g];
    if g < c.len {
      assert c.start + g == |stream| && Got(c, |all|) == g + 1;
      assert all[c.start..c.start + g + 1] == all[c.start..c.start + g] + [x];
    } else {
      assert Got(c, |all|) == g;
    }
  }

  lemma ByteKeepsOrder(s: State, c: char)
    requires CallsOrdered(s) && Armed(s)
    ensures CallsOrdered(Apply(s, Byte(c)))
  {
  }

  lemma OpenCounts(c: Call, need: nat, have: nat, token: bool, now: nat)
    requires c.end.None? && Within(c, now) && Counts(c, need, have, token, now)
    ensures Within(c, now + 1)
    ensures if have < need
            then Counts(c, if have + 1 == need then 0 else need, have + 1, have + 1 == need || token, now + 1)
            else Counts(c, need, have, token, now + 1)
  {
  }

  lemma ByteKeepsArmed(s: State, c: char)
    requires CallsOrdered(s) && Armed(s)
    ensures var t := Apply(s, Byte(c)); CallsOrdered(t) && Armed(t)
  {
    ByteKeepsOrder(s, c);
    if Open(s) {
      OpenCounts(s.calls[|s.calls| - 1], s.need, s.have, s.token, |s.stream|);
    }
  }

  lemma ByteKeepsBuffers(s: State, t: State, c: char)
    requires CallsOrdered(s) && CallsOrdered(t) && BuffersRight(s)
    requires t.calls == s.calls && t.stream == s.stream + [c]
    requires forall k :: 0 <= k < |s.calls| ==>
                           t.bufs[k] == if s.calls[k].end.None? && Got(s.calls[k], |s.stream|) < s.calls[k].len
                                        then s.bufs[k] + [c] else s.bufs[k]
    ensures BuffersRight(t)
  {
    forall k | 0 <= k < |t.calls|
      ensures BufferRight(t.calls[k], t.bufs[k], t.stream)
    {
      assert BufferRight(s.calls[k], s.bufs[k], s.stream);
      if s.calls[k].end.Some? {
        ReturnedBuffer(s.calls[k], s.bufs[k], s.stream, c);
      } else {
        OpenBuffer(s.calls[k], s.bufs[k], s.stream, c);
      }
    }
  }

  lemma ByteKeepsText(s: State, c: char)
    requires Inv(s)
    ensures TextRight(Apply(s, Byte(c)))
  {
    PassedSnoc(s.stream, s.taken, c, s.have < s.need);
    EitherSnoc(s.taken, s.muted, s.have < s.need, !s.echoOn);
    PassedSnoc(s.stream, Either(s.taken, s.muted), c, s.have < s.need || !s.echoOn);
    FeedSnoc(EMPTY, Passed(s.stream, s.taken), c);
  }

  /** Which bytes belong to a call depends only on the call, so calls added or closed now change nothing. */
  lemma SameBelongings(s: State, t: State)
    requires CallsOrdered(s) && CallsOrdered(t) && TakenRight(s) && t.stream == s.stream && t.taken == s.taken
    requires |s.calls| <= |t.calls|
    requires forall k :: 0 <= k < |s.calls| ==>
                           && t.calls[k].start == s.calls[k].start
                           && Got(t.calls[k], |s.stream|) == Got(s.calls[k], |s.stream|)
    requires forall k :: |s.calls| <= k < |t.calls| ==> t.calls[k].start == |s.stream|
    ensures TakenRight(t)
  {
    forall i | 0 <= i < |s.stream|
      ensures t.taken[i] <==> exists k :: 0 <= k < |t.calls| && Belongs(t, i, k)
    {
      if s.taken[i] {
        var k :| 0 <= k < |s.calls| && Belongs(s, i, k);
        assert Belongs(t, i, k);
      } else if k :| 0 <= k < |t.calls| && Belongs(t, i, k) {
        assert Belongs(s, i, k);
      }
    }
  }

  lemma ArmOrdered(s: State)
    requires CallsOrdered(s) && Armed(s) && Enabled(s, Arm)
    ensures var t := Apply(s, Arm); CallsOrdered(t) && Armed(t)
  {
  }

  lemma ArmBuffers(s: State)
    requires CallsOrdered(s) && BuffersRight(s) && Enabled(s, Arm) && CallsOrdered(Apply(s, Arm))
    ensures BuffersRight(Apply(s, Arm))
  {
    var t := Apply(s, Arm);
    forall k | 0 <= k < |t.calls|
      ensures BufferRight(t.calls[k], t.bufs[k], t.stream)
    {
      if k < |s.calls| {
        assert BufferRight(s.calls[k], s.bufs[k], s.stream);
      }
    }
  }

  lemma ArmBelongings(s: State)
    requires CallsOrdered(s) && TakenRight(s) && Enabled(s, Arm) && CallsOrdered(Apply(s, Arm))
    ensures TakenRight(Apply(s, Arm))
  {
    SameBelongings(s, Apply(s, Arm));
  }

  /** A call just armed has no byte yet. */
  lemma ArmKeeps(s: State)
    requires Inv(s) && Enabled(s, Arm)
    ensures Inv(Apply(s, Arm))
  {
    ArmOrdered(s);
    ArmBuffers(s);
    ArmBelongings(s);
  }

  /** The last call has changed, but neither its place nor its bytes, and it succeeded only with all it asked for. */
  predicate Closed(s: State, t: State) {
    && s.calls != [] && |t.calls| == |s.calls| && t.stream == s.stream && t.taken == s.taken && t.bufs == s.bufs
    && (var n := |s.calls| - 1; var c, d := s.calls[n], t.calls[n];
        && t.calls == s.calls[n := d] && d.start == c.start && d.len == c.len
        && Within(c, |s.stream|) && Within(d, |s.stream|)
        && Got(d, |s.stream|) == Got(c, |s.stream|) && (d.ok ==> Got(c, |s.stream|) == c.len))
  }

  lemma ReturnOrdered(s: State, e: Event)
    requires CallsOrdered(s) && Armed(s) && (e.Take? || e.Disarm?) && Enabled(s, e)
    ensures CallsOrdered(Apply(s, e)) && Armed(Apply(s, e)) && Closed(s, Apply(s, e))
  {
  }

  lemma ReturnBelongings(s: State, t: State)
    requires CallsOrdered(s) && CallsOrdered(t) && TakenRight(s) && Closed(s, t)
    ensures TakenRight(t)
  {
    SameBelongings(s, t);
  }

  lemma ReturnBuffers(s: State, t: State)
    requires CallsOrdered(s) && CallsOrdered(t) && BuffersRight(s) && Closed(s, t)
    ensures BuffersRight(t)
  {
    forall k | 0 <= k < |t.calls|
      ensures BufferRight(t.calls[k], t.bufs[k], t.stream)
    {
      assert BufferRight(s.calls[k], s.bufs[k], s.stream);
    }
  }

  /** Returning fixes what a call has got so far. */
  lemma ReturnKeeps(s: State, e: Event)
    requires Inv(s) && (e.Take? || e.Disarm?) && Enabled(s, e)
    ensures Inv(Apply(s, e))
  {
    ReturnOrdered(s, e);
    ReturnBelongings(s, Apply(s, e));
    ReturnBuffers(s, Apply(s, e));
  }

  /** The other steps of the AT thread touch neither calls nor bytes. */
  lemma SameBytesKeep(s: State, t: State)
    requires Inv(s) && t == s.(pc := t.pc, token := t.token, echoOn := t.echoOn) && (Open(s) <==> Open(t)) && Armed(t)
    ensures Inv(t)
  {
    SameBelongings(s, t);
  }

  /** Which buffer the byte goes to. */
  lemma ByteGoesTo(s: State, c: char)
    requires CallsOrdered(s) && Armed(s)
    ensures var t := Apply(s, Byte(c));
            && CallsOrdered(t) && t.calls == s.calls && t.stream == s.stream + [c]
            && forall k :: 0 <= k < |s.calls| ==>
                             t.bufs[k] == if s.calls[k].end.None? && Got(s.calls[k], |s.stream|) < s.calls[k].len
                                          then s.bufs[k] + [c] else s.bufs[k]
  {
    ByteKeepsOrder(s, c);
  }

  lemma ByteKeeps(s: State, c: char)
    requires Inv(s)
    ensures Inv(Apply(s, Byte(c)))
  {
    var t := Apply(s, Byte(c));
    ByteKeepsArmed(s, c);
    ByteKeepsTaken(s, t, c);
    ByteGoesTo(s, c);
    ByteKeepsBuffers(s, t, c);
    ByteKeepsText(s, c);
  }

  lemma StepKeepsInv(s: State, e: Event)
    requires Inv(s) && Enabled(s, e)
    ensures Inv(Apply(s, e))
  {
    if e.Byte? {
      ByteKeeps(s, e.c);
    } else if e.Arm? {
      ArmKeeps(s);
    } else if e.Take? || e.Disarm? {
      ReturnKeeps(s, e);
    } else {
      SameBytesKeep(s, Apply(s, e));
    }
  }

  /** The buffer of a call that has returned is never written again, success or timeout. */
  lemma ReturnedBufferFrozen(s: State, e: Event, k: nat)
    requires Inv(s) && Enabled(s, e) && k < |s.calls| && s.calls[k].end.Some?
    ensures var t := Apply(s, e); k < |t.calls| && t.calls[k] == s.calls[k] && t.bufs[k] == s.bufs[k]
  {
  }

  /** Hence over any run. */
  lemma {:induction false} RunKeepsInv(s: State, es: seq<Event>, t: State)
    requires Inv(s) && Run(s, es, t)
    ensures Inv(t) && |s.calls| <= |t.calls|
    ensures forall k :: 0 <= k < |s.calls| && s.calls[k].end.Some? ==>
                          t.calls[k] == s.calls[k] && t.bufs[k] == s.bufs[k]
    decreases |es|
  {
    if es != [] {
      var m := Apply(s, es[0]);
      StepKeepsInv(s, es[0]);
      forall k | 0 <= k < |s.calls| && s.calls[k].end.Some?
        ensures m.calls[k] == s.calls[k] && m.bufs[k] == s.bufs[k]
      {
        ReturnedBufferFrozen(s, es[0], k);
      }
      RunKeepsInv(m, es[1..], t);
    }
  }

  /** For each byte of a history, whether the echo was switched off when it came. */
  function Muted(echoOn: bool, es: seq<Event>): seq<bool>
    decreases |es|
  {
    if es == [] then []
    else
      match es[0]
      case Byte(_) => [!echoOn] + Muted(echoOn, es[1..])
      case SetEcho(on) => Muted(on, es[1..])
      case _ => Muted(echoOn, es[1..])
  }

  lemma {:induction false} MutedByHistory(s: State, es: seq<Event>, t: State)
    requires Run(s, es, t)
    ensures t.muted == s.muted + Muted(s.echoOn, es)
    decreases |es|
  {
    if es == [] {
      Streams.Nothing(s.muted);
    } else {
      MutedByHistory(Apply(s, es[0]), es[1..], t);
      if es[0].Byte? {
        Streams.Regroup(s.muted, [!s.echoOn], Muted(s.echoOn, es[1..]));
      }
    }
  }

  /**
   Routing, over every run: a byte went to a binary entry exactly when it is one of the first `len`
   bytes after that entry was armed; every buffer holds exactly its own bytes; all others, and only
   they, reached the line editor, whose messages are those of the reference; and those that came with the
   echo on were echoed.
   */
  lemma BytesAreRouted(echoOn: bool, es: seq<Event>, t: State)
    requires Run(Boot(echoOn), es, t)
    ensures CallsOrdered(t) && TakenRight(t) && BuffersRight(t)
    ensures t.offered == Reference(Passed(t.stream, t.taken))
    ensures |Muted(echoOn, es)| == |t.stream| && t.echo == Passed(t.stream, Either(t.taken, Muted(echoOn, es)))
  {
    RunKeepsInv(Boot(echoOn), es, t);
    MutedByHistory(Boot(echoOn), es, t);
    Streams.Nothing(Muted(echoOn, es));
    EditorMeetsReference(Passed(t.stream, t.taken));
  }

  /**
   A token left by an earlier call never ends a later one: whenever the wait can succeed, this call's bytes are
   all there.
   */
  lemma TokenIsFresh(echoOn: bool, es: seq<Event>, t: State)
    requires Run(Boot(echoOn), es, t) && Enabled(t, Take)
    ensures |t.bufs| == |t.calls| && |t.bufs[|t.calls| - 1]| == t.calls[|t.calls| - 1].len
    ensures var u := Apply(t, Take); u.calls[|t.calls| - 1].ok && !u.token
  {
    RunKeepsInv(Boot(echoOn), es, t);
    TokenMeansAllHere(t);
  }

  lemma TokenMeansAllHere(t: State)
    requires CallsOrdered(t) && Armed(t) && BuffersRight(t) && Enabled(t, Take)
    ensures |t.bufs[|t.calls| - 1]| == t.calls[|t.calls| - 1].len
  {
    var k := |t.calls| - 1;
    assert BufferRight(t.calls[k], t.bufs[k], t.stream);
  }

  // ------------------------------------------------------------ the code

  /** The first `i` bytes of a piece: `taken` by the entry, the others `text`. */
  predicate CutUp(data: string, i: nat, taken: string, text: string) {
    |taken| <= i <= |data| && taken == data[..|taken|] && text == data[|taken|..i]
  }

  lemma CutNext(data: string, i: nat, taken: string, text: string)
    requires CutUp(data, i, taken, text) && i < |data|
    ensures CutUp(data, i + 1, taken, text + [data[i]])
    ensures |taken| == i ==> CutUp(data, i + 1, taken + [data[i]], text)
  {
  }

  /** The statics of the RX thread, the line queue, and the functions that change them. */
  class RxInput {
    const rxLine: array<char>
    var rxLen: nat
    var rxOverflow: bool
    var echoOn: bool
    var binBuf: array<char>
    var binNeed: nat
    var binHave: nat
    var binDone: bool
    /** k_msgq line_q; a message that finds it full is lost. */
    var lineQ: seq<string>

    ghost predicate Valid()
      reads this
    {
      && rxLine.Length == AT_LINE_MAX && rxLen < AT_LINE_MAX
      && rxLine != binBuf && binNeed <= binBuf.Length && binHave <= binBuf.Length
    }

    ghost function View(): Editor
      requires Valid()
      reads this, rxLine
    {
      Editor(rxLine[..rxLen], rxOverflow)
    }

    constructor ()
      ensures Valid() && fresh(rxLine) && fresh(binBuf) && View() == EMPTY && lineQ == [] && echoOn && binNeed == 0
    {
      rxLine := new char[AT_LINE_MAX];
      binBuf := new char[0];
      rxLen, rxOverflow, echoOn := 0, false, true;
      binNeed, binHave, binDone := 0, 0, false;
      lineQ := [];
    }

    /** `at_uart_set_echo`. */
    method SetEcho(on: bool)
      requires Valid()
      modifies `echoOn
      ensures Valid() && View() == old(View()) && echoOn == on
    {
      echoOn := on;
    }

    /** `bin_byte`. */
    method BinByte(c: char) returns (taken: bool)
      requires Valid()
      modifies `binNeed, `binHave, `binDone, binBuf
      ensures Valid() && View() == old(View())
      ensures taken == (old(binHave) < old(binNeed))
      ensures !taken ==> binNeed == old(binNeed) && binHave == old(binHave) && binDone == old(binDone)
      ensures !taken ==> binBuf[..] == old(binBuf[..])
      ensures taken ==> binHave == old(binHave) + 1 && binBuf[..] == old(binBuf[..])[old(binHave) := c]
      ensures taken ==> (if binHave == old(binNeed) then binNeed == 0 && binDone
                         else binNeed == old(binNeed) && binDone == old(binDone))
    {
      taken := binHave < binNeed;
      if taken {
        binBuf[binHave] := c;
        binHave := binHave + 1;
        if binHave == binNeed {
          binNeed := 0;
          binDone := true;
        }
      }
    }

    method Offer(line: string)
      modifies `lineQ
      ensures lineQ == if |old(lineQ)| < LINE_Q_DEPTH then old(lineQ) + [line] else old(lineQ)
    {
      if |lineQ| < LINE_Q_DEPTH {
        lineQ := lineQ + [line];
      }
    }

    /** `line_byte`. */
    method LineByte(c: char)
      requires Valid()
      modifies `rxLen, `rxOverflow, `lineQ, rxLine
      ensures Valid() && View() == EditByte(old(View()), c)
      ensures lineQ == Queued(old(lineQ), Offered(old(View()), c))
    {
      if c == '\r' {
        if rxOverflow {
          Offer(OVERFLOW);
        } else if rxLen > 0 {
          Offer(rxLine[..rxLen]);
        }
        rxLen, rxOverflow := 0, false;
      } else if c == '\n' {
      } else if c == BS || c == DEL {
        if rxLen > 0 {
          assert rxLine[..rxLen][..rxLen - 1] == rxLine[..rxLen - 1];
          rxLen := rxLen - 1;
        }
      } else if rxLen < AT_LINE_MAX - 1 {
        rxLine[rxLen] := c;
        rxLen := rxLen + 1;
      } else {
        rxOverflow := true;
      }
    }

    /** The entry fields after `j` of its bytes came, counted from the state (have, need, done, buf). */
    ghost predicate EntryAfter(have: nat, need: nat, done: bool, buf: string, taken: string)
      requires Valid()
      reads this, binBuf
    {
      var j := |taken|;
      && binHave == have + j
      && binNeed == (if j > 0 && have + j == need then 0 else need)
      && (binDone <==> done || (j > 0 && have + j == need))
      && have + j <= |buf| && binBuf[..] == Spliced(buf, have, taken)
    }

    /** Editor, queue and echo after the bytes that were not taken. */
    ghost predicate TextAfter(editor: Editor, queue: seq<string>, echo: string, text: string)
      requires Valid()
      reads this, rxLine
    {
      View() == Feed(editor, text) && lineQ == Queued(queue, Lines(editor, text)) && echo == if echoOn then text else ""
    }

    /** One byte of `rx_process`. */
    method ProcessByte(c: char, echo: string, ghost have: nat, ghost need: nat, ghost done: bool, ghost buf: string,
                       ghost taken: string, ghost editor: Editor, ghost queue: seq<string>, ghost text: string)
      returns (echo': string, entry: bool)
      requires Valid() && |echo| < 256 && EntryAfter(have, need, done, buf, taken)
      requires TextAfter(editor, queue, echo, text)
      modifies this, rxLine, binBuf
      ensures Valid() && echoOn == old(echoOn) && binBuf == old(binBuf) && entry == (old(binHave) < old(binNeed))
      ensures EntryAfter(have, need, done, buf, if entry then taken + [c] else taken)
      ensures TextAfter(editor, queue, echo', if entry then text else text + [c])
    {
      echo' := echo;
      entry := BinByte(c);
      if entry {
        SplicedSnoc(buf, have, taken, c);
      } else {
        if echoOn {
          echo' := echo + [c];
        }
        LineByte(c);
        FeedSnoc(editor, text, c);
        QueuedAppend(queue, Lines(editor, text), Offered(Feed(editor, text), c));
      }
    }

    /**
     `rx_process`: a received piece, with no call entered or left and the echo not switched meanwhile. Its first
     bytes complete a pending entry; the others are echoed and edited. The echo buffer holds a whole piece.
     */
    method Process(data: string) returns (echo: string)
      requires Valid() && |data| <= 256
      modifies this, rxLine, binBuf
      ensures Valid() && echoOn == old(echoOn) && binBuf == old(binBuf)
      ensures var k := TakenOf(old(binHave), old(binNeed), |data|);
              && EntryAfter(old(binHave), old(binNeed), old(binDone), old(binBuf[..]), data[..k])
              && TextAfter(old(View()), old(lineQ), echo, data[k..])
    {
      echo := "";
      ghost var have, need, done, buf := binHave, binNeed, binDone, binBuf[..];
      ghost var editor, queue, taken, text := View(), lineQ, "", "";
      SplicedNothing(buf, have);
      for i := 0 to |data|
        invariant Valid() && echoOn == old(echoOn) && binBuf == old(binBuf) && |echo| <= i
        invariant CutUp(data, i, taken, text) && |taken| == TakenOf(have, need, i)
        invariant EntryAfter(have, need, done, buf, taken)
        invariant TextAfter(editor, queue, echo, text)
      {
        var entry;
        CutNext(data, i, taken, text);
        echo, entry := ProcessByte(data[i], echo, have, need, done, buf, taken, editor, queue, text);
        if entry {
          taken := taken + [data[i]];
        } else {
          text := text + [data[i]];
        }
      }
      assert data[|taken|..|data|] == data[|taken|..];
    }

    /** First part of `at_uart_read_binary`: the semaphore is reset before the entry is armed. */
    method ArmEntry(buf: array<char>, len: nat)
      requires Valid() && buf != rxLine && len <= buf.Length
      modifies `binBuf, `binNeed, `binHave, `binDone
      ensures Valid() && View() == old(View())
      ensures binBuf == buf && binHave == 0 && binNeed == len && !binDone
    {
      binDone := false;
      binBuf, binHave, binNeed := buf, 0, len;
    }

    /** Last part: success takes the token; after a timeout nothing is written to the buffer any more. */
    method EndEntry() returns (ok: bool)
      requires Valid()
      modifies `binNeed, `binHave, `binDone
      ensures Valid() && View() == old(View()) && ok == old(binDone)
      ensures ok ==> !binDone && binNeed == old(binNeed) && binHave == old(binHave)
      ensures !ok ==> binNeed == 0 && binHave == 0
    {
      ok := binDone;
      if ok {
        binDone := false;
      } else {
        binNeed, binHave := 0, 0;
      }
    }
  }

  /** How many of the next `n` bytes an entry takes. */
  function TakenOf(have: nat, need: nat, n: nat): (k: nat)
    ensures k <= n
  {
    if have < need then Min(n, need - have) else 0
  }

  /** `buf` with `d` written at position `at`. */
  function Spliced(buf: string, at: nat, d: string): string
    requires at + |d| <= |buf|
  {
    buf[..at] + d + buf[at + |d|..]
  }

  lemma SplicedNothing(buf: string, at: nat)
    requires at <= |buf|
    ensures Spliced(buf, at, "") == buf
  {
  }

  lemma SplicedSnoc(buf: string, at: nat, d: string, c: char)
    requires at + |d| < |buf|
    ensures Spliced(buf, at, d + [c]) == Spliced(buf, at, d)[at + |d| := c]
  {
  }

  /** What is in the queue after these messages were offered to it. */
  function Queued(q: seq<string>, offered: seq<string>): seq<string> {
    var n := LINE_Q_DEPTH - |q|;
    if n <= 0 then q else if |offered| <= n then q + offered else q + offered[..n]
  }

  lemma QueuedAppend(q: seq<string>, a: seq<string>, b: seq<string>)
    ensures Queued(q, a + b) == Queued(Queued(q, a), b)
  {
  }
}
