/** Commands from the wire to the parsers, and back. */
module Session {
  import opened Wrappers
  import opened Streams
  import opened LineEditor
  import BinaryEntry
  import Delivery
  import Echo
  import LineReader
  import Requests
  import Senducast
  import UartRx
  import UartTx

  // ------------------------------------------------------------ the wire

  /** What the driver reports as received. */
  function Sent(es: seq<UartRx.Event>): string {
    if es == [] then "" else (if es[0].RxRdy? then es[0].data else "") + Sent(es[1..])
  }

  /** Every piece found a place in the event queue. */
  ghost predicate NoneLost(s: UartRx.State, es: seq<UartRx.Event>)
    decreases |es|
  {
    es == [] ||
    (&& UartRx.Enabled(s, es[0]) && (es[0].RxRdy? ==> |s.queue| < UartRx.RX_EVENT_COUNT)
     && NoneLost(UartRx.Apply(s, es[0]), es[1..]))
  }

  lemma {:induction false} AllQueued(s: UartRx.State, es: seq<UartRx.Event>, t: UartRx.State)
    requires UartRx.Run(s, es, t) && NoneLost(s, es)
    ensures t.received == s.received + Sent(es)
    decreases |es|
  {
    if es == [] {
      Nothing(s.received);
    } else {
      var u := UartRx.Apply(s, es[0]);
      AllQueued(u, es[1..], t);
      var data := if es[0].RxRdy? then es[0].data else "";
      assert u.received == s.received + data by {
        Nothing(s.received);
      }
      Regroup(s.received, data, Sent(es[1..]));
    }
  }

  /** A run of the receiver, and one of the RX thread's other half on the bytes it read. */
  ghost predicate Receives(b: UartRx.Block, mem: seq<string>, es: seq<UartRx.Event>, r: UartRx.State, echoOn: bool,
                           bes: seq<BinaryEntry.Event>, t: BinaryEntry.State) {
    && UartRx.Memory(mem) && UartRx.Run(UartRx.Boot(b, mem), es, r)
    && BinaryEntry.Run(BinaryEntry.Boot(echoOn), bes, t) && t.stream == r.processed
  }

  /**
   The receive path, for any interleaving of driver, RX thread and AT thread: the command lines are those of the
   reference on the received bytes that no binary entry took. Only a full event queue can keep a byte away.
   */
  lemma LinesOfTheWire(b: UartRx.Block, mem: seq<string>, es: seq<UartRx.Event>, r: UartRx.State, echoOn: bool,
                       bes: seq<BinaryEntry.Event>, t: BinaryEntry.State)
    requires Receives(b, mem, es, r, echoOn, bes, t)
    ensures |t.taken| == |t.stream| && t.offered == Reference(BinaryEntry.Passed(t.stream, t.taken))
    ensures t.stream <= r.received && (r.queue == [] && r.thread.Idle? ==> t.stream == r.received)
    ensures NoneLost(UartRx.Boot(b, mem), es) ==> r.received == Sent(es)
  {
    UartRx.ReceivedBytesArriveIntact(b, mem, es, r);
    BinaryEntry.BytesAreRouted(echoOn, bes, t);
    if NoneLost(UartRx.Boot(b, mem), es) {
      AllQueued(UartRx.Boot(b, mem), es, r);
      Nothing(Sent(es));
    }
  }

  // ------------------------------------------------------------ commands

  /** What the host writes for these commands. */
  function Typed(cmds: seq<string>): string {
    if cmds == [] then "" else cmds[0] + "\r" + Typed(cmds[1..])
  }

  predicate AllSendable(cmds: seq<string>) {
    forall i :: 0 <= i < |cmds| ==> Sendable(cmds[i])
  }

  lemma {:induction false} TypedLines(cmds: seq<string>)
    requires AllSendable(cmds)
    ensures Lines(EMPTY, Typed(cmds)) == cmds
    decreases |cmds|
  {
    if cmds != [] {
      var line := cmds[0];
      SentLineArrives(line);
      FeedSnoc(EMPTY, line, '\r');
      assert line + "\r" == line + ['\r'];
      FeedInPieces(EMPTY, line + "\r", Typed(cmds[1..]));
      TypedLines(cmds[1..]);
      assert cmds == [line] + cmds[1..];
    }
  }

  lemma {:induction false} NothingTaken(stream: string, taken: seq<bool>)
    requires |stream| == |taken| && forall i :: 0 <= i < |taken| ==> !taken[i]
    ensures BinaryEntry.Passed(stream, taken) == stream
    decreases |stream|
  {
    if stream != "" {
      var n := |stream| - 1;
      NothingTaken(stream[..n], taken[..n]);
      assert stream == stream[..n] + [stream[n]];
    }
  }

  predicate StaysOn(bes: seq<BinaryEntry.Event>) {
    forall i :: 0 <= i < |bes| && bes[i].SetEcho? ==> bes[i].on
  }

  lemma {:induction false} NeverMuted(bes: seq<BinaryEntry.Event>)
    requires StaysOn(bes)
    ensures forall i :: 0 <= i < |BinaryEntry.Muted(true, bes)| ==> !BinaryEntry.Muted(true, bes)[i]
    decreases |bes|
  {
    if bes != [] {
      assert forall i :: 0 <= i < |bes[1..]| ==> bes[1..][i] == bes[i + 1];
      NeverMuted(bes[1..]);
    }
  }

  /**
   Commands the host writes, with binary data between them that the entries take: the firmware gets exactly these
   commands, in order. With the echo on, exactly they are echoed.
   */
  lemma CommandsArrive(b: UartRx.Block, mem: seq<string>, es: seq<UartRx.Event>, r: UartRx.State, echoOn: bool,
                       bes: seq<BinaryEntry.Event>, t: BinaryEntry.State, cmds: seq<string>)
    requires Receives(b, mem, es, r, echoOn, bes, t) && AllSendable(cmds) && |t.taken| == |t.stream|
    requires BinaryEntry.Passed(t.stream, t.taken) == Typed(cmds)
    ensures t.offered == cmds
    ensures echoOn && StaysOn(bes) ==> t.echo == Typed(cmds)
  {
    BinaryEntry.BytesAreRouted(echoOn, bes, t);
    EditorMeetsReference(Typed(cmds));
    TypedLines(cmds);
    if echoOn && StaysOn(bes) {
      NeverMuted(bes);
      assert BinaryEntry.Either(t.taken, BinaryEntry.Muted(echoOn, bes)) == t.taken;
    }
  }

  // ------------------------------------------------------------ requests

  /** What the host asks for with arguments of its own. */
  datatype Ask =
    | Match(req: Requests.MatchReq)
    | Send(addr: string, target: Senducast.Target, text: string)

  function AskText(a: Ask): string {
    match a
    case Match(req) => Requests.HostMatch(req)
    case Send(addr, t, text) => Senducast.HostSend(addr, t.srcEp, t.dstEp, t.profile, t.cluster, text)
  }

  predicate Proper(a: Ask) {
    match a
    case Match(req) => Requests.Askable(req)
    case Send(addr, t, text) =>
      && Senducast.Means(addr, t.dst) && Senducast.Fit(t.srcEp, t.dstEp, t.profile, t.cluster)
      && |text| <= Requests.PAYLOAD_MAX && Senducast.AllTypable(text)
  }

  /** The parser of the firmware makes of this line what was asked for. */
  predicate Understood(a: Ask, line: string) {
    match a
    case Match(req) =>
      Requests.MATCHREQ <= line && Requests.ParseMatch(line[|Requests.MATCHREQ|..]) == Some(req)
    case Send(_, t, text) =>
      Senducast.SENDUCAST <= line && Senducast.ParseSend(line[|Senducast.SENDUCAST|..]) == Ok((t, text))
  }

  lemma OneAsked(a: Ask)
    requires Proper(a)
    ensures Sendable(AskText(a)) && Understood(a, AskText(a))
  {
    match a
    case Match(req) =>
      Requests.MatchFitsOneLine(req);
      Requests.MatchRoundTrip(req);
    case Send(addr, t, text) =>
      Senducast.AddressExactly(addr, t.dst);
      Senducast.SendFitsOneLine(addr, t.srcEp, t.dstEp, t.profile, t.cluster, text);
      Senducast.SendCut(addr, t.srcEp, t.dstEp, t.profile, t.cluster, text);
      Senducast.SendRoundTrip(addr, t.srcEp, t.dstEp, t.profile, t.cluster, text, t);
  }

  /** From the wire to the parsers: every request is understood, in order, whatever the interleaving. */
  lemma RequestsUnderstood(b: UartRx.Block, mem: seq<string>, es: seq<UartRx.Event>, r: UartRx.State, echoOn: bool,
                           bes: seq<BinaryEntry.Event>, t: BinaryEntry.State, asks: seq<Ask>)
    requires Receives(b, mem, es, r, echoOn, bes, t) && |t.taken| == |t.stream|
    requires forall i :: 0 <= i < |asks| ==> Proper(asks[i])
    requires BinaryEntry.Passed(t.stream, t.taken) ==
             Typed(seq(|asks|, i requires 0 <= i < |asks| => AskText(asks[i])))
    ensures |t.offered| == |asks| && forall i :: 0 <= i < |asks| ==> Understood(asks[i], t.offered[i])
  {
    var cmds := seq(|asks|, i requires 0 <= i < |asks| => AskText(asks[i]));
    forall i | 0 <= i < |asks| ensures Sendable(cmds[i]) && Understood(asks[i], cmds[i]) {
      OneAsked(asks[i]);
    }
    CommandsArrive(b, mem, es, r, echoOn, bes, t, cmds);
  }

  // ------------------------------------------------------------ one command, there and back

  lemma There(b: UartRx.Block, mem: seq<string>, es: seq<UartRx.Event>, r: UartRx.State, bes: seq<BinaryEntry.Event>,
              t: BinaryEntry.State, cmd: string)
    requires Receives(b, mem, es, r, true, bes, t) && NoneLost(UartRx.Boot(b, mem), es)
    requires r.queue == [] && r.thread.Idle? && t.calls == [] && StaysOn(bes)
    requires Sendable(cmd) && Sent(es) == cmd + "\r"
    ensures t.offered == [cmd] && t.echo == cmd + "\r"
  {
    LinesOfTheWire(b, mem, es, r, true, bes, t);
    NoCalls(bes, t);
    OneTyped(cmd);
    CommandsArrive(b, mem, es, r, true, bes, t, [cmd]);
  }

  lemma NoCalls(bes: seq<BinaryEntry.Event>, t: BinaryEntry.State)
    requires BinaryEntry.Run(BinaryEntry.Boot(true), bes, t) && t.calls == []
    ensures |t.taken| == |t.stream| && BinaryEntry.Passed(t.stream, t.taken) == t.stream
  {
    BinaryEntry.BytesAreRouted(true, bes, t);
    NothingTaken(t.stream, t.taken);
  }

  /**
   A command on the wire, nothing lost, no binary entry, the echo on: the firmware gets that command and echoes
   its bytes; and, whatever it prints meanwhile and however it is read, the host's history and answers are exactly
   those meant if and only if no line of the firmware falls into that echo.
   */
  lemma ThereAndBack(b: UartRx.Block, mem: seq<string>, es: seq<UartRx.Event>, r: UartRx.State,
                     bes: seq<BinaryEntry.Event>, t: BinaryEntry.State, cmd: string,
                     tes: seq<UartTx.Event>, u: UartTx.State, k: nat, hex: bool, items: seq<Delivery.Item>,
                     chunks: seq<string>)
    requires Receives(b, mem, es, r, true, bes, t) && NoneLost(UartRx.Boot(b, mem), es)
    requires r.queue == [] && r.thread.Idle? && t.calls == [] && StaysOn(bes)
    requires Sendable(cmd) && Echo.Pending(cmd) && Sent(es) == cmd + "\r"
    requires Delivery.SentAndRead(tes, u, k, hex, items, chunks) && Echo.EchoOf(items) == t.echo
    requires forall i :: 0 <= i < |items| ==> Delivery.Sound(items[i], hex)
    ensures t.offered == [cmd] && t.echo == cmd + "\r"
    ensures Delivery.Exact(Some(cmd), hex, items, LineReader.ReadAll("", chunks)) <==>
            Echo.AllEntire(cmd, Echo.Stretches("", items))
  {
    There(b, mem, es, r, bes, t, cmd);
    Echo.CommandEchoExactlyWhen(tes, u, k, hex, items, cmd, chunks);
  }

  lemma OneTyped(cmd: string)
    ensures Typed([cmd]) == cmd + "\r"
  {
    assert [cmd][1..] == [];
    Nothing(cmd + "\r");
  }
}
