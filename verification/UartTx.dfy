/** The transmit half of app/src/at_uart.c. */
module UartTx {
  import opened Streams

  /*
   A ring buffer drained by chained DMA transfers.

   `Tx` is the shared state, changed only by the functions below; each is one stretch of code
   that nothing can interleave with. `State` adds the thread that holds `tx_lock`, split at every
   semaphore and mutex operation, so that a run of events is one interleaving of the writers and
   of the driver's callbacks. `Uart` is the code itself, with the callbacks let in at the same points.
   */

  const TX_BUF_SIZE := 1024

  /**
   `ring`: bytes put and not yet finished; its first `claimed` bytes are handed out.
   `idle`: the tx_idle semaphore. `running`: a DMA transfer of the claimed bytes is running.
   `wire`: every byte sent so far.
   */
  datatype Tx = Tx(ring: string, claimed: nat, idle: bool, running: bool, wire: string)

  /** What `ring_buf_get_claim` may return: a contiguous stretch, empty only if the ring is. */
  predicate Claimable(ring: string, n: nat) {
    n <= |ring| && (n == 0 <==> ring == "")
  }

  /** `ring_buf_put`: as much as fits. */
  function PutCount(t: Tx, data: string): (n: nat)
    requires |t.ring| <= TX_BUF_SIZE
    ensures n <= |data| && n <= TX_BUF_SIZE - |t.ring|
    ensures n < |data| ==> |t.ring| + n == TX_BUF_SIZE
  {
    if |data| <= TX_BUF_SIZE - |t.ring| then |data| else TX_BUF_SIZE - |t.ring|
  }

  function PutBytes(t: Tx, data: string): Tx {
    t.(ring := t.ring + data)
  }

  function TakeIdle(t: Tx): Tx {
    t.(idle := false)
  }

  /** First half of `tx_start`: claim, then `uart_tx` (which `ok` answers). */
  function Start(t: Tx, n: nat, ok: bool): Tx {
    t.(claimed := n, running := n > 0 && ok)
  }

  /** Second half, when no transfer started: unclaim and give the semaphore back. */
  function GiveBack(t: Tx): Tx {
    t.(claimed := 0, idle := true)
  }

  function TxStart(t: Tx, n: nat, ok: bool): Tx {
    var u := Start(t, n, ok);
    if u.running then u else GiveBack(u)
  }

  /** The ring and the wire once a transfer has ended after `len` bytes. */
  function Finish(t: Tx, len: nat): Tx
    requires len <= |t.ring|
  {
    t.(wire := t.wire + t.ring[..len], ring := t.ring[len..], claimed := 0, running := false)
  }

  /** `uart_cb` on UART_TX_DONE or UART_TX_ABORTED. */
  function TxDone(t: Tx, len: nat, n: nat, ok: bool): Tx
    requires len <= |t.ring|
  {
    var u := Finish(t, len);
    if u.ring == "" then u.(idle := true) else TxStart(u, n, ok)
  }

  // ------------------------------------------------------------ all interleavings

  /** What `tx_start` returns to: the loop of `tx_write`, or the end of `tx_flush`. */
  datatype Cont = More(rest: string, parts: seq<string>) | Done

  /** Where the thread that holds `tx_lock` is. */
  datatype Pc =
    | Unlocked
    | Write(rest: string, parts: seq<string>)  // tx_write: `rest` to copy, then the other parts
    | Wait(rest: string, parts: seq<string>)   // k_sem_take(&tx_idle, K_FOREVER)
    | Starting(k: Cont)                        // tx_start, token taken
    | Failing(k: Cont)                         // tx_start, nothing started, token not yet given
    | Flush                                    // k_sem_take(&tx_idle, K_NO_WAIT)
    | Unlock

  datatype State = State(tx: Tx, pc: Pc, lines: seq<string>)

  datatype Event =
    | Lock(line: seq<string>)                 // some thread gets tx_lock to write these parts
    | Copy
    | Take
    | TryTake
    | StartTx(n: nat, ok: bool)
    | Give
    | Release
    | Irq(len: nat, n: nat, ok: bool)         // UART_TX_DONE / UART_TX_ABORTED after `len` bytes

  function Next(parts: seq<string>): Pc {
    if parts == [] then Flush else Write(parts[0], parts[1..])
  }

  function Resume(k: Cont): Pc {
    match k
    case More(rest, parts) => Write(rest, parts)
    case Done => Unlock
  }

  predicate InStart(pc: Pc) {
    pc.Starting? || pc.Failing?
  }

  /** Bytes the lock holder has still to copy. */
  function Pending(pc: Pc): string {
    match pc
    case Write(rest, parts) => rest + Flatten(parts)
    case Wait(rest, parts) => rest + Flatten(parts)
    case Starting(More(rest, parts)) => rest + Flatten(parts)
    case Failing(More(rest, parts)) => rest + Flatten(parts)
    case _ => ""
  }

  predicate Enabled(s: State, e: Event) {
    match e
    case Lock(_) => s.pc.Unlocked?
    case Copy => s.pc.Write? && |s.tx.ring| <= TX_BUF_SIZE
    case Take => s.pc.Wait? && s.tx.idle
    case TryTake => s.pc.Flush?
    case StartTx(n, _) => s.pc.Starting? && Claimable(s.tx.ring, n)
    case Give => s.pc.Failing?
    case Release => s.pc.Unlock?
    case Irq(len, n, _) => s.tx.running && len <= s.tx.claimed <= |s.tx.ring| && Claimable(s.tx.ring[len..], n)
  }

  function Apply(s: State, e: Event): State
    requires Enabled(s, e)
  {
    match e
    case Lock(line) => s.(pc := Next(line), lines := s.lines + [Flatten(line)])
    case Copy =>
      var n := PutCount(s.tx, s.pc.rest);
      s.(tx := PutBytes(s.tx, s.pc.rest[..n]),
         pc := if n == |s.pc.rest| then Next(s.pc.parts) else Wait(s.pc.rest[n..], s.pc.parts))
    case Take => State(TakeIdle(s.tx), Starting(More(s.pc.rest, s.pc.parts)), s.lines)
    case TryTake => if s.tx.idle then State(TakeIdle(s.tx), Starting(Done), s.lines) else s.(pc := Unlock)
    case StartTx(n, ok) =>
      var t := Start(s.tx, n, ok);
      State(t, if t.running then Resume(s.pc.k) else Failing(s.pc.k), s.lines)
    case Give => State(GiveBack(s.tx), Resume(s.pc.k), s.lines)
    case Release => s.(pc := Unlocked)
    case Irq(len, n, ok) => s.(tx := TxDone(s.tx, len, n, ok))
  }

  const BOOT := State(Tx("", 0, true, false, ""), Unlocked, [])

  /** `t` follows `s` by the events `es`: one interleaving. */
  ghost predicate Run(s: State, es: seq<Event>, t: State)
    decreases |es|
  {
    if es == [] then s == t else Enabled(s, es[0]) && Run(Apply(s, es[0]), es[1..], t)
  }

  // ------------------------------------------------------------ what every step keeps

  /** Exactly one of the token, a running transfer and a thread inside `tx_start` exists. */
  predicate OneOwner(s: State) {
    (if s.tx.idle then 1 else 0) + (if s.tx.running then 1 else 0) + (if InStart(s.pc) then 1 else 0) == 1
  }

  /** Sent, in the ring, still to copy: together, the lines in the order their writers got the lock. */
  predicate Conserved(s: State) {
    s.tx.wire + s.tx.ring + Pending(s.pc) == Flatten(s.lines)
  }

  predicate Inv(s: State) {
    && |s.tx.ring| <= TX_BUF_SIZE
    && s.tx.claimed <= |s.tx.ring|
    && (s.tx.running ==> s.tx.claimed > 0)
    && (s.tx.claimed > 0 ==> s.tx.running || s.pc.Failing?)
    && OneOwner(s)
    && Conserved(s)
  }

  lemma NextPending(parts: seq<string>)
    ensures Pending(Next(parts)) == Flatten(parts)
    ensures PartsLeft(Next(parts)) == if parts == [] then 0 else |parts| - 1
  {
  }

  lemma LockConserves(s: State, line: seq<string>)
    requires Conserved(s) && s.pc.Unlocked?
    ensures Conserved(s.(pc := Next(line), lines := s.lines + [Flatten(line)]))
  {
    NextPending(line);
    FlattenSnoc(s.lines, Flatten(line));
    assert s.tx.wire + s.tx.ring + "" == s.tx.wire + s.tx.ring;
  }

  lemma CopyConserves(s: State)
    requires Conserved(s) && Enabled(s, Copy)
    ensures Conserved(Apply(s, Copy))
  {
    var t := Apply(s, Copy);
    var rest, n := s.pc.rest, PutCount(s.tx, s.pc.rest);
    NextPending(s.pc.parts);
    Nothing(Flatten(s.pc.parts));
    assert Pending(t.pc) == rest[n..] + Flatten(s.pc.parts);
    MovedOn(s.tx.wire, s.tx.ring, rest, n, Flatten(s.pc.parts));
  }

  lemma MovedOn(wire: string, ring: string, rest: string, n: nat, left: string)
    requires n <= |rest|
    ensures wire + (ring + rest[..n]) + (rest[n..] + left) == wire + ring + (rest + left)
  {
  }

  lemma IrqConserves(s: State, len: nat, n: nat, ok: bool)
    requires Conserved(s) && Enabled(s, Irq(len, n, ok))
    ensures Conserved(Apply(s, Irq(len, n, ok)))
  {
    var t := Apply(s, Irq(len, n, ok));
    assert t.tx.wire + t.tx.ring == s.tx.wire + s.tx.ring by {
      assert s.tx.ring == s.tx.ring[..len] + s.tx.ring[len..];
    }
  }

  lemma StepConserves(s: State, e: Event)
    requires Conserved(s) && Enabled(s, e)
    ensures Conserved(Apply(s, e))
  {
    match e
    case Lock(line) => LockConserves(s, line);
    case Copy => CopyConserves(s);
    case Irq(len, n, ok) => IrqConserves(s, len, n, ok);
    case _ => assert Pending(Apply(s, e).pc) == Pending(s.pc);
  }

  lemma StepKeepsOwner(s: State, e: Event)
    requires Inv(s) && Enabled(s, e)
    ensures var t := Apply(s, e);
            && OneOwner(t) && |t.tx.ring| <= TX_BUF_SIZE && t.tx.claimed <= |t.tx.ring|
            && (t.tx.running ==> t.tx.claimed > 0)
  {
  }

  lemma StepKeepsInv(s: State, e: Event)
    requires Inv(s) && Enabled(s, e)
    ensures Inv(Apply(s, e))
  {
    StepKeepsOwner(s, e);
    StepConserves(s, e);
  }

  /**
   Conservation and ownership over every run, whatever the driver answers: the wire always carries
   a prefix of the lines in lock order, and once the ring is drained with the lock free, all of them.
   */
  lemma {:induction false} RunKeepsInv(s: State, es: seq<Event>, t: State)
    requires Inv(s) && Run(s, es, t)
    ensures Inv(t)
    ensures t.tx.wire <= Flatten(t.lines)
    ensures t.pc.Unlocked? && t.tx.ring == "" ==> t.tx.wire == Flatten(t.lines)
    decreases |es|
  {
    if es != [] {
      StepKeepsInv(s, es[0]);
      RunKeepsInv(Apply(s, es[0]), es[1..], t);
    } else {
      assert t.tx.wire + t.tx.ring + Pending(t.pc) == t.tx.wire + (t.tx.ring + Pending(t.pc));
    }
  }

  /**
   From boot: one owner of the transmitter, and every line whole and in order; bytes of the ring are claimed only
   for a running transfer, or until a refused one is taken back.
   */
  lemma StreamConservation(es: seq<Event>, t: State)
    requires Run(BOOT, es, t)
    ensures OneOwner(t)
    ensures t.tx.running ==> t.tx.claimed > 0
    ensures t.tx.claimed > 0 ==> t.tx.running || t.pc.Failing?
    ensures t.tx.wire + t.tx.ring + Pending(t.pc) == Flatten(t.lines)
    ensures t.tx.wire <= Flatten(t.lines)
    ensures t.pc.Unlocked? && t.tx.ring == "" ==> t.tx.wire == Flatten(t.lines)
  {
    RunKeepsInv(BOOT, es, t);
  }

  /** Nothing sent is ever taken back, and a line once begun keeps its place. */
  lemma {:induction false} RunExtends(s: State, es: seq<Event>, t: State)
    requires Run(s, es, t)
    ensures s.tx.wire <= t.tx.wire && s.lines <= t.lines
    decreases |es|
  {
    if es != [] {
      RunExtends(Apply(s, es[0]), es[1..], t);
    }
  }

  // ------------------------------------------------------------ what the last answer of the driver decides

  /** The answer of the last `uart_tx`, if this step calls it. */
  predicate Answered(last: bool, e: Event) {
    match e
    case StartTx(n, ok) => if n > 0 then ok else last
    case Irq(_, n, ok) => if n > 0 then ok else last
    case _ => last
  }

  predicate LastAccepted(last: bool, es: seq<Event>)
    decreases |es|
  {
    if es == [] then last else LastAccepted(Answered(last, es[0]), es[1..])
  }

  /**
   A running transfer was accepted; a refusal leaves bytes; bytes that nobody sends or is about to send were
   refused.
   */
  predicate AnswerShows(s: State, last: bool) {
    && (s.tx.running ==> last)
    && (!last ==> s.tx.ring != "")
    && (s.tx.ring != "" && (s.pc.Failing? || (s.tx.idle && (s.pc.Unlock? || s.pc.Unlocked?))) ==> !last)
  }

  lemma StepShowsAnswer(s: State, last: bool, e: Event)
    requires Inv(s) && AnswerShows(s, last) && Enabled(s, e)
    ensures AnswerShows(Apply(s, e), Answered(last, e))
  {
  }

  lemma {:induction false} RunShowsAnswer(s: State, last: bool, es: seq<Event>, t: State)
    requires Inv(s) && AnswerShows(s, last) && Run(s, es, t)
    ensures Inv(t) && AnswerShows(t, LastAccepted(last, es))
    decreases |es|
  {
    if es != [] {
      StepKeepsInv(s, es[0]);
      StepShowsAnswer(s, last, es[0]);
      RunShowsAnswer(Apply(s, es[0]), Answered(last, es[0]), es[1..], t);
    }
  }

  /**
   Whatever the driver answers: with the lock free and bytes in the ring, they are being sent exactly if the
   last `uart_tx` of the run was accepted.
   */
  lemma RingDrainsExactlyWhen(es: seq<Event>, t: State)
    requires Run(BOOT, es, t) && t.pc.Unlocked? && t.tx.ring != ""
    ensures t.tx.running <==> LastAccepted(true, es)
  {
    RunShowsAnswer(BOOT, true, es, t);
  }

  /** Such a run: one refused `uart_tx` leaves a byte in the ring with nobody to send it. */
  lemma RefusedTransferStalls()
    ensures exists es: seq<Event>, t: State :: Run(BOOT, es, t) && t.pc.Unlocked? && t.tx.ring != "" && !t.tx.running
  {
    var s1 := Apply(BOOT, Lock(["x"]));
    var s2 := Apply(s1, Copy);
    assert s2.tx.ring == "x" && s2.pc == Flush;
    var s3 := Apply(s2, TryTake);
    var s4 := Apply(s3, StartTx(1, false));
    var s5 := Apply(s4, Give);
    var s6 := Apply(s5, Release);
    var es := [Lock(["x"]), Copy, TryTake, StartTx(1, false), Give, Release];
    RunCons(s5, [], Release, s6);
    RunCons(s4, [Release], Give, s6);
    RunCons(s3, [Give, Release], StartTx(1, false), s6);
    RunCons(s2, [StartTx(1, false), Give, Release], TryTake, s6);
    RunCons(s1, [TryTake, StartTx(1, false), Give, Release], Copy, s6);
    RunCons(BOOT, [Copy, TryTake, StartTx(1, false), Give, Release], Lock(["x"]), s6);
    assert Run(BOOT, [Lock(["x"])] + [Copy, TryTake, StartTx(1, false), Give, Release], s6);
  }

  lemma RunCons(s: State, es: seq<Event>, e: Event, t: State)
    requires Enabled(s, e) && Run(Apply(s, e), es, t)
    ensures Run(s, [e] + es, t)
  {
    assert ([e] + es)[1..] == es;
  }

  // ------------------------------------------------------------ never stuck

  /** `uart_tx` refused, or a transfer that sent nothing. */
  predicate Trouble(e: Event) {
    (e.StartTx? && e.n > 0 && !e.ok) || (e.Irq? && (e.len == 0 || (e.n > 0 && !e.ok)))
  }

  function Troubles(es: seq<Event>): nat {
    if es == [] then 0 else (if Trouble(es[0]) then 1 else 0) + Troubles(es[1..])
  }

  /** A writer waits for the ring with something left to copy. */
  predicate Sane(s: State) {
    && Inv(s)
    && (s.pc.Wait? ==> s.pc.rest != "")
    && (InStart(s.pc) && s.pc.k.More? ==> s.pc.k.rest != "")
  }

  lemma StepKeepsSane(s: State, e: Event)
    requires Sane(s) && Enabled(s, e)
    ensures Sane(Apply(s, e))
  {
    StepKeepsInv(s, e);
  }

  /**
   What is left to do before the lock is free: bytes to copy and parts to begin, bytes in the ring, place in the
   code.
   */
  function Rank(s: State): (r: nat)
    ensures r < 10
  {
    match s.pc
    case Unlocked => 0
    case Unlock => 2
    case Failing(_) => if s.tx.ring == "" then 3 else 9
    case Starting(_) => 6
    case Flush => 7
    case Wait(_, _) => if s.tx.idle then 7 else 4
    case Write(rest, _) =>
      if rest == "" then 9 else if |s.tx.ring| < TX_BUF_SIZE then 1 else if s.tx.idle then 8 else 5
  }

  function PartsLeft(pc: Pc): nat {
    match pc
    case Write(_, parts) => |parts|
    case Wait(_, parts) => |parts|
    case Starting(More(_, parts)) => |parts|
    case Failing(More(_, parts)) => |parts|
    case _ => 0
  }

  function Left(pc: Pc): nat {
    |Pending(pc)| + PartsLeft(pc)
  }

  /** Lexicographic, as one number: a full ring counts less than one byte to copy. */
  function Measure(s: State): nat {
    Weigh(Left(s.pc), |s.tx.ring|, Rank(s))
  }

  function Weigh(left: nat, ring: nat, rank: nat): nat {
    left * (10 * (TX_BUF_SIZE + 1)) + ring * 10 + rank
  }

  /** Bytes to copy weigh more than bytes in the ring, and these more than the place in the code. */
  lemma Drops(left: nat, ring: nat, rank: nat, left': nat, ring': nat, rank': nat)
    requires rank' < 10 && left' <= left && ring' <= ring + (left - left') && (left' < left || rank' < rank)
    ensures Weigh(left', ring', rank') < Weigh(left, ring, rank)
  {
  }

  lemma CopyLowers(s: State)
    requires Sane(s) && Enabled(s, Copy)
    ensures var t := Apply(s, Copy);
            && Left(t.pc) <= Left(s.pc) && |t.tx.ring| <= |s.tx.ring| + (Left(s.pc) - Left(t.pc))
            && (Left(t.pc) < Left(s.pc) || Rank(t) < Rank(s))
  {
    var t := Apply(s, Copy);
    var rest, parts := s.pc.rest, s.pc.parts;
    var n := PutCount(s.tx, rest);
    NextPending(parts);
    if n == |rest| {
      assert t.pc == Next(parts);
    } else {
      assert t.pc == Wait(rest[n..], parts);
    }
  }

  lemma CopyDecreases(s: State)
    requires Sane(s) && Enabled(s, Copy)
    ensures Measure(Apply(s, Copy)) < Measure(s)
  {
    var t := Apply(s, Copy);
    CopyLowers(s);
    Drops(Left(s.pc), |s.tx.ring|, Rank(s), Left(t.pc), |t.tx.ring|, Rank(t));
  }

  lemma IrqDecreases(s: State, e: Event)
    requires Sane(s) && Enabled(s, e) && e.Irq?
    ensures Measure(Apply(s, e)) < Measure(s) + (if e.len == 0 then 10 else 0)
  {
    var t := Apply(s, e);
    assert |t.tx.ring| == |s.tx.ring| - e.len && t.pc == s.pc;
    assert Rank(t) < Rank(s) + 10;
  }

  /** Every step but taking the lock lowers the measure; a refused or empty transfer may raise it a little. */
  lemma StepDecreases(s: State, e: Event)
    requires Sane(s) && Enabled(s, e) && !e.Lock?
    ensures Measure(Apply(s, e)) < Measure(s) + (if Trouble(e) then 10 else 0)
  {
    if e.Copy? {
      CopyDecreases(s);
    } else if e.Irq? {
      IrqDecreases(s, e);
    } else {
      var t := Apply(s, e);
      assert Left(t.pc) == Left(s.pc) && t.tx.ring == s.tx.ring;
      assert Rank(t) < Rank(s) || Trouble(e);
    }
  }

  /** Somebody can always move: the lock holder, or else the driver. */
  lemma NotStuck(s: State)
    requires Sane(s) && (!s.pc.Unlocked? || s.tx.running)
    ensures exists e :: Enabled(s, e) && !Trouble(e) && !e.Lock?
  {
    if s.tx.running {
      var n := |s.tx.ring[s.tx.claimed..]|;
      assert Enabled(s, Irq(s.tx.claimed, n, true)) && !Trouble(Irq(s.tx.claimed, n, true));
    } else {
      var e := match s.pc
        case Write(_, _) => Copy
        case Wait(_, _) => Take
        case Starting(_) => StartTx(|s.tx.ring|, true)
        case Failing(_) => Give
        case Flush => TryTake
        case _ => Release;
      assert Enabled(s, e) && !Trouble(e);
    }
  }

  lemma QuietState(t: State, last: bool)
    requires Sane(t) && AnswerShows(t, last) && forall e :: Enabled(t, e) && !Trouble(e) ==> e.Lock?
    ensures t.pc.Unlocked? && (t.tx.wire == Flatten(t.lines) <==> last)
  {
    if !t.pc.Unlocked? || t.tx.running {
      NotStuck(t);
    }
    Nothing(t.tx.wire + t.tx.ring);
  }

  lemma LinesStay(s: State, e: Event)
    requires Enabled(s, e) && !e.Lock?
    ensures Apply(s, e).lines == s.lines
  {
  }

  /**
   `tx_write` ends for lines of every length and the lock is given back, if the driver refuses finitely often:
   the steps before a further line begins are bounded by the measure and the troubles. When none is left
   the lock is free, and the wire carries exactly all lines if and only if the last `uart_tx` was accepted.
   */
  lemma {:induction false} EverythingIsSent(s: State, last: bool, es: seq<Event>, t: State)
    requires Sane(s) && AnswerShows(s, last) && Run(s, es, t) && forall i :: 0 <= i < |es| ==> !es[i].Lock?
    ensures |es| <= Measure(s) - Measure(t) + 10 * Troubles(es)
    ensures (forall e :: Enabled(t, e) && !Trouble(e) ==> e.Lock?)
            ==> t.pc.Unlocked? && (t.tx.wire == Flatten(s.lines) <==> LastAccepted(last, es))
    decreases |es|
  {
    if es != [] {
      var u := Apply(s, es[0]);
      StepKeepsSane(s, es[0]);
      StepShowsAnswer(s, last, es[0]);
      StepDecreases(s, es[0]);
      LinesStay(s, es[0]);
      EverythingIsSent(u, Answered(last, es[0]), es[1..], t);
    } else if forall e :: Enabled(t, e) && !Trouble(e) ==> e.Lock? {
      QuietState(t, last);
    }
  }

  /** From any such state the thread and a driver that accepts can finish what is begun. */
  lemma {:induction false} CanFinish(s: State) returns (es: seq<Event>, t: State)
    requires Sane(s) && AnswerShows(s, true)
    ensures Run(s, es, t) && Sane(t) && AnswerShows(t, true) && t.lines == s.lines
    ensures t.pc.Unlocked? && t.tx.ring == "" && t.tx.wire == Flatten(t.lines)
    decreases Measure(s)
  {
    if s.pc.Unlocked? && !s.tx.running {
      es, t := [], s;
      Nothing(s.tx.wire + s.tx.ring);
      Nothing(s.tx.wire);
    } else {
      NotStuck(s);
      var e :| Enabled(s, e) && !Trouble(e) && !e.Lock?;
      StepKeepsSane(s, e);
      StepShowsAnswer(s, true, e);
      StepDecreases(s, e);
      LinesStay(s, e);
      es, t := CanFinish(Apply(s, e));
      RunCons(s, es, e, t);
      es := [e] + es;
    }
  }

  lemma {:induction false} RunThen(s: State, es: seq<Event>, u: State, more: seq<Event>, t: State)
    requires Run(s, es, u) && Run(u, more, t)
    ensures Run(s, es + more, t)
    decreases |es|
  {
    if es == [] {
      Nothing(more);
    } else {
      FirstOf(es, more);
      RunThen(Apply(s, es[0]), es[1..], u, more, t);
    }
  }

  /** Whatever writers have to say, in whatever order, there is a run that sends exactly that. */
  lemma {:induction false} AnythingCanBeSent(lines: seq<string>) returns (es: seq<Event>, t: State)
    ensures Run(BOOT, es, t) && Sane(t) && AnswerShows(t, true)
    ensures t.lines == lines && t.pc.Unlocked? && t.tx.ring == "" && t.tx.wire == Flatten(lines)
    decreases |lines|
  {
    if lines == [] {
      es, t := [], BOOT;
    } else {
      var front, last := lines[..|lines| - 1], lines[|lines| - 1];
      var before, u := AnythingCanBeSent(front);
      var e := Lock([last]);
      OnePart(last);
      StepKeepsSane(u, e);
      StepShowsAnswer(u, true, e);
      var more;
      more, t := CanFinish(Apply(u, e));
      RunCons(u, more, e, t);
      RunThen(BOOT, before, u, [e] + more, t);
      es := before + ([e] + more);
      assert lines == front + [last];
    }
  }

  lemma OnePart(text: string)
    ensures Flatten([text]) == text
  {
    assert [text][1..] == [];
    Nothing(text);
  }

  /** Every state of a run from boot is one of these. */
  lemma ReachableSane(es: seq<Event>, t: State)
    requires Run(BOOT, es, t)
    ensures Sane(t) && AnswerShows(t, LastAccepted(true, es))
  {
    RunKeepsSane(BOOT, es, t);
    RunShowsAnswer(BOOT, true, es, t);
  }

  lemma {:induction false} RunKeepsSane(s: State, es: seq<Event>, t: State)
    requires Sane(s) && Run(s, es, t)
    ensures Sane(t)
    decreases |es|
  {
    if es != [] {
      StepKeepsSane(s, es[0]);
      RunKeepsSane(Apply(s, es[0]), es[1..], t);
    }
  }

  // ------------------------------------------------------------ the code, callbacks included

  /** The driver and the functions that use it. A blocked or running thread lets callbacks in. */
  class Uart {
    var ring: string
    var claimed: nat
    var idle: bool
    var running: bool
    var wire: string
    /** How often the driver will still refuse a transfer or end one without a byte sent: finite, otherwise unknown. */
    var trouble: nat
    /** The answer of the last `uart_tx`. */
    var accepted: bool

    ghost function View(): Tx
      reads this
    {
      Tx(ring, claimed, idle, running, wire)
    }

    /** All bytes written so far, sent or not. */
    ghost function Stream(): string
      reads this
    {
      wire + ring
    }

    ghost predicate Valid()
      reads this
    {
      && |ring| <= TX_BUF_SIZE && claimed <= |ring| && (running ==> claimed > 0 && accepted) && !(idle && running)
    }

    /** Bytes in the ring are being sent exactly if the last `uart_tx` was accepted. */
    ghost predicate Draining()
      reads this
    {
      ring != "" ==> (running <==> accepted)
    }

    constructor (trouble: nat)
      ensures Valid() && View() == BOOT.tx && this.trouble == trouble
    {
      ring, claimed, idle, running, wire := "", 0, true, false, "";
      this.trouble, accepted := trouble, true;
    }

    method RingPut(data: string) returns (n: nat)
      requires Valid()
      modifies `ring
      ensures Valid() && n == PutCount(old(View()), data) && View() == PutBytes(old(View()), data[..n])
    {
      n := if |data| <= TX_BUF_SIZE - |ring| then |data| else TX_BUF_SIZE - |ring|;
      ring := ring + data[..n];
    }

    /** `tx_start`; the claim and the answer of `uart_tx` are the driver's choice. */
    method StartTransfer() returns (n: nat, ok: bool)
      requires Valid() && !idle && !running
      modifies this
      ensures Valid() && Claimable(old(ring), n) && View() == TxStart(old(View()), n, ok)
      ensures trouble <= old(trouble) && (n > 0 && !ok ==> trouble < old(trouble))
      ensures accepted == (if n > 0 then ok else old(accepted))
      ensures idle != running && Draining()
    {
      n :| 0 <= n <= |ring| && (n == 0 <==> ring == "");
      ok := *;
      if trouble == 0 {
        ok := true;
      }
      claimed := n;
      if n > 0 {
        accepted := ok;
      }
      if n > 0 && ok {
        running := true;
      } else {
        if n > 0 {
          trouble := trouble - 1;
        }
        claimed := 0;
        idle := true;
      }
    }

    /** `uart_cb` for the end of a transfer, possibly cut short. */
    method TransferEnds() returns (len: nat, n: nat, ok: bool)
      requires Valid() && running
      modifies this
      ensures Valid() && len <= old(claimed) && Claimable(old(ring)[len..], n)
      ensures View() == TxDone(old(View()), len, n, ok)
      ensures idle != running && Stream() == old(Stream()) && old(wire) <= wire && Draining()
      ensures trouble <= old(trouble) && (|ring| < |old(ring)| || trouble < old(trouble)) && |ring| <= |old(ring)|
      ensures ring == "" || trouble < old(trouble) || running
    {
      len :| 0 <= len <= claimed && (trouble == 0 ==> len > 0);
      if len == 0 {
        trouble := trouble - 1;
      }
      assert wire + ring == wire + ring[..len] + ring[len..];
      wire, ring, claimed, running := wire + ring[..len], ring[len..], 0, false;
      assert View() == Finish(old(View()), len);
      if ring == "" {
        n, ok := 0, true;
        idle := true;
      } else {
        n, ok := StartTransfer();
      }
    }

    /** Any number of callbacks between two statements of a thread. */
    method Interrupts()
      requires Valid() && idle != running
      modifies this
      ensures Valid() && idle != running && Stream() == old(Stream()) && old(wire) <= wire
      ensures |ring| <= |old(ring)| && trouble <= old(trouble)
      ensures old(Draining()) ==> Draining()
      ensures if old(idle) then unchanged(this) else idle ==> ring == "" || trouble < old(trouble)
    {
      var k: nat := *;
      while k > 0 && running
        invariant Valid() && idle != running && Stream() == old(Stream()) && old(wire) <= wire
        invariant |ring| <= |old(ring)| && trouble <= old(trouble)
        invariant old(Draining()) ==> Draining()
        invariant if old(idle) then unchanged(this) else idle ==> ring == "" || trouble < old(trouble)
      {
        var _, _, _ := TransferEnds();
        k := k - 1;
      }
    }

    /** `k_sem_take(&tx_idle, K_FOREVER)`: callbacks run until one gives the semaphore. */
    method WaitIdle()
      requires Valid() && idle != running
      modifies this
      ensures Valid() && !idle && !running && Stream() == old(Stream()) && old(wire) <= wire
      ensures trouble <= old(trouble) && |ring| <= |old(ring)|
      ensures if old(idle) then ring == old(ring) else ring == "" || trouble < old(trouble)
    {
      while !idle
        invariant Valid() && idle != running && Stream() == old(Stream()) && old(wire) <= wire
        invariant trouble <= old(trouble) && |ring| <= |old(ring)|
        invariant if old(idle) then idle && ring == old(ring) else idle ==> ring == "" || trouble < old(trouble)
        decreases trouble, |ring|
      {
        var _, _, _ := TransferEnds();
      }
      idle := false;
    }

    /** `tx_write`: copies everything, whatever its length, and returns with no transfer of its own half begun. */
    method Write(data: string)
      requires Valid() && idle != running
      modifies this
      ensures Valid() && idle != running && Stream() == old(Stream()) + data && old(wire) <= wire
    {
      var p := data;
      while |p| > 0
        invariant Valid() && idle != running && old(wire) <= wire
        invariant Stream() + p == old(Stream()) + data
        decreases trouble, |p|, |ring|, idle
      {
        Interrupts();
        ghost var stream, rest := Stream(), p;
        var n := RingPut(p);
        assert Stream() == stream + rest[..n];
        p := p[n..];
        assert stream + rest[..n] + p == stream + rest;
        if |p| > 0 {
          Interrupts();
          WaitIdle();
          var _, _ := StartTransfer();
        }
      }
    }

    /** `tx_flush`. */
    method FlushRing()
      requires Valid() && idle != running
      modifies this
      ensures Valid() && idle != running && Stream() == old(Stream()) && old(wire) <= wire
      ensures Draining()
    {
      Interrupts();
      if idle {
        idle := false;
        var _, _ := StartTransfer();
      }
      Interrupts();
    }

    /** `at_print_parts`: one whole line, on its way when the lock is released if the last `uart_tx` was accepted. */
    method PrintParts(head: string, body: string, tail: string)
      requires Valid() && idle != running
      modifies this
      ensures Valid() && idle != running && old(wire) <= wire
      ensures Stream() == old(Stream()) + Line(head, body, tail)
      ensures Draining()
    {
      Write("\r\n");
      Write(head);
      Write(body);
      Write(tail);
      Write("\r\n");
      FlushRing();
      ConcatLine(old(Stream()), head, body, tail);
    }
  }

  /** The bytes of one printed line; an absent part is empty. */
  function Line(head: string, body: string, tail: string): string {
    "\r\n" + head + body + tail + "\r\n"
  }

  lemma ConcatLine(s: string, head: string, body: string, tail: string)
    ensures s + "\r\n" + head + body + tail + "\r\n" == s + Line(head, body, tail)
  {
  }
}
