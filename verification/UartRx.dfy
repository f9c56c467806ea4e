/** The receive half of app/src/at_uart.c. */
module UartRx {
  import opened Streams

  /*
   Three reference-counted blocks shared by the driver, the queue of received pieces and the RX thread, with
   stop and restart.

   A run of events is one interleaving. A driver callback is one event; the thread is split at the
   queue and at the two halves of `rx_buf_unref`, and it reads the block one byte at a time while
   the driver may be writing.
   */

  const RX_BUF_SIZE := 256
  const RX_BUF_COUNT := 3
  const RX_EVENT_COUNT := 8
  /** sizeof(struct rx_buf): the counter comes first. */
  const DATA_OFFSET := 4
  const BLOCK_SIZE := DATA_OFFSET + RX_BUF_SIZE

  // ------------------------------------------------------------ blocks and pointers

  type Block = b: nat | b < RX_BUF_COUNT

  /** Pointers are offsets into the slab. */
  function DataPtr(b: Block, offset: nat): nat {
    b * BLOCK_SIZE + DATA_OFFSET + offset
  }

  /** `rx_block`. */
  function BlockOf(p: nat): nat {
    p / BLOCK_SIZE
  }

  /** The block is recovered from a pointer to any of its data bytes. */
  lemma BlockOfInterior(b: Block, offset: nat)
    requires offset < RX_BUF_SIZE
    ensures BlockOf(DataPtr(b, offset)) == b
    ensures DataPtr(b, offset) - DataPtr(b, 0) == offset
  {
    assert b == 0 || b == 1 || b == 2;
  }

  /** struct rx_event. */
  datatype Piece = Piece(data: nat, len: nat) {
    function Block(): nat { BlockOf(data) }

    function Offset(): int { data - BlockOf(data) * BLOCK_SIZE - DATA_OFFSET }

    predicate InBlock() {
      Block() < RX_BUF_COUNT && Offset() >= 0 && len > 0 && Offset() + len <= RX_BUF_SIZE
    }
  }

  /** The slab: a counter per block, and the free list. */
  datatype Pool = Pool(refs: seq<nat>, free: set<Block>)

  function Alloc(p: Pool, b: Block): Pool
    requires |p.refs| == RX_BUF_COUNT
  {
    Pool(p.refs[b := 1], p.free - {b})
  }

  function Ref(p: Pool, b: Block): Pool
    requires |p.refs| == RX_BUF_COUNT
  {
    p.(refs := p.refs[b := p.refs[b] + 1])
  }

  /** `atomic_dec`. */
  function Dec(p: Pool, b: Block): Pool
    requires |p.refs| == RX_BUF_COUNT && p.refs[b] > 0
  {
    p.(refs := p.refs[b := p.refs[b] - 1])
  }

  /** `rx_buf_unref` as a whole. */
  function Unref(p: Pool, b: Block): Pool
    requires |p.refs| == RX_BUF_COUNT && p.refs[b] > 0
  {
    if p.refs[b] == 1 then Dec(p, b).(free := p.free + {b}) else Dec(p, b)
  }

  // ------------------------------------------------------------ state and events

  datatype Thread = Idle | Processing(piece: Piece, done: nat) | Freeing(b: Block)

  /**
   `own`: the blocks the driver holds, the one it fills first; `fill`: how far.
   `stopped`: the flag rx_disabled. `expected[i]`: the bytes received for `queue[i]`.
   `received`: bytes of all pieces queued so far; `processed`: bytes given to `rx_process` so far.
   */
  datatype State = State(
    pool: Pool,
    mem: seq<string>,
    own: seq<Block>,
    fill: nat,
    enabled: bool,
    queue: seq<Piece>,
    stopped: bool,
    thread: Thread,
    expected: seq<string>,
    current: string,
    received: string,
    processed: string)

  datatype Event =
    | RxRdy(data: string)
    | BufRequest(b: Block, ok: bool)
    | BufReleased(i: nat)
    | Disabled
    | Get
    | Read
    | DropRef
    | Free
    | Restart(b: Block, ok: bool)

  function Store(mem: seq<string>, b: Block, at: nat, data: string): seq<string>
    requires |mem| == RX_BUF_COUNT && at + |data| <= |mem[b]|
  {
    mem[b := mem[b][..at] + data + mem[b][at + |data|..]]
  }

  /** The contract of the asynchronous driver and of the slab, and where the thread is. */
  predicate Enabled(s: State, e: Event) {
    && |s.pool.refs| == RX_BUF_COUNT && |s.mem| == RX_BUF_COUNT
    && match e
       case RxRdy(data) =>
         s.enabled && s.own != [] && data != "" && s.fill + |data| <= RX_BUF_SIZE <= |s.mem[s.own[0]]|
       case BufRequest(b, ok) => s.enabled && (s.pool.free != {} ==> b in s.pool.free) && (ok ==> |s.own| == 1)
       case BufReleased(i) => s.enabled && i < |s.own| && s.pool.refs[s.own[i]] > 0
       case Disabled => s.enabled && s.own == []
       case Get => s.thread.Idle? && s.queue != [] && s.expected != []
       case Read =>
         && s.thread.Processing? && s.thread.done < s.thread.piece.len && s.thread.piece.InBlock()
         && |s.mem[s.thread.piece.Block()]| == RX_BUF_SIZE
       case DropRef =>
         && s.thread.Processing? && s.thread.done == s.thread.piece.len && s.thread.piece.InBlock()
         && s.pool.refs[s.thread.piece.Block()] > 0
       case Free => s.thread.Freeing?
       case Restart(b, ok) =>
         && s.thread.Idle? && s.stopped && s.queue == []
         && (s.pool.free != {} ==> b in s.pool.free) && (ok ==> !s.enabled)
  }

  function Apply(s: State, e: Event): State
    requires Enabled(s, e)
  {
    match e
    case RxRdy(data) => OnRxRdy(s, data)
    case BufRequest(b, ok) =>
      // With fewer than two places in the queue no block is offered, so the driver runs dry and is restarted later.
      if RX_EVENT_COUNT - |s.queue| < 2 || s.pool.free == {} then s
      else if ok then s.(pool := Alloc(s.pool, b), own := s.own + [b])
      else s.(pool := Unref(Alloc(s.pool, b), b))
    case BufReleased(i) =>
      s.(pool := Unref(s.pool, s.own[i]),
         own := s.own[..i] + s.own[i + 1..],
         fill := if i == 0 then 0 else s.fill)
    case Disabled => s.(enabled := false, stopped := true)
    case Get =>
      s.(queue := s.queue[1..], expected := s.expected[1..],
         thread := Processing(s.queue[0], 0), current := s.expected[0])
    case Read =>
      var piece, done := s.thread.piece, s.thread.done;
      s.(thread := Processing(piece, done + 1),
         processed := s.processed + [s.mem[piece.Block()][piece.Offset() + done]])
    case DropRef =>
      var b := s.thread.piece.Block();
      s.(pool := Dec(s.pool, b), thread := if s.pool.refs[b] == 1 then Freeing(b) else Idle, current := "")
    case Free => s.(pool := s.pool.(free := s.pool.free + {s.thread.b}), thread := Idle)
    case Restart(b, ok) =>
      if s.pool.free == {} then s
      else if ok then s.(pool := Alloc(s.pool, b), own := [b], fill := 0, enabled := true, stopped := false)
      else s.(pool := Unref(Alloc(s.pool, b), b))
  }

  /** UART_RX_RDY: the driver has written `data` behind what it reported before. */
  function OnRxRdy(s: State, data: string): State
    requires Enabled(s, RxRdy(data))
  {
    var b := s.own[0];
    var w := s.(mem := Store(s.mem, b, s.fill, data), fill := s.fill + |data|);
    if |s.queue| < RX_EVENT_COUNT then
      w.(pool := Ref(s.pool, b), queue := s.queue + [Piece(DataPtr(b, s.fill), |data|)],
         expected := s.expected + [data], received := s.received + data)
    else
      w.(pool := Unref(Ref(s.pool, b), b))
  }

  /** After `at_uart_init`: the driver fills block `b`. */
  function Boot(b: Block, mem: seq<string>): State {
    State(Alloc(Pool([0, 0, 0], {0, 1, 2}), b), mem, [b], 0, true, [], false, Idle, [], "", "", "")
  }

  ghost predicate Run(s: State, es: seq<Event>, t: State)
    decreases |es|
  {
    if es == [] then s == t else Enabled(s, es[0]) && Run(Apply(s, es[0]), es[1..], t)
  }

  // ------------------------------------------------------------ the invariant

  /** Queued pieces that point into block `b`. */
  function Count(q: seq<Piece>, b: nat): nat {
    if q == [] then 0 else (if q[0].Block() == b then 1 else 0) + Count(q[1..], b)
  }

  lemma {:induction false} CountSnoc(q: seq<Piece>, p: Piece, b: nat)
    ensures Count(q + [p], b) == Count(q, b) + if p.Block() == b then 1 else 0
  {
    if q == [] {
      assert Count([p], b) == (if p.Block() == b then 1 else 0) + Count([p][1..], b);
    } else {
      assert (q + [p])[1..] == q[1..] + [p];
      CountSnoc(q[1..], p, b);
    }
  }

  lemma {:induction false} CountZero(q: seq<Piece>, b: nat)
    ensures Count(q, b) == 0 <==> forall i :: 0 <= i < |q| ==> q[i].Block() != b
  {
    if q != [] {
      CountZero(q[1..], b);
      assert forall i :: 1 <= i < |q| ==> q[i] == q[1..][i - 1];
      assert forall i :: 0 <= i < |q[1..]| ==> q[1..][i] == q[i + 1];
    }
  }

  predicate Holds(t: Thread, b: nat) {
    t.Processing? && t.piece.Block() == b
  }

  /** Driver, queued pieces, thread. */
  function Holders(s: State, b: nat): nat {
    (if b in s.own then 1 else 0) + Count(s.queue, b) + if Holds(s.thread, b) then 1 else 0
  }

  predicate Counted(s: State) {
    && |s.pool.refs| == RX_BUF_COUNT
    && forall b: Block :: s.pool.refs[b] == Holders(s, b)
  }

  /** Free exactly when nobody holds it; a block being returned is neither. */
  predicate FreeIffUnheld(s: State) {
    && |s.pool.refs| == RX_BUF_COUNT
    && (forall b: Block :: b in s.pool.free <==> s.pool.refs[b] == 0 && s.thread != Freeing(b))
    && (s.thread.Freeing? ==> s.pool.refs[s.thread.b] == 0)
  }

  /** A piece is out of the way of what the driver writes next. */
  predicate Clear(s: State, p: Piece) {
    && p.InBlock()
    && (|s.own| > 0 && p.Block() == s.own[0] ==> p.Offset() + p.len <= s.fill)
    && (|s.own| > 1 ==> p.Block() != s.own[1])
  }

  function BytesOf(mem: seq<string>, p: Piece): string
    requires |mem| == RX_BUF_COUNT && p.InBlock() && |mem[p.Block()]| == RX_BUF_SIZE
  {
    mem[p.Block()][p.Offset()..p.Offset() + p.len]
  }

  predicate Memory(mem: seq<string>) {
    |mem| == RX_BUF_COUNT && forall b: Block :: |mem[b]| == RX_BUF_SIZE
  }

  /** What the driver does next cannot touch a piece, and every piece still reads as it was received. */
  predicate Intact(s: State) {
    && Memory(s.mem)
    && |s.queue| == |s.expected|
    && (forall i :: 0 <= i < |s.queue| ==> Clear(s, s.queue[i]) && BytesOf(s.mem, s.queue[i]) == s.expected[i])
    && (s.thread.Processing? ==>
          && Clear(s, s.thread.piece) && s.thread.done <= s.thread.piece.len
          && BytesOf(s.mem, s.thread.piece) == s.current)
  }

  predicate Driver(s: State) {
    && |s.own| <= 2 && (|s.own| == 2 ==> s.own[0] != s.own[1])
    && s.fill <= RX_BUF_SIZE
    && (s.own == [] ==> s.fill == 0)
    && s.stopped == !s.enabled
    && (!s.enabled ==> s.own == [])
  }

  /** Bytes of the current piece not yet read. */
  function Unread(s: State): string {
    if s.thread.Processing? && s.thread.done <= |s.current| then s.current[s.thread.done..] else ""
  }

  predicate InOrder(s: State) {
    s.received == s.processed + Unread(s) + Flatten(s.expected)
  }

  predicate Inv(s: State) {
    && Driver(s) && |s.queue| <= RX_EVENT_COUNT
    && Counted(s) && FreeIffUnheld(s) && Intact(s) && InOrder(s)
  }

  // ------------------------------------------------------------ every step keeps it

  /** Writing behind `fill` changes no piece that is clear of it. */
  lemma StoreKeepsClear(s: State, data: string, p: Piece)
    requires Memory(s.mem) && s.own != [] && s.fill + |data| <= RX_BUF_SIZE && Clear(s, p)
    ensures Memory(Store(s.mem, s.own[0], s.fill, data))
    ensures BytesOf(Store(s.mem, s.own[0], s.fill, data), p) == BytesOf(s.mem, p)
  {
    var m := Store(s.mem, s.own[0], s.fill, data);
    if p.Block() == s.own[0] {
      forall k | p.Offset() <= k < p.Offset() + p.len
        ensures m[p.Block()][k] == s.mem[p.Block()][k]
      {
      }
    }
  }

  lemma RxRdyKeepsMemory(s: State, data: string)
    requires Inv(s) && Enabled(s, RxRdy(data))
    ensures Intact(OnRxRdy(s, data))
  {
    var t := OnRxRdy(s, data);
    var b := s.own[0];
    BlockOfInterior(b, s.fill);
    forall p: Piece | Clear(s, p)
      ensures Clear(t, p) && BytesOf(t.mem, p) == BytesOf(s.mem, p)
    {
      StoreKeepsClear(s, data, p);
    }
    var p := Piece(DataPtr(b, s.fill), |data|);
    assert Clear(t, p);
    assert BytesOf(t.mem, p) == data;
  }

  lemma RxRdyCounts(s: State, data: string)
    requires Inv(s) && Enabled(s, RxRdy(data))
    ensures Counted(OnRxRdy(s, data)) && FreeIffUnheld(OnRxRdy(s, data))
  {
    var t := OnRxRdy(s, data);
    var p := Piece(DataPtr(s.own[0], s.fill), |data|);
    BlockOfInterior(s.own[0], s.fill);
    assert s.pool.refs[s.own[0]] == Holders(s, s.own[0]);
    forall b: Block
      ensures t.pool.refs[b] == Holders(t, b)
    {
      CountSnoc(s.queue, p, b);
    }
  }

  lemma RxRdyKeeps(s: State, data: string)
    requires Inv(s) && Enabled(s, RxRdy(data))
    ensures Inv(OnRxRdy(s, data))
  {
    RxRdyCounts(s, data);
    RxRdyKeepsMemory(s, data);
    FlattenSnoc(s.expected, data);
    assert s.processed + Unread(s) + Flatten(s.expected) + data ==
           s.processed + Unread(s) + (Flatten(s.expected) + data);
  }

  /** A free block is in no piece, so it can be handed to the driver. */
  lemma FreeBlockIsClear(s: State, b: Block)
    requires Inv(s) && b in s.pool.free
    ensures b !in s.own && !Holds(s.thread, b)
    ensures forall i :: 0 <= i < |s.queue| ==> s.queue[i].Block() != b
  {
    assert s.pool.refs[b] == Holders(s, b);
    CountZero(s.queue, b);
  }

  lemma BufRequestKeeps(s: State, b: Block, ok: bool)
    requires Inv(s) && Enabled(s, BufRequest(b, ok))
    ensures Inv(Apply(s, BufRequest(b, ok)))
  {
    if b in s.pool.free {
      FreeBlockIsClear(s, b);
      CountZero(s.queue, b);
    }
  }

  lemma BufReleasedKeeps(s: State, i: nat)
    requires Inv(s) && Enabled(s, BufReleased(i))
    ensures Inv(Apply(s, BufReleased(i)))
  {
    var t := Apply(s, BufReleased(i));
    assert i == 0 || i == 1;
    forall b: Block
      ensures b in t.own <==> b in s.own && b != s.own[i]
    {
    }
    assert forall b: Block :: Count(t.queue, b) == Count(s.queue, b);
  }

  lemma GetKeeps(s: State)
    requires Inv(s) && Enabled(s, Get)
    ensures Inv(Apply(s, Get))
  {
    var t := Apply(s, Get);
    forall b: Block
      ensures t.pool.refs[b] == Holders(t, b)
    {
      assert s.pool.refs[b] == Holders(s, b);
    }
    assert Clear(s, s.queue[0]);
    assert s.current[..0] == "";
    assert t.current[0..] == t.current;
    assert s.received == s.processed + Unread(s) + (s.expected[0] + Flatten(s.expected[1..]));
  }

  /** One more byte read: it is the byte received at that place. */
  lemma ReadInOrder(s: State)
    requires Inv(s) && Enabled(s, Read)
    ensures InOrder(Apply(s, Read))
  {
    var t := Apply(s, Read);
    var p, k := s.thread.piece, s.thread.done;
    assert s.mem[p.Block()][p.Offset() + k] == s.current[k];
    assert Unread(s) == [s.current[k]] + Unread(t);
    assert t.processed + Unread(t) == s.processed + Unread(s);
  }

  lemma ReadKeeps(s: State)
    requires Inv(s) && Enabled(s, Read)
    ensures Inv(Apply(s, Read))
  {
    var t := Apply(s, Read);
    ReadInOrder(s);
    assert forall b: Block :: Holds(t.thread, b) == Holds(s.thread, b);
    assert forall p: Piece :: Clear(s, p) ==> Clear(t, p);
  }

  lemma DropRefKeeps(s: State)
    requires Inv(s) && Enabled(s, DropRef)
    ensures Inv(Apply(s, DropRef))
  {
    var t := Apply(s, DropRef);
    var b := s.thread.piece.Block();
    forall c: Block
      ensures t.pool.refs[c] == Holders(t, c)
    {
      assert s.pool.refs[c] == Holders(s, c);
    }
    assert Unread(s) == "";
  }

  lemma RestartKeeps(s: State, b: Block, ok: bool)
    requires Inv(s) && Enabled(s, Restart(b, ok))
    ensures Inv(Apply(s, Restart(b, ok)))
  {
    if b in s.pool.free {
      FreeBlockIsClear(s, b);
      CountZero(s.queue, b);
    }
  }

  lemma StepKeepsInv(s: State, e: Event)
    requires Inv(s) && Enabled(s, e)
    ensures Inv(Apply(s, e))
  {
    match e
    case RxRdy(data) => RxRdyKeeps(s, data);
    case BufRequest(b, ok) => BufRequestKeeps(s, b, ok);
    case BufReleased(i) => BufReleasedKeeps(s, i);
    case Disabled =>
    case Get => GetKeeps(s);
    case Read => ReadKeeps(s);
    case DropRef => DropRefKeeps(s);
    case Free =>
    case Restart(b, ok) => RestartKeeps(s, b, ok);
  }

  lemma {:induction false} RunKeepsInv(s: State, es: seq<Event>, t: State)
    requires Inv(s) && Run(s, es, t)
    ensures Inv(t)
    decreases |es|
  {
    if es != [] {
      StepKeepsInv(s, es[0]);
      RunKeepsInv(Apply(s, es[0]), es[1..], t);
    }
  }

  // ------------------------------------------------------------ what follows for every run

  lemma BootHolds(b: Block, mem: seq<string>)
    requires Memory(mem)
    ensures Inv(Boot(b, mem))
  {
  }

  /** Counts: each block is counted once for the driver, once per queued piece, once for the thread. */
  lemma ReferenceCounts(b: Block, mem: seq<string>, es: seq<Event>, t: State)
    requires Memory(mem) && Run(Boot(b, mem), es, t)
    ensures |t.pool.refs| == RX_BUF_COUNT
    ensures forall c: Block :: t.pool.refs[c] ==
                               (if c in t.own then 1 else 0) + Count(t.queue, c) + if Holds(t.thread, c) then 1 else 0
    ensures forall c: Block :: c in t.pool.free <==> t.pool.refs[c] == 0 && t.thread != Freeing(c)
    ensures forall c: Block :: c in t.pool.free ==>
                                 c !in t.own && forall i :: 0 <= i < |t.queue| ==> t.queue[i].Block() != c
  {
    BootHolds(b, mem);
    RunKeepsInv(Boot(b, mem), es, t);
    forall c: Block | c in t.pool.free
      ensures c !in t.own && forall i :: 0 <= i < |t.queue| ==> t.queue[i].Block() != c
    {
      FreeBlockIsClear(t, c);
    }
  }

  /**
   Integrity: no block is handed out again before its bytes are read, so the thread sees every
   queued byte once, in order and unchanged, in every interleaving with the driver.
   */
  lemma ReceivedBytesArriveIntact(b: Block, mem: seq<string>, es: seq<Event>, t: State)
    requires Memory(mem) && Run(Boot(b, mem), es, t)
    ensures t.processed <= t.received
    ensures t.queue == [] && t.thread.Idle? ==> t.processed == t.received
    ensures Memory(t.mem) && |t.expected| == |t.queue|
    ensures forall i :: 0 <= i < |t.queue| ==>
                          t.queue[i].InBlock() && BytesOf(t.mem, t.queue[i]) == t.expected[i]
  {
    BootHolds(b, mem);
    RunKeepsInv(Boot(b, mem), es, t);
    assert t.received == t.processed + (Unread(t) + Flatten(t.expected));
  }

  /** Bytes are lost only when the event queue is full. */
  lemma PieceLostIffQueueFull(s: State, data: string)
    requires Inv(s) && Enabled(s, RxRdy(data))
    ensures (Apply(s, RxRdy(data)).received == s.received + data) <==> |s.queue| < RX_EVENT_COUNT
    ensures |s.queue| == RX_EVENT_COUNT ==>
              Apply(s, RxRdy(data)).received == s.received && Apply(s, RxRdy(data)).pool == s.pool
  {
    assert |s.received + data| > |s.received|;
    assert s.pool.refs[s.own[0]] == Holders(s, s.own[0]);
  }

  /** Driver stopped, its blocks released, nothing queued, thread at rest: all three blocks are free. */
  lemma AllFreeWhenQuiet(s: State)
    requires Inv(s) && s.own == [] && s.queue == [] && s.thread.Idle?
    ensures s.pool.free == {0, 1, 2}
  {
    forall b: Block
      ensures b in s.pool.free
    {
      assert s.pool.refs[b] == Holders(s, b);
    }
  }

  function LengthSum(q: seq<Piece>): nat {
    if q == [] then 0 else q[0].len + 3 + LengthSum(q[1..])
  }

  /** Work left for the thread before it looks at the flag with an empty queue. */
  function Backlog(s: State): int {
    LengthSum(s.queue) +
    match s.thread
    case Idle => 0
    case Freeing(_) => 1
    case Processing(p, done) => p.len - done + 2
  }

  lemma StoppedStep(s: State, e: Event)
    requires Inv(s) && !s.enabled && Enabled(s, e) && !e.Restart?
    ensures !Apply(s, e).enabled && Backlog(Apply(s, e)) <= Backlog(s) - 1
  {
  }

  /** With no other step left the thread is at rest and a restart finds a block. */
  lemma RestartFinds(t: State)
    requires Inv(t) && !t.enabled && forall e :: Enabled(t, e) ==> e.Restart?
    ensures forall b: Block :: Enabled(t, Restart(b, true))
    ensures forall b: Block :: var u := Apply(t, Restart(b, true)); u.enabled && u.own == [b] && !u.stopped && Inv(u)
  {
    assert !Enabled(t, Get) && !Enabled(t, Read) && !Enabled(t, DropRef) && !Enabled(t, Free);
    AllFreeWhenQuiet(t);
    forall b: Block
      ensures Enabled(t, Restart(b, true)) && Inv(Apply(t, Restart(b, true)))
    {
      StepKeepsInv(t, Restart(b, true));
    }
  }

  /**
   Restart cannot starve. While the driver is stopped the flag is set and only the thread can move; its
   work is bounded by the backlog; when none is left `rx_enable` finds a buffer, and once the driver
   accepts it reception resumes.
   */
  lemma {:induction false} ReceptionResumes(s: State, es: seq<Event>, t: State)
    requires Inv(s) && !s.enabled && Run(s, es, t)
    requires forall i :: 0 <= i < |es| ==> !es[i].Restart?
    ensures !t.enabled && t.stopped
    ensures |es| <= Backlog(s) - Backlog(t) && 0 <= Backlog(t)
    ensures (forall e :: Enabled(t, e) ==> e.Restart?) ==>
              && (forall b: Block :: Enabled(t, Restart(b, true)))
              && (forall b: Block :: var u := Apply(t, Restart(b, true));
                                     u.enabled && u.own == [b] && !u.stopped && Inv(u))
    decreases |es|
  {
    if es != [] {
      StepKeepsInv(s, es[0]);
      StoppedStep(s, es[0]);
      ReceptionResumes(Apply(s, es[0]), es[1..], t);
    } else if forall e :: Enabled(t, e) ==> e.Restart? {
      RestartFinds(t);
    }
  }

  // ------------------------------------------------------------ the code

  /** The slab, the event queue and the flag, with the receive cases of `uart_cb` and the thread's calls. */
  class Receiver {
    const refs: array<nat>
    var free: set<Block>
    var queue: seq<Piece>
    var stopped: bool

    ghost predicate Valid()
      reads this
    {
      refs.Length == RX_BUF_COUNT
    }

    ghost function View(): (p: Pool)
      requires Valid()
      reads this, refs
      ensures |p.refs| == RX_BUF_COUNT
    {
      Pool(refs[..], free)
    }

    constructor ()
      ensures Valid() && fresh(refs) && View() == Pool([0, 0, 0], {0, 1, 2}) && queue == [] && !stopped
    {
      refs := new nat[RX_BUF_COUNT](_ => 0);
      free, queue, stopped := {0, 1, 2}, [], false;
    }

    /** `rx_buf_alloc`: the data pointer of some free block, now counted once. */
    method AllocBuffer() returns (found: bool, p: nat)
      requires Valid()
      modifies `free, refs
      ensures found <==> old(free) != {}
      ensures found ==> exists b: Block :: b in old(free) && p == DataPtr(b, 0) && View() == Alloc(old(View()), b)
      ensures !found ==> View() == old(View())
    {
      if free == {} {
        return false, 0;
      }
      var b :| b in free;
      free := free - {b};
      refs[b] := 1;
      BlockOfInterior(b, 0);
      return true, DataPtr(b, 0);
    }

    /** `rx_buf_ref`, given any pointer into the block. */
    method RefBuffer(p: nat)
      requires Valid() && BlockOf(p) < RX_BUF_COUNT
      modifies refs
      ensures View() == Ref(old(View()), BlockOf(p))
    {
      refs[BlockOf(p)] := refs[BlockOf(p)] + 1;
    }

    /** `rx_buf_unref`: the last reference puts the block back. */
    method UnrefBuffer(p: nat)
      requires Valid() && BlockOf(p) < RX_BUF_COUNT && refs[BlockOf(p)] > 0
      modifies `free, refs
      ensures View() == Unref(old(View()), BlockOf(p))
    {
      var b := BlockOf(p);
      refs[b] := refs[b] - 1;
      if refs[b] == 0 {
        free := free + {b};
      }
    }

    /** UART_RX_RDY: queued by reference, or dropped with the counts as they were. */
    method OnReady(buf: nat, offset: nat, len: nat)
      requires Valid() && BlockOf(buf) < RX_BUF_COUNT && refs[BlockOf(buf)] > 0
      modifies this, refs
      ensures |old(queue)| < RX_EVENT_COUNT ==>
                queue == old(queue) + [Piece(buf + offset, len)] && View() == Ref(old(View()), BlockOf(buf))
      ensures |old(queue)| >= RX_EVENT_COUNT ==> queue == old(queue) && View() == old(View())
      ensures stopped == old(stopped)
    {
      RefBuffer(buf);
      if |queue| < RX_EVENT_COUNT {
        queue := queue + [Piece(buf + offset, len)];
      } else {
        UnrefBuffer(buf);
      }
    }

    /** UART_RX_BUF_REQUEST: a block goes to the driver only if there is room for its events and the driver takes it. */
    method OnBufRequest(ok: bool) returns (given: bool, p: nat)
      requires Valid()
      modifies this, refs
      ensures queue == old(queue) && stopped == old(stopped)
      ensures given <==> |old(queue)| <= RX_EVENT_COUNT - 2 && old(free) != {} && ok
      ensures given ==> exists b: Block :: b in old(free) && p == DataPtr(b, 0) && View() == Alloc(old(View()), b)
      ensures !given ==> free == old(free) && forall b: Block :: b !in free ==> refs[b] == old(refs[b])
    {
      given, p := false, 0;
      if RX_EVENT_COUNT - |queue| < 2 {
        return;
      }
      var found;
      found, p := AllocBuffer();
      if found {
        BlockOfInterior(0, 0);
        BlockOfInterior(1, 0);
        BlockOfInterior(2, 0);
        given := ok;
        if !ok {
          UnrefBuffer(p);
        }
      }
    }

    /** `rx_enable` and the end of the RX thread's turn: RX comes back once nothing received is waiting. */
    method RestartIfStopped(ok: bool) returns (given: bool, p: nat)
      requires Valid()
      modifies this, refs
      ensures queue == old(queue)
      ensures given <==> old(stopped) && old(queue) == [] && old(free) != {} && ok
      ensures given ==>
                && !stopped
                && exists b: Block :: b in old(free) && p == DataPtr(b, 0) && View() == Alloc(old(View()), b)
      ensures !given ==>
                && stopped == old(stopped) && free == old(free)
                && forall b: Block :: b !in free ==> refs[b] == old(refs[b])
    {
      given, p := false, 0;
      if stopped && queue == [] {
        var found;
        found, p := AllocBuffer();
        if found {
          BlockOfInterior(0, 0);
          BlockOfInterior(1, 0);
          BlockOfInterior(2, 0);
          given := ok;
          if ok {
            stopped := false;
          } else {
            UnrefBuffer(p);
          }
        }
      }
    }
  }
}
