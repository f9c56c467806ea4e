/** Unicast accounting of app/src/zb_msg.c. */
module Unicast {
  import opened Wrappers
  import Streams

  /*
   Four slots, a table of ten unicasts in flight and one counter, shared by `submit` (AT thread) and `tx_send`,
   `tx_done` (ZBOSS thread).

   A run of events interleaves the two threads at every atomic operation. Buffers come from the
   stack: an id is not given out again before `zb_buf_free`, and `tx_done` comes once per queued buffer.
   */

  const TX_SLOTS := 4
  const UCAST_IN_FLIGHT := 10

  type Byte = n: nat | n < 256
  type Buf = nat

  /** What the outcome prompt will need. `ticket` numbers the submissions and exists only here. */
  datatype Tag = Tag(ticket: nat, seqNo: Byte, quiet: bool)

  datatype Route = Route(dst: nat, profile: nat, cluster: nat, srcEp: nat, dstEp: nat)

  /** struct tx_req. */
  datatype Req = Req(tag: Tag, ack: bool, route: Route, data: string)

  /** A used struct in_flight. */
  datatype Entry = Entry(buf: Buf, tag: Tag)

  /** One call of `report`. */
  datatype Outcome = Outcome(tag: Tag, acked: bool)

  // ------------------------------------------------------------ the table

  function FirstFree(table: seq<Option<Entry>>): (k: nat)
    ensures k <= |table| && (k < |table| ==> table[k].None?)
    ensures forall j :: 0 <= j < k ==> table[j].Some?
  {
    if table == [] || table[0].None? then 0 else 1 + FirstFree(table[1..])
  }

  predicate Has(slot: Option<Entry>, buf: Buf) {
    slot.Some? && slot.value.buf == buf
  }

  function FirstWith(table: seq<Option<Entry>>, buf: Buf): (k: nat)
    ensures k <= |table| && (k < |table| ==> Has(table[k], buf))
    ensures forall j :: 0 <= j < k ==> !Has(table[j], buf)
  {
    if table == [] || Has(table[0], buf) then 0 else 1 + FirstWith(table[1..], buf)
  }

  /** `in_flight_add`: a full table drops the entry. */
  function Add(table: seq<Option<Entry>>, e: Entry): seq<Option<Entry>> {
    var k := FirstFree(table);
    if k < |table| then table[k := Some(e)] else table
  }

  /** The loop of `tx_send` after a refusal: every entry of this buffer. */
  function RemoveAll(table: seq<Option<Entry>>, buf: Buf): (t: seq<Option<Entry>>)
    ensures |t| == |table|
  {
    seq(|table|, k requires 0 <= k < |table| => if Has(table[k], buf) then None else table[k])
  }

  function One(slot: Option<Entry>): multiset<Tag> {
    if slot.Some? then multiset{slot.value.tag} else multiset{}
  }

  /** The multisets of all places together. */
  function Sum<T, U>(places: seq<T>, f: T -> multiset<U>): multiset<U> {
    if places == [] then multiset{} else f(places[0]) + Sum(places[1..], f)
  }

  lemma {:induction false} SumUpdate<T, U>(places: seq<T>, f: T -> multiset<U>, k: nat, x: T)
    requires k < |places|
    ensures Sum(places[k := x], f) + f(places[k]) == Sum(places, f) + f(x)
  {
    var updated := places[k := x];
    if k == 0 {
      assert updated[1..] == places[1..];
    } else {
      assert updated[0] == places[0] && updated[1..] == places[1..][k - 1 := x] && places[1..][k - 1] == places[k];
      SumUpdate(places[1..], f, k - 1, x);
      var rest, rest' := Sum(places[1..], f), Sum(updated[1..], f);
      assert f(places[0]) + rest' + f(places[k]) == f(places[0]) + (rest' + f(places[k]));
      assert f(places[0]) + rest + f(x) == f(places[0]) + (rest + f(x));
    }
  }

  function TableTags(table: seq<Option<Entry>>): multiset<Tag> {
    Sum(table, One)
  }

  /** As many tags as used entries; in particular a full table has one for every place. */
  lemma {:induction false} TableTagsSize(table: seq<Option<Entry>>)
    ensures |TableTags(table)| <= |table|
    ensures FirstFree(table) == |table| <==> |TableTags(table)| == |table|
  {
    if table != [] {
      TableTagsSize(table[1..]);
    }
  }

  // ------------------------------------------------------------ threads

  datatype AtPc =
    | AtRest
    | Scan(r: Req, i: nat)      // atomic_test_and_set_bit(&slots_used, i) comes next
    | Claimed(r: Req, i: nat)   // slot claimed; atomic_inc comes next for an acknowledged request
    | Over(r: Req, i: nat)      // ten in flight; atomic_dec comes next
    | Fill(r: Req, i: nat)      // counted; write the slot and ask for a buffer
    | Undo(r: Req, i: nat)      // no buffer; atomic_dec comes next for an acknowledged request
    | Drop(r: Req, i: nat)      // refused; atomic_clear_bit comes next

  datatype ZbPc =
    | ZbRest
    | Sending(i: nat, buf: Buf)                 // tx_send, entry added; the stack is asked next
    | Refused(i: nat, buf: Buf)                 // tx_send, entry removed; atomic_dec, report, free come next
    | Unslot(i: nat)                            // tx_send, atomic_clear_bit comes next
    | Reporting(e: Entry, acked: bool)          // tx_done, entry removed; atomic_dec, report, free come next

  /**
   `used`: the bits of slots_used. `waiting[i]`: the accepted request of slot `i` until `tx_send` runs for it.
   `live`: buffers given out and not freed; `queued`: those the stack will call `tx_done` for.
   `allocs`, `frees`: how many buffers were given out and freed. `accepted`: requests `submit` answered AT_OK.
   `handed`: requests passed to the stack. `outcomes`: calls of `report`. `tickets`: submissions so far.
   */
  datatype State = State(
    slots: seq<Option<Req>>,
    used: seq<bool>,
    waiting: seq<Option<Req>>,
    table: seq<Option<Entry>>,
    count: int,
    nextSeq: Byte,
    at: AtPc,
    zb: ZbPc,
    live: set<Buf>,
    queued: set<Buf>,
    allocs: nat,
    frees: nat,
    tickets: nat,
    accepted: seq<Req>,
    handed: seq<Req>,
    outcomes: seq<Outcome>)

  datatype Event =
    | Submit(ack: bool, quiet: bool, route: Route, data: string)
    | TestSlot
    | Increment
    | Decrement
    | Schedule(ok: bool)
    | ClearSlot
    | SendBegin(i: nat, buf: Buf)
    | SendAnswer(ok: bool)
    | SendReport
    | SendEnd
    | Done(buf: Buf, acked: bool)
    | DoneReport

  predicate Shaped(s: State) {
    |s.slots| == |s.used| == |s.waiting| == TX_SLOTS && |s.table| == UCAST_IN_FLIGHT
  }

  predicate Enabled(s: State, e: Event) {
    && Shaped(s)
    && match e
       case Submit(_, _, _, _) => s.at.AtRest?
       case TestSlot => s.at.Scan?
       case Increment => s.at.Claimed? && s.at.i < TX_SLOTS
       case Decrement => (s.at.Over? || s.at.Undo?) && s.at.i < TX_SLOTS
       case Schedule(_) => s.at.Fill? && s.at.i < TX_SLOTS
       case ClearSlot => s.at.Drop? && s.at.i < TX_SLOTS
       case SendBegin(i, buf) =>
         s.zb.ZbRest? && i < TX_SLOTS && s.waiting[i].Some? && s.slots[i].Some? && buf !in s.live
       case SendAnswer(_) => s.zb.Sending? && s.zb.i < TX_SLOTS && s.slots[s.zb.i].Some?
       case SendReport => s.zb.Refused? && s.zb.i < TX_SLOTS && s.slots[s.zb.i].Some?
       case SendEnd => s.zb.Unslot? && s.zb.i < TX_SLOTS
       case Done(buf, _) => s.zb.ZbRest? && buf in s.queued
       case DoneReport => s.zb.Reporting?
  }

  function Apply(s: State, e: Event): (t: State)
    requires Enabled(s, e)
    ensures Shaped(t)
  {
    match e
    case Submit(ack, quiet, route, data) =>
      // A refused unicast uses up its sequence number too.
      var r := Req(Tag(s.tickets, if ack then s.nextSeq else 0, quiet), ack, route, data);
      s.(at := Scan(r, 0), tickets := s.tickets + 1, nextSeq := if ack then (s.nextSeq + 1) % 256 else s.nextSeq)
    case TestSlot =>
      var r, i := s.at.r, s.at.i;
      if i >= TX_SLOTS then s.(at := AtRest)
      else if s.used[i] then s.(at := Scan(r, i + 1))
      else s.(used := s.used[i := true], at := Claimed(r, i))
    case Increment =>
      var r, i := s.at.r, s.at.i;
      if !r.ack then s.(at := Fill(r, i))
      else s.(count := s.count + 1, at := if s.count >= UCAST_IN_FLIGHT then Over(r, i) else Fill(r, i))
    case Decrement =>
      s.(count := if s.at.r.ack then s.count - 1 else s.count, at := Drop(s.at.r, s.at.i))
    case Schedule(ok) =>
      var r, i := s.at.r, s.at.i;
      var w := s.(slots := s.slots[i := Some(r)]);
      if ok then w.(waiting := s.waiting[i := Some(r)], accepted := s.accepted + [r], at := AtRest)
      else w.(at := Undo(r, i))
    case ClearSlot => s.(used := s.used[s.at.i := false], at := AtRest)
    case SendBegin(i, buf) =>
      var r := s.slots[i].value;
      s.(live := s.live + {buf}, allocs := s.allocs + 1, waiting := s.waiting[i := None],
         table := if r.ack then Add(s.table, Entry(buf, r.tag)) else s.table, zb := Sending(i, buf))
    case SendAnswer(ok) =>
      var i, buf := s.zb.i, s.zb.buf;
      var r := s.slots[i].value;
      var w := s.(handed := s.handed + [r]);
      if ok then w.(queued := s.queued + {buf}, zb := Unslot(i))
      else if r.ack then w.(table := RemoveAll(s.table, buf), zb := Refused(i, buf))
      else w.(live := s.live - {buf}, frees := s.frees + 1, zb := Unslot(i))
    case SendReport =>
      var i, buf := s.zb.i, s.zb.buf;
      s.(count := s.count - 1, outcomes := s.outcomes + [Outcome(s.slots[i].value.tag, false)],
         live := s.live - {buf}, frees := s.frees + 1, zb := Unslot(i))
    case SendEnd => s.(used := s.used[s.zb.i := false], zb := ZbRest)
    case Done(buf, acked) =>
      var k := FirstWith(s.table, buf);
      var w := s.(queued := s.queued - {buf});
      if k < UCAST_IN_FLIGHT then w.(table := s.table[k := None], zb := Reporting(s.table[k].value, acked))
      else w.(live := s.live - {buf}, frees := s.frees + 1)
    case DoneReport =>
      var e := s.zb.e;
      s.(count := s.count - 1, outcomes := s.outcomes + [Outcome(e.tag, s.zb.acked)],
         live := s.live - {e.buf}, frees := s.frees + 1, zb := ZbRest)
  }

  const BOOT := State(seq(TX_SLOTS, _ => None), seq(TX_SLOTS, _ => false), seq(TX_SLOTS, _ => None),
                      seq(UCAST_IN_FLIGHT, _ => None), 0, 0, AtRest, ZbRest, {}, {}, 0, 0, 0, [], [], [])

  ghost predicate Run(s: State, es: seq<Event>, t: State)
    decreases |es|
  {
    if es == [] then s == t else Enabled(s, es[0]) && Run(Apply(s, es[0]), es[1..], t)
  }

  // ------------------------------------------------------------ invariants

  predicate AtHolds(s: State, i: nat) {
    !s.at.AtRest? && !s.at.Scan? && s.at.i == i
  }

  predicate ZbHolds(s: State, i: nat) {
    (s.zb.Sending? || s.zb.Refused? || s.zb.Unslot?) && s.zb.i == i
  }

  /** A set bit has one reason: a waiting request, or one of the two threads working on the slot. */
  predicate SlotsOwned(s: State) {
    && Shaped(s)
    && (forall i :: 0 <= i < TX_SLOTS ==> (s.used[i] <==> s.waiting[i].Some? || AtHolds(s, i) || ZbHolds(s, i)))
    && (forall i :: 0 <= i < TX_SLOTS && s.waiting[i].Some? ==> !AtHolds(s, i) && !ZbHolds(s, i))
    && (forall i :: 0 <= i < TX_SLOTS && AtHolds(s, i) ==> !ZbHolds(s, i))
    && (!s.at.AtRest? && !s.at.Scan? ==> s.at.i < TX_SLOTS)
    && (s.zb.Sending? || s.zb.Refused? || s.zb.Unslot? ==> s.zb.i < TX_SLOTS)
    && (s.zb.Sending? || s.zb.Refused? ==> s.slots[s.zb.i].Some?)
    && (s.zb.Refused? ==> s.slots[s.zb.i].value.ack)
    && (s.at.Over? ==> s.at.r.ack)
  }

  /** The slot memory still holds the accepted request when its callback comes. */
  predicate SlotsKept(s: State)
    requires Shaped(s)
  {
    forall i :: 0 <= i < TX_SLOTS && s.waiting[i].Some? ==> s.slots[i] == s.waiting[i]
  }

  /** The buffer `tx_send` or `tx_done` is working on. */
  function Current(s: State): set<Buf> {
    match s.zb
    case Sending(_, buf) => {buf}
    case Refused(_, buf) => {buf}
    case Reporting(e, _) => {e.buf}
    case _ => {}
  }

  predicate BuffersOwned(s: State) {
    && s.live == s.queued + Current(s)
    && s.queued * Current(s) == {}
    && s.allocs == s.frees + |s.live|
  }

  /** No two entries share a buffer, and every entry's buffer is with the stack or being sent. */
  predicate TableOwned(s: State)
    requires Shaped(s)
  {
    && (forall j, k :: 0 <= j < k < UCAST_IN_FLIGHT && s.table[j].Some? && s.table[k].Some? ==>
                         s.table[j].value.buf != s.table[k].value.buf)
    && (forall k :: 0 <= k < UCAST_IN_FLIGHT && s.table[k].Some? ==>
                      s.table[k].value.buf in s.queued || (s.zb.Sending? && s.table[k].value.buf == s.zb.buf))
    && (s.zb.Sending? && s.zb.i < TX_SLOTS && s.slots[s.zb.i].Some? ==>
          var r, k := s.slots[s.zb.i].value, FirstWith(s.table, s.zb.buf);
          if r.ack then k < UCAST_IN_FLIGHT && s.table[k] == Some(Entry(s.zb.buf, r.tag)) else k == UCAST_IN_FLIGHT)
  }

  function ReqTags(r: Option<Req>): multiset<Tag> {
    if r.Some? && r.value.ack then multiset{r.value.tag} else multiset{}
  }

  function WaitTags(waiting: seq<Option<Req>>): multiset<Tag> {
    Sum(waiting, ReqTags)
  }

  /** Taken out of the table, not yet reported. */
  function HeldTags(s: State): multiset<Tag> {
    match s.zb
    case Refused(i, _) => if i < |s.slots| then ReqTags(s.slots[i]) else multiset{}
    case Reporting(e, _) => multiset{e.tag}
    case _ => multiset{}
  }

  /** Acknowledged requests accepted and not yet reported. */
  function Outstanding(s: State): multiset<Tag> {
    TableTags(s.table) + WaitTags(s.waiting) + HeldTags(s)
  }

  function AckTags(rs: seq<Req>): multiset<Tag> {
    if rs == [] then multiset{} else AckTags(rs[..|rs| - 1]) + ReqTags(Some(rs[|rs| - 1]))
  }

  function OutTags(os: seq<Outcome>): multiset<Tag> {
    if os == [] then multiset{} else OutTags(os[..|os| - 1]) + multiset{os[|os| - 1].tag}
  }

  predicate CountIs(count: int, outstanding: multiset<Tag>, at: AtPc) {
    var reserved := if (at.Fill? || at.Undo?) && at.r.ack then 1 else 0;
    && count == |outstanding| + reserved + (if at.Over? then 1 else 0)
    && |outstanding| + reserved <= UCAST_IN_FLIGHT
  }

  /**
   The counter: accepted and not yet reported, plus one for a submission that has counted itself;
   without one that is about to be refused, never more than ten.
   */
  predicate Counted(s: State) {
    CountIs(s.count, Outstanding(s), s.at)
  }

  predicate Balance(accepted: seq<Req>, outcomes: seq<Outcome>, outstanding: multiset<Tag>) {
    AckTags(accepted) == OutTags(outcomes) + outstanding
  }

  /** Accepted is reported or outstanding. */
  predicate Conserved(s: State) {
    Balance(s.accepted, s.outcomes, Outstanding(s))
  }

  function Single(r: Option<Req>): multiset<Req> {
    if r.Some? then multiset{r.value} else multiset{}
  }

  /** The request `tx_send` is about to pass on: what the slot holds now. */
  function BeingSent(s: State): multiset<Req>
    requires Shaped(s)
  {
    if s.zb.Sending? && s.zb.i < TX_SLOTS then Single(s.slots[s.zb.i]) else multiset{}
  }

  /** Every accepted request reaches the stack once, as submitted. */
  predicate HandedOver(s: State)
    requires Shaped(s)
  {
    multiset(s.accepted) == multiset(s.handed) + Sum(s.waiting, Single) + BeingSent(s)
  }

  /** Tickets tell the accepted requests apart. */
  predicate Ticketed(s: State) {
    && (forall j, k :: 0 <= j < k < |s.accepted| ==> s.accepted[j].tag.ticket < s.accepted[k].tag.ticket)
    && (forall k :: 0 <= k < |s.accepted| ==> s.accepted[k].tag.ticket < s.tickets)
    && (!s.at.AtRest? ==>
          s.at.r.tag.ticket < s.tickets &&
          forall k :: 0 <= k < |s.accepted| ==> s.accepted[k].tag.ticket < s.at.r.tag.ticket)
  }

  predicate Inv(s: State) {
    && SlotsOwned(s) && SlotsKept(s) && BuffersOwned(s) && TableOwned(s)
    && Counted(s) && Conserved(s) && HandedOver(s) && Ticketed(s)
  }

  // ------------------------------------------------------------ every step keeps them

  lemma ClaimKeepsSlots(s: State, e: Event)
    requires SlotsOwned(s) && SlotsKept(s) && Enabled(s, e)
    requires e.Submit? || e.TestSlot?
    ensures SlotsOwned(Apply(s, e)) && SlotsKept(Apply(s, e))
  {
  }

  lemma CountKeepsSlots(s: State, e: Event)
    requires SlotsOwned(s) && SlotsKept(s) && Enabled(s, e)
    requires e.Increment? || e.Decrement?
    ensures SlotsOwned(Apply(s, e)) && SlotsKept(Apply(s, e))
  {
  }

  lemma ScheduleKeepsSlots(s: State, ok: bool)
    requires SlotsOwned(s) && SlotsKept(s) && Enabled(s, Schedule(ok))
    ensures SlotsOwned(Apply(s, Schedule(ok))) && SlotsKept(Apply(s, Schedule(ok)))
  {
  }

  lemma ClearKeepsSlots(s: State, e: Event)
    requires SlotsOwned(s) && SlotsKept(s) && Enabled(s, e) && (e.ClearSlot? || e.SendEnd?)
    ensures SlotsOwned(Apply(s, e)) && SlotsKept(Apply(s, e))
  {
  }

  lemma SendBeginKeepsSlots(s: State, e: Event)
    requires SlotsOwned(s) && SlotsKept(s) && Enabled(s, e) && e.SendBegin?
    ensures SlotsOwned(Apply(s, e)) && SlotsKept(Apply(s, e))
  {
  }

  lemma SendAnswerKeepsSlots(s: State, e: Event)
    requires SlotsOwned(s) && SlotsKept(s) && Enabled(s, e) && e.SendAnswer?
    ensures SlotsOwned(Apply(s, e)) && SlotsKept(Apply(s, e))
  {
  }

  lemma SendReportKeepsSlots(s: State, e: Event)
    requires SlotsOwned(s) && SlotsKept(s) && Enabled(s, e) && e.SendReport?
    ensures SlotsOwned(Apply(s, e)) && SlotsKept(Apply(s, e))
  {
  }

  lemma DoneKeepsSlots(s: State, e: Event)
    requires SlotsOwned(s) && SlotsKept(s) && Enabled(s, e) && (e.Done? || e.DoneReport?)
    ensures SlotsOwned(Apply(s, e)) && SlotsKept(Apply(s, e))
  {
  }

  lemma StepKeepsSlots(s: State, e: Event)
    requires SlotsOwned(s) && SlotsKept(s) && Enabled(s, e)
    ensures SlotsOwned(Apply(s, e)) && SlotsKept(Apply(s, e))
  {
    match e
    case Schedule(ok) => ScheduleKeepsSlots(s, ok);
    case ClearSlot => ClearKeepsSlots(s, e);
    case SendEnd => ClearKeepsSlots(s, e);
    case SendBegin(_, _) => SendBeginKeepsSlots(s, e);
    case SendAnswer(_) => SendAnswerKeepsSlots(s, e);
    case SendReport => SendReportKeepsSlots(s, e);
    case Done(_, _) => DoneKeepsSlots(s, e);
    case DoneReport => DoneKeepsSlots(s, e);
    case Submit(_, _, _, _) => ClaimKeepsSlots(s, e);
    case TestSlot => ClaimKeepsSlots(s, e);
    case Increment => CountKeepsSlots(s, e);
    case Decrement => CountKeepsSlots(s, e);
  }

  predicate IsAt(e: Event) {
    e.Submit? || e.TestSlot? || e.Increment? || e.Decrement? || e.Schedule? || e.ClearSlot?
  }

  /** What the ZBOSS thread works with is the same in both states. */
  predicate SameZb(s: State, t: State) {
    && Shaped(s) && Shaped(t)
    && t.table == s.table && t.zb == s.zb && t.live == s.live && t.queued == s.queued
    && t.allocs == s.allocs && t.frees == s.frees && t.outcomes == s.outcomes && t.handed == s.handed
    && ((s.zb.Sending? || s.zb.Refused?) && s.zb.i < TX_SLOTS ==> t.slots[s.zb.i] == s.slots[s.zb.i])
  }

  /** Nothing the AT thread does touches table or buffers, nor the slot `tx_send` reads. */
  lemma AtFrame(s: State, e: Event)
    requires SlotsOwned(s) && Enabled(s, e) && IsAt(e)
    ensures SameZb(s, Apply(s, e))
    ensures e != Schedule(true) ==> Apply(s, e).waiting == s.waiting && Apply(s, e).accepted == s.accepted
  {
    if e.Schedule? {
      assert AtHolds(s, s.at.i);
      assert s.zb.Sending? || s.zb.Refused? ==> ZbHolds(s, s.zb.i);
    }
  }

  lemma SameZbKeepsTable(s: State, t: State)
    requires BuffersOwned(s) && Shaped(s) && TableOwned(s) && SameZb(s, t)
    ensures BuffersOwned(t) && TableOwned(t)
  {
    assert Current(t) == Current(s);
  }

  lemma SendBeginKeepsTable(s: State, e: Event)
    requires SlotsOwned(s) && BuffersOwned(s) && TableOwned(s) && Enabled(s, e) && e.SendBegin?
    requires s.slots[e.i].value.ack ==> FirstFree(s.table) < UCAST_IN_FLIGHT
    ensures BuffersOwned(Apply(s, e)) && TableOwned(Apply(s, e))
  {
    var t := Apply(s, e);
    var k := FirstFree(s.table);
    if FirstWith(t.table, e.buf) < UCAST_IN_FLIGHT {
      assert FirstWith(t.table, e.buf) == k;
    }
    assert s.slots[e.i].value.ack ==> Has(t.table[k], e.buf);
  }

  /** With one entry per buffer, the loop after a refusal clears exactly the entry just added. */
  lemma RemoveAllIsOne(s: State)
    requires Shaped(s) && TableOwned(s) && s.zb.Sending? && FirstWith(s.table, s.zb.buf) < UCAST_IN_FLIGHT
    ensures RemoveAll(s.table, s.zb.buf) == s.table[FirstWith(s.table, s.zb.buf) := None]
  {
  }

  lemma SendAnswerKeepsTable(s: State, e: Event)
    requires SlotsOwned(s) && BuffersOwned(s) && TableOwned(s) && Enabled(s, e) && e.SendAnswer?
    ensures BuffersOwned(Apply(s, e)) && TableOwned(Apply(s, e))
  {
    var t := Apply(s, e);
    if !e.ok && s.slots[s.zb.i].value.ack {
      RemoveAllIsOne(s);
    }
  }

  lemma DoneKeepsTable(s: State, e: Event)
    requires SlotsOwned(s) && BuffersOwned(s) && TableOwned(s) && Enabled(s, e) && e.Done?
    ensures BuffersOwned(Apply(s, e)) && TableOwned(Apply(s, e))
  {
    var t := Apply(s, e);
    forall k | 0 <= k < UCAST_IN_FLIGHT && t.table[k].Some?
      ensures t.table[k].value.buf in t.queued
    {
      assert s.table[k] == t.table[k];
      assert FirstWith(s.table, e.buf) < UCAST_IN_FLIGHT ==> k != FirstWith(s.table, e.buf);
    }
  }

  lemma ReportKeepsTable(s: State, e: Event)
    requires SlotsOwned(s) && BuffersOwned(s) && TableOwned(s) && Enabled(s, e)
    requires e.SendReport? || e.SendEnd? || e.DoneReport?
    ensures BuffersOwned(Apply(s, e)) && TableOwned(Apply(s, e))
  {
  }

  // ------------------------------------------------------------ counting

  lemma SameZbKeepsOutstanding(s: State, t: State)
    requires SameZb(s, t) && t.waiting == s.waiting
    requires s.zb.Refused? ==> s.zb.i < TX_SLOTS
    ensures Outstanding(t) == Outstanding(s)
  {
    assert HeldTags(t) == HeldTags(s);
  }

  lemma AtCountIs(s: State, e: Event, out: multiset<Tag>)
    requires SlotsOwned(s) && Enabled(s, e) && IsAt(e) && e != Schedule(true) && CountIs(s.count, out, s.at)
    ensures CountIs(Apply(s, e).count, out, Apply(s, e).at)
  {
  }

  lemma AtKeepsCounts(s: State, e: Event)
    requires SlotsOwned(s) && Counted(s) && Conserved(s) && Enabled(s, e) && IsAt(e) && e != Schedule(true)
    ensures Counted(Apply(s, e)) && Conserved(Apply(s, e))
  {
    AtFrame(s, e);
    SameZbKeepsOutstanding(s, Apply(s, e));
    AtCountIs(s, e, Outstanding(s));
  }

  lemma AckTagsSnoc(rs: seq<Req>, r: Req)
    ensures AckTags(rs + [r]) == AckTags(rs) + ReqTags(Some(r))
  {
    assert (rs + [r])[..|rs|] == rs;
  }

  lemma OutTagsSnoc(os: seq<Outcome>, o: Outcome)
    ensures OutTags(os + [o]) == OutTags(os) + multiset{o.tag}
  {
    assert (os + [o])[..|os|] == os;
  }

  lemma Reordered<T>(a: multiset<T>, b: multiset<T>, c: multiset<T>, x: multiset<T>)
    ensures a + (b + x) + c == a + b + c + x
  {
  }

  lemma ScheduleOutstanding(s: State)
    requires SlotsOwned(s) && Enabled(s, Schedule(true))
    ensures Outstanding(Apply(s, Schedule(true))) == Outstanding(s) + ReqTags(Some(s.at.r))
  {
    var t := Apply(s, Schedule(true));
    var x, i := Some(s.at.r), s.at.i;
    AtFrame(s, Schedule(true));
    assert AtHolds(s, i);
    SumUpdate(s.waiting, ReqTags, i, x);
    assert WaitTags(t.waiting) + multiset{} == WaitTags(s.waiting) + ReqTags(x);
    assert HeldTags(t) == HeldTags(s);
    Reordered(TableTags(s.table), WaitTags(s.waiting), HeldTags(s), ReqTags(x));
  }

  lemma BalanceAccept(accepted: seq<Req>, outcomes: seq<Outcome>, out: multiset<Tag>, r: Req)
    requires Balance(accepted, outcomes, out)
    ensures Balance(accepted + [r], outcomes, out + ReqTags(Some(r)))
  {
    AckTagsSnoc(accepted, r);
    assert OutTags(outcomes) + (out + ReqTags(Some(r))) == OutTags(outcomes) + out + ReqTags(Some(r));
  }

  lemma BalanceReport(accepted: seq<Req>, outcomes: seq<Outcome>, out: multiset<Tag>, o: Outcome)
    requires Balance(accepted, outcomes, out + multiset{o.tag})
    ensures Balance(accepted, outcomes + [o], out)
  {
    OutTagsSnoc(outcomes, o);
    assert OutTags(outcomes) + (out + multiset{o.tag}) == OutTags(outcomes) + multiset{o.tag} + out;
  }

  /** Acceptance: the reserved place becomes a waiting request. */
  lemma ScheduleKeepsCounts(s: State)
    requires SlotsOwned(s) && Counted(s) && Conserved(s) && Enabled(s, Schedule(true))
    ensures Counted(Apply(s, Schedule(true))) && Conserved(Apply(s, Schedule(true)))
  {
    var t := Apply(s, Schedule(true));
    ScheduleOutstanding(s);
    BalanceAccept(s.accepted, s.outcomes, Outstanding(s), s.at.r);
    assert CountIs(s.count, Outstanding(s), s.at) ==> CountIs(t.count, Outstanding(s) + ReqTags(Some(s.at.r)), t.at);
  }

  /** There is room in the table for every waiting request. */
  lemma FreeEntryExists(s: State, i: nat)
    requires Shaped(s) && Counted(s) && i < TX_SLOTS && s.waiting[i].Some? && s.waiting[i].value.ack
    ensures FirstFree(s.table) < UCAST_IN_FLIGHT
  {
    TableTagsSize(s.table);
    SumUpdate(s.waiting, ReqTags, i, None);
    assert |WaitTags(s.waiting)| >= 1;
  }

  lemma SlotToTable(waiting: seq<Option<Req>>, table: seq<Option<Entry>>, i: nat, k: nat, buf: Buf)
    requires i < |waiting| && waiting[i].Some? && waiting[i].value.ack && k < |table| && table[k].None?
    ensures TableTags(table[k := Some(Entry(buf, waiting[i].value.tag))]) + WaitTags(waiting[i := None])
            == TableTags(table) + WaitTags(waiting)
  {
    var tag := waiting[i].value.tag;
    SumUpdate(waiting, ReqTags, i, None);
    SumUpdate(table, One, k, Some(Entry(buf, tag)));
    assert WaitTags(waiting[i := None]) + multiset{tag} == WaitTags(waiting);
    assert TableTags(table[k := Some(Entry(buf, tag))]) == TableTags(table) + multiset{tag};
  }

  /** `tx_send` begins: the waiting request becomes an entry. */
  lemma SendBeginOutstanding(s: State, e: Event)
    requires Shaped(s) && SlotsKept(s) && Counted(s) && Enabled(s, e) && e.SendBegin?
    ensures Outstanding(Apply(s, e)) == Outstanding(s)
  {
    var t := Apply(s, e);
    assert s.slots[e.i] == s.waiting[e.i];
    assert t.zb.Sending? && s.zb.ZbRest?;
    if s.waiting[e.i].value.ack {
      FreeEntryExists(s, e.i);
      SlotToTable(s.waiting, s.table, e.i, FirstFree(s.table), e.buf);
    } else {
      SumUpdate(s.waiting, ReqTags, e.i, None);
      assert WaitTags(t.waiting) == WaitTags(t.waiting) + multiset{}
          == WaitTags(s.waiting) + multiset{} == WaitTags(s.waiting);
    }
  }

  lemma OutstandingMoves(s: State, t: State, k: nat)
    requires Shaped(s) && Shaped(t) && k < UCAST_IN_FLIGHT && t.table == s.table[k := None] && t.waiting == s.waiting
    requires HeldTags(s) == multiset{} && HeldTags(t) == One(s.table[k])
    ensures Outstanding(t) == Outstanding(s)
  {
    SumUpdate(s.table, One, k, None);
    assert TableTags(t.table) + One(s.table[k]) == TableTags(s.table);
  }

  /** A refused send or a callback takes the entry out; it is reported next. */
  lemma RefusalOutstanding(s: State, e: Event)
    requires SlotsOwned(s) && TableOwned(s) && Enabled(s, e) && e.SendAnswer?
    ensures Outstanding(Apply(s, e)) == Outstanding(s)
  {
    var t := Apply(s, e);
    if e.ok || !s.slots[s.zb.i].value.ack {
      assert t.table == s.table && t.waiting == s.waiting && HeldTags(t) == HeldTags(s);
    } else {
      RemoveAllIsOne(s);
      OutstandingMoves(s, t, FirstWith(s.table, s.zb.buf));
    }
  }

  lemma DoneOutstanding(s: State, e: Event)
    requires SlotsOwned(s) && Enabled(s, e) && e.Done?
    ensures Outstanding(Apply(s, e)) == Outstanding(s)
  {
    var t := Apply(s, e);
    var k := FirstWith(s.table, e.buf);
    if k < UCAST_IN_FLIGHT {
      OutstandingMoves(s, t, k);
    } else {
      assert t.table == s.table && t.waiting == s.waiting && HeldTags(t) == HeldTags(s);
    }
  }

  lemma ReportOutstanding(s: State, e: Event)
    requires SlotsOwned(s) && Enabled(s, e) && (e.SendReport? || e.DoneReport?)
    ensures var t := Apply(s, e);
            && |t.outcomes| == |s.outcomes| + 1 && t.outcomes[..|s.outcomes|] == s.outcomes
            && Outstanding(s) == Outstanding(t) + multiset{t.outcomes[|s.outcomes|].tag}
  {
    var t := Apply(s, e);
    assert HeldTags(t) == multiset{} && HeldTags(s) == multiset{t.outcomes[|s.outcomes|].tag};
    assert t.table == s.table && t.waiting == s.waiting;
  }

  lemma ReportKeepsCounts(s: State, e: Event)
    requires SlotsOwned(s) && Counted(s) && Conserved(s) && Enabled(s, e) && (e.SendReport? || e.DoneReport?)
    ensures Counted(Apply(s, e)) && Conserved(Apply(s, e))
  {
    var t := Apply(s, e);
    ReportOutstanding(s, e);
    var o := t.outcomes[|s.outcomes|];
    assert t.outcomes == s.outcomes + [o];
    BalanceReport(s.accepted, s.outcomes, Outstanding(t), o);
  }

  lemma SameOutstanding(s: State, t: State)
    requires Counted(s) && Conserved(s) && Outstanding(t) == Outstanding(s)
    requires t.count == s.count && t.at == s.at && t.accepted == s.accepted && t.outcomes == s.outcomes
    ensures Counted(t) && Conserved(t)
  {
  }

  lemma SendEndOutstanding(s: State, e: Event)
    requires Enabled(s, e) && e.SendEnd?
    ensures Outstanding(Apply(s, e)) == Outstanding(s)
  {
    assert HeldTags(Apply(s, e)) == HeldTags(s);
  }

  /** The ZBOSS thread moves a request from slot to table to report. */
  lemma ZbKeepsOutstanding(s: State, e: Event)
    requires SlotsOwned(s) && SlotsKept(s) && TableOwned(s) && Counted(s) && Enabled(s, e)
    requires e.SendBegin? || e.SendAnswer? || e.Done? || e.SendEnd?
    ensures Outstanding(Apply(s, e)) == Outstanding(s)
  {
    if e.SendBegin? {
      SendBeginOutstanding(s, e);
    } else if e.SendAnswer? {
      RefusalOutstanding(s, e);
    } else if e.Done? {
      DoneOutstanding(s, e);
    } else {
      SendEndOutstanding(s, e);
    }
  }

  lemma ZbFrame(s: State, e: Event)
    requires Enabled(s, e) && (e.SendBegin? || e.SendAnswer? || e.Done? || e.SendEnd?)
    ensures var t := Apply(s, e);
            t.count == s.count && t.at == s.at && t.accepted == s.accepted && t.outcomes == s.outcomes
  {
  }

  lemma ZbKeepsCounts(s: State, e: Event)
    requires SlotsOwned(s) && SlotsKept(s) && TableOwned(s) && Counted(s) && Conserved(s) && Enabled(s, e)
    requires e.SendBegin? || e.SendAnswer? || e.Done? || e.SendEnd?
    ensures Counted(Apply(s, e)) && Conserved(Apply(s, e))
  {
    ZbKeepsOutstanding(s, e);
    ZbFrame(s, e);
    SameOutstanding(s, Apply(s, e));
  }

  lemma StepKeepsCounts(s: State, e: Event)
    requires SlotsOwned(s) && SlotsKept(s) && TableOwned(s) && Counted(s) && Conserved(s) && Enabled(s, e)
    ensures Counted(Apply(s, e)) && Conserved(Apply(s, e))
  {
    if e == Schedule(true) {
      ScheduleKeepsCounts(s);
    } else if IsAt(e) {
      AtKeepsCounts(s, e);
    } else if e.SendReport? || e.DoneReport? {
      ReportKeepsCounts(s, e);
    } else {
      ZbKeepsCounts(s, e);
    }
  }

  lemma StepKeepsTable(s: State, e: Event)
    requires SlotsOwned(s) && SlotsKept(s) && BuffersOwned(s) && TableOwned(s) && Counted(s) && Enabled(s, e)
    ensures BuffersOwned(Apply(s, e)) && TableOwned(Apply(s, e))
  {
    if IsAt(e) {
      AtFrame(s, e);
      SameZbKeepsTable(s, Apply(s, e));
      return;
    }
    if e.SendBegin? {
      if s.slots[e.i].value.ack {
        FreeEntryExists(s, e.i);
      }
      SendBeginKeepsTable(s, e);
      return;
    }
    if e.SendAnswer? {
      SendAnswerKeepsTable(s, e);
      return;
    }
    if e.Done? {
      DoneKeepsTable(s, e);
      return;
    }
    ReportKeepsTable(s, e);
  }

  // ------------------------------------------------------------ requests

  lemma ScheduleKeepsHandedOver(s: State)
    requires SlotsOwned(s) && HandedOver(s) && Enabled(s, Schedule(true))
    ensures HandedOver(Apply(s, Schedule(true)))
  {
    var t := Apply(s, Schedule(true));
    AtFrame(s, Schedule(true));
    assert AtHolds(s, s.at.i);
    OneMoreWaits(s.waiting, s.at.i, s.at.r);
    assert BeingSent(t) == BeingSent(s);
    Reordered(multiset(s.handed), Sum(s.waiting, Single), BeingSent(s), multiset{s.at.r});
  }

  lemma OneMoreWaits(waiting: seq<Option<Req>>, i: nat, r: Req)
    requires i < |waiting| && waiting[i].None?
    ensures Sum(waiting[i := Some(r)], Single) == Sum(waiting, Single) + multiset{r}
  {
    SumUpdate(waiting, Single, i, Some(r));
  }

  lemma SendBeginKeepsHandedOver(s: State, i: nat, buf: Buf)
    requires SlotsOwned(s) && SlotsKept(s) && HandedOver(s) && Enabled(s, SendBegin(i, buf))
    ensures HandedOver(Apply(s, SendBegin(i, buf)))
  {
    var t := Apply(s, SendBegin(i, buf));
    assert BeingSent(t) == Single(s.waiting[i]) && BeingSent(s) == multiset{};
    TakenFromWaiting(s.waiting, i, multiset(s.handed));
  }

  lemma TakenFromWaiting(waiting: seq<Option<Req>>, i: nat, handed: multiset<Req>)
    requires i < |waiting|
    ensures handed + Sum(waiting, Single) + multiset{} == handed + Sum(waiting[i := None], Single) + Single(waiting[i])
  {
    SumUpdate(waiting, Single, i, None);
    Moved(handed, Sum(waiting, Single), Sum(waiting[i := None], Single), Single(waiting[i]));
  }

  lemma Moved<T>(handed: multiset<T>, before: multiset<T>, after: multiset<T>, one: multiset<T>)
    requires after + one == before + multiset{}
    ensures handed + before + multiset{} == handed + after + one
  {
    assert before == after + one;
    assert handed + (after + one) == handed + after + one;
  }

  lemma SendAnswerKeepsHandedOver(s: State, ok: bool)
    requires SlotsOwned(s) && HandedOver(s) && Enabled(s, SendAnswer(ok))
    ensures HandedOver(Apply(s, SendAnswer(ok)))
  {
    var t := Apply(s, SendAnswer(ok));
    assert multiset(t.handed) == multiset(s.handed) + BeingSent(s);
    assert BeingSent(t) == multiset{} && t.waiting == s.waiting && t.accepted == s.accepted;
  }

  lemma OtherKeepsHandedOver(s: State, e: Event)
    requires SlotsOwned(s) && HandedOver(s) && Enabled(s, e)
    requires e != Schedule(true) && !e.SendBegin? && !e.SendAnswer?
    ensures HandedOver(Apply(s, e))
  {
    var t := Apply(s, e);
    if IsAt(e) {
      AtFrame(s, e);
    }
    assert BeingSent(t) == BeingSent(s) && t.waiting == s.waiting && t.accepted == s.accepted && t.handed == s.handed;
  }

  lemma StepKeepsHandedOver(s: State, e: Event)
    requires SlotsOwned(s) && SlotsKept(s) && HandedOver(s) && Enabled(s, e)
    ensures HandedOver(Apply(s, e))
  {
    if e == Schedule(true) {
      ScheduleKeepsHandedOver(s);
      return;
    }
    if e.SendBegin? {
      SendBeginKeepsHandedOver(s, e.i, e.buf);
      return;
    }
    if e.SendAnswer? {
      SendAnswerKeepsHandedOver(s, e.ok);
      return;
    }
    OtherKeepsHandedOver(s, e);
  }

  lemma StepKeepsTickets(s: State, e: Event)
    requires Ticketed(s) && Enabled(s, e)
    ensures Ticketed(Apply(s, e))
  {
    if e.Schedule? {
      ScheduleKeepsTickets(s, e);
    } else {
      SameTickets(s, e);
    }
  }

  lemma ScheduleKeepsTickets(s: State, e: Event)
    requires Ticketed(s) && Enabled(s, e) && e.Schedule?
    ensures Ticketed(Apply(s, e))
  {
  }

  lemma SameTickets(s: State, e: Event)
    requires Ticketed(s) && Enabled(s, e) && !e.Schedule?
    ensures Ticketed(Apply(s, e))
  {
    assert Apply(s, e).accepted == s.accepted && Apply(s, e).tickets >= s.tickets;
  }

  // ------------------------------------------------------------ what follows for every run

  lemma StepKeepsInv(s: State, e: Event)
    requires Inv(s) && Enabled(s, e)
    ensures Inv(Apply(s, e))
  {
    StepKeepsSlots(s, e);
    StepKeepsTable(s, e);
    StepKeepsCounts(s, e);
    StepKeepsHandedOver(s, e);
    StepKeepsTickets(s, e);
  }

  lemma {:induction false} RunKeepsInv(s: State, es: seq<Event>, t: State)
    requires Inv(s) && Run(s, es, t)
    ensures Inv(t)
    decreases |es|
  {
    if es != [] {
      StepKeepsInv(s, es[0]);
      RunKeepsInv(Apply(s, es[0]), es[1..], t);
    }
  }

  lemma {:induction false} SumOfNothing<T, U>(places: seq<T>, f: T -> multiset<U>)
    requires forall k :: 0 <= k < |places| ==> f(places[k]) == multiset{}
    ensures Sum(places, f) == multiset{}
  {
    if places != [] {
      SumOfNothing(places[1..], f);
    }
  }

  lemma BootHolds()
    ensures Inv(BOOT)
  {
    BootBalanced();
    BootIdle();
  }

  lemma BootSums()
    ensures Outstanding(BOOT) == multiset{} && Sum(BOOT.waiting, Single) == multiset{}
  {
    SumOfNothing(BOOT.table, One);
    SumOfNothing(BOOT.waiting, ReqTags);
    SumOfNothing(BOOT.waiting, Single);
  }

  lemma BootBalanced()
    ensures Counted(BOOT) && Conserved(BOOT) && HandedOver(BOOT)
  {
    BootSums();
    assert CountIs(0, multiset{}, AtRest) && Balance([], [], multiset{});
  }

  lemma BootIdle()
    ensures SlotsOwned(BOOT) && SlotsKept(BOOT) && BuffersOwned(BOOT) && TableOwned(BOOT) && Ticketed(BOOT)
  {
  }

  lemma Reachable(es: seq<Event>, t: State)
    requires Run(BOOT, es, t)
    ensures Inv(t)
  {
    BootHolds();
    RunKeepsInv(BOOT, es, t);
  }

  predicate Increasing(rs: seq<Req>) {
    forall j, k :: 0 <= j < k < |rs| ==> rs[j].tag.ticket < rs[k].tag.ticket
  }

  predicate IsAccepted(rs: seq<Req>, tag: Tag) {
    exists k :: 0 <= k < |rs| && rs[k].ack && rs[k].tag == tag
  }

  lemma AcceptedLast(rs: seq<Req>, tag: Tag)
    requires rs != []
    ensures var last := rs[|rs| - 1];
            IsAccepted(rs, tag) <==> IsAccepted(rs[..|rs| - 1], tag) || (last.ack && last.tag == tag)
  {
    var front := rs[..|rs| - 1];
    if IsAccepted(front, tag) {
      var k :| 0 <= k < |front| && front[k].ack && front[k].tag == tag;
      assert rs[k] == front[k];
    }
    if IsAccepted(rs, tag) {
      var k :| 0 <= k < |rs| && rs[k].ack && rs[k].tag == tag;
      assert k < |front| ==> front[k] == rs[k];
    }
  }

  lemma LastIsNew(rs: seq<Req>, tag: Tag)
    requires Increasing(rs) && rs != [] && IsAccepted(rs[..|rs| - 1], tag)
    ensures rs[|rs| - 1].tag != tag
  {
  }

  lemma {:induction false} AckTagsDistinct(rs: seq<Req>, tag: Tag)
    requires Increasing(rs)
    ensures AckTags(rs)[tag] == if IsAccepted(rs, tag) then 1 else 0
  {
    if rs != [] {
      AckTagsDistinct(rs[..|rs| - 1], tag);
      AcceptedLast(rs, tag);
      if IsAccepted(rs[..|rs| - 1], tag) {
        LastIsNew(rs, tag);
      }
    }
  }

  /** Counter and capacity, over every interleaving; so the search of `in_flight_add` never fails. */
  lemma CapacityKept(es: seq<Event>, t: State)
    requires Run(BOOT, es, t)
    ensures |TableTags(t.table)| + |WaitTags(t.waiting)| <= UCAST_IN_FLIGHT
    ensures CountIs(t.count, Outstanding(t), t.at)
    ensures t.at.AtRest? && t.zb.ZbRest? ==> t.count == |TableTags(t.table)| + |WaitTags(t.waiting)|
    ensures forall i: nat, buf: Buf :: Enabled(t, SendBegin(i, buf)) && t.slots[i].value.ack ==>
                                         FirstFree(t.table) < UCAST_IN_FLIGHT
  {
    Reachable(es, t);
    OutstandingSize(t);
    RoomForWaiting(t);
  }

  lemma OutstandingSize(t: State)
    ensures |Outstanding(t)| == |TableTags(t.table)| + |WaitTags(t.waiting)| + |HeldTags(t)|
    ensures t.zb.ZbRest? ==> |HeldTags(t)| == 0
  {
  }

  lemma RoomForWaiting(t: State)
    requires Shaped(t) && Counted(t) && SlotsKept(t)
    ensures forall i: nat, buf: Buf :: Enabled(t, SendBegin(i, buf)) && t.slots[i].value.ack ==>
                                         FirstFree(t.table) < UCAST_IN_FLIGHT
  {
    forall i: nat, buf: Buf | Enabled(t, SendBegin(i, buf)) && t.slots[i].value.ack
      ensures FirstFree(t.table) < UCAST_IN_FLIGHT
    {
      FreeEntryExists(t, i);
    }
  }

  /** A unicast is refused for the limit exactly when ten are outstanding. */
  lemma RefusedExactlyAtTheLimit(es: seq<Event>, t: State)
    requires Run(BOOT, es, t) && Enabled(t, Increment) && t.at.r.ack
    ensures Apply(t, Increment).at.Over? <==> |Outstanding(t)| == UCAST_IN_FLIGHT
  {
    Reachable(es, t);
    assert CountIs(t.count, Outstanding(t), t.at);
  }

  /**
   Outcomes: accepted unicasts are the reported ones, those in the table, those still in a slot and the one
   being released. Each is reported at most once, under its own sequence number; nothing else is reported.
   */
  lemma OutcomeConservation(es: seq<Event>, t: State)
    requires Run(BOOT, es, t)
    ensures AckTags(t.accepted) == OutTags(t.outcomes) + (TableTags(t.table) + WaitTags(t.waiting) + HeldTags(t))
    ensures forall tag :: OutTags(t.outcomes)[tag] <= 1
    ensures forall tag :: tag in OutTags(t.outcomes) ==> IsAccepted(t.accepted, tag)
  {
    Reachable(es, t);
    ReportedAtMostOnce(t);
  }

  lemma ReportedAtMostOnce(t: State)
    requires Conserved(t) && Increasing(t.accepted)
    ensures forall tag :: OutTags(t.outcomes)[tag] <= if IsAccepted(t.accepted, tag) then 1 else 0
  {
    forall tag: Tag
      ensures OutTags(t.outcomes)[tag] <= if IsAccepted(t.accepted, tag) then 1 else 0
    {
      AckTagsDistinct(t.accepted, tag);
      assert AckTags(t.accepted)[tag] == OutTags(t.outcomes)[tag] + Outstanding(t)[tag];
    }
  }

  /** `tx_send` hands the stack every accepted request once, as it was submitted. */
  lemma RequestsHandedOver(es: seq<Event>, t: State)
    requires Run(BOOT, es, t)
    ensures Shaped(t)
    ensures multiset(t.accepted) == multiset(t.handed) + Sum(t.waiting, Single) + BeingSent(t)
    ensures forall i :: 0 <= i < TX_SLOTS && t.waiting[i].Some? ==> t.slots[i] == t.waiting[i]
  {
    Reachable(es, t);
  }

  /** Buffers: given out is freed plus live, and only a live buffer is ever freed or waited for. */
  lemma BuffersFreedOnce(es: seq<Event>, t: State)
    requires Run(BOOT, es, t)
    ensures t.allocs == t.frees + |t.live|
    ensures t.live == t.queued + Current(t) && t.queued * Current(t) == {}
    ensures Shaped(t) && forall k :: 0 <= k < UCAST_IN_FLIGHT && t.table[k].Some? ==> t.table[k].value.buf in t.live
  {
    Reachable(es, t);
  }

  /**
   Once every callback has come, everything accepted is reported and nothing leaks: table, counter, slots,
   buffers.
   */
  lemma QuietMeansSettled(es: seq<Event>, t: State)
    requires Run(BOOT, es, t)
    requires t.at.AtRest? && t.zb.ZbRest? && t.queued == {} && forall i :: 0 <= i < |t.waiting| ==> t.waiting[i].None?
    ensures AckTags(t.accepted) == OutTags(t.outcomes) && multiset(t.accepted) == multiset(t.handed)
    ensures t.count == 0 && t.live == {} && t.allocs == t.frees
    ensures forall i :: 0 <= i < |t.used| ==> !t.used[i]
  {
    Reachable(es, t);
    NothingOutstanding(t);
  }

  lemma NothingOutstanding(t: State)
    requires Shaped(t) && TableOwned(t) && t.zb.ZbRest? && t.queued == {}
    requires forall i :: 0 <= i < |t.waiting| ==> t.waiting[i].None?
    ensures Outstanding(t) == multiset{} && Sum(t.waiting, Single) == multiset{}
  {
    SumOfNothing(t.table, One);
    SumOfNothing(t.waiting, ReqTags);
    SumOfNothing(t.waiting, Single);
  }

  // ------------------------------------------------------------ both threads come to rest

  /** The next step of the AT thread inside `submit`; `ok` is the answer if it asks for a buffer. */
  function NextAt(s: State, ok: bool): Event {
    match s.at
    case Scan(_, _) => TestSlot
    case Claimed(_, _) => Increment
    case Fill(_, _) => Schedule(ok)
    case Drop(_, _) => ClearSlot
    case _ => Decrement
  }

  /** The next step of the ZBOSS thread inside a callback; `ok` is the stack's answer if it asks. */
  function NextZb(s: State, ok: bool): Event {
    match s.zb
    case Sending(_, _) => SendAnswer(ok)
    case Refused(_, _) => SendReport
    case Unslot(_) => SendEnd
    case _ => DoneReport
  }

  function AtLeft(at: AtPc): nat {
    match at
    case AtRest => 0
    case Scan(_, i) => 5 + if i < TX_SLOTS then TX_SLOTS - i else 0
    case Claimed(_, _) => 4
    case Fill(_, _) => 3
    case Drop(_, _) => 1
    case _ => 2
  }

  function ZbLeft(zb: ZbPc): nat {
    match zb
    case ZbRest => 0
    case Sending(_, _) => 3
    case Refused(_, _) => 2
    case _ => 1
  }

  /**
   Whatever is answered, in every run: a thread inside `submit` or a callback has a step, each such step brings its
   end nearer, and no step of the other thread takes it away again.
   */
  lemma ThreadsEnd(es: seq<Event>, t: State, ok: bool)
    requires Run(BOOT, es, t)
    ensures !t.at.AtRest? ==> Enabled(t, NextAt(t, ok)) && AtLeft(Apply(t, NextAt(t, ok)).at) < AtLeft(t.at)
    ensures !t.zb.ZbRest? ==> Enabled(t, NextZb(t, ok)) && ZbLeft(Apply(t, NextZb(t, ok)).zb) < ZbLeft(t.zb)
    ensures !t.at.AtRest? && Enabled(t, NextAt(t, ok)) ==> Apply(t, NextAt(t, ok)).zb == t.zb
    ensures !t.zb.ZbRest? && Enabled(t, NextZb(t, ok)) ==> Apply(t, NextZb(t, ok)).at == t.at
  {
    Reachable(es, t);
    if !t.at.AtRest? {
      AtMoves(t, ok);
    }
    if !t.zb.ZbRest? {
      ZbMoves(t, ok);
    }
  }

  lemma AtMoves(s: State, ok: bool)
    requires SlotsOwned(s) && !s.at.AtRest?
    ensures Enabled(s, NextAt(s, ok)) && AtLeft(Apply(s, NextAt(s, ok)).at) < AtLeft(s.at)
    ensures Apply(s, NextAt(s, ok)).zb == s.zb
  {
  }

  lemma ZbMoves(s: State, ok: bool)
    requires SlotsOwned(s) && !s.zb.ZbRest?
    ensures Enabled(s, NextZb(s, ok)) && ZbLeft(Apply(s, NextZb(s, ok)).zb) < ZbLeft(s.zb)
    ensures Apply(s, NextZb(s, ok)).at == s.at
  {
  }

  // ------------------------------------------------------------ what is accepted, from the events alone

  /** The submissions of a history: the last one, those answered AT_OK, how many in all and with acknowledgement. */
  datatype Desk = Desk(last: Option<Req>, accepted: seq<Req>, tickets: nat, acked: nat)

  function Serve(d: Desk, e: Event): Desk {
    match e
    case Submit(ack, quiet, route, data) =>
      var r := Req(Tag(d.tickets, if ack then d.acked % 256 else 0, quiet), ack, route, data);
      Desk(Some(r), d.accepted, d.tickets + 1, if ack then d.acked + 1 else d.acked)
    case Schedule(ok) => if ok && d.last.Some? then d.(accepted := d.accepted + [d.last.value]) else d
    case _ => d
  }

  function Served(d: Desk, es: seq<Event>): Desk
    decreases |es|
  {
    if es == [] then d else Served(Serve(d, es[0]), es[1..])
  }

  predicate DeskFits(s: State, d: Desk) {
    && s.accepted == d.accepted && s.tickets == d.tickets && s.nextSeq == d.acked % 256
    && (!s.at.AtRest? ==> d.last == Some(s.at.r))
  }

  lemma StepFitsDesk(s: State, d: Desk, e: Event)
    requires DeskFits(s, d) && Enabled(s, e)
    ensures DeskFits(Apply(s, e), Serve(d, e))
  {
  }

  lemma {:induction false} RunFitsDesk(s: State, d: Desk, es: seq<Event>, t: State)
    requires DeskFits(s, d) && Run(s, es, t)
    ensures DeskFits(t, Served(d, es))
    decreases |es|
  {
    if es != [] {
      StepFitsDesk(s, d, es[0]);
      RunFitsDesk(Apply(s, es[0]), Serve(d, es[0]), es[1..], t);
    }
  }

  const NOBODY := Desk(None, [], 0, 0)

  /**
   What is accepted is what was submitted, with its route, data and flags; the sequence numbers count the
   acknowledged submissions, refused ones included, modulo 256.
   */
  lemma AcceptedAsSubmitted(es: seq<Event>, t: State)
    requires Run(BOOT, es, t)
    ensures t.accepted == Served(NOBODY, es).accepted && t.nextSeq == Served(NOBODY, es).acked % 256
  {
    RunFitsDesk(BOOT, NOBODY, es, t);
  }

  // ------------------------------------------------------------ verdicts, from the events alone

  /**
   What the stack was told and what it answered: the buffer being sent, the requests queued by buffer, how many
   were handed over, and the verdicts so far.
   */
  datatype Clerk = Clerk(buf: Buf, sent: map<Buf, Req>, n: nat, told: seq<Outcome>)

  /** `handed`: the requests in the order in which they were passed to the stack. */
  function Tell(c: Clerk, e: Event, handed: seq<Req>): Clerk {
    match e
    case SendBegin(_, buf) => c.(buf := buf)
    case SendAnswer(ok) =>
      if c.n >= |handed| then c
      else
        var r := handed[c.n];
        if ok then c.(sent := c.sent[c.buf := r], n := c.n + 1)
        else c.(told := if r.ack then c.told + [Outcome(r.tag, false)] else c.told, n := c.n + 1)
    case Done(buf, acked) =>
      if buf in c.sent && c.sent[buf].ack then c.(told := c.told + [Outcome(c.sent[buf].tag, acked)]) else c
    case _ => c
  }

  function Told(c: Clerk, es: seq<Event>, handed: seq<Req>): Clerk
    decreases |es|
  {
    if es == [] then c else Told(Tell(c, es[0], handed), es[1..], handed)
  }

  /** Taken out of the table, not yet reported. */
  function Due(s: State): seq<Outcome> {
    match s.zb
    case Refused(i, _) => if i < |s.slots| && s.slots[i].Some? then [Outcome(s.slots[i].value.tag, false)] else []
    case Reporting(e, acked) => [Outcome(e.tag, acked)]
    case _ => []
  }

  /** The table has this request's tag under this buffer, if it wants an acknowledgement, and else nothing. */
  predicate Listed(table: seq<Option<Entry>>, buf: Buf, r: Req) {
    && (r.ack <==> exists k :: 0 <= k < |table| && Has(table[k], buf))
    && forall k :: 0 <= k < |table| && Has(table[k], buf) ==> table[k].value.tag == r.tag
  }

  predicate ClerkFits(s: State, c: Clerk) {
    && c.n == |s.handed|
    && s.outcomes + Due(s) == c.told
    && (s.zb.Sending? ==> c.buf == s.zb.buf)
    && (forall buf :: buf in s.queued ==> buf in c.sent && Listed(s.table, buf, c.sent[buf]))
  }

  /** Entries of other buffers are the same. */
  predicate SameFor(a: seq<Option<Entry>>, b: seq<Option<Entry>>, buf: Buf) {
    |a| == |b| && forall k :: 0 <= k < |a| && (Has(a[k], buf) || Has(b[k], buf)) ==> a[k] == b[k]
  }

  lemma SameListed(a: seq<Option<Entry>>, b: seq<Option<Entry>>, buf: Buf, r: Req)
    requires SameFor(a, b, buf) && Listed(a, buf, r)
    ensures Listed(b, buf, r)
  {
    if r.ack {
      var k :| 0 <= k < |a| && Has(a[k], buf);
      assert Has(b[k], buf);
    }
  }

  lemma BeginFitsClerk(s: State, c: Clerk, i: nat, buf: Buf, handed: seq<Req>)
    requires BuffersOwned(s) && ClerkFits(s, c) && Enabled(s, SendBegin(i, buf))
    ensures ClerkFits(Apply(s, SendBegin(i, buf)), Tell(c, SendBegin(i, buf), handed))
  {
    var r, added := s.slots[i].value, Add(s.table, Entry(buf, s.slots[i].value.tag));
    forall b | b in s.queued ensures Listed(added, b, c.sent[b]) {
      AddedSame(s.table, Entry(buf, r.tag), b);
      SameListed(s.table, added, b, c.sent[b]);
    }
  }

  lemma AddedSame(table: seq<Option<Entry>>, e: Entry, b: Buf)
    requires e.buf != b
    ensures SameFor(table, Add(table, e), b)
  {
  }

  lemma RemovedSame(table: seq<Option<Entry>>, buf: Buf, b: Buf)
    requires buf != b
    ensures SameFor(table, RemoveAll(table, buf), b)
  {
  }

  lemma SendingListed(s: State)
    requires SlotsOwned(s) && TableOwned(s) && s.zb.Sending?
    ensures Listed(s.table, s.zb.buf, s.slots[s.zb.i].value)
  {
    var k := FirstWith(s.table, s.zb.buf);
    if k < UCAST_IN_FLIGHT {
      assert Has(s.table[k], s.zb.buf);
    }
  }

  lemma AnswerFitsClerk(s: State, c: Clerk, ok: bool, handed: seq<Req>)
    requires SlotsOwned(s) && TableOwned(s) && BuffersOwned(s) && ClerkFits(s, c) && Enabled(s, SendAnswer(ok))
    requires s.handed + [s.slots[s.zb.i].value] <= handed
    ensures ClerkFits(Apply(s, SendAnswer(ok)), Tell(c, SendAnswer(ok), handed))
  {
    var r, removed := s.slots[s.zb.i].value, RemoveAll(s.table, s.zb.buf);
    assert handed[c.n] == (s.handed + [r])[c.n] == r;
    SendingListed(s);
    forall b | b in s.queued ensures b != s.zb.buf && Listed(removed, b, c.sent[b]) {
      RemovedSame(s.table, s.zb.buf, b);
      SameListed(s.table, removed, b, c.sent[b]);
    }
    Streams.Nothing(s.outcomes);
  }

  lemma DoneFitsClerk(s: State, c: Clerk, buf: Buf, acked: bool, handed: seq<Req>)
    requires ClerkFits(s, c) && Enabled(s, Done(buf, acked))
    ensures ClerkFits(Apply(s, Done(buf, acked)), Tell(c, Done(buf, acked), handed))
  {
    var k := FirstWith(s.table, buf);
    FoundIsListed(s.table, buf, c.sent[buf]);
    if k < UCAST_IN_FLIGHT {
      var taken := s.table[k := None];
      forall b | b in s.queued - {buf} ensures Listed(taken, b, c.sent[b]) {
        TakenSame(s.table, buf, b);
        SameListed(s.table, taken, b, c.sent[b]);
      }
    }
    Streams.Nothing(s.outcomes);
  }

  lemma FoundIsListed(table: seq<Option<Entry>>, buf: Buf, r: Req)
    requires Listed(table, buf, r)
    ensures var k := FirstWith(table, buf);
            (k < |table| <==> r.ack) && (k < |table| ==> table[k] == Some(Entry(buf, r.tag)))
  {
    var k := FirstWith(table, buf);
    if k < |table| {
      assert Has(table[k], buf);
    }
  }

  lemma TakenSame(table: seq<Option<Entry>>, buf: Buf, b: Buf)
    requires buf != b && FirstWith(table, buf) < |table|
    ensures SameFor(table, table[FirstWith(table, buf) := None], b)
  {
  }

  lemma ReportFitsClerk(s: State, c: Clerk, e: Event, handed: seq<Req>)
    requires SlotsOwned(s) && ClerkFits(s, c) && Enabled(s, e) && (e.SendReport? || e.DoneReport? || e.SendEnd?)
    ensures ClerkFits(Apply(s, e), Tell(c, e, handed))
  {
    Streams.Nothing(s.outcomes + Due(s));
  }

  /** The AT thread touches no slot the ZBOSS thread works on. */
  lemma AtFitsClerk(s: State, c: Clerk, e: Event, handed: seq<Req>)
    requires SlotsOwned(s) && ClerkFits(s, c) && Enabled(s, e) && IsAt(e)
    ensures ClerkFits(Apply(s, e), Tell(c, e, handed))
  {
    if e.Schedule? {
      assert AtHolds(s, s.at.i) && !ZbHolds(s, s.at.i);
    }
    assert Due(Apply(s, e)) == Due(s);
  }

  lemma StepFitsClerk(s: State, c: Clerk, e: Event, handed: seq<Req>)
    requires SlotsOwned(s) && TableOwned(s) && BuffersOwned(s)
    requires ClerkFits(s, c) && Enabled(s, e) && Apply(s, e).handed <= handed
    ensures ClerkFits(Apply(s, e), Tell(c, e, handed))
  {
    if IsAt(e) {
      AtFitsClerk(s, c, e, handed);
    } else if e.SendBegin? {
      BeginFitsClerk(s, c, e.i, e.buf, handed);
    } else if e.SendAnswer? {
      AnswerFitsClerk(s, c, e.ok, handed);
    } else if e.Done? {
      DoneFitsClerk(s, c, e.buf, e.acked, handed);
    } else {
      ReportFitsClerk(s, c, e, handed);
    }
  }

  lemma {:induction false} HandedGrows(s: State, es: seq<Event>, t: State)
    requires Run(s, es, t)
    ensures s.handed <= t.handed
    decreases |es|
  {
    if es != [] {
      HandedGrows(Apply(s, es[0]), es[1..], t);
    }
  }

  lemma {:induction false} RunFitsClerk(s: State, c: Clerk, es: seq<Event>, t: State)
    requires Inv(s) && ClerkFits(s, c) && Run(s, es, t)
    ensures ClerkFits(t, Told(c, es, t.handed))
    decreases |es|
  {
    if es != [] {
      HandedGrows(Apply(s, es[0]), es[1..], t);
      StepFitsClerk(s, c, es[0], t.handed);
      StepKeepsInv(s, es[0]);
      RunFitsClerk(Apply(s, es[0]), Tell(c, es[0], t.handed), es[1..], t);
    }
  }

  const UNTOLD := Clerk(0, map[], 0, [])

  /**
   Every verdict is the one of its own callback: over every run, what is reported is, in order, a failure for each
   acknowledged request the stack refused, and for each `tx_done` the tag of the request that was queued with its
   buffer and the status that came with it; only the report of a callback still under way may be missing.
   */
  lemma VerdictsAsAnswered(es: seq<Event>, t: State)
    requires Run(BOOT, es, t)
    ensures t.outcomes + Due(t) == Told(UNTOLD, es, t.handed).told
    ensures t.zb.ZbRest? ==> t.outcomes == Told(UNTOLD, es, t.handed).told
  {
    BootHolds();
    RunFitsClerk(BOOT, UNTOLD, es, t);
    Streams.Nothing(t.outcomes);
  }

  // ------------------------------------------------------------ whole callbacks

  /** What `tx_send` and `tx_done` change besides the slots. */
  datatype Books = Books(table: seq<Option<Entry>>, count: int, outcomes: seq<Outcome>, frees: nat)

  function BooksOf(s: State): Books {
    Books(s.table, s.count, s.outcomes, s.frees)
  }

  /** `tx_done` without interruption. */
  function AfterDone(b: Books, buf: Buf, acked: bool): Books {
    var k := FirstWith(b.table, buf);
    if k < |b.table|
    then Books(b.table[k := None], b.count - 1, b.outcomes + [Outcome(b.table[k].value.tag, acked)], b.frees + 1)
    else b.(frees := b.frees + 1)
  }

  /** `tx_send` without interruption; `ok` is the stack's answer. */
  function AfterSend(b: Books, r: Req, buf: Buf, ok: bool): Books {
    var added := if r.ack then Add(b.table, Entry(buf, r.tag)) else b.table;
    if ok then b.(table := added)
    else if r.ack then Books(RemoveAll(added, buf), b.count - 1, b.outcomes + [Outcome(r.tag, false)], b.frees + 1)
    else b.(frees := b.frees + 1)
  }

  /** The steps of `tx_done` in a run are the whole callback. */
  lemma DoneSteps(s: State, buf: Buf, acked: bool)
    requires Enabled(s, Done(buf, acked))
    ensures var t := Apply(s, Done(buf, acked));
            && (t.zb.Reporting? || t.zb.ZbRest?)
            && (var u := if t.zb.Reporting? then Apply(t, DoneReport) else t;
                u.zb.ZbRest? && BooksOf(u) == AfterDone(BooksOf(s), buf, acked))
  {
  }

  /** And so are those of `tx_send`. */
  lemma SendSteps(s: State, i: nat, buf: Buf, ok: bool)
    requires Enabled(s, SendBegin(i, buf))
    ensures var asked := Apply(Apply(s, SendBegin(i, buf)), SendAnswer(ok));
            && (asked.zb.Refused? <==> s.slots[i].value.ack && !ok)
            && (var told := if asked.zb.Refused? then Apply(asked, SendReport) else asked;
                && told.zb == Unslot(i)
                && (var t := Apply(told, SendEnd);
                    && t.zb.ZbRest? && t.used == s.used[i := false]
                    && BooksOf(t) == AfterSend(BooksOf(s), s.slots[i].value, buf, ok)))
  {
  }

  // ------------------------------------------------------------ the code

  /** The statics of zb_msg.c with the loops over them. */
  class Accounts {
    const slots: array<Option<Req>>
    const used: array<bool>
    const inFlight: array<Option<Entry>>
    var count: int
    /** Calls of `report` and of `zb_buf_free`. */
    var outcomes: seq<Outcome>
    var frees: nat

    ghost function View(): Books
      reads this, inFlight
    {
      Books(inFlight[..], count, outcomes, frees)
    }

    ghost predicate Valid()
      reads this
    {
      slots.Length == TX_SLOTS && used.Length == TX_SLOTS && inFlight.Length == UCAST_IN_FLIGHT
    }

    constructor ()
      ensures Valid() && fresh(slots) && fresh(used) && fresh(inFlight) && count == 0
      ensures slots[..] == BOOT.slots && used[..] == BOOT.used && inFlight[..] == BOOT.table
    {
      slots := new Option<Req>[TX_SLOTS](_ => None);
      used := new bool[TX_SLOTS](_ => false);
      inFlight := new Option<Entry>[UCAST_IN_FLIGHT](_ => None);
      count, outcomes, frees := 0, [], 0;
    }

    /** `in_flight_add`. */
    method InFlightAdd(buf: Buf, r: Req)
      requires Valid()
      modifies inFlight
      ensures inFlight[..] == Add(old(inFlight[..]), Entry(buf, r.tag))
    {
      for i := 0 to UCAST_IN_FLIGHT
        invariant inFlight[..] == old(inFlight[..])
        invariant forall j :: 0 <= j < i ==> inFlight[j].Some?
      {
        if inFlight[i].None? {
          inFlight[i] := Some(Entry(buf, r.tag));
          assert FirstFree(old(inFlight[..])) == i;
          return;
        }
      }
    }

    /** The search loop of `tx_done`: frees and returns the entry of this buffer, if there is one. */
    method TakeEntry(buf: Buf) returns (e: Option<Entry>)
      requires Valid()
      modifies inFlight
      ensures var k := FirstWith(old(inFlight[..]), buf);
              if k < UCAST_IN_FLIGHT
              then e == old(inFlight[..])[k] && inFlight[..] == old(inFlight[..])[k := None]
              else e == None && inFlight[..] == old(inFlight[..])
    {
      for i := 0 to UCAST_IN_FLIGHT
        invariant inFlight[..] == old(inFlight[..])
        invariant forall j :: 0 <= j < i ==> !Has(inFlight[j], buf)
      {
        if inFlight[i].Some? && inFlight[i].value.buf == buf {
          e := inFlight[i];
          inFlight[i] := None;
          assert FirstWith(old(inFlight[..]), buf) == i;
          return;
        }
      }
      e := None;
    }

    /** The loop of `tx_send` after a refusal: it does not stop at the first entry. */
    method DropEntries(buf: Buf)
      requires Valid()
      modifies inFlight
      ensures inFlight[..] == RemoveAll(old(inFlight[..]), buf)
    {
      for i := 0 to UCAST_IN_FLIGHT
        invariant forall j :: 0 <= j < i ==>
                                inFlight[j] == if Has(old(inFlight[j]), buf) then None else old(inFlight[j])
        invariant forall j :: i <= j < UCAST_IN_FLIGHT ==> inFlight[j] == old(inFlight[j])
      {
        if inFlight[i].Some? && inFlight[i].value.buf == buf {
          inFlight[i] := None;
        }
      }
    }

    /** `tx_done`. */
    method TxDone(buf: Buf, acked: bool)
      requires Valid()
      modifies this, inFlight
      ensures Valid() && View() == AfterDone(old(View()), buf, acked)
    {
      var e := TakeEntry(buf);
      if e.Some? {
        count := count - 1;
        outcomes := outcomes + [Outcome(e.value.tag, acked)];
      }
      frees := frees + 1;
    }

    /** `tx_send` for a slot that holds a request. */
    method TxSend(buf: Buf, i: nat, ok: bool)
      requires Valid() && i < TX_SLOTS && slots[i].Some?
      modifies this, inFlight, used
      ensures Valid() && View() == AfterSend(old(View()), slots[i].value, buf, ok)
      ensures used[..] == old(used[..])[i := false]
    {
      var r := slots[i].value;
      if r.ack {
        InFlightAdd(buf, r);
      }
      if !ok {
        if r.ack {
          DropEntries(buf);
          count := count - 1;
          outcomes := outcomes + [Outcome(r.tag, false)];
        }
        frees := frees + 1;
      }
      used[i] := false;
    }

    /** The slot loop of `submit`: the first clear bit is set. */
    method ClaimSlot() returns (slot: Option<nat>)
      requires Valid()
      modifies used
      ensures slot.None? <==> forall i :: 0 <= i < TX_SLOTS ==> old(used[i])
      ensures slot.Some? ==>
                && slot.value < TX_SLOTS && !old(used[slot.value])
                && (forall i :: 0 <= i < slot.value ==> old(used[i]))
                && used[..] == old(used[..])[slot.value := true]
      ensures slot.None? ==> used[..] == old(used[..])
    {
      for i := 0 to TX_SLOTS
        invariant used[..] == old(used[..])
        invariant forall j :: 0 <= j < i ==> used[j]
      {
        if !used[i] {
          used[i] := true;
          return Some(i);
        }
      }
      slot := None;
    }

    /** `submit`, with nothing of the other thread in between: every refusal leaves counter and slots as they were. */
    method SubmitReq(r: Req, ok: bool) returns (err: Refusal)
      requires Valid()
      modifies `count, slots, used
      ensures Valid()
      ensures err == if forall i :: 0 <= i < TX_SLOTS ==> old(used[i]) then NoBuffers
                     else if r.ack && old(count) >= UCAST_IN_FLIGHT then TooMany
                     else if !ok then NoBuffers else Accepted
      ensures err != Accepted ==> count == old(count) && used[..] == old(used[..])
      ensures forall j :: 0 <= j < TX_SLOTS && old(used[j]) ==> slots[j] == old(slots[j])
      ensures err == Accepted ==>
                && count == old(count) + (if r.ack then 1 else 0)
                && exists i :: 0 <= i < TX_SLOTS && !old(used[i]) && slots[i] == Some(r) &&
                               used[..] == old(used[..])[i := true] &&
                               forall j :: 0 <= j < TX_SLOTS && j != i ==> slots[j] == old(slots[j])
    {
      var slot := ClaimSlot();
      if slot.None? {
        return NoBuffers;
      }
      var i := slot.value;
      if r.ack {
        var before := count;
        count := count + 1;
        if before >= UCAST_IN_FLIGHT {
          count := count - 1;
          used[i] := false;
          assert used[..] == old(used[..]);
          return TooMany;
        }
      }
      slots[i] := Some(r);
      if !ok {
        if r.ack {
          count := count - 1;
        }
        used[i] := false;
        assert used[..] == old(used[..]);
        return NoBuffers;
      }
      return Accepted;
    }
  }

  /** AT_ERR_NO_BUFFERS, AT_ERR_TOO_MANY_UCAST, AT_OK. */
  datatype Refusal = NoBuffers | TooMany | Accepted
}
