/** Network control by effect, over every run. */
module NetworkRuns {
  import opened Wrappers
  import opened AtResults
  import opened AtFmt
  import opened CText
  import opened Network
  import opened Settings
  import opened Streams

  // ------------------------------------------------------------ signals

  /** With this signal a network is up: an own one after a reset, a formed one, or one joined or rejoined. */
  predicate Up(role: Role, op: Op, sig: Signal) {
    match sig
    case Reboot(ok, _) => ok
    case Formation(ok, _) => ok
    case Steering(ok, joined, running) => running != ZC && ok && joined && (op == OpJoin || role != NoRole)
    case _ => false
  }

  /** With this one no network is left: a start nobody asked for, a join undone, or a leave for good. */
  predicate Lost(op: Op, sig: Signal) {
    || (sig.FirstStart? && !InPan(op))
    || (sig.Leave? && op == OpJoin)
    || (sig.Leave? && op == OpNone && sig.ok && !sig.rejoin)
  }

  function RoleThen(role: Role, op: Op, sig: Signal): Role {
    if Up(role, op, sig) then sig.role else if Lost(op, sig) then NoRole else role
  }

  /** The result an operation ends with, if this signal ends it. */
  function Verdict(op: Op, sig: Signal): Option<int> {
    match op
    case OpNone => None
    case OpForm =>
      if sig.Formation? then Some(if sig.ok then AT_OK else AT_ERR_CANNOT_FORM)
      else if sig.FirstStart? && !(sig.ok && sig.commissioning) then Some(AT_ERR_CANNOT_FORM)
      else None
    case OpJoin =>
      if sig.Formation? then Some(if sig.ok then AT_OK else AT_ERR_CANNOT_FORM)
      else if sig.Steering? && sig.role != ZC then Some(if sig.ok && sig.joined then AT_OK else AT_ERR_CANNOT_JOIN)
      else if sig.Leave? || (sig.FirstStart? && !(sig.ok && sig.commissioning)) then Some(AT_ERR_CANNOT_JOIN)
      else None
    case _ =>
      if sig.Formation? then Some(if sig.ok then AT_OK else AT_ERR_CANNOT_FORM)
      else if sig.Leave? then Some(AT_OK)
      else None
  }

  /** What a network that is up adds: TX power first, JPAN last, and the legacy Trust Centre for a coordinator only. */
  predicate Welcomed(role: Role, calls: seq<UpCall>) {
    && (LegacyTc in calls <==> role == ZC) && |calls| == (if LegacyTc in calls then 4 else 3)
    && calls[0] == TxPower && calls[|calls| - 2] == JoinPolicy && calls[|calls| - 1] == PrintJpan
  }

  /** The operation ends with its verdict, or goes on. */
  predicate Judged(c: Core, d: Core, verdict: Option<int>) {
    match verdict
    case Some(result) => d.op == OpNone && d.opResult == result && d.token
    case None => d.op == c.op && d.opResult == c.opResult && d.token == c.token
  }

  /** Every signal, at every moment of every run. */
  predicate Effects(c: Core, d: Core, sig: Signal) {
    && d.storedRole == d.flashRole == RoleThen(c.storedRole, c.op, sig)
    && c.ups <= d.ups
    && (if Up(c.storedRole, c.op, sig) then Welcomed(sig.role, d.ups[|c.ups|..]) else d.ups == c.ups)
    && Judged(c, d, Verdict(c.op, sig))
    && (d.rebootDue <==> c.rebootDue || (c.op == OpNone && c.storedRole != NoRole && sig.Leave? && Lost(c.op, sig)))
    && d.started && d.calls == c.calls && d.erased == c.erased && d.flashPend == c.flashPend
  }

  lemma UpWelcomes(c: Core, role: Running)
    requires c.storedRole == c.flashRole
    ensures var d := NetworkUp(c, role);
            && d == c.(storedRole := role, flashRole := role, ups := d.ups)
            && c.ups <= d.ups && Welcomed(role, d.ups[|c.ups|..])
  {
    CutBehind(c.ups, UpCalls(role));
  }

  lemma CoreEffects(c: Core, sig: Signal)
    requires UpCore(c) && c.started && (sig.Reboot? ==> !c.erased)
    ensures Effects(c, OnSignal(c, sig), sig)
  {
    match sig
    case FirstStart(_, _) => FirstStartEffects(c, sig);
    case Reboot(_, _) => RebootEffects(c, sig);
    case Formation(_, _) => FormationEffects(c, sig);
    case Steering(_, _, _) => SteeringEffects(c, sig);
    case Leave(_, _) => LeaveEffects(c, sig);
  }

  lemma FirstStartEffects(c: Core, sig: Signal)
    requires UpCore(c) && c.started && sig.FirstStart?
    ensures Effects(c, OnSignal(c, sig), sig)
  {
  }

  lemma RebootEffects(c: Core, sig: Signal)
    requires UpCore(c) && c.started && sig.Reboot?
    ensures Effects(c, OnSignal(c, sig), sig)
  {
    UpWelcomes(c, sig.role);
  }

  lemma FormationEffects(c: Core, sig: Signal)
    requires UpCore(c) && c.started && sig.Formation?
    ensures Effects(c, OnSignal(c, sig), sig)
  {
    UpWelcomes(c, sig.role);
  }

  lemma SteeringEffects(c: Core, sig: Signal)
    requires UpCore(c) && c.started && sig.Steering?
    ensures Effects(c, OnSignal(c, sig), sig)
  {
    UpWelcomes(c, sig.role);
  }

  lemma LeaveEffects(c: Core, sig: Signal)
    requires UpCore(c) && c.started && sig.Leave?
    ensures Effects(c, OnSignal(c, sig), sig)
  {
  }

  /**
   What any signal does, in every run: a network that comes up is recorded with the role it runs in, TX power,
   Trust Centre, join policy and JPAN follow, and nothing else makes them; a network that is lost is recorded no
   more, and unless a command is at work the module reboots; an operation ends exactly with its verdict.
   */
  lemma SignalEffects(es: seq<Event>, t: State, sig: Signal)
    requires Run(BLANK, es, t) && Enabled(t, Stack(sig))
    ensures Effects(t.core, Apply(t, Stack(sig)).core, sig)
    ensures var u := Apply(t, Stack(sig));
            u.pc == t.pc && u.queue == t.queue && u.current == t.current && u.answers == t.answers
  {
    Reachable(es, t);
    CoreEffects(t.core, sig);
  }

  /** Removed from its network by another node: nothing is recorded any more, and the reset comes. */
  lemma RemovedReboots(es: seq<Event>, t: State)
    requires Run(BLANK, es, t) && t.core.op == OpNone && t.core.storedRole != NoRole && !t.pc.Down?
    ensures var leave := Stack(Leave(true, false));
            && Enabled(t, leave) && Enabled(Apply(t, leave), RebootWork)
            && Apply(Apply(t, leave), RebootWork) == Reset(Apply(t, leave), [])
            && Apply(t, leave).core.flashRole == NoRole
  {
    Reachable(es, t);
  }

  // ------------------------------------------------------------ the recorded role

  function RoleNext(role: Role, op: Op, e: Event): Role {
    match e
    case Stack(sig) => RoleThen(role, op, sig)
    case Forget => NoRole
    case _ => role
  }

  /** The role after these events, resets included, from the role before them. */
  function Recorded(role: Role, s: State, es: seq<Event>): Role
    decreases |es|
  {
    if es == [] || !Enabled(s, es[0]) then role
    else Recorded(RoleNext(role, s.core.op, es[0]), Apply(s, es[0]), es[1..])
  }

  lemma RoleStep(s: State, e: Event)
    requires Inv(s) && Enabled(s, e)
    ensures Apply(s, e).core.flashRole == RoleNext(s.core.flashRole, s.core.op, e)
  {
    match e
    case Stack(sig) => CoreEffects(s.core, sig);
    case Execute(env) =>
      DispatchKeepsFlash(s.(queue := s.queue[1..], current := s.queue[0]), Classify(s.queue[0]), env);
    case _ =>
  }

  lemma DispatchKeepsFlash(s: State, kind: Kind, env: Env)
    ensures Dispatch(s, kind, env).core.flashRole == s.core.flashRole
  {
  }

  lemma {:induction false} RecordedAlong(s: State, es: seq<Event>, t: State)
    requires Inv(s) && Run(s, es, t)
    ensures t.core.flashRole == Recorded(s.core.flashRole, s, es)
    decreases |es|
  {
    if es != [] {
      StepKeepsInv(s, es[0]);
      RoleStep(s, es[0]);
      RecordedAlong(Apply(s, es[0]), es[1..], t);
    }
  }

  /**
   The role in flash, over commands, signals, timeouts and resets: the running one of the last network that came
   up, none if it was lost or left since; no command or reset changes it otherwise. RAM holds the same.
   */
  lemma RoleExactlyWhen(es: seq<Event>, t: State)
    requires Run(BLANK, es, t)
    ensures t.core.flashRole == Recorded(NoRole, BLANK, es)
    ensures !t.pc.Down? ==> t.core.storedRole == t.core.flashRole
  {
    RecordedAlong(BLANK, es, t);
    Reachable(es, t);
  }

  // ------------------------------------------------------------ boots

  /** With a recorded network the stack runs, from the boot on. */
  lemma RecordedIsStarted(es: seq<Event>, t: State)
    requires Run(BLANK, es, t) && !t.pc.Down?
    ensures t.core.storedRole != NoRole ==> t.core.started
  {
    Reachable(es, t);
  }

  /** `set_role` and `zigbee_enable` for a recorded network. */
  function RejoinCalls(role: Role): seq<Call> {
    if role == NoRole then [] else [SetRole(role), Enable]
  }

  /**
   Every boot: a stored command is deleted, becomes the next line, and the stack stays off; without one a recorded
   network is rejoined in its role by these calls, and only such a one.
   */
  lemma BootExactly(es: seq<Event>, t: State)
    requires Run(BLANK, es, t) && t.pc.Down?
    ensures var u := Apply(t, Init);
            && u.core.flashPend == "" && u.core.storedRole == t.core.flashRole && u.answers == t.answers
            && u.core.calls == RejoinCalls(t.core.flashRole)
            && (u.core.started <==> t.core.flashRole != NoRole) && !u.core.erased
            && u.queue == t.deferred && (t.core.flashPend != "" <==> t.deferred != [])
  {
    Reachable(es, t);
    if t.deferred != [] {
      BootWithLine(t, t.deferred[0]);
    } else {
      BootWithout(t);
    }
  }

  lemma BootWithLine(s: State, line: string)
    requires s.pc.Down? && s.queue == [] && s.deferred == [line] && s.core == AfterReset(s.core)
    requires LineFits(line) && Startable(line) && s.core.flashPend == Stored(line)
    ensures var u := Apply(s, Init);
            && u.queue == [line] && u.answers == s.answers
            && u.core == s.core.(storedRole := s.core.flashRole, flashPend := "")
  {
    PendRoundTrip(line);
  }

  lemma BootWithout(s: State)
    requires s.pc.Down? && s.queue == [] && s.core == AfterReset(s.core) && s.core.flashPend == ""
    ensures var u := Apply(s, Init);
            && u.queue == [] && u.answers == s.answers && u.core.storedRole == s.core.flashRole
            && u.core.flashPend == "" && u.core.calls == RejoinCalls(s.core.flashRole)
            && (u.core.started <==> s.core.flashRole != NoRole) && !u.core.erased
  {
    Nothing(RejoinCalls(s.core.flashRole));
  }

  // ------------------------------------------------------------ starting

  /** What is set before the stack starts: the coordinator's PAN ID and key if there are any, the extended PAN ID. */
  ghost predicate PreparedFor(calls: seq<Call>, role: Running, u: Setup) {
    && |calls| >= 3 && calls[0] == Erase && calls[1] == SetRole(role) && calls[|calls| - 1] == Enable
    && (forall p :: SetPan(p) in calls <==> role == ZC && p == u.pan != 0)
    && (SetKey in calls <==> role == ZC && u.key)
    && (SetEpid in calls <==> u.epid)
    && |calls| == 3 + (if SetPan(u.pan) in calls then 1 else 0) + (if SetKey in calls then 1 else 0)
                    + (if SetEpid in calls then 1 else 0)
  }

  lemma PreparedExactly(role: Running, u: Setup)
    ensures PreparedFor(Prepared(role, u), role, u)
  {
    var pan := if role == ZC && u.pan != 0 then [SetPan(u.pan)] else [];
    var key := if role == ZC && u.key then [SetKey] else [];
    var epid := if u.epid then [SetEpid] else [];
    assert Prepared(role, u) == [Erase, SetRole(role)] + pan + key + epid + [Enable];
  }

  /** The stack starts as the coordinator for AT+EN, else as what S0A says. */
  predicate RoleFor(role: Role, kind: Kind, endDevice: bool) {
    (role == ZC <==> kind == FormNet) && (role == ZED <==> kind != FormNet && endDevice) && role != NoRole
  }

  ghost predicate BeginsStart(t: State, u: State, kind: Kind, env: Env) {
    var op := if kind == FormNet then OpForm else OpJoin;
    && u.pc == Waiting(op) && u.core.op == op && !u.core.token && u.core.started && u.core.erased
    && u.core.storedRole == u.core.flashRole == NoRole && u.deferred == t.deferred
    && |u.core.calls| > 1 && u.core.calls[1].SetRole? && RoleFor(u.core.calls[1].role, kind, env.endDevice)
    && PreparedFor(u.core.calls, u.core.calls[1].role,
                   Setup(env.pan, env.key, if kind.JpanNet? then kind.epid else env.epid))
  }

  /**
   AT+EN, AT+JN and AT+JPAN taken up in any run: answered with IN_PAN if a network is recorded; else stored, with
   a reset, if the stack runs; else the stack starts, with the role of the command and the settings of the node.
   */
  lemma StartExactly(es: seq<Event>, t: State, env: Env)
    requires Run(BLANK, es, t) && Enabled(t, Execute(env)) && Startable(t.queue[0])
    ensures var u, line, kind := Apply(t, Execute(env)), t.queue[0], Classify(t.queue[0]);
            if t.core.storedRole != NoRole then
              u.core == t.core && u.pc == Idle && u.answers == t.answers + [Answer(line, AT_ERR_IN_PAN)]
            else if t.core.started then
              && u.pc == Down && u.answers == t.answers && u.deferred == [line]
              && LoadPend(u.core.flashPend) == line && u.core.flashRole == NoRole
            else u.answers == t.answers && u.current == line && BeginsStart(t, u, kind, env)
  {
    Reachable(es, t);
    var s, kind := t.(queue := t.queue[1..], current := t.queue[0]), Classify(t.queue[0]);
    if t.core.storedRole == NoRole {
      if t.core.started {
        PendRoundTrip(t.queue[0]);
      } else {
        StartBegins(s, kind, env);
      }
    }
  }

  lemma StartBegins(s: State, kind: Kind, env: Env)
    requires UpCore(s.core) && s.core.storedRole == NoRole && !s.core.started && Starts(kind)
    ensures var u := Dispatch(s, kind, env);
            u.answers == s.answers && u.current == s.current && BeginsStart(s, u, kind, env)
  {
    var role, u := StartRole(kind, env), StartSetup(kind, env);
    PreparedExactly(role, u);
    Nothing(Prepared(role, u));
    assert StartNetwork(s, role, u).core.calls == Prepared(role, u);
  }

  // ------------------------------------------------------------ answers

  /** The command that an operation serves. */
  predicate Serves(op: Op, kind: Kind) {
    match op
    case OpNone => false
    case OpForm => kind == FormNet
    case OpJoin => kind == JoinNet || kind.JpanNet?
    case OpLeave => kind == LeaveNet
    case OpFactory => kind == FactoryReset
  }

  predicate CommandMatches(s: State) {
    match s.pc
    case Down => true
    case Idle => true
    case Waiting(op) => Serves(op, Classify(s.current))
    case TimedOut(op) => Serves(op, Classify(s.current))
    case Leaving(op) => Serves(op, Classify(s.current)) && !InPan(op)
    case Resetting(op) => Serves(op, Classify(s.current)) && !InPan(op)
  }

  lemma ServedThroughout(s: State, e: Event)
    requires CommandMatches(s) && Enabled(s, e)
    ensures CommandMatches(Apply(s, e))
  {
    if e.Execute? {
      DispatchServes(s.(queue := s.queue[1..], current := s.queue[0]), Classify(s.queue[0]), e.env);
    }
  }

  lemma DispatchServes(s: State, kind: Kind, env: Env)
    requires s.pc.Idle? && kind == Classify(s.current)
    ensures CommandMatches(Dispatch(s, kind, env))
  {
    var u := Dispatch(s, kind, env);
    assert u.pc.Down? || (u.current == s.current && (u.pc.Idle? || Serves(u.pc.op, kind)));
  }

  lemma {:induction false} CommandAlong(s: State, es: seq<Event>, t: State)
    requires CommandMatches(s) && Run(s, es, t)
    ensures CommandMatches(t)
    decreases |es|
  {
    if es != [] {
      ServedThroughout(s, es[0]);
      CommandAlong(Apply(s, es[0]), es[1..], t);
    }
  }

  /**
   The end of a wait: a start is answered, with the verdict of its signal or with the timeout's code of that
   command; a leaving command goes on without an answer.
   */
  lemma WaitEnds(es: seq<Event>, t: State, e: Event)
    requires Run(BLANK, es, t) && Enabled(t, e) && (e.OpDone? || e.Abandon?)
    ensures var u := Apply(t, e);
            if Startable(t.current) then
              && u.pc == Idle && u.core.op == OpNone
              && u.answers == t.answers + [Answer(t.current,
                   if e.OpDone? then t.core.opResult
                   else if Classify(t.current) == FormNet then AT_ERR_CANNOT_FORM else AT_ERR_NO_NETWORK)]
            else u.answers == t.answers && u.pc == Leaving(t.pc.op) && u.core.op == OpNone
    ensures e.OpDone? ==> !Apply(t, e).core.token
    ensures Apply(t, e).core.storedRole == t.core.storedRole && Apply(t, e).core.flashRole == t.core.flashRole
  {
    Reachable(es, t);
    CommandAlong(BLANK, es, t);
  }

  /** AT+DASSL without a network is refused; otherwise a leaving command first leaves, if it can. */
  predicate BeginsLeave(t: State, u: State, line: string, op: Op, joined: bool) {
    && u.answers == t.answers && u.current == line
    && if t.core.storedRole == NoRole then u.core == t.core && u.pc == Resetting(op)
       else if joined then u.pc == Waiting(op) && u.core == t.core.(op := op, token := false)
       else u.core == t.core && u.pc == Leaving(op)
  }

  /** The commands that start nothing. */
  lemma OthersExactly(es: seq<Event>, t: State, env: Env)
    requires Run(BLANK, es, t) && Enabled(t, Execute(env)) && !Startable(t.queue[0])
    ensures var u, line := Apply(t, Execute(env)), t.queue[0];
            match Classify(line)
            case LeaveNet =>
              if t.core.storedRole == NoRole then
                u.core == t.core && u.pc == Idle && u.answers == t.answers + [Answer(line, AT_ERR_NOT_JOINED)]
              else BeginsLeave(t, u, line, OpLeave, env.joined)
            case FactoryReset => BeginsLeave(t, u, line, OpFactory, env.joined)
            case Restart =>
              && u.pc == Down && u.answers == t.answers + [Answer(line, AT_OK)]
              && u.core.flashRole == t.core.flashRole && u.core.flashPend == ""
            case _ => u.core == t.core && u.pc == Idle && u.answers == t.answers + [Answer(line, env.result)]
  {
    Reachable(es, t);
  }

  /** A leaving command under way. */
  predicate UnderWay(s: State) {
    match s.pc
    case Down => false
    case Idle => false
    case Waiting(op) => !InPan(op)
    case TimedOut(op) => !InPan(op)
    case _ => true
  }

  /** Steps of the AT thread it still needs at most. */
  function StepsLeft(s: State): nat {
    match s.pc
    case Waiting(_) => 4
    case TimedOut(_) => 3
    case Leaving(_) => 2
    case Resetting(_) => 1
    case _ => 0
  }

  predicate LeaveStep(e: Event) {
    e.OpDone? || e.Timeout? || e.Abandon? || e.Forget? || e.Finish?
  }

  function LeaveSteps(es: seq<Event>): nat {
    if es == [] then 0 else (if LeaveStep(es[0]) then 1 else 0) + LeaveSteps(es[1..])
  }

  /** OK to this line, then a reset that keeps the role as it is and leaves no command behind. */
  predicate LeftWithOk(s: State, u: State) {
    && u.answers == s.answers + [Answer(s.current, AT_OK)] && u.pc == Down
    && u.core.flashRole == s.core.flashRole && u.core.flashPend == "" && u.deferred == []
  }

  lemma LeavingStep(s: State, e: Event)
    requires Inv(s) && UnderWay(s) && Enabled(s, e) && !e.RebootWork? && !e.PowerCycle?
    ensures var u := Apply(s, e);
            if e.Finish? then LeftWithOk(s, u)
            else UnderWay(u) && u.answers == s.answers && u.current == s.current
                 && (if LeaveStep(e) then StepsLeft(u) < StepsLeft(s) else StepsLeft(u) == StepsLeft(s))
    ensures e.Forget? ==> Apply(s, e).core.flashRole == NoRole
  {
  }

  /** What the AT thread does next. */
  function NextLeaveStep(s: State): Event {
    match s.pc
    case Waiting(_) => if s.core.token then OpDone else Timeout
    case TimedOut(_) => Abandon
    case Leaving(_) => Forget
    case _ => Finish
  }

  lemma LeavingNotStuck(s: State)
    requires UnderWay(s)
    ensures LeaveStep(NextLeaveStep(s)) && Enabled(s, NextLeaveStep(s))
  {
  }

  /** Along `es` the next answer is OK to this line, with the reset. */
  predicate LeftLater(s: State, es: seq<Event>)
    decreases |es|
  {
    && es != [] && Enabled(s, es[0])
    && var u := Apply(s, es[0]);
       if es[0].Finish? then LeftWithOk(s, u) else u.answers == s.answers && LeftLater(u, es[1..])
  }

  /**
   AT+DASSL on a recorded network and AT&F: once under way, four steps of the AT thread bring OK and the reset,
   whatever is typed or signalled meanwhile, if no other reset comes first.
   */
  lemma {:induction false} LeavingEnds(s: State, es: seq<Event>, t: State)
    requires Inv(s) && UnderWay(s) && Run(s, es, t) && NoResets(es) && LeaveSteps(es) >= StepsLeft(s)
    ensures LeftLater(s, es)
    decreases |es|
  {
    if es != [] {
      LeavingStep(s, es[0]);
      StepKeepsInv(s, es[0]);
      if !es[0].Finish? {
        LeavingEnds(Apply(s, es[0]), es[1..], t);
      }
    }
  }

  // ------------------------------------------------------------ what a leaving command leaves

  /** An own network comes up. */
  predicate Returns(e: Event) {
    e.Stack? && (e.sig.Reboot? || e.sig.Formation?) && e.sig.ok
  }

  lemma WaitsForReset(s: State, e: Event)
    requires Inv(s) && s.pc.Resetting? && Enabled(s, e) && !Apply(s, e).pc.Down?
    ensures Apply(s, e).pc == s.pc
    ensures RoleNext(NoRole, s.core.op, e) != NoRole ==> Returns(e)
  {
  }

  lemma {:induction false} ReturnsBetween(s: State, es: seq<Event>, t: State)
    requires Inv(s) && s.pc.Resetting? && Run(s, es, t) && SameBoot(s, es)
    ensures t.pc == s.pc
    ensures Recorded(NoRole, s, es) != NoRole ==> exists i :: 0 <= i < |es| && Returns(es[i])
    decreases |es|
  {
    if es != [] {
      WaitsForReset(s, es[0]);
      StepKeepsInv(s, es[0]);
      ReturnsBetween(Apply(s, es[0]), es[1..], t);
      if RoleNext(NoRole, s.core.op, es[0]) == NoRole && Recorded(NoRole, s, es) != NoRole {
        var i :| 0 <= i < |es[1..]| && Returns(es[1..][i]);
        assert Returns(es[i + 1]);
      }
    }
  }

  /**
   After AT+DASSL or AT&F is answered OK, no role is recorded at the next boot, except exactly if a network that
   came up between the clearing of the role and the reset was recorded and not lost again.
   */
  lemma LeftRoleExactlyWhen(es: seq<Event>, t: State, later: seq<Event>, u: State)
    requires Run(BLANK, es, t) && t.pc.Leaving?
    requires Run(Apply(t, Forget), later, u) && SameBoot(Apply(t, Forget), later)
    ensures Enabled(u, Finish) && Apply(u, Finish).core.flashRole == Recorded(NoRole, Apply(t, Forget), later)
    ensures Apply(u, Finish).core.flashRole != NoRole ==> exists i :: 0 <= i < |later| && Returns(later[i])
  {
    Reachable(es, t);
    StepKeepsInv(t, Forget);
    RecordedAlong(Apply(t, Forget), later, u);
    ReturnsBetween(Apply(t, Forget), later, u);
  }

  /** A coordinator that formed its network. */
  lemma EnForms() returns (es: seq<Event>, t: State)
    ensures Run(BLANK, es, t) && t.pc == Idle && t.answers == [Answer("AT+EN", AT_OK)] && t.core.flashRole == ZC
  {
    var begun, s := EnStarts();
    var up := Stack(Formation(true, ZC));
    var t1 := Apply(s, up);
    RunSnoc(BLANK, begun, s, up);
    RunSnoc(BLANK, begun + [up], t1, OpDone);
    es, t := begun + [up] + [OpDone], Apply(t1, OpDone);
  }

  /** And was reset. */
  lemma EnRejoins() returns (es: seq<Event>, t: State)
    ensures Run(BLANK, es, t) && t.pc == Idle && t.answers == [Answer("AT+EN", AT_OK)] && t.queue == []
    ensures t.core.storedRole == ZC && t.core.started && !t.core.erased
  {
    var formed, s := EnForms();
    var down := Apply(s, PowerCycle);
    RunSnoc(BLANK, formed, s, PowerCycle);
    RunSnoc(BLANK, formed + [PowerCycle], down, Init);
    es, t := formed + [PowerCycle] + [Init], Apply(down, Init);
    Reachable(es, t);
    BootExactly(formed + [PowerCycle], down);
  }

  /** And is asked to leave before its REBOOT signal came. */
  lemma LeftEarly() returns (es: seq<Event>, t: State)
    ensures Run(BLANK, es, t) && t.pc == Leaving(OpLeave) && t.current == "AT+DASSL"
    ensures t.answers == [Answer("AT+EN", AT_OK)] && t.core.started && !t.core.erased
  {
    var before, s := EnRejoins();
    var leave := Typed("AT+DASSL");
    var s1 := Apply(s, leave);
    RunSnoc(BLANK, before, s, leave);
    RunSnoc(BLANK, before + [leave], s1, Execute(QUIET));
    es, t := before + [leave] + [Execute(QUIET)], Apply(s1, Execute(QUIET));
    DasslIsLeave();
    LineLeaves(s1, "AT+DASSL");
  }

  lemma DasslIsLeave()
    ensures Classify("AT+DASSL") == LeaveNet
  {
    PlainCommand("AT+DASSL", "+DASSL", LeaveNet);
    assert ToUpper("AT+DASSL") == "AT" + "+DASSL";
  }

  lemma LineLeaves(s: State, line: string)
    requires s.pc.Idle? && s.queue == [line] && s.core.storedRole == ZC && Classify(line) == LeaveNet
    ensures var t := Apply(s, Execute(QUIET));
            t.pc == Leaving(OpLeave) && t.current == line && t.core == s.core && t.answers == s.answers
  {
  }

  /** Such a run: AT+DASSL is answered OK, and the module boots as the coordinator it was. */
  lemma LeftButRecorded()
    ensures exists es: seq<Event>, t: State ::
              && Run(BLANK, es, t) && t.pc == Down && t.core.flashRole == ZC
              && t.answers == [Answer("AT+EN", AT_OK), Answer("AT+DASSL", AT_OK)]
  {
    var es, t := LeftEarly();
    var up := Stack(Reboot(true, ZC));
    var t1 := Apply(t, Forget);
    var t2 := Apply(t1, up);
    RunSnoc(BLANK, es, t, Forget);
    RunSnoc(BLANK, es + [Forget], t1, up);
    RunSnoc(BLANK, es + [Forget] + [up], t2, Finish);
    assert Run(BLANK, es + [Forget] + [up] + [Finish], Apply(t2, Finish));
  }

  // ------------------------------------------------------------ names

  lemma {:induction false} NameWhole(p: string)
    requires forall i :: 0 <= i < |p| ==> p[i] != ':' && p[i] != '=' && p[i] != '?'
    ensures NameLength(p) == |p|
  {
    if p != "" {
      NameWhole(p[1..]);
    }
  }

  lemma {:induction false} NameEnds(p: string, n: nat)
    requires n < |p| && p[n] == ':' && forall i :: 0 <= i < n ==> p[i] != ':' && p[i] != '=' && p[i] != '?'
    ensures NameLength(p) == n
  {
    if n > 0 {
      NameEnds(p[1..], n - 1);
    }
  }

  /** A name as in the command table. */
  predicate TableName(name: string) {
    forall i :: 0 <= i < |name| ==> name[i] == '+' || name[i] == '&' || 'A' <= name[i] <= 'Z'
  }

  /** The two letters in front of a command. */
  predicate AtPrefixed(line: string) {
    |line| >= 2 && UpperChar(line[0]) == 'A' && UpperChar(line[1]) == 'T'
  }

  lemma SameLetters(name: string, text: string)
    requires TableName(name) && |text| == |name|
    ensures SameName(name, text) <==> ToUpper(text) == name
    ensures SameName(name, text) ==> forall i :: 0 <= i < |text| ==> text[i] != ':' && text[i] != '=' && text[i] != '?'
  {
    assert forall i :: 0 <= i < |name| ==> UpperChar(name[i]) == name[i];
    if SameName(name, text) {
      assert forall i :: 0 <= i < |name| ==> ToUpper(text)[i] == name[i];
    }
  }

  lemma AfterTwo(line: string, name: string)
    ensures ToUpper(line) == "AT" + name <==> AtPrefixed(line) && ToUpper(line[2..]) == name
  {
    if ToUpper(line) == "AT" + name {
      assert ToUpper(line)[0] == 'A' && ToUpper(line)[1] == 'T';
      assert forall i :: 0 <= i < |name| ==> ToUpper(line[2..])[i] == ("AT" + name)[i + 2];
    }
    if AtPrefixed(line) && ToUpper(line[2..]) == name {
      assert forall i :: 2 <= i < |line| ==> ToUpper(line)[i] == name[i - 2];
    }
  }

  lemma WholeName(line: string, name: string)
    requires TableName(name) && AtPrefixed(line)
    ensures var p := line[2..];
            SameName(name, p[..NameLength(p)]) && p[NameLength(p)..] == "" <==> ToUpper(line) == "AT" + name
  {
    var p := line[2..];
    AfterTwo(line, name);
    if |p| == |name| {
      SameLetters(name, p);
      assert p[..|p|] == p;
      if SameName(name, p) {
        NameWhole(p);
      }
    }
  }

  lemma NameWithArgs(line: string, name: string)
    requires TableName(name) && AtPrefixed(line)
    ensures var p, n := line[2..], |name| + 2;
            SameName(name, p[..NameLength(p)]) && p[NameLength(p)..] != "" && p[NameLength(p)] == ':' <==>
            n < |line| && ToUpper(line[..n]) == "AT" + name && line[n] == ':'
    ensures SameName(name, line[2..][..NameLength(line[2..])]) ==> NameLength(line[2..]) == |name|
  {
    var p, n := line[2..], |name| + 2;
    if n < |line| && line[n] == ':' {
      AfterTwo(line[..n], name);
      assert line[..n][2..] == p[..|name|];
      SameLetters(name, p[..|name|]);
      if SameName(name, p[..|name|]) {
        NameEnds(p, |name|);
      }
    }
  }

  /** Which lines these commands are, letter by letter, in either case; nothing may follow the name. */
  lemma PlainCommands(line: string)
    ensures Classify(line) == FormNet <==> ToUpper(line) == "AT+EN"
    ensures Classify(line) == JoinNet <==> ToUpper(line) == "AT+JN"
    ensures Classify(line) == LeaveNet <==> ToUpper(line) == "AT+DASSL"
    ensures Classify(line) == FactoryReset <==> ToUpper(line) == "AT&F"
    ensures Classify(line) == Restart <==> ToUpper(line) == "ATZ"
  {
    PlainCommand(line, "+EN", FormNet);
    PlainCommand(line, "+JN", JoinNet);
    PlainCommand(line, "+DASSL", LeaveNet);
    PlainCommand(line, "&F", FactoryReset);
    PlainCommand(line, "Z", Restart);
  }

  predicate Listed(name: string, kind: Kind) {
    match kind
    case FormNet => name == "+EN"
    case JoinNet => name == "+JN"
    case LeaveNet => name == "+DASSL"
    case FactoryReset => name == "&F"
    case Restart => name == "Z"
    case _ => false
  }

  lemma ByName(line: string, name: string, kind: Kind)
    requires Listed(name, kind) && AtPrefixed(line)
    ensures var p := line[2..];
            Classify(line) == kind <==> SameName(name, p[..NameLength(p)]) && p[NameLength(p)..] == ""
  {
  }

  lemma PlainCommand(line: string, name: string, kind: Kind)
    requires Listed(name, kind)
    ensures Classify(line) == kind <==> ToUpper(line) == "AT" + name
  {
    if AtPrefixed(line) {
      ByName(line, name, kind);
      assert TableName(name);
      WholeName(line, name);
    } else {
      AfterTwo(line, name);
    }
  }

  const JPAN := "AT+JPAN"

  /** And AT+JPAN: the arguments follow the name. */
  lemma JpanCommand(line: string, epid: bool)
    ensures Classify(line) == JpanNet(epid) <==>
            && |line| > |JPAN| && ToUpper(line[..|JPAN|]) == JPAN
            && JpanArgs(line[|JPAN|..]) && epid == EpidGiven(line[|JPAN|..])
  {
    JpanNeedsPrefix(line);
    if AtPrefixed(line) {
      JpanByName(line, epid);
      JpanName(line);
    }
  }

  lemma JpanNeedsPrefix(line: string)
    ensures |line| > |JPAN| && ToUpper(line[..|JPAN|]) == JPAN ==> AtPrefixed(line)
  {
    if |line| > |JPAN| {
      assert JPAN == "AT" + "+JPAN";
      AfterTwo(line[..|JPAN|], "+JPAN");
    }
  }

  lemma JpanName(line: string)
    requires AtPrefixed(line)
    ensures var p := line[2..]; var args := p[NameLength(p)..];
            && (SameName("+JPAN", p[..NameLength(p)]) && args != "" && args[0] == ':' <==>
                |line| > |JPAN| && ToUpper(line[..|JPAN|]) == JPAN && line[|JPAN|] == ':')
            && (SameName("+JPAN", p[..NameLength(p)]) ==> |line| >= |JPAN| && args == line[|JPAN|..])
  {
    assert JPAN == "AT" + "+JPAN";
    NameWithArgs(line, "+JPAN");
  }

  lemma JpanByName(line: string, epid: bool)
    requires AtPrefixed(line)
    ensures var p := line[2..]; var args := p[NameLength(p)..];
            Classify(line) == JpanNet(epid) <==>
            SameName("+JPAN", p[..NameLength(p)]) && JpanArgs(args) && epid == EpidGiven(args)
  {
  }

  /**
   The arguments are taken exactly if what is between the colon and the first comma is, as a whole, a number from 11
   to 26, and 4 or 16 hex digits follow the comma: an extended PAN ID exactly with 16.
   */
  lemma JpanArguments(number: string, id: string)
    requires ',' !in number
    ensures var args := ":" + (number + ("," + id));
            && (JpanArgs(args) <==>
                && 11 <= Strtol(number).0 <= 26 && Strtol(number).1 == |number|
                && (|id| == 4 || |id| == 16) && AllHex(id))
            && (EpidGiven(args) <==> |id| == 16)
  {
    StrtolStops(number, "," + id);
    CommaAt(number, id);
  }

  /** Without the colon or a comma they are refused. */
  lemma JpanNeedsComma(args: string)
    requires JpanArgs(args)
    ensures args[0] == ':' && ',' in args[1..]
  {
    assert args[1..][IndexOf(args, ',') - 1] == ',';
  }

  /** The channels the firmware prints. */
  lemma JpanPrinted(channel: int, id: string)
    ensures JpanArgs(":" + (FmtD(channel) + ("," + id))) <==>
            11 <= channel <= 26 && (|id| == 4 || |id| == 16) && AllHex(id)
  {
    NoComma(channel);
    JpanArguments(FmtD(channel), id);
    StrtolPrinted(channel, "");
    Nothing(FmtD(channel));
  }

  lemma NoComma(v: int)
    ensures ',' !in FmtD(v)
  {
  }

  lemma CommaAt(number: string, id: string)
    requires ',' !in number
    ensures var text := ":" + (number + ("," + id));
            text[1..] == number + ("," + id) && IndexOf(text, ',') == |number| + 1 && text[|number| + 2..] == id
  {
    var text := ":" + (number + ("," + id));
    assert text[|number| + 1] == ',';
    assert forall i :: 1 <= i <= |number| ==> text[i] == number[i - 1];
  }
}
