/** Network control across reboots, app/src/zb_core.c. */
module Network {
  import opened Wrappers
  import opened AtResults
  import opened CText
  import opened Settings
  import opened Streams
  import opened AtFmt
  import LineEditor

  /*
   The stack can be started once per boot with a role fixed before, so a second AT+EN, AT+JN or AT+JPAN is
   stored in flash and run after a silent reboot.

   `Core` is the state of that file and of its two settings keys; the functions on it are its handlers.
   `State` adds the command queue and the AT thread, split where it waits for `op_done`. Signals of the
   stack, timeouts and resets come at any time. Environment: signals only from a started stack; after an
   NVRAM erase the stack starts with FIRST_START, never REBOOT.
   */

  datatype Role = NoRole | ZC | ZR | ZED

  /** What `current_role` can answer. */
  type Running = r: Role | r != NoRole witness ZC

  datatype Op = OpNone | OpForm | OpJoin | OpLeave | OpFactory

  /** Calls into the stack during one boot whose order matters. */
  datatype Call = Erase | SetRole(role: Running) | SetPan(pan: nat) | SetKey | SetEpid | Enable

  /** What `network_up` does besides the role, whenever a network is up. */
  datatype UpCall = TxPower | LegacyTc | JoinPolicy | PrintJpan

  /**
   `token`: the semaphore op_done. `flashRole`, `flashPend`: the keys at/zb/role and at/zb/pend
   (NoRole and "" when absent; the stored line carries its terminator). `erased`: ZBOSS NVRAM was
   erased in this boot. `calls`, `ups`: stack calls and `network_up` of this boot. `rebootDue`: reboot_work
   is scheduled.
   */
  datatype Core = Core(
    op: Op,
    opResult: int,
    token: bool,
    started: bool,
    storedRole: Role,
    flashRole: Role,
    flashPend: string,
    erased: bool,
    calls: seq<Call>,
    ups: seq<UpCall>,
    rebootDue: bool)

  // ------------------------------------------------------------ handlers

  function RoleSave(c: Core, role: Role): Core {
    c.(storedRole := role, flashRole := role)
  }

  function Complete(c: Core, result: int): Core {
    if c.op != OpNone then c.(opResult := result, op := OpNone, token := true) else c
  }

  /** The legacy Trust Centre is for the coordinator only. */
  function UpCalls(role: Running): (calls: seq<UpCall>)
    ensures PrintJpan in calls
  {
    if role == ZC then [TxPower, LegacyTc, JoinPolicy, PrintJpan] else [TxPower, JoinPolicy, PrintJpan]
  }

  function NetworkUp(c: Core, role: Running): Core {
    (if c.storedRole != role then RoleSave(c, role) else c).(ups := c.ups + UpCalls(role))
  }

  /** The signals that touch this state; `role` is what the stack reports then. */
  datatype Signal =
    | FirstStart(ok: bool, commissioning: bool)
    | Reboot(ok: bool, role: Running)
    | Formation(ok: bool, role: Running)
    | Steering(ok: bool, joined: bool, role: Running)
    | Leave(ok: bool, rejoin: bool)

  /** `zboss_signal_handler`. */
  function OnSignal(c: Core, sig: Signal): Core {
    match sig
    case FirstStart(ok, commissioning) =>
      if c.op == OpForm then if ok && commissioning then c else Complete(c, AT_ERR_CANNOT_FORM)
      else if c.op == OpJoin then if ok && commissioning then c else Complete(c, AT_ERR_CANNOT_JOIN)
      else RoleSave(c, NoRole)
    case Reboot(ok, role) => if ok then NetworkUp(c, role) else c
    case Formation(ok, role) =>
      if ok then Complete(NetworkUp(c, role), AT_OK) else Complete(c, AT_ERR_CANNOT_FORM)
    case Steering(ok, joined, role) =>
      if role == ZC then c
      else if c.op == OpJoin then
        if ok && joined then Complete(NetworkUp(c, role), AT_OK) else Complete(c, AT_ERR_CANNOT_JOIN)
      else if c.storedRole != NoRole && ok && joined then NetworkUp(c, role)
      else c
    case Leave(ok, rejoin) =>
      if c.op == OpJoin then Complete(RoleSave(c, NoRole), AT_ERR_CANNOT_JOIN)
      else if c.op == OpLeave || c.op == OpFactory then Complete(c, AT_OK)
      else if !ok || rejoin then c
      else if c.storedRole != NoRole then RoleSave(c, NoRole).(rebootDue := true)
      else c
  }

  /** What `prepare_new_network` takes from S02 and S08 and from its caller. */
  datatype Setup = Setup(pan: nat, key: bool, epid: bool)

  /** `prepare_new_network`: PAN ID and network key are the coordinator's choice only. */
  function Preparation(role: Running, u: Setup): (calls: seq<Call>)
    ensures |calls| >= 2 && calls[0] == Erase && calls[1] == SetRole(role) && Enable !in calls
    ensures forall i :: 0 <= i < |calls| && (calls[i].SetPan? || calls[i].SetKey?) ==> role == ZC
  {
    [Erase, SetRole(role)]
    + (if role == ZC && u.pan != 0 then [SetPan(u.pan)] else [])
    + (if role == ZC && u.key then [SetKey] else [])
    + (if u.epid then [SetEpid] else [])
  }

  /** The calls of a start in a boot without a network. */
  function Prepared(role: Running, u: Setup): (calls: seq<Call>)
    ensures |calls| >= 3 && calls[0] == Erase && calls[1] == SetRole(role)
    ensures forall i :: 0 <= i < |calls| ==> (calls[i] == Enable <==> i == |calls| - 1)
    ensures forall i :: 0 <= i < |calls| && (calls[i].SetPan? || calls[i].SetKey?) ==> role == ZC
  {
    Preparation(role, u) + [Enable]
  }

  /** First half of `run_op`, after `prepare_new_network`: the stack starts here if it has not yet. */
  function BeginStart(c: Core, role: Running, u: Setup): Core {
    c.(token := false, op := if role == ZC then OpForm else OpJoin, started := true, erased := true,
       calls := c.calls + Prepared(role, u))
  }

  /** First half of `leave_network` on a joined node. */
  function BeginLeave(c: Core, op: Op): Core {
    c.(token := false, op := op)
  }

  /** The pending line that `load_cb` leaves; none if nothing usable is stored. */
  function LoadPend(stored: string): string {
    match Loaded(stored, AT_LINE_MAX)
    case None => ""
    case Some(line) => line
  }

  /** `at_uart_inject_line`. */
  function Injected(line: string): string {
    if |line| > AT_LINE_MAX - 1 then line[..AT_LINE_MAX - 1] else line
  }

  /** The state of a boot before `zbc_init`: only flash survives. */
  function AfterReset(c: Core): Core {
    Core(OpNone, 0, false, false, NoRole, c.flashRole, c.flashPend, false, [], [], false)
  }

  /** `zbc_init`, apart from the injected line: settings are loaded, a recorded network is rejoined. */
  function BootInit(c: Core): Core {
    var loaded := c.(storedRole := c.flashRole);
    if LoadPend(c.flashPend) != "" then loaded.(flashPend := "")
    else if loaded.storedRole != NoRole then
      loaded.(started := true, calls := c.calls + [SetRole(loaded.storedRole), Enable])
    else loaded
  }

  // ------------------------------------------------------------ commands

  datatype Kind = FormNet | JoinNet | JpanNet(epid: bool) | LeaveNet | FactoryReset | Restart | Other

  predicate SameName(name: string, text: string) {
    |name| == |text| && forall i :: 0 <= i < |name| ==> UpperChar(name[i]) == UpperChar(text[i])
  }

  /** `strcspn(p, ":=?")`. */
  function NameLength(p: string): (n: nat)
    ensures n <= |p|
  {
    if p == "" || p[0] == ':' || p[0] == '=' || p[0] == '?' then 0 else 1 + NameLength(p[1..])
  }

  /** AT+JPAN:<channel>,<PID or EPID>. */
  predicate JpanArgs(args: string) {
    var comma := IndexOf(args, ',');
    && args != "" && args[0] == ':' && 0 < comma < |args|
    && (var (channel, end) := Strtol(args[1..]);
        var id := args[comma + 1..];
        && 1 + end == comma && 11 <= channel <= 26
        && ((|id| == 16 && AllHex(id)) || (|id| == 4 && AllHex(id))))
  }

  /** It is the extended PAN ID that was given. */
  predicate EpidGiven(args: string) {
    var comma := IndexOf(args, ',');
    comma < |args| && |args[comma + 1..]| == 16
  }

  /** Which handler of this file a line reaches. */
  function Classify(line: string): Kind {
    if |line| < 2 || UpperChar(line[0]) != 'A' || UpperChar(line[1]) != 'T' then Other
    else
      var p := line[2..];
      var name, args := p[..NameLength(p)], p[NameLength(p)..];
      if SameName("+EN", name) then if args == "" then FormNet else Other
      else if SameName("+JN", name) then if args == "" then JoinNet else Other
      else if SameName("+JPAN", name) then if JpanArgs(args) then JpanNet(EpidGiven(args)) else Other
      else if SameName("+DASSL", name) then if args == "" then LeaveNet else Other
      else if SameName("&F", name) then if args == "" then FactoryReset else Other
      else if SameName("Z", name) then if args == "" then Restart else Other
      else Other
  }

  // ------------------------------------------------------------ the AT thread and resets

  datatype Pc =
    | Down                  // reset, zbc_init not yet run
    | Idle                  // waiting for a line
    | Waiting(op: Op)       // k_sem_take(&op_done, timeout)
    | TimedOut(op: Op)      // the wait gave up; op is cleared next
    | Leaving(op: Op)       // after leave_network's wait; role_save(NONE) comes next
    | Resetting(op: Op)     // OK and the reset come next

  /** An operation ended by a signal, with the role recorded at that moment. */
  datatype Completion = Completion(op: Op, result: int, role: Role)

  datatype Answer = Answer(line: string, result: int)

  /**
   `current`: the line being executed. `deferred`: a line saved by `defer_to_next_boot`, from then until
   it is answered or another reset intervenes. `completions`: of this boot. `answers`: all so far.
   */
  datatype State = State(
    core: Core,
    pc: Pc,
    queue: seq<string>,
    current: string,
    deferred: seq<string>,
    completions: seq<Completion>,
    answers: seq<Answer>)

  /**
   What a handler finds: `joined` is what ZB_JOINED() answers, `endDevice` what S0A bits F-E select, `pan`,
   `key` and `epid` are S02, whether S08 holds a key and whether S03 holds an ID, `result` is what the other
   handlers answer.
   */
  datatype Env = Env(joined: bool, endDevice: bool, pan: nat, key: bool, epid: bool, result: int)

  datatype Event =
    | Init
    | Typed(line: string)
    | Execute(env: Env)
    | OpDone
    | Timeout
    | Abandon
    | Forget
    | Finish
    | Stack(sig: Signal)
    | RebootWork
    | PowerCycle

  predicate Enabled(s: State, e: Event) {
    match e
    case Init => s.pc.Down?
    case Typed(line) => !s.pc.Down? && '\0' !in line && |line| < AT_LINE_MAX
    case Execute(_) => s.pc.Idle? && s.queue != []
    case OpDone => s.pc.Waiting? && s.core.token
    case Timeout => s.pc.Waiting? && !s.core.token
    case Abandon => s.pc.TimedOut?
    case Forget => s.pc.Leaving?
    case Finish => s.pc.Resetting?
    case Stack(sig) => !s.pc.Down? && s.core.started && (sig.Reboot? ==> !s.core.erased)
    case RebootWork => !s.pc.Down? && s.core.rebootDue
    case PowerCycle => true
  }

  function Enqueue(q: seq<string>, line: string): seq<string> {
    if |q| < LineEditor.LINE_Q_DEPTH then q + [line] else q
  }

  /** A reset; the answer still owed to a deferred line is lost with it unless the reset is the silent one. */
  function Reset(s: State, deferred: seq<string>): State {
    s.(core := AfterReset(s.core), pc := Down, queue := [], current := "", deferred := deferred, completions := [])
  }

  function Answered(s: State, result: int): State {
    s.(pc := Idle, answers := s.answers + [Answer(s.current, result)], deferred := [])
  }

  function Apply(s: State, e: Event): State
    requires Enabled(s, e)
  {
    match e
    case Init =>
      var pend := LoadPend(s.core.flashPend);
      s.(core := BootInit(s.core), pc := Idle,
         queue := if pend != "" then Enqueue(s.queue, Injected(pend)) else s.queue)
    case Typed(line) => s.(queue := Enqueue(s.queue, line))
    case Execute(env) => Dispatch(s.(queue := s.queue[1..], current := s.queue[0]), Classify(s.queue[0]), env)
    case OpDone => AfterWait(s.(core := s.core.(token := false)), s.core.opResult)
    case Timeout => s.(pc := TimedOut(s.pc.op))
    case Abandon =>
      AfterWait(s.(core := s.core.(op := OpNone)),
                if s.pc.op == OpForm then AT_ERR_CANNOT_FORM else AT_ERR_NO_NETWORK)
    case Forget => s.(core := RoleSave(s.core, NoRole), pc := Resetting(s.pc.op))
    case Finish =>
      // AT&F also deletes the pending command; OK is printed, then the module resets.
      var c := if s.pc.op == OpFactory then s.core.(flashPend := "") else s.core;
      Reset(Answered(s.(core := c), AT_OK), [])
    case Stack(sig) =>
      var t := s.(core := OnSignal(s.core, sig));
      if s.core.op != OpNone && t.core.op == OpNone
      then t.(completions := s.completions + [Completion(s.core.op, t.core.opResult, t.core.storedRole)])
      else t
    case RebootWork => Reset(s, [])
    // A line already in flash outlives a further reset before zbc_init.
    case PowerCycle => Reset(s, if s.pc.Down? then s.deferred else [])
  }

  /** Where `op` waits end: a start is answered, a leave goes on to its reset. */
  function AfterWait(s: State, result: int): State
    requires s.pc.Waiting? || s.pc.TimedOut?
  {
    if s.pc.op == OpLeave || s.pc.op == OpFactory then s.(pc := Leaving(s.pc.op)) else Answered(s, result)
  }

  /** `start_network`. */
  function StartNetwork(s: State, role: Running, u: Setup): State {
    if s.core.storedRole != NoRole then Answered(s, AT_ERR_IN_PAN)
    else if s.core.started then
      Reset(s.(core := s.core.(flashPend := Stored(s.current))), [s.current])
    else s.(core := BeginStart(s.core, role, u), pc := Waiting(if role == ZC then OpForm else OpJoin))
  }

  function LeaveNetwork(s: State, op: Op, joined: bool): State {
    if s.core.started && joined then s.(core := BeginLeave(s.core, op), pc := Waiting(op)) else s.(pc := Leaving(op))
  }

  function JoinRole(env: Env): Running {
    if env.endDevice then ZED else ZR
  }

  /** Role and settings of a start command. */
  function StartRole(kind: Kind, env: Env): Running {
    if kind == FormNet then ZC else JoinRole(env)
  }

  function StartSetup(kind: Kind, env: Env): Setup {
    Setup(env.pan, env.key, if kind.JpanNet? then kind.epid else env.epid)
  }

  /** `execute`, with the handler found by name. */
  function Dispatch(s: State, kind: Kind, env: Env): State {
    match kind
    case FormNet => StartNetwork(s, StartRole(kind, env), StartSetup(kind, env))
    case JoinNet => StartNetwork(s, StartRole(kind, env), StartSetup(kind, env))
    case JpanNet(_) => StartNetwork(s, StartRole(kind, env), StartSetup(kind, env))
    case LeaveNet =>
      if s.core.storedRole == NoRole then Answered(s, AT_ERR_NOT_JOINED) else LeaveNetwork(s, OpLeave, env.joined)
    case FactoryReset =>
      if s.core.storedRole != NoRole then LeaveNetwork(s, OpFactory, env.joined) else s.(pc := Resetting(OpFactory))
    case Restart => Reset(Answered(s, AT_OK), [])
    case Other => Answered(s, env.result)
  }

  /** A blank device before its first boot. */
  const BLANK :=
    State(Core(OpNone, 0, false, false, NoRole, NoRole, "", false, [], [], false), Down, [], "", [], [], [])

  ghost predicate Run(s: State, es: seq<Event>, t: State)
    decreases |es|
  {
    if es == [] then s == t else Enabled(s, es[0]) && Run(Apply(s, es[0]), es[1..], t)
  }

  // ------------------------------------------------------------ the stored line

  /** AT+EN, AT+JN or AT+JPAN. */
  predicate Starts(kind: Kind) {
    kind == FormNet || kind == JoinNet || kind.JpanNet?
  }

  predicate Startable(line: string) {
    Starts(Classify(line))
  }

  /** A line the line queue can hold. */
  predicate LineFits(line: string) {
    '\0' !in line && |line| < AT_LINE_MAX
  }

  /** A deferred line comes back from flash and into the queue as it was typed. */
  lemma PendRoundTrip(line: string)
    requires LineFits(line)
    ensures LoadPend(Stored(line)) == line && Injected(line) == line
  {
    StoredRoundTrip(line, AT_LINE_MAX);
  }

  /** An injected line is cut to what a line can hold, and no further. */
  lemma InjectedExactly(line: string)
    ensures Injected(line) <= line && |Injected(line)| == if |line| < AT_LINE_MAX then |line| else AT_LINE_MAX - 1
    ensures '\0' !in line ==> LineFits(Injected(line))
  {
    assert Injected(line) == line[..|Injected(line)|];
  }

  // ------------------------------------------------------------ what every step keeps

  predicate InPan(op: Op) {
    op == OpForm || op == OpJoin
  }

  /** One start per boot, as the last call, with erase and role or the role alone in front. */
  predicate StartedOnce(c: Core) {
    if !c.started then c.calls == [] && !c.erased
    else
      && (forall i :: 0 <= i < |c.calls| ==> (c.calls[i] == Enable <==> i == |c.calls| - 1))
      && if c.erased then
           && |c.calls| >= 3 && c.calls[0] == Erase && c.calls[1].SetRole?
           && (forall i :: 0 <= i < |c.calls| && (c.calls[i].SetPan? || c.calls[i].SetKey?) ==>
                             c.calls[1] == SetRole(ZC))
         else |c.calls| == 2 && c.calls[0].SetRole?
  }

  /** RAM and flash agree on the role, no stored line waits, and no role is recorded while a start is under way. */
  predicate UpCore(c: Core) {
    && c.storedRole == c.flashRole && c.flashPend == ""
    && StartedOnce(c) && (c.storedRole != NoRole ==> c.started)
    && (InPan(c.op) ==> c.storedRole == NoRole && c.erased && c.started)
  }

  /** The operation and its semaphore, by where the AT thread is. */
  predicate OpMatches(s: State) {
    match s.pc
    case Waiting(op) =>
      && op != OpNone && (InPan(op) ==> s.core.started && s.core.erased)
      && (if s.core.token
          then && s.core.op == OpNone && s.completions != []
               && s.completions[|s.completions| - 1].op == op
               && s.completions[|s.completions| - 1].result == s.core.opResult
          else s.core.op == op)
    case TimedOut(op) =>
      op != OpNone && (s.core.op == op || s.core.op == OpNone) && (InPan(op) ==> s.core.started && s.core.erased)
    case _ => s.core.op == OpNone
  }

  /**
   A start that a signal ended with OK had its role recorded and JPAN printed by then; one ended with an error
   had none recorded.
   */
  predicate CompletionsRight(cs: seq<Completion>, ups: seq<UpCall>) {
    forall i :: 0 <= i < |cs| && InPan(cs[i].op) ==>
                  && (cs[i].result == AT_OK <==> cs[i].role != NoRole)
                  && (cs[i].result == AT_OK ==> PrintJpan in ups)
  }

  predicate QueueFits(s: State) {
    && |s.queue| <= LineEditor.LINE_Q_DEPTH && (forall i :: 0 <= i < |s.queue| ==> LineFits(s.queue[i]))
    && LineFits(s.current)
  }

  /** Where a deferred line is: in flash, first in the queue of a boot whose stack is still off, or being executed. */
  predicate DeferredKept(s: State) {
    s.deferred == [] ||
    (&& |s.deferred| == 1 && Startable(s.deferred[0]) && LineFits(s.deferred[0])
     && match s.pc
        case Down => s.core.flashPend == Stored(s.deferred[0])
        case Idle => s.queue != [] && s.queue[0] == s.deferred[0] && !s.core.started && s.core.storedRole == NoRole
        case Waiting(op) => s.current == s.deferred[0] && InPan(op)
        case TimedOut(op) => s.current == s.deferred[0] && InPan(op)
        case _ => false)
  }

  predicate Inv(s: State) {
    && QueueFits(s) && CompletionsRight(s.completions, s.core.ups) && DeferredKept(s)
    && if s.pc.Down? then
         && s.core == AfterReset(s.core) && s.queue == []
         && (s.core.flashPend == "" <==> s.deferred == [])
         && (s.core.flashPend != "" ==> s.core.flashRole == NoRole)
       else UpCore(s.core) && OpMatches(s)
  }

  lemma InitKeeps(s: State)
    requires Inv(s) && Enabled(s, Init)
    ensures Inv(Apply(s, Init))
  {
    if s.deferred != [] {
      PendRoundTrip(s.deferred[0]);
    }
  }

  /**
   `d` follows `c` by a signal: the stack is untouched, and an operation goes on or ends with its role recorded
   right.
   */
  predicate Follows(c: Core, d: Core) {
    && UpCore(d) && d.started && d.calls == c.calls && d.erased == c.erased
    && ((d.op == c.op && d.token == c.token) || (c.op != OpNone && d.op == OpNone && d.token))
    && (InPan(c.op) && d.op == OpNone ==>
          (d.opResult == AT_OK <==> d.storedRole != NoRole) && (d.opResult == AT_OK ==> PrintJpan in d.ups))
    && c.ups <= d.ups
  }

  lemma FirstStartKeepsCore(c: Core, sig: Signal)
    requires UpCore(c) && c.started && sig.FirstStart?
    ensures Follows(c, OnSignal(c, sig))
  {
  }

  lemma RoleAndCalls(c: Core, role: Running)
    requires c.storedRole == c.flashRole
    ensures NetworkUp(c, role) == c.(storedRole := role, flashRole := role, ups := c.ups + UpCalls(role))
    ensures PrintJpan in NetworkUp(c, role).ups && c.ups <= NetworkUp(c, role).ups
  {
  }

  lemma RebootKeepsCore(c: Core, sig: Signal)
    requires UpCore(c) && c.started && sig.Reboot? && !c.erased
    ensures Follows(c, OnSignal(c, sig))
  {
    RoleAndCalls(c, sig.role);
  }

  lemma FormationKeepsCore(c: Core, sig: Signal)
    requires UpCore(c) && c.started && sig.Formation?
    ensures Follows(c, OnSignal(c, sig))
  {
    RoleAndCalls(c, sig.role);
  }

  lemma SteeringKeepsCore(c: Core, sig: Signal)
    requires UpCore(c) && c.started && sig.Steering?
    ensures Follows(c, OnSignal(c, sig))
  {
    RoleAndCalls(c, sig.role);
  }

  lemma LeaveKeepsCore(c: Core, sig: Signal)
    requires UpCore(c) && c.started && sig.Leave?
    ensures Follows(c, OnSignal(c, sig))
  {
  }

  lemma SignalKeepsCore(c: Core, sig: Signal)
    requires UpCore(c) && c.started && (sig.Reboot? ==> !c.erased)
    ensures Follows(c, OnSignal(c, sig))
  {
    match sig
    case FirstStart(_, _) => FirstStartKeepsCore(c, sig);
    case Reboot(_, _) => RebootKeepsCore(c, sig);
    case Formation(_, _) => FormationKeepsCore(c, sig);
    case Steering(_, _, _) => SteeringKeepsCore(c, sig);
    case Leave(_, _) => LeaveKeepsCore(c, sig);
  }

  lemma SignalKeeps(s: State, sig: Signal)
    requires Inv(s) && Enabled(s, Stack(sig))
    ensures Inv(Apply(s, Stack(sig)))
  {
    SignalKeepsCore(s.core, sig);
  }

  lemma StartKeeps(s: State, role: Running, u: Setup)
    requires s.pc.Idle? && QueueFits(s) && CompletionsRight(s.completions, s.core.ups)
    requires UpCore(s.core) && s.core.op == OpNone
    requires Startable(s.current)
    requires s.deferred == [] || (s.deferred == [s.current] && !s.core.started && s.core.storedRole == NoRole)
    ensures Inv(StartNetwork(s, role, u))
  {
  }

  /** A handler of this file that starts nothing. */
  predicate Ready(s: State) {
    && s.pc.Idle? && QueueFits(s) && CompletionsRight(s.completions, s.core.ups)
    && UpCore(s.core) && s.core.op == OpNone
    && s.deferred == []
  }

  lemma LeaveKeeps(s: State, op: Op, joined: bool)
    requires Ready(s) && (op == OpLeave || op == OpFactory)
    ensures Inv(LeaveNetwork(s, op, joined))
  {
  }

  lemma AnswerKeeps(s: State, result: int)
    requires Ready(s)
    ensures Inv(Answered(s, result)) && Inv(Reset(Answered(s, result), [])) && Inv(s.(pc := Resetting(OpFactory)))
  {
  }

  lemma OtherKeeps(s: State, kind: Kind, env: Env)
    requires Ready(s) && !Starts(kind)
    ensures Inv(Dispatch(s, kind, env))
  {
    match kind
    case LeaveNet =>
      LeaveKeeps(s, OpLeave, env.joined);
      AnswerKeeps(s, AT_ERR_NOT_JOINED);
    case FactoryReset =>
      LeaveKeeps(s, OpFactory, env.joined);
      AnswerKeeps(s, AT_OK);
    case Restart => AnswerKeeps(s, AT_OK);
    case Other => AnswerKeeps(s, env.result);
  }

  lemma ExecuteKeeps(s: State, env: Env)
    requires Inv(s) && Enabled(s, Execute(env))
    ensures Inv(Apply(s, Execute(env)))
  {
    var u, kind := s.(queue := s.queue[1..], current := s.queue[0]), Classify(s.queue[0]);
    assert LineFits(s.queue[0]) && QueueFits(u);
    if Starts(kind) {
      StartKeeps(u, StartRole(kind, env), StartSetup(kind, env));
    } else {
      OtherKeeps(u, kind, env);
    }
  }

  lemma WaitKeeps(s: State, e: Event)
    requires Inv(s) && Enabled(s, e) && (e.OpDone? || e.Timeout?)
    ensures Inv(Apply(s, e))
  {
  }

  lemma AbandonKeeps(s: State)
    requires Inv(s) && Enabled(s, Abandon)
    ensures Inv(Apply(s, Abandon))
  {
  }

  lemma ResetKeeps(s: State, e: Event)
    requires Inv(s) && Enabled(s, e) && (e.Typed? || e.Forget? || e.Finish? || e.RebootWork? || e.PowerCycle?)
    ensures Inv(Apply(s, e))
  {
  }

  lemma StepKeepsInv(s: State, e: Event)
    requires Inv(s) && Enabled(s, e)
    ensures Inv(Apply(s, e))
  {
    match e
    case Init => InitKeeps(s);
    case Execute(env) => ExecuteKeeps(s, env);
    case Stack(sig) => SignalKeeps(s, sig);
    case OpDone => WaitKeeps(s, e);
    case Timeout => WaitKeeps(s, e);
    case Abandon => AbandonKeeps(s);
    case _ => ResetKeeps(s, e);
  }

  lemma {:induction false} RunKeepsInv(s: State, es: seq<Event>, t: State)
    requires Inv(s) && Run(s, es, t)
    ensures Inv(t)
    decreases |es|
  {
    if es != [] {
      StepKeepsInv(s, es[0]);
      RunKeepsInv(Apply(s, es[0]), es[1..], t);
    }
  }

  // ------------------------------------------------------------ what follows for every run

  lemma Reachable(es: seq<Event>, t: State)
    requires Run(BLANK, es, t)
    ensures Inv(t)
  {
    RunKeepsInv(BLANK, es, t);
  }

  /**
   The stack is enabled at most once per boot, as the last call that prepares it: NVRAM is erased first, the
   role comes next, and PAN ID and network key are set for a coordinator only.
   */
  lemma StackEnabledOncePerBoot(es: seq<Event>, t: State)
    requires Run(BLANK, es, t)
    ensures forall i :: 0 <= i < |t.core.calls| ==> (t.core.calls[i] == Enable <==> i == |t.core.calls| - 1)
    ensures t.core.started <==> Enable in t.core.calls
    ensures t.core.erased ==> |t.core.calls| >= 3 && t.core.calls[0] == Erase && t.core.calls[1].SetRole?
    ensures forall i :: 0 <= i < |t.core.calls| && (t.core.calls[i].SetPan? || t.core.calls[i].SetKey?) ==>
                          t.core.erased && t.core.calls[1] == SetRole(ZC)
    ensures t.core.started && !t.core.erased ==> |t.core.calls| == 2 && t.core.calls[0].SetRole?
  {
    Reachable(es, t);
    if t.core.started {
      assert t.core.calls[|t.core.calls| - 1] == Enable;
    }
  }

  /**
   The recorded role: outside a reset RAM and flash agree and no stored command is left (so the deletion in
   AT&F finds nothing); at a reset a stored command and a recorded role never come together.
   */
  lemma RoleAgreesWithFlash(es: seq<Event>, t: State)
    requires Run(BLANK, es, t)
    ensures !t.pc.Down? ==> t.core.storedRole == t.core.flashRole && t.core.flashPend == ""
    ensures t.core.flashPend == "" || t.core.flashRole == NoRole
  {
    Reachable(es, t);
  }

  /**
   A form or join that a signal ends has its role recorded at that moment if the result is OK and none
   recorded otherwise, and OK comes with JPAN printed; and the result the AT thread takes is that of its own operation.
   */
  lemma CompletionRecordsRole(es: seq<Event>, t: State)
    requires Run(BLANK, es, t)
    ensures forall i :: 0 <= i < |t.completions| && InPan(t.completions[i].op) ==>
                          && (t.completions[i].result == AT_OK <==> t.completions[i].role != NoRole)
                          && (t.completions[i].result == AT_OK ==> PrintJpan in t.core.ups)
    ensures Enabled(t, OpDone) ==>
              && t.completions != []
              && t.completions[|t.completions| - 1] ==
                 Completion(t.pc.op, t.core.opResult, t.completions[|t.completions| - 1].role)
    ensures Enabled(t, OpDone) && InPan(t.pc.op) ==>
              Apply(t, OpDone).answers == t.answers + [Answer(t.current, t.core.opResult)]
  {
    Reachable(es, t);
  }

  /** Steps of the AT thread, `zbc_init` included. */
  predicate AtStep(e: Event) {
    e.Init? || e.Execute? || e.OpDone? || e.Timeout? || e.Abandon?
  }

  /** How many of them a deferred line still needs at most. */
  function Rank(s: State): (r: nat)
    ensures r <= 4
  {
    match s.pc
    case Down => 4
    case Idle => 3
    case Waiting(_) => 2
    case TimedOut(_) => 1
    case _ => 0
  }

  /** A step that adds one answer, to this line. */
  predicate Answers(s: State, t: State, line: string) {
    |t.answers| == |s.answers| + 1 && s.answers <= t.answers && t.answers[|s.answers|].line == line
  }

  /**
   A deferred line is never deferred again: each step of the AT thread brings its answer nearer, the others do
   not take it away.
   */
  lemma DeferredStep(s: State, e: Event)
    requires Inv(s) && s.deferred != [] && Enabled(s, e) && !e.RebootWork? && !e.PowerCycle?
    ensures var t := Apply(s, e);
            || (t.deferred == s.deferred && t.answers == s.answers && Rank(t) <= Rank(s)
                && (AtStep(e) ==> Rank(t) < Rank(s)))
            || (t.deferred == [] && Rank(s) <= 2 && Answers(s, t, s.deferred[0]))
    ensures !Apply(s, e).pc.Down? || s.pc.Down?
  {
    if e.Init? {
      PendRoundTrip(s.deferred[0]);
    }
  }

  /** What the AT thread does next for it. */
  function NextStep(s: State): Event {
    match s.pc
    case Down => Init
    case Waiting(_) => if s.core.token then OpDone else Timeout
    case TimedOut(_) => Abandon
    case _ => Execute(QUIET)
  }

  /** The AT thread always has a step for it, whatever is typed or signalled meanwhile. */
  lemma DeferredNotStuck(s: State)
    requires Inv(s) && s.deferred != []
    ensures AtStep(NextStep(s)) && Enabled(s, NextStep(s))
  {
    DeferredSomewhere(s);
  }

  lemma DeferredSomewhere(s: State)
    requires DeferredKept(s) && s.deferred != []
    ensures s.pc.Idle? ==> s.queue != []
    ensures !s.pc.Leaving? && !s.pc.Resetting?
  {
  }

  /** Nothing joined, nothing set. */
  const QUIET := Env(false, false, 0, false, false, 0)

  function AtSteps(es: seq<Event>): nat {
    if es == [] then 0 else (if AtStep(es[0]) then 1 else 0) + AtSteps(es[1..])
  }

  predicate NoResets(es: seq<Event>) {
    forall i :: 0 <= i < |es| ==> !es[i].RebootWork? && !es[i].PowerCycle?
  }

  /** `defer_to_next_boot`. */
  predicate SilentReboot(s: State, e: Event) {
    e.Execute? && Enabled(s, e) && Apply(s, e).pc.Down? && Apply(s, e).deferred != []
  }

  function SilentReboots(s: State, es: seq<Event>): nat
    decreases |es|
  {
    if es == [] || !Enabled(s, es[0]) then 0
    else (if SilentReboot(s, es[0]) then 1 else 0) + SilentReboots(Apply(s, es[0]), es[1..])
  }

  /** Along `es` the next answer is one to this line, and at most `reboots` silent reboots come before it. */
  predicate AnswerComes(s: State, es: seq<Event>, line: string, reboots: nat)
    decreases |es|
  {
    && es != [] && Enabled(s, es[0])
    && var t := Apply(s, es[0]);
       if t.answers != s.answers then Answers(s, t, line)
       else if SilentReboot(s, es[0]) then reboots > 0 && AnswerComes(t, es[1..], line, reboots - 1)
       else AnswerComes(t, es[1..], line, reboots)
  }

  /** After `n` steps there is one answer more, to this line. */
  ghost predicate AnsweredAfter(s: State, es: seq<Event>, n: nat, line: string) {
    n <= |es| && exists t :: Run(s, es[..n], t) && Answers(s, t, line)
  }

  lemma AnsweredLater(s: State, es: seq<Event>, n: nat, line: string)
    requires es != [] && Enabled(s, es[0]) && Apply(s, es[0]).answers == s.answers
    requires AnsweredAfter(Apply(s, es[0]), es[1..], n, line)
    ensures AnsweredAfter(s, es, n + 1, line)
    ensures SilentReboots(s, es[..n + 1]) ==
            (if SilentReboot(s, es[0]) then 1 else 0) + SilentReboots(Apply(s, es[0]), es[1..][..n])
  {
    var u := Apply(s, es[0]);
    assert es[..n + 1][1..] == es[1..][..n];
    var t :| Run(u, es[1..][..n], t) && Answers(u, t, line);
    assert Run(s, es[..n + 1], t) && Answers(s, t, line);
  }

  lemma AnsweredNow(s: State, es: seq<Event>, line: string)
    requires es != [] && Enabled(s, es[0]) && Answers(s, Apply(s, es[0]), line)
    ensures AnsweredAfter(s, es, 1, line) && SilentReboots(s, es[..1]) <= 1
    ensures !SilentReboot(s, es[0]) ==> SilentReboots(s, es[..1]) == 0
  {
    var t := Apply(s, es[0]);
    assert es[..1] == [es[0]] && [es[0]][1..] == [];
    assert Run(t, [], t);
    assert Run(s, es[..1], t);
  }

  /** A handler that ends in a reset and a stored line is the start of a network, and answers nothing. */
  lemma DispatchReboots(s: State, kind: Kind, env: Env)
    requires s.pc.Idle?
    ensures var t := Dispatch(s, kind, env);
            t.pc.Down? && t.deferred != [] <==> Starts(kind) && s.core.storedRole == NoRole && s.core.started
    ensures var t := Dispatch(s, kind, env);
            t.pc.Down? && t.deferred != [] ==> t.deferred == [s.current] && t.answers == s.answers
  {
  }

  lemma SilentIsSilent(s: State, e: Event)
    requires SilentReboot(s, e)
    ensures Apply(s, e).answers == s.answers
  {
    DispatchReboots(s.(queue := s.queue[1..], current := s.queue[0]), Classify(s.queue[0]), e.env);
  }

  /** Said with counts: the answer is a new one, and so many silent reboots came before it. */
  lemma {:induction false} AnswerCounted(s: State, es: seq<Event>, line: string, reboots: nat)
    requires AnswerComes(s, es, line, reboots)
    ensures exists n: nat :: n <= |es| && AnsweredAfter(s, es, n, line) && SilentReboots(s, es[..n]) <= reboots
    decreases |es|
  {
    var u := Apply(s, es[0]);
    if u.answers != s.answers {
      if SilentReboot(s, es[0]) {
        SilentIsSilent(s, es[0]);
      }
      AnsweredNow(s, es, line);
    } else {
      var left := if SilentReboot(s, es[0]) then reboots - 1 else reboots;
      AnswerCounted(u, es[1..], line, left);
      var n: nat :| n <= |es[1..]| && AnsweredAfter(u, es[1..], n, line) && SilentReboots(u, es[1..][..n]) <= left;
      AnsweredLater(s, es, n, line);
    }
  }

  /**
   From the moment a line is stored, four steps of the AT thread without a further reset bring its answer,
   with any signals and any typed lines in between, no other answer before it and no further silent reboot:
   `reboots` may be 0.
   */
  lemma {:induction false} DeferredIsAnswered(s: State, es: seq<Event>, t: State, reboots: nat)
    requires Inv(s) && s.deferred != [] && Run(s, es, t) && NoResets(es)
    requires AtSteps(es) >= Rank(s)
    ensures AnswerComes(s, es, s.deferred[0], reboots)
    decreases |es|
  {
    if es != [] {
      var u := Apply(s, es[0]);
      DeferredStep(s, es[0]);
      StepKeepsInv(s, es[0]);
      if u.deferred != [] {
        assert !u.pc.Down?;
        DeferredIsAnswered(u, es[1..], t, reboots);
      }
    }
  }

  /** A start command waits for its operation in this boot. */
  predicate Starting(s: State) {
    s.deferred == [] && ((s.pc.Waiting? && InPan(s.pc.op)) || (s.pc.TimedOut? && InPan(s.pc.op)))
  }

  lemma StartingStep(s: State, e: Event)
    requires Inv(s) && Starting(s) && Enabled(s, e) && !e.RebootWork? && !e.PowerCycle?
    ensures var t := Apply(s, e);
            || (Starting(t) && t.current == s.current && Rank(t) <= Rank(s) && (AtStep(e) ==> Rank(t) < Rank(s))
                && t.answers == s.answers)
            || Answers(s, t, s.current)
  {
  }

  lemma {:induction false} StartingIsAnswered(s: State, es: seq<Event>, t: State, reboots: nat)
    requires Inv(s) && Starting(s) && Run(s, es, t) && NoResets(es)
    requires AtSteps(es) >= Rank(s)
    ensures AnswerComes(s, es, s.current, reboots)
    decreases |es|
  {
    if es != [] {
      var u := Apply(s, es[0]);
      StartingStep(s, es[0]);
      StepKeepsInv(s, es[0]);
      if u.answers == s.answers {
        StartingIsAnswered(u, es[1..], t, reboots);
      }
    }
  }

  /** Executing a start command answers it, starts it, or stores it. */
  lemma StartExecuted(s: State, e: Event)
    requires Inv(s) && e.Execute? && Enabled(s, e) && Startable(s.queue[0])
    ensures var u, line := Apply(s, e), s.queue[0];
            || (Answers(s, u, line) && !u.pc.Down?)
            || (u.answers == s.answers && Starting(u) && u.current == line && Rank(u) == 2)
            || (u.answers == s.answers && u.deferred == [line] && Rank(u) <= 4)
  {
  }

  /**
   Every AT+EN, AT+JN and AT+JPAN that the AT thread takes up is answered once the thread has made five steps
   without a further reset: the next answer is a new one to this command, after at most one silent reboot.
   */
  lemma StartIsAnswered(s: State, es: seq<Event>, t: State)
    requires Inv(s) && Run(s, es, t) && NoResets(es) && es != [] && es[0].Execute? && Startable(s.queue[0])
    requires AtSteps(es) >= 5
    ensures AnswerComes(s, es, s.queue[0], 1)
    ensures exists n: nat :: n <= |es| && AnsweredAfter(s, es, n, s.queue[0]) && SilentReboots(s, es[..n]) <= 1
  {
    var u, line := Apply(s, es[0]), s.queue[0];
    StartExecuted(s, es[0]);
    StepKeepsInv(s, es[0]);
    if u.answers == s.answers {
      var left := if SilentReboot(s, es[0]) then 0 else 1;
      if Starting(u) {
        StartingIsAnswered(u, es[1..], t, left);
      } else {
        DeferredIsAnswered(u, es[1..], t, left);
      }
    }
    AnswerCounted(s, es, line, 1);
  }

  /** The other steps reset, if at all, without a line to answer. */
  lemma OtherResets(s: State, e: Event)
    requires Inv(s) && Enabled(s, e) && !s.pc.Down? && !e.Execute?
    ensures Apply(s, e).pc.Down? ==> Apply(s, e).deferred == []
  {
  }

  /** Only a start command on a node without a network, in a boot whose stack runs, takes the silent reboot. */
  lemma SilentRebootExactlyWhen(es: seq<Event>, t: State, e: Event)
    requires Run(BLANK, es, t) && Enabled(t, e) && !t.pc.Down?
    ensures Apply(t, e).pc.Down? && Apply(t, e).deferred != [] <==>
            e.Execute? && Startable(t.queue[0]) && t.core.storedRole == NoRole && t.core.started
    ensures Apply(t, e).pc.Down? && Apply(t, e).deferred != [] ==>
              t.deferred == [] && Apply(t, e).deferred == [t.queue[0]] && Apply(t, e).answers == t.answers
  {
    Reachable(es, t);
    if e.Execute? {
      DispatchReboots(t.(queue := t.queue[1..], current := t.queue[0]), Classify(t.queue[0]), e.env);
    } else {
      OtherResets(t, e);
    }
  }

  lemma EnIsForm()
    ensures Classify("AT+EN") == FormNet
  {
    var p := "AT+EN"[2..];
    assert p == "+EN";
    assert NameLength(p[3..]) == 0;
    assert NameLength(p[2..]) == 1 by { assert p[2..][1..] == p[3..]; }
    assert NameLength(p[1..]) == 2 by { assert p[1..][1..] == p[2..]; }
    assert NameLength(p) == 3;
    assert p[..3] == "+EN" && p[3..] == "";
  }

  lemma RunSnoc(s: State, es: seq<Event>, t: State, e: Event)
    requires Run(s, es, t) && Enabled(t, e)
    ensures Run(s, es + [e], Apply(t, e))
    decreases |es|
  {
    if es == [] {
      assert [e][1..] == [];
    } else {
      assert (es + [e])[1..] == es[1..] + [e];
      RunSnoc(Apply(s, es[0]), es[1..], t, e);
    }
  }

  /** One AT+EN, typed and started. */
  lemma EnStarts() returns (es: seq<Event>, t: State)
    ensures Run(BLANK, es, t) && t.pc == Waiting(OpForm) && t.current == "AT+EN" && t.answers == []
    ensures t.core.started && t.core.op == OpForm && !t.core.token && t.core.storedRole == NoRole
  {
    EnIsForm();
    var s1 := Apply(BLANK, Init);
    var s2 := Apply(s1, Typed("AT+EN"));
    var e := Execute(QUIET);
    assert s2.queue == ["AT+EN"];
    t := Apply(s2, e);
    RunSnoc(BLANK, [], BLANK, Init);
    RunSnoc(BLANK, [] + [Init], s1, Typed("AT+EN"));
    RunSnoc(BLANK, [] + [Init] + [Typed("AT+EN")], s2, e);
    es := [] + [Init] + [Typed("AT+EN")] + [e];
  }

  /** And timed out. */
  lemma EnTimesOut() returns (es: seq<Event>, t: State)
    ensures Run(BLANK, es, t) && t.pc == Idle && t.answers == [Answer("AT+EN", AT_ERR_CANNOT_FORM)]
    ensures t.core.started && t.core.op == OpNone
  {
    var started, s := EnStarts();
    var late := Apply(s, Timeout);
    RunSnoc(BLANK, started, s, Timeout);
    RunSnoc(BLANK, started + [Timeout], late, Abandon);
    es, t := started + [Timeout] + [Abandon], Apply(late, Abandon);
  }

  /**
   The answer and the role agree only for operations ended by a signal: after AT+EN was answered with a
   timeout, a late FORMATION still records the role.
   */
  lemma LateFormationRecordsRole()
    ensures exists es: seq<Event>, t: State ::
              && Run(BLANK, es, t) && t.pc == Idle
              && t.answers == [Answer("AT+EN", AT_ERR_CANNOT_FORM)] && t.core.storedRole == ZC
  {
    var es, t := EnTimesOut();
    var late := Stack(Formation(true, ZC));
    RunSnoc(BLANK, es, t, late);
    assert Run(BLANK, es + [late], Apply(t, late));
  }

  /**
   Is a role recorded after this step of a boot that started a network of its own, given whether one was before
   and whether a leave is in progress? Only a FORMATION records one.
   */
  predicate RoleAfter(recorded: bool, leaving: bool, e: Event) {
    if e.Forget? then false
    else if !e.Stack? then recorded
    else
      match e.sig
      case Formation(ok, _) => ok || recorded
      case FirstStart(_, _) => false
      case Leave(ok, rejoin) => recorded && (leaving || !ok || rejoin)
      case _ => recorded
  }

  predicate RoleLater(recorded: bool, s: State, es: seq<Event>)
    decreases |es|
  {
    if es == [] || !Enabled(s, es[0]) then recorded
    else RoleLater(RoleAfter(recorded, s.core.op != OpNone, es[0]), Apply(s, es[0]), es[1..])
  }

  predicate Forms(e: Event) {
    e.Stack? && e.sig.Formation? && e.sig.ok
  }

  lemma {:induction false} RoleNeedsFormation(s: State, es: seq<Event>)
    requires RoleLater(false, s, es)
    ensures exists i :: 0 <= i < |es| && Forms(es[i])
    decreases |es|
  {
    if !Forms(es[0]) {
      RoleNeedsFormation(Apply(s, es[0]), es[1..]);
      var i :| 0 <= i < |es[1..]| && Forms(es[1..][i]);
      assert Forms(es[i + 1]);
    }
  }

  /** No reset: `es` is part of the boot of `s`. */
  predicate SameBoot(s: State, es: seq<Event>)
    decreases |es|
  {
    es == [] || (Enabled(s, es[0]) && !Apply(s, es[0]).pc.Down? && SameBoot(Apply(s, es[0]), es[1..]))
  }

  /** A boot that started a network of its own, after that start. */
  predicate Settled(s: State) {
    Inv(s) && !s.pc.Down? && s.core.started && s.core.erased && !InPan(s.core.op)
  }

  lemma DispatchKeepsRole(s: State, kind: Kind, env: Env)
    requires s.pc.Idle? && s.core.started && s.core.erased && s.core.op == OpNone && !Dispatch(s, kind, env).pc.Down?
    ensures var t := Dispatch(s, kind, env);
            t.core.storedRole == s.core.storedRole && t.core.started && t.core.erased && !InPan(t.core.op)
  {
  }

  lemma SettledSignal(c: Core, sig: Signal)
    requires c.started && c.erased && !InPan(c.op) && !sig.Reboot?
    ensures var d := OnSignal(c, sig);
            && d.started && d.erased && !InPan(d.op)
            && (d.storedRole != NoRole <==> RoleAfter(c.storedRole != NoRole, c.op != OpNone, Stack(sig)))
  {
  }

  lemma SettledOther(s: State, e: Event)
    requires Settled(s) && Enabled(s, e) && !e.Execute? && !e.Stack? && !Apply(s, e).pc.Down?
    ensures var t := Apply(s, e); t.core.started && t.core.erased && !InPan(t.core.op)
    ensures Apply(s, e).core.storedRole != NoRole <==>
            RoleAfter(s.core.storedRole != NoRole, s.core.op != OpNone, e)
  {
  }

  lemma SettledStep(s: State, e: Event)
    requires Settled(s) && Enabled(s, e) && !Apply(s, e).pc.Down?
    ensures Settled(Apply(s, e))
    ensures Apply(s, e).core.storedRole != NoRole <==>
            RoleAfter(s.core.storedRole != NoRole, s.core.op != OpNone, e)
  {
    StepKeepsInv(s, e);
    if e.Execute? {
      DispatchKeepsRole(s.(queue := s.queue[1..], current := s.queue[0]), Classify(s.queue[0]), e.env);
    } else if e.Stack? {
      SettledSignal(s.core, e.sig);
    } else {
      SettledOther(s, e);
    }
  }

  /**
   In the rest of such a boot, whatever is typed, executed and signalled: a role is gained by a successful
   FORMATION only, and lost by FIRST_START, by a LEAVE for good that no command asked for, and at the end of a
   leaving command.
   */
  lemma {:induction false} LateRoleExactlyWhen(s: State, es: seq<Event>, t: State)
    requires Settled(s) && Run(s, es, t) && SameBoot(s, es)
    ensures Settled(t) && (t.core.storedRole != NoRole <==> RoleLater(s.core.storedRole != NoRole, s, es))
    decreases |es|
  {
    if es != [] {
      SettledStep(s, es[0]);
      LateRoleExactlyWhen(Apply(s, es[0]), es[1..], t);
    }
  }

  /**
   A form or join that times out: no role is recorded at that moment unless a signal ended the operation just
   before, and at any later moment of that boot one is recorded exactly if a successful FORMATION came that
   nothing has undone since.
   */
  lemma TimedOutStartGetsRole(es: seq<Event>, t: State, later: seq<Event>, u: State)
    requires Run(BLANK, es, t) && Enabled(t, Abandon) && InPan(t.pc.op)
    requires Run(Apply(t, Abandon), later, u) && SameBoot(Apply(t, Abandon), later)
    ensures t.core.op == t.pc.op ==> t.core.storedRole == NoRole
    ensures Apply(t, Abandon).answers[|t.answers|].result != AT_OK
    ensures u.core.storedRole != NoRole <==> RoleLater(t.core.storedRole != NoRole, Apply(t, Abandon), later)
    ensures t.core.op == t.pc.op && u.core.storedRole != NoRole ==> exists i :: 0 <= i < |later| && Forms(later[i])
  {
    Reachable(es, t);
    StepKeepsInv(t, Abandon);
    LateRoleExactlyWhen(Apply(t, Abandon), later, u);
    if t.core.storedRole == NoRole && u.core.storedRole != NoRole {
      RoleNeedsFormation(Apply(t, Abandon), later);
    }
  }

  // ------------------------------------------------------------ the code

  /** The statics of zb_core.c, the two settings keys, and the handlers. */
  class Control {
    var op: Op
    var opResult: int
    var token: bool
    var started: bool
    var storedRole: Role
    var flashRole: Role
    var flashPend: string
    var erased: bool
    var calls: seq<Call>
    var ups: seq<UpCall>
    var rebootDue: bool

    ghost function View(): Core
      reads this
    {
      Core(op, opResult, token, started, storedRole, flashRole, flashPend, erased, calls, ups, rebootDue)
    }

    constructor (flashRole: Role, flashPend: string)
      ensures View() == Core(OpNone, 0, false, false, NoRole, flashRole, flashPend, false, [], [], false)
    {
      op, opResult, token, started, storedRole := OpNone, 0, false, false, NoRole;
      erased, calls, ups, rebootDue := false, [], [], false;
      this.flashRole, this.flashPend := flashRole, flashPend;
    }

    /** `role_save`. */
    method SaveRole(role: Role)
      modifies this
      ensures View() == RoleSave(old(View()), role)
    {
      storedRole := role;
      flashRole := role;
    }

    /** `complete`: only an operation in progress is ended, and only once. */
    method CompleteOp(result: int)
      modifies this
      ensures View() == Complete(old(View()), result)
    {
      if op != OpNone {
        opResult := result;
        op := OpNone;
        token := true;
      }
    }

    /** `network_up`. */
    method OnNetworkUp(role: Running)
      modifies this
      ensures View() == NetworkUp(old(View()), role)
    {
      if storedRole != role {
        SaveRole(role);
      }
      ups := ups + [TxPower];
      if role == ZC {
        ups := ups + [LegacyTc];
      }
      ups := ups + [JoinPolicy];
      ups := ups + [PrintJpan];
    }

    /** `zboss_signal_handler`. */
    method Handle(sig: Signal)
      modifies this
      ensures View() == OnSignal(old(View()), sig)
    {
      match sig {
        case FirstStart(ok, commissioning) =>
          if op == OpForm {
            if !ok || !commissioning {
              CompleteOp(AT_ERR_CANNOT_FORM);
            }
          } else if op == OpJoin {
            if !ok || !commissioning {
              CompleteOp(AT_ERR_CANNOT_JOIN);
            }
          } else {
            SaveRole(NoRole);
          }
        case Reboot(ok, role) =>
          if ok {
            OnNetworkUp(role);
          }
        case Formation(ok, role) =>
          if ok {
            OnNetworkUp(role);
            CompleteOp(AT_OK);
          } else {
            CompleteOp(AT_ERR_CANNOT_FORM);
          }
        case Steering(ok, joined, role) =>
          if role == ZC {
          } else if op == OpJoin {
            if ok && joined {
              OnNetworkUp(role);
              CompleteOp(AT_OK);
            } else {
              CompleteOp(AT_ERR_CANNOT_JOIN);
            }
          } else if storedRole != NoRole {
            if ok && joined {
              OnNetworkUp(role);
            }
          }
        case Leave(ok, rejoin) =>
          if op == OpJoin {
            SaveRole(NoRole);
            CompleteOp(AT_ERR_CANNOT_JOIN);
          } else if op == OpLeave || op == OpFactory {
            CompleteOp(AT_OK);
          } else if !ok || rejoin {
          } else if storedRole != NoRole {
            SaveRole(NoRole);
            rebootDue := true;
          }
      }
    }

    /** `prepare_new_network`. */
    method PrepareNetwork(role: Running, u: Setup)
      modifies `erased, `calls
      ensures erased && calls == old(calls) + Preparation(role, u)
    {
      ghost var before := calls;
      erased := true;
      ghost var done: seq<Call> := [Erase, SetRole(role)];
      calls := calls + [Erase];
      calls := calls + [SetRole(role)];
      assert calls == before + done;
      if role == ZC {
        if u.pan != 0 {
          calls := calls + [SetPan(u.pan)];
          done := done + [SetPan(u.pan)];
        }
        if u.key {
          calls := calls + [SetKey];
          done := done + [SetKey];
        }
      }
      if u.epid {
        calls := calls + [SetEpid];
        done := done + [SetEpid];
      }
      assert calls == before + done;
    }

    /** `start_network` up to the point where it answers, reboots or waits. */
    method StartNet(line: string, role: Running, u: Setup) returns (next: Pc, answer: int)
      modifies this
      ensures old(storedRole) != NoRole ==> next == Idle && answer == AT_ERR_IN_PAN && View() == old(View())
      ensures old(storedRole) == NoRole && old(started) ==>
                next == Down && View() == old(View()).(flashPend := Stored(line))
      ensures old(storedRole) == NoRole && !old(started) ==>
                next == Waiting(if role == ZC then OpForm else OpJoin) && View() == BeginStart(old(View()), role, u)
    {
      answer := AT_OK;
      if storedRole != NoRole {
        return Idle, AT_ERR_IN_PAN;
      }
      if started {
        flashPend := Stored(line);
        return Down, AT_OK;
      }
      PrepareNetwork(role, u);
      token := false;
      op := if role == ZC then OpForm else OpJoin;
      started := true;
      calls := calls + [Enable];
      Regroup(old(calls), Preparation(role, u), [Enable]);
      next := Waiting(op);
    }

    /** `zbc_init`: returns the line to inject, if one was stored; it is deleted first. */
    method InitBoot() returns (inject: string)
      modifies this
      ensures View() == BootInit(old(View())) && inject == Injected(LoadPend(old(flashPend)))
    {
      storedRole := flashRole;
      var pending := LoadPend(flashPend);
      inject := "";
      if pending != "" {
        flashPend := "";
        inject := Injected(pending);
      } else if storedRole != NoRole {
        calls := calls + [SetRole(storedRole)];
        started := true;
        calls := calls + [Enable];
      }
    }
  }
}
