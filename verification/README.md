# Verification of the AT-command Zigbee module

A Dafny model of the firmware that turns an nRF54L15 into an AT-command Zigbee module, and of the Python
host library that talks to it, with proofs of what the two promise. The hard parts of this system are state
shared by an interrupt, the RX thread, the AT thread and the ZBOSS thread, state that survives a reboot, and
text that C prints and Python parses, or the reverse.

`dafny verify dfyconfig.toml` checks everything.

## How it is modelled

Shared state is a `State` with `Event`s: `Enabled` says when a step can happen, `Apply` what it does, and
`Run(s, es, t)` that `es` is one interleaving from `s` to `t`. Thread code is split at semaphore, mutex, queue
and atomic operations; an interrupt callback is one step. Main results hold for every `Run` from the boot
state. Beside each machine a class holds the C statics, and its methods are the C functions, proved equal to the
functions the machine is made of. Parsers and printers are functions on text; their C loops are methods on
arrays, proved equal to them.

| Module | Models |
|---|---|
| `UartTx` | ring buffer, chained DMA transfers, the `tx_idle` token, `tx_lock` |
| `UartRx` | three reference-counted RX blocks, the event queue, stop and restart |
| `LineEditor` | CR, LF, backspace, sticky overflow |
| `BinaryEntry` | `AT+SENDUCASTB` taking bytes out of the same stream, with timeout |
| `Unicast` | slots, in-flight table and counter shared by `submit`, `tx_send`, `tx_done` |
| `Network` | `op`, `op_done`, the recorded role and the stored command across reboots |
| `NetworkRuns` | what signals, boots and commands do in every run, by effect; the command names |
| `SRegValue`, `SReg` | validation, typed readers, bits; the RAM table, its flash copy, the password |
| `TextFields`, `Requests`, `Senducast` | comma fields cut in place; `AT+MATCHREQ` and `AT+SENDUCAST` from host to firmware |
| `LineReader`, `Prompts`, `Host` | the host's line splitting, prompt parser and routing of lines |
| `Printer`, `Notices` | the prompts the firmware prints, and their round trips through the host |
| `PromptGrammar` | the grammar of the host's prompt parser, as spellings |
| `Delivery` | transmit machine, line reader, parser and routing put together, over any number of lines, '>'s and echoed pieces |
| `Echo`, `Session` | when the host can tell the echo of a command apart; commands from the wire to the parsers, and back |
| `AtFmt`, `CText`, `AtResults`, `Settings` | hex helpers, C strings, `strtol`, printf conversions, result codes, saved texts |
| `Streams`, `Wrappers` | streams in pieces, Option and Result |

A byte of a text stream is a `char` below 256. Contracts taken for code outside the repository: `uart_tx` sends a
prefix of what it was given and calls back once; a claim on the ring is empty only if the ring is; the RX driver
fills its first buffer from the front and asks for at most one more; the slab and the queues of Zephyr; the stack
gives no buffer id twice before it is freed, and calls `tx_done` once per buffer it queued; settings are saved and
deleted without error; a started stack sends signals in any order, but after an NVRAM erase never REBOOT.

## What does not hold, and when it does

- Bytes in the ring are not always on their way. With the lock free and bytes in the ring, a transfer runs if and
  only if the last `uart_tx` was accepted (`UartTx.RingDrainsExactlyWhen`), and when the driver has nothing left to do
  all lines are sent if and only if it was (`UartTx.EverythingIsSent`). `UartTx.RefusedTransferStalls` is a run with one
  refusal that leaves a byte.
- Received bytes are lost exactly when the event queue is full (`UartRx.PieceLostIffQueueFull`).
- The answer to `AT+EN` or `AT+JN` and the recorded role agree for every start that a signal ends
  (`Network.CompletionRecordsRole`), not for one that times out. When it times out no role is recorded unless a signal
  came just before, and at any later moment of that boot one is recorded if and only if a successful FORMATION came
  that no FIRST_START, no LEAVE and no leaving command has undone since (`Network.TimedOutStartGetsRole`).
  `Network.LateFormationRecordsRole` is such a run.
- After `AT+DASSL` or `AT&F` has answered OK the node can still boot into its network: a REBOOT or FORMATION with OK
  between the clearing of the role and the reset records it again (`NetworkRuns.LeftButRecorded`, a node asked to leave
  while it rejoins). The role at the next boot is exactly that of the last network that came up in between and was not
  lost (`NetworkRuns.LeftRoleExactlyWhen`).
- The host does not always tell the echo of a command from an answer. The RX thread echoes piece by piece, and a line
  that the firmware prints between two pieces ends the first of them: wherever the echo is cut and whatever is printed
  there, the first half is handed to the command as a line of its answer (`Echo.CutEchoIsAnAnswer`). History and
  answers are exactly those meant if and only if every line that ends in the echo is empty or the whole command
  (`Delivery.ReportsReachTheHost`), which for one command means that no line of the firmware falls into its echo
  (`Echo.CommandEchoExactlyWhen`). The reports themselves are never lost or changed by an echo.
- A text prompt reaches the host intact exactly when its data has at most 255 bytes and neither CR nor LF
  (`Printer.TextArrives`); a raw RX prompt exactly when the shown payload has neither (`Printer.RxRawArrives`). In
  hex mode every frame arrives (`Printer.RxHexArrives`).
- A single-bit write that sets a bit beyond the register's width is refused; one that clears such a bit answers OK
  and changes nothing (`SReg.BitWriteAccepted`, `SReg.BitWriteMeaning`).
- `MatchDesc:` shows at most 31 endpoints: the line buffer holds no more (`Notices.MatchLine`).
- The host's comment on `LineReader` speaks of a bare `>`; the code reports every `>` in front of a line as a line
  of its own (`LineReader.ReaderMeetsReference`). The repository's README gives the RX prompt without saying that
  the payload is cut to 128 bytes; the code cuts it, and `<len>` is the cut length.

## Model

| member | source | states |
|---|---|---|
| UartTx.StreamConservation | app/src/at_uart.c:116-171 | over every interleaving of writers and TX callbacks: exactly one of the token, a running transfer and a thread in tx_start; bytes are claimed only for a running transfer or one being taken back; sent, ring and not yet copied bytes are the lines in lock order |
| UartTx.RunKeepsInv | app/src/at_uart.c:116-171 | the same from any state that satisfies the invariant, and the wire is always a prefix of the lines |
| UartTx.RunExtends | app/src/at_uart.c:163-171 | what was sent is never taken back, and lines keep their order |
| UartTx.RingDrainsExactlyWhen | app/src/at_uart.c:116-171 | whatever the driver answers, with the lock free and bytes in the ring a transfer runs if and only if the last uart_tx was accepted |
| UartTx.RefusedTransferStalls | app/src/at_uart.c:121-124 | a run in which one refused uart_tx leaves a byte in the ring with no transfer and no writer |
| UartTx.StepDecreases | app/src/at_uart.c:128-149 | every step except taking the lock lowers a measure of bytes left, ring fill and place in the code; a refused or empty transfer raises it by less than ten |
| UartTx.NotStuck | app/src/at_uart.c:128-171 | while the lock is held or a transfer runs, the holder or the driver can move |
| UartTx.EverythingIsSent | app/src/at_uart.c:128-171 | for any driver: the steps are bounded by the measure and the refusals; when none is left the lock is free, and the wire carries exactly all lines if and only if the last uart_tx was accepted |
| UartTx.ReachableSane | app/src/at_uart.c:116-171 | every state of a run from boot is one the two results above speak of, with its last answer |
| UartTx.CanFinish | app/src/at_uart.c:128-171 | from every reachable state whose last uart_tx was accepted, thread and driver can finish what is begun |
| UartTx.AnythingCanBeSent | app/src/at_uart.c:128-171 | for any lines in any order there is a run from boot that sends exactly these and ends at rest |
| UartTx.Uart.RingPut | app/src/at_uart.c:133-136 | as much as fits goes behind what is in the ring |
| UartTx.Uart.StartTransfer | app/src/at_uart.c:116-125 | the whole state after tx_start for any claim and any answer: a transfer runs, or the token is back |
| UartTx.Uart.TransferEnds | app/src/at_uart.c:163-171 | the whole state after the end of a transfer of any length; no byte is lost or repeated |
| UartTx.Uart.WaitIdle | app/src/at_uart.c:138 | with a driver that refuses finitely often, and then in no known place: ends with the token taken, no transfer running and nothing lost |
| UartTx.Uart.Write | app/src/at_uart.c:128-142 | ends for every length, with exactly the data behind everything written before |
| UartTx.Uart.FlushRing | app/src/at_uart.c:144-149 | whatever the driver answers, afterwards a ring that is not empty is being transferred if and only if the last uart_tx was accepted |
| UartTx.Uart.PrintParts | app/src/at_uart.c:386-402 | one whole line with CR LF around it goes behind everything written before, and is on its way if and only if the last uart_tx was accepted |
| UartRx.BlockOfInterior | app/src/at_uart.c:61-66 | rx_block recovers the block from a pointer to any of its data bytes |
| UartRx.ReferenceCounts | app/src/at_uart.c:61-106 | in every reachable state a count is driver plus queued events plus thread; a block is free iff its count is 0 and it is not being freed; no free block is pointed into |
| UartRx.ReceivedBytesArriveIntact | app/src/at_uart.c:172-195 | the thread sees every queued byte once, in order and unchanged, whatever the driver writes meanwhile |
| UartRx.PieceLostIffQueueFull | app/src/at_uart.c:172-180 | a received piece is lost exactly when the queue is full, and then the counts are as before |
| UartRx.AllFreeWhenQuiet | app/src/at_uart.c:307-317 | driver stopped and released, queue empty, thread at rest: all three blocks are free |
| UartRx.ReceptionResumes | app/src/at_uart.c:307-317 | a stopped driver cannot starve: the backlog is finite, then rx_enable finds a block and reception goes on |
| UartRx.RunKeepsInv | app/src/at_uart.c:61-106 | counts, free list, byte contents and order are kept by every run |
| UartRx.Receiver.AllocBuffer | app/src/at_uart.c:68-77 | a free block with count 1, or nothing changed when there is none |
| UartRx.Receiver.RefBuffer | app/src/at_uart.c:79-82 | the count of the block a pointer lies in goes up by one, others stay |
| UartRx.Receiver.UnrefBuffer | app/src/at_uart.c:84-91 | the last reference puts the block back |
| UartRx.Receiver.OnReady | app/src/at_uart.c:172-180 | queued with one more reference, or dropped with counts and queue as they were |
| UartRx.Receiver.OnBufRequest | app/src/at_uart.c:181-190 | a block is given exactly if two queue places and a block are free and the driver takes it; else nothing leaks |
| UartRx.Receiver.RestartIfStopped | app/src/at_uart.c:313-316 | RX comes back exactly if it stopped, the queue is empty, a block is free and the driver accepts it; else nothing leaks |
| LineEditor.EditorMeetsReference | app/src/at_uart.c:244-275 | the lines of every stream are those of a reference without editor state |
| LineEditor.FeedInPieces | app/src/at_uart.c:277-290 | how a stream is cut into received pieces makes no difference |
| LineEditor.MessagesFit | app/src/at_uart.c:244-275 | every queued message is the overflow mark or has 1 to 199 characters without CR, LF, BS, DEL |
| LineEditor.SentLineArrives | app/src/at_uart.c:244-275 | a line of typable characters with CR behind comes out as that line and no other |
| BinaryEntry.BytesAreRouted | app/src/at_uart.c:228-297 | over every run a byte is taken exactly if it is one of the first len after arming and before the return; each buffer holds exactly its bytes; all others and only they are edited, and those of them that came while S12 had the echo on are echoed |
| BinaryEntry.ReturnedBufferFrozen | app/src/at_uart.c:360-384 | the buffer of a call that has returned, by success or timeout, is never written again |
| BinaryEntry.RunKeepsInv | app/src/at_uart.c:228-242 | the same over any run, with counters and token matching the call in progress |
| BinaryEntry.MutedByHistory | app/src/at_uart.c:355-358 | for each byte, whether the echo was off is decided by the last switch before it |
| BinaryEntry.TokenIsFresh | app/src/at_uart.c:364-383 | when the wait succeeds all bytes of this call are there; an old token never ends it |
| BinaryEntry.RxInput.SetEcho | app/src/at_uart.c:355-358 | the switch is set, the editor and the entry are untouched |
| BinaryEntry.RxInput.BinByte | app/src/at_uart.c:228-242 | takes the byte exactly while bytes are missing, and gives the token with the last |
| BinaryEntry.RxInput.LineByte | app/src/at_uart.c:244-275 | the editor in its 200-byte array and the queue of 8 follow the editor function |
| BinaryEntry.RxInput.Process | app/src/at_uart.c:277-290 | of a received piece the pending entry gets its first bytes, echo and editor exactly the rest |
| BinaryEntry.RxInput.ArmEntry | app/src/at_uart.c:364-369 | the token is cleared before the entry is armed, and the editor is untouched |
| BinaryEntry.RxInput.EndEntry | app/src/at_uart.c:376-383 | success takes the token; a timeout leaves nothing armed |
| Unicast.CapacityKept | app/src/zb_msg.c:121-201 | over every interleaving entries plus waiting unicasts never exceed ten; in every state the counter is the outstanding unicasts plus what a submission has reserved; and in_flight_add finds a free entry |
| Unicast.RefusedExactlyAtTheLimit | app/src/zb_msg.c:188-192 | a unicast is refused for the limit exactly when ten are outstanding |
| Unicast.OutcomeConservation | app/src/zb_msg.c:109-201 | accepted unicasts are reported, in the table, in a slot or being released; each is reported at most once, under its own number, and nothing else is |
| Unicast.AcceptedAsSubmitted | app/src/zb_msg.c:174-201 | over every run, what was accepted is what the calls alone make it: every claimed submission's route and data in order, unicasts numbered one after the other |
| Unicast.VerdictsAsAnswered | app/src/zb_msg.c:109-172 | over every run, the reports are exactly a list computed from the events alone: a send the stack refused is not acknowledged, and a tx_done reports the number sent with its buffer with its own verdict |
| Unicast.RequestsHandedOver | app/src/zb_msg.c:146-156 | tx_send passes on every accepted request once, as it was submitted |
| Unicast.BuffersFreedOnce | app/src/zb_msg.c:131-172 | buffers given out are freed plus live, and entries name live buffers only |
| Unicast.QuietMeansSettled | app/src/zb_msg.c:131-201 | when all callbacks have come nothing leaks: counter, slots, table, buffers, outcomes |
| Unicast.ThreadsEnd | app/src/zb_msg.c:131-201 | in every run, whatever is answered: a thread inside submit or a callback has a step, each of its steps brings its end nearer, and the other thread takes none away |
| Unicast.AckTagsDistinct | app/src/zb_msg.c:304-315 | an accepted unicast counts once |
| Unicast.RunKeepsInv | app/src/zb_msg.c:121-201 | slot ownership, buffer ownership and counts are kept by every run |
| Unicast.DoneSteps | app/src/zb_msg.c:131-144 | the steps of tx_done in a run add up to the whole callback |
| Unicast.SendSteps | app/src/zb_msg.c:146-172 | the steps of tx_send in a run add up to the whole callback |
| Unicast.Accounts.InFlightAdd | app/src/zb_msg.c:121-129 | the loop uses the first free entry and changes no other |
| Unicast.Accounts.TakeEntry | app/src/zb_msg.c:135-142 | the loop frees the first entry of the buffer, and no other |
| Unicast.Accounts.DropEntries | app/src/zb_msg.c:161-165 | the loop frees every entry of the buffer, and no other |
| Unicast.Accounts.TxDone | app/src/zb_msg.c:131-144 | table, counter, report and free after the callback, with an entry or without; `Unicast.VerdictsAsAnswered` says what the report is |
| Unicast.Accounts.TxSend | app/src/zb_msg.c:146-172 | the same for tx_send, queued or refused, and the slot is clear |
| Unicast.Accounts.ClaimSlot | app/src/zb_msg.c:178-186 | the first clear bit is set, or none was clear |
| Unicast.Accounts.SubmitReq | app/src/zb_msg.c:174-201 | which answer when; every refusal leaves counter, bits and occupied slots as they were |
| Network.StackEnabledOncePerBoot | app/src/zb_core.c:543-599 | over every run the stack is enabled at most once per boot, as the last of its calls; NVRAM is erased first, then the role set; PAN ID and network key only for a coordinator |
| Network.RoleAgreesWithFlash | app/src/zb_core.c:86-105 | RAM and flash agree on the role, and a stored command and a recorded role never meet at a boot |
| Network.CompletionRecordsRole | app/src/zb_core.c:374-483 | a form or join ended by a signal has its role recorded at that moment iff the result is OK, OK comes with JPAN printed, and the AT thread takes and answers the result of its own operation |
| Network.PendRoundTrip | app/src/zb_core.c:558-565 | a deferred line comes back from flash and through the injection as it was typed |
| Network.InjectedExactly | app/src/at_uart.c:346-353 | a stored line of any length is injected as a line the queue can hold, cut only if it is too long |
| NetworkRuns.SignalEffects | app/src/zb_core.c:374-483 | every signal in every run, by effect: TX power, Trust Centre of a coordinator, join policy and JPAN follow in this order exactly when a network comes up, and its role is recorded; the role is lost exactly when no network is left, with a reboot if no command asked; an operation ends exactly with its verdict |
| NetworkRuns.RemovedReboots | app/src/zb_core.c:474-482 | in every run, a node removed from its network by another one records nothing any more and resets |
| NetworkRuns.RoleExactlyWhen | app/src/zb_core.c:86-105 | over commands, signals, timeouts and resets the role in flash is that of the last network that came up, or none if it was lost or left since |
| NetworkRuns.BootExactly | app/src/zb_core.c:754-768 | every boot: a stored command is deleted and becomes the next line with the stack off; without one the stack calls are the recorded role and the enable, or none if no role is recorded |
| NetworkRuns.RecordedIsStarted | app/src/zb_core.c:763-767 | over every run, outside a reset a node with a recorded network has its stack running |
| NetworkRuns.StartExactly | app/src/zb_core.c:571-675 | AT+EN, AT+JN, AT+JPAN taken up in any run: IN_PAN with a network; stored if the stack runs; else started as coordinator for AT+EN only, end device or router by S0A, PAN ID and key for a coordinator that has them, extended PAN ID from S03 or the argument |
| NetworkRuns.WaitEnds | app/src/zb_core.c:543-556 | the end of a wait in any run: a start is answered with its verdict or the timeout code of that command; a leaving command goes on unanswered |
| NetworkRuns.OthersExactly | app/src/zb_core.c:677-718 | AT+DASSL without a network is refused, with one it and AT&F leave first if joined; a restart answers OK and keeps role |
| NetworkRuns.LeavingEnds | app/src/zb_core.c:677-718 | once under way four steps of the AT thread bring OK to a leaving command, and a reset without a stored command, whatever is typed or signalled meanwhile |
| NetworkRuns.LeftRoleExactlyWhen | app/src/zb_core.c:677-705 | the role at the boot after a leaving command: none, except exactly if a network that came up between clearing and reset was recorded and not lost |
| NetworkRuns.LeftButRecorded | app/src/zb_core.c:414-416 | a run in which AT+DASSL is answered OK and the module boots as the coordinator it was |
| NetworkRuns.PreparedExactly | app/src/zb_core.c:571-584 | which of PAN ID, network key and extended PAN ID are set, each exactly under its condition and once |
| NetworkRuns.PlainCommands | app/src/zb_core.c:738-746 | AT+EN, AT+JN, AT+DASSL and AT&F are exactly these letters in either case with nothing behind |
| NetworkRuns.JpanCommand | app/src/zb_core.c:638-668 | AT+JPAN is exactly its name in either case with arguments it accepts |
| NetworkRuns.JpanArguments | app/src/zb_core.c:638-668 | accepted exactly if all between the colon and the first comma is a number from 11 to 26 and 4 or 16 hex digits follow; an extended PAN ID exactly with 16 |
| NetworkRuns.JpanPrinted | app/src/zb_core.c:638-668 | every channel as the firmware prints one is accepted exactly from 11 to 26 |
| Network.DeferredStep | app/src/zb_core.c:586-599 | a deferred line is never deferred again; AT steps bring its answer nearer, the others take nothing away, and the step that ends this adds exactly one answer, to this line |
| Network.DeferredNotStuck | app/src/zb_core.c:754-768 | the AT thread always has a step for a deferred line |
| Network.DeferredIsAnswered | app/src/zb_core.c:586-768 | without a further reset four AT steps bring a new answer to the deferred line, before any other answer and without another silent reboot, whatever is typed or signalled meanwhile |
| Network.StartIsAnswered | app/src/zb_core.c:543-631 | for every AT+EN, AT+JN, AT+JPAN taken up, five AT steps without a further reset bring a new answer to it, before any other answer and after at most one silent reboot |
| Network.AnswerCounted | app/src/zb_core.c:586-631 | the same with counts: after some number of steps there is one answer more, to this line, and so many silent reboots were made |
| Network.SilentRebootExactlyWhen | app/src/zb_core.c:586-593 | only a start command without a network, in a boot whose stack runs, takes the silent reboot, and it stores that line |
| Network.LateFormationRecordsRole | app/src/zb_core.c:423-427 | a run in which AT+EN was answered with a timeout and the role is recorded afterwards |
| Network.LateRoleExactlyWhen | app/src/zb_core.c:389-483 | for the rest of a boot that started a network of its own, whatever is typed, executed and signalled: a role is recorded if and only if a FORMATION with OK recorded it, or it was there before, and no FIRST_START, no LEAVE nobody asked for and no leaving command took it back since |
| Network.RoleNeedsFormation | app/src/zb_core.c:423-427 | without a role at first, one recorded later comes from a FORMATION with OK |
| Network.TimedOutStartGetsRole | app/src/zb_core.c:551-554 | a start that times out has no role recorded at that moment unless a signal ended it just before, is not answered OK, and gets a role later in that boot exactly under that condition, never without a FORMATION |
| Network.SignalKeepsCore | app/src/zb_core.c:389-483 | each signal keeps agreement of RAM and flash and the rule that no role is recorded while a start is under way |
| Network.RunKeepsInv | app/src/zb_core.c:543-768 | the invariant of commands, signals, timeouts and resets over every run |
| Network.Control.SaveRole | app/src/zb_core.c:86-90 | RAM and flash get the role, nothing else changes |
| Network.Control.CompleteOp | app/src/zb_core.c:98-105 | an operation is ended once, and only one in progress |
| Network.Control.OnNetworkUp | app/src/zb_core.c:374-380 | the running role is recorded if it differs; TX power, the Trust Centre of a coordinator, the join policy and JPAN follow in this order |
| Network.Control.Handle | app/src/zb_core.c:389-483 | the state after each of the five signals is that of the run's step, of which `NetworkRuns.SignalEffects` says what it does |
| Network.Control.PrepareNetwork | app/src/zb_core.c:571-584 | erase, role, and then PAN ID, network key and extended PAN ID under their conditions |
| Network.Control.StartNet | app/src/zb_core.c:586-599 | in a PAN nothing changes; with the stack running the line is saved; else erase, role, PAN ID and key of a coordinator, extended PAN ID, enable in this order |
| Network.Control.InitBoot | app/src/zb_core.c:754-768 | state and injected line are those of the run's boot, of which `NetworkRuns.BootExactly` says what it does |
| SRegValue.NormaliseMeaning | app/src/sreg.c:133-200 | canonical text is its own canonical text, fits 48 bytes, and the reader of the type gives what was written |
| SRegValue.NormaliseExactly | app/src/sreg.c:133-200 | which texts each type accepts: numbers of 1 to all of their digits, keys and IDs of exactly theirs, S01 from -40 to 8, texts by length, and what a refusal answers |
| SRegValue.SignedAccepted | app/src/sreg.c:155-164 | every printed number is taken by S01 exactly from -40 to 8, with two digits and its sign |
| SRegValue.NormClustersMeaning | app/src/sreg.c:180-196 | a list is accepted exactly if it is 4-digit fields with single commas, at most 8, and those IDs are printed |
| SRegValue.ListValOfText | app/src/sreg.c:180-196 | a printed list stands for the IDs it was printed from, with 5 characters each less one |
| SRegValue.ClusterIdsOfText | app/src/sreg.c:314-326 | sreg_clusters reads a printed list back |
| SRegValue.NumberIdempotent | app/src/sreg.c:139-153 | a number's canonical text has the full width, the same value, and is accepted unchanged |
| SRegValue.SetBitChangesOne | app/src/sreg.c:370-377 | setting or clearing a bit changes that bit and no other |
| SRegValue.SetBitRange | app/src/sreg.c:370-377 | the number stays in n bits exactly if the bit is one of them or is cleared |
| SRegValue.NormaliseText | app/src/sreg.c:133-200 | the C switch with its loops computes the validation function, errors included |
| SRegValue.NormList | app/src/sreg.c:180-196 | the cluster loop computes it on every input |
| SRegValue.Upper | app/src/sreg.c:169-171 | the toupper loop fills the buffer and nothing behind |
| SRegValue.ReadClusters | app/src/sreg.c:314-326 | the reader loop fills as many as fit and touches nothing behind |
| SRegValue.ReadBytes | app/src/sreg.c:287-300 | an error when the length differs, else all bytes; a pair that is no number repeats the byte before |
| SReg.FlashAlwaysAgrees | app/src/sreg.c:209-266 | after any commands, resets and factory resets every value is canonical and flash, or the default, gives the value in RAM |
| SReg.RunKeepsInv | app/src/sreg.c:209-389 | the same from any consistent store and for any sound register table |
| SReg.RestartRestores | app/src/sreg.c:237-252 | a reset restores every stored register and starts S40, S42, S44 from S41, S43, S45 |
| SReg.FactoryIsBlank | app/src/sreg.c:254-266 | a factory reset equals a blank device, now and after the next reset |
| SReg.TableGood | app/src/sreg.c:47-76 | the firmware's 28 registers: canonical defaults, and the volatile ones pair with their sources |
| SReg.WrittenIsRead | app/src/sreg.c:351-389 | after a write the typed reader gives what was written, also after a reset, and no other register changed |
| SReg.BitWriteMeaning | app/src/sreg.c:370-389 | a bit write that succeeds changes exactly that bit of the number, or nothing if the bit is not the register's |
| SReg.BitWriteAccepted | app/src/sreg.c:370-385 | a bit write that passes the flags is refused exactly for a set bit beyond the width or S12 leaving 115200 baud |
| SReg.EchoSwitched | app/src/sreg.c:202-207 | bit 4 of S12, and no other, switches the echo |
| SReg.PasswordProtects | app/src/sreg.c:351-368 | after any run a protected register holds what it held, or its default after a factory reset, unless since then a command wrote it with the password of that moment |
| SReg.PasswordAccepted | app/src/sreg.c:351-368 | any valid value without ':' followed by ':' and the password is accepted and stored |
| SReg.WriteAnswer | app/src/sreg.c:351-416 | for every register, value and bit or none, typed as a command: each of the four answers has its exact condition on flags, password and what the register takes, and without OK nothing changes |
| SReg.QueryAnswer | app/src/sreg.c:391-416 | a query changes nothing and fails exactly for a bit of a register that is no number |
| SReg.RefusedRequest | app/src/sreg.c:391-416 | a request that does not begin with the two or three digits of a register is refused for its register, one with something else behind them for its syntax |
| SReg.NamedRequest | app/src/sreg.c:391-416 | two digits and one more or none, then ? or = and a value: read as that register, that bit and that value, for every spelling |
| SReg.RequestNamed | app/src/sreg.c:391-416 | and every request read has such a spelling |
| SReg.SplitArgExactly | app/src/sreg.c:353-365 | value and password are parted by the first colon, or by the first semicolon if there is no colon |
| Settings.StoredRoundTrip | app/src/sreg.c:107-115 | what persist saves is what load_cb loads, for any buffer it fits |
| SReg.Registers.FindReg | app/src/sreg.c:92-100 | the loop finds the register with the ID, or there is none |
| SReg.Registers.LoadDefaults | app/src/sreg.c:230-235 | every value is its default |
| SReg.Registers.LoadOne | app/src/sreg.c:209-228 | for any key text and any bytes: a two-digit key of a register and a value that fits replace it, anything else changes nothing |
| SReg.Registers.LoadAll | app/src/sreg.c:245-248 | the callbacks in any order, each with the key as it was printed, give defaults overlaid with flash |
| SReg.KeyIsId | app/src/sreg.c:102-105 | a printed key is read back as its ID; an ID of three digits loads nothing |
| SReg.Registers.Init | app/src/sreg.c:245-252 | the store after a reset is the boot function of flash, and the echo follows bit 4 of S12 |
| SReg.Registers.Factory | app/src/sreg.c:254-266 | keys deleted and defaults loaded, in RAM and flash |
| SReg.Registers.Write | app/src/sreg.c:351-389 | new values, new flash and error code are those of the write in a run, of which `SReg.WriteAnswer` says what it answers; the hook runs exactly after a success, and the echo goes on following S12 |
| SReg.Registers.Command | app/src/sreg.c:391-416 | register, bit, query or assignment by the digits in front, and every error; the hook runs once exactly for a write that succeeds, and the echo goes on following S12 |
| AtFmt.HexRevRoundTrip | app/src/at_fmt.c:24-44 | a printed address has two upper-case digits a byte and is read back unchanged |
| AtFmt.HexRevOrder | app/src/at_fmt.c:24-30 | the digit pairs are the bytes from the last, most significant one down |
| AtFmt.ParseHexRevExactly | app/src/at_fmt.c:32-44 | a text is read as these bytes exactly if its pairs, from the front, are their values from the back |
| AtFmt.DigitsExactly | app/src/at_fmt.c:12-22 | sixteen digits in either case and no other character, and the printed ones are upper case |
| AtFmt.HexValOfFmtX | app/src/at_fmt.c:46-63 | a printed number is read back |
| AtFmt.FmtXOfHexVal | app/src/at_fmt.c:46-63 | upper-case hex is what printing its value gives |
| AtFmt.ParseHexNExactly | app/src/at_fmt.c:46-63 | accepted exactly for 1 to 8 hex digits, with their value, below 2^32 |
| AtFmt.AtHexRev | app/src/at_fmt.c:24-30 | the loop prints the last byte first and ends with a terminator |
| AtFmt.AtParseHexRev | app/src/at_fmt.c:32-44 | the loop accepts exactly pairs of hex digits and fills the bytes from the last down |
| AtFmt.AtParseHexN | app/src/at_fmt.c:46-63 | 1 to 8 hex digits and nothing else, within 32 bits |
| AtFmt.AtReverse | app/src/at_fmt.c:65-73 | the first n bytes are reversed in place and the others stay |
| TextFields.NextFieldInPlace | app/src/zb_msg.c:379-391 | writing a terminator over the comma gives the field in front and the text behind; nothing before the cursor changes |
| TextFields.SplitOfJoin | app/src/zb_msg.c:379-391 | fields without commas are told apart again |
| TextFields.JoinOfSplit | app/src/zb_msg.c:379-391 | every text is its fields with commas between |
| TextFields.NextFieldTakesOne | app/src/zb_msg.c:379-391 | a call takes the first field off the list, and NULL only when the list is used up |
| Requests.AcceptsExactlyTheGrammar | app/src/zb_msg.c:538-582 | the parser gives a request exactly for its spelling: right counts and widths, no field missing or left over |
| Requests.MatchAnswer | app/src/zb_msg.c:571-588 | each of the four answers exactly under its condition, and a request left pending exactly behind OK and NO BUFFERS |
| Requests.MatchRoundTrip | host/etrx/protocol.py:281-290 | the host's command is read as the request it was built from if it fits, and refused if it does not |
| Requests.MatchFitsOneLine | host/etrx/protocol.py:281-290 | every request that can be asked fits a command line, and the line editor hands over exactly that line |
| Requests.ReadIds | app/src/zb_msg.c:548-555 | the loop over cluster IDs on the buffer it cuts computes the parser function |
| Requests.ReadList | app/src/zb_msg.c:538-557 | the same for a counted list, into the place given, leaving what was before it |
| Requests.CmdMatchreq | app/src/zb_msg.c:560-588 | the command's answer and pending request; syntax is refused before the joined state is looked at |
| Senducast.SendRoundTrip | host/etrx/protocol.py:304-307 | for any meant target: the host's command is read as that target and its data, whatever commas the data contains, if and only if the address text says the target's address, the numbers are its own and fit, and the length fits |
| Senducast.SendRefused | app/src/zb_msg.c:417-452 | an address without commas is refused otherwise, with the code of the length or of the fields |
| Senducast.AddressExactly | app/src/zb_msg.c:266-287 | four digits are the network address of their value, sixteen the EUI64 of their pairs, and 4 or 16 hex digits are exactly what is accepted |
| Senducast.AddressRoundTrip | app/src/zb_msg.c:266-287 | a printed address is read back as itself exactly if it has its width |
| Senducast.SendOfFields | app/src/zb_msg.c:393-452 | any five fields and any data, of any sender: accepted as a target exactly if the fields hold it and the data is not too long |
| Senducast.SendShape | app/src/zb_msg.c:425-441 | every argument is a colon, five fields and data, or is refused |
| Senducast.SendCut | app/src/zb_msg.c:425-441 | any command, any address: the first five fields are the target, everything behind them the data |
| Senducast.SendFitsOneLine | host/etrx/protocol.py:304-307 | every such command fits a command line and arrives as one line if its data can be typed |
| Senducast.DataFound | app/src/zb_msg.c:433-441 | the data begins behind the fifth comma, whatever it contains |
| Senducast.FindData | app/src/zb_msg.c:434-437 | the strchr loop stops behind the comma that so many calls of next_field would reach |
| Senducast.ReadTarget | app/src/zb_msg.c:393-415 | the five fields in place, with the fifth only if there is one, as the target `Senducast.SendOfFields` speaks of |
| Senducast.CmdSenducast | app/src/zb_msg.c:417-452 | target and data or the error, in the order joined, syntax, length, fields; `Senducast.SendOfFields` and `Senducast.SendShape` say which, for every argument |
| LineReader.ReaderMeetsReference | host/etrx/port.py:16-29 | the lines of every stream: cut at LF without CR, each '>' in front a line of its own |
| LineReader.AnyChunks | host/etrx/port.py:16-29 | how the bytes are cut into reads makes no difference |
| LineReader.FramedLineArrives | host/etrx/port.py:16-29 | a line with CR LF around it ends what was in the buffer and comes out whole |
| LineReader.LinesAreLines | host/etrx/port.py:16-29 | no reported line contains CR or LF |
| LineReader.Reader.Feed | host/etrx/port.py:16-29 | the byte loop computes lines and buffer |
| Prompts.SimpleFirstLetter | host/etrx/prompts.py:100-116 | none of the simple patterns matches a line that begins like RX, UCAST or BCAST |
| PromptGrammar.ParseExactly | host/etrx/prompts.py:96-177 | for every line, prompt and mode: the parser reads the line as the prompt if and only if the line spells it, with hex fields as printed, optional EUI64, blank, comment and RSSI/LQI, the data by its length, and at most one LF behind |
| PromptGrammar.HexGroupsExactly | host/etrx/prompts.py:92-94 | a row of hex groups is matched exactly if the text is such groups joined by commas and the rest |
| PromptGrammar.TailExactly | host/etrx/prompts.py:120-131 | a tail is read exactly if it spells these numbers, or none |
| PromptGrammar.BodyExactly | host/etrx/prompts.py:148-166 | a hex body without blanks is exactly its pairs of digits, one a byte |
| PromptGrammar.BlanksSkipped | host/etrx/prompts.py:159-162 | blanks between bytes change nothing |
| Printer.RxHexArrives | app/src/zb_msg.c:618-640 | every frame, payload cut to 128 bytes, reaches the host in any reads as one line that parses to exactly that frame |
| Printer.RxRawArrives | app/src/zb_msg.c:634-639 | without hex mode a frame arrives exactly if the shown payload has neither CR nor LF |
| Printer.TextArrives | app/src/zb_msg.c:605-616 | a text arrives with kind, sender, data and tail exactly if it has at most 255 bytes and neither CR nor LF |
| Printer.RxRoundTrip | host/etrx/prompts.py:148-166 | what print_rx prints parses to the frame, in either mode, with or without EUI64 and tail |
| Printer.TextRoundTrip | host/etrx/prompts.py:134-145 | the length field decides where the data ends, whatever separators or fake tails it contains |
| Printer.NothingCut | app/src/zb_msg.c:618-633 | no fixed buffer of print_rx cuts its text |
| Printer.HeadRead | host/etrx/prompts.py:118-119 | the pattern with an EUI64 matches exactly if one was printed |
| Printer.FromHexOfHexText | host/etrx/prompts.py:148-164 | the hex digits of a payload are read back as the payload |
| Printer.TailRead | host/etrx/prompts.py:120-131 | RSSI and LQI of every value fit their buffer and are read back |
| Printer.ArrivedLine | host/etrx/prompts.py:134-166 | data read from any line has neither CR nor LF, and text data at most 255 bytes |
| Printer.PrintHex | app/src/zb_msg.c:634-637 | the sprintf loop fills the buffer with the hex text |
| Printer.PrintRx | app/src/zb_msg.c:618-640 | the frame's line goes whole behind everything written to the UART before, and is on its way if and only if the last uart_tx was accepted |
| Printer.PrintText | app/src/zb_msg.c:605-616 | the text's line goes whole behind everything written to the UART before, and is on its way if and only if the last uart_tx was accepted |
| Notices.NoticeRoundTrip | host/etrx/prompts.py:96-116 | each of eleven notices of the firmware parses to what it says |
| Notices.NoticeArrives | app/src/at_uart.c:404-413 | and reaches the host in any reads as one line |
| Notices.NoticeFits | app/src/at_uart.c:404-413 | at_print has room for every notice, and none contains CR or LF |
| Notices.DeviceWords | app/src/zb_core.c:164-170 | for every capability: FFD exactly with bit 1, else ZED exactly with bit 3, else SED |
| Notices.MatchLine | app/src/zb_msg.c:499-517 | the loop of match_resp prints the endpoints of a success until its buffer is full, which is 31 |
| Host.FrameIsEvent | host/etrx/protocol.py:108-125 | a received frame, in either mode, is never taken for an answer of the pending command |
| Host.TextIsEvent | host/etrx/protocol.py:108-125 | nor is a text, whatever its data looks like |
| Host.NoticeIsRouted | host/etrx/protocol.py:108-125 | a notice answers the pending command exactly if it is OK, ERROR, SEQ or JPAN, and is an event exactly if it is not OK, ERROR or SEQ |
| Host.Etrx.OnLine | host/etrx/protocol.py:108-125 | what a line adds to the answers and to the history |
| Host.Etrx.Received | host/etrx/protocol.py:101-106 | what the lines of a read add, in order, with the rest kept for the next read |
| Host.Etrx.WaitIndex | host/etrx/protocol.py:85-99 | the first MatchDesc from the cursor on and the position behind it, or a timeout with none in the whole history |
| Host.Etrx.CollectAnswers | host/etrx/protocol.py:291-302 | the successful answers from the mark to the returned position, in order, once each; all of the history after a timeout |
| Delivery.LinesArriveInOrder | app/src/at_uart.c:277-402 | over every interleaving of all writers, the echo included, and of the callbacks, and every division into reads: the host has read a beginning of what was written from any holder of the lock on, in the order of the lock, each line whole, and exactly that once everything is sent |
| Delivery.ReportsReachTheHost | host/etrx/protocol.py:101-125 | for any mix of frames, texts, notices, binary entries and echoed bytes: all events and all answers are there, whole and in order, merged with nothing but what the lines of the echo add; they are exactly these if and only if those lines add nothing, with a command pending if and only if each of them is empty or its echo |
| Delivery.HistoryMerged | host/etrx/protocol.py:108-125 | the history is the events of the reports merged with those of the lines that end in the echo |
| Delivery.AnswersMerged | host/etrx/protocol.py:108-125 | the same for the answers of the pending command, the > of a binary entry among them |
| Delivery.HiddenAddNothing | host/etrx/protocol.py:108-125 | while a command is pending, lines add nothing to history and answers exactly if each is empty or that command in any case |
| Echo.NoiseByStretch | host/etrx/port.py:16-29 | the lines that end in the echo are those of its stretches between two lines of the firmware, each on its own |
| Echo.StretchExactly | host/etrx/protocol.py:112-114 | a stretch of the echo of a command is hidden exactly if it is nothing of it or all of it |
| Echo.CommandEchoExactlyWhen | app/src/at_uart.c:277-297 | for a command whose bytes are echoed, in any pieces: history and answers are exactly those meant if and only if no line of the firmware falls into the echo |
| Echo.CutEchoIsAnAnswer | host/etrx/protocol.py:112-119 | for every command, every cut of its echo and every report printed there: a run in which the first half is the first line of the answer |
| Session.LinesOfTheWire | app/src/at_uart.c:172-297 | over every interleaving of driver, RX thread and AT thread: the command lines are those of the reference on the received bytes that no binary entry took; only a full event queue keeps a byte away |
| Session.CommandsArrive | app/src/at_uart.c:172-297 | commands written by the host, with any binary data between them for the entries, arrive as exactly these commands; with the echo on exactly they are echoed |
| Session.RequestsUnderstood | host/etrx/protocol.py:281-307 | every AT+MATCHREQ and AT+SENDUCAST that the host writes is read by the firmware as the request or the target and data meant, in order, over any such run |
| Session.ThereAndBack | app/src/at_uart.c:172-402 | one command on the wire: the firmware gets it and echoes it, and on the host history and answers are exactly those meant if and only if no line of the firmware falls into that echo |

## Left out

- ZBOSS itself: only its signals, send results and callbacks enter.
- Ring buffer, slab, queue, semaphore, UART driver and settings code: taken by contract, as listed above.
- `k_sem_reset` with setting `op`, and saving a line with the reset that follows: each is one step of `Network`.
- `rx_enable` with clearing `rx_disabled`: one step of `UartRx`.
- Races between the AT thread and `zbc_init`, and inside `complete` and `disc_resp`: `zbc_init` comes first, the others are single steps.
- BinaryEntry.RxInput.Process: one received piece with the echo switch left alone; a run of `BinaryEntry` switches it between any two bytes.
- A NUL typed in a command line: the queue copies it, the commands stop at it.
- `strtol` saturation: its callers only ask whether the value lies in a small range.
- Sequence numbers in flight are not claimed distinct: the one-byte counter can wrap while a unicast waits.
- `report` bits S0E and the quiet flag, and the S0E, S0F bits that hide other prompts: outcomes and notices are modelled as if shown.
- Address resolution (`discover`), permit-join, TX power, join policy, security setters, endpoint descriptors: what the stack does with these calls.
- `AT+UCAST`, `AT+BCAST`, `AT+SENDUCASTB` argument parsing, `AT+N`, `ATI`, `AT+TOKDUMP`, register queries' output, the dispatch table: only easy members.
- The `LeftPAN` prompt within a run of `Network`, and the numbers in `JPAN`: their text is in `Notices`.
- Upper: letters outside ASCII in the host's echo comparison.
- Wall-clock time: a wait may time out at any moment; `match` may stop at any moment at the head of its loop.
- Negative numbers given to the host's `match` and `senducast`: its callers pass IDs.
- UartTx.Uart.WaitIdle: a driver that refuses for ever is left out, because with it the wait does not end.
- Delivery.ReportsReachTheHost: one command, or none, is pending while these bytes are read; reports whose data has a CR or LF are not among the items, see `Printer.TextArrives` and `Printer.RxRawArrives`.
- Session.CommandsArrive: lines offered to the command queue; of more than eight waiting ones the queue drops the last, see `BinaryEntry.RxInput.LineByte`.
- UartTx.Uart.Write: a driver that refuses for ever is left out, because with it `tx_write` does not end; `UartTx.StreamConservation` and `UartTx.RingDrainsExactlyWhen` hold for it too.
- Serial port opening, threads and locks of the host, role scripts, ZCL helpers and console display: input and output.
