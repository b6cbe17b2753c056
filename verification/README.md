# Verification model of the ttsim SimBricks adapter

This project models and proves properties of the code that couples a Tenstorrent chip simulator (libttsim) to a
SimBricks host:

- the adapter `ttsim_bm/ttsim_bm.cc` and its peer `tests/tt_host_probe.cc`, as two processes over two timestamped
  channels;
- the idle fast path of `perf/libttsim-idle-fastpath.patch`, as a cache that must agree with what it speeds up;
- the command line that `ttsim.py` prints and the adapter parses.

`dafny verify dfyconfig.toml` checks everything.

## How the model is built

`System` is the reference: a step function over (adapter, host, two rings) with the adapter's control point
explicit (main loop, inside a libttsim call, inside the nested DMA pump, each loop in its syncing, polling or acting
phase). A run is any sequence of labels, so every interleaving is covered, and polls may see messages late.
libttsim is *any* deterministic library: what a call does next (return, DMA read, DMA write) is an arbitrary function
of the completed calls, of its entry and of what its transfers have told it so far, with a bound on the transfers of
one call. DMA callbacks are therefore real re-entries. `Device` also holds the sequential machine that the system
must look like: each call atomic, its DMA applied to memory at once.

`Adapter` and `Probe` hold the code in its own form: classes with the globals of the two files as fields and their
polling loops as methods. Each method is proved to take only steps of `System`, to see exactly what a
script says becomes visible at each poll, and to end at the control point it claims. `Composition` then shows that the two programs side by side, each seeing the other's messages arbitrarily
late, are always in a state that `System` can reach, so that the theorems about runs hold of the programs.

The definitions that a method and the machine it is compared with have in common are pinned down on their own, in
terms of bits, bytes and numbers: which bytes a call is entered with and a completion carries (`Answers`), what taking a
message does (`Messages`, `Halting`), when and for how long clocks run (`Clocking`), what each chip operation does
(`FastPath`), where each byte of a transfer goes (`Bytewise`), the memory map (`Bars`) and the command line
(`Numerals`).

The SimBricks headers are not part of this model; `Link` states the channel contract relied on. Outgoing messages are
stamped with the current time plus the link latency, and sending records the last-out time; a sync is owed from
last-out plus the sync interval on; polling hands messages over in order, only when due if synchronized, and
refreshes the in-timestamp with the newest header it saw.

`Device.Valid` collects what is assumed of the set-up. The code sees to part of it: a positive clock period and batch
(`CommandLine.AcceptedIsRunnable`), a known chip, and a DMA chunk limit of at most 4096. The rest it does not enforce:

- the chunk limit is positive (it is what a message leaves for the payload, `ttsim_bm/ttsim_bm.cc:830-834`);
- both sync intervals are positive (the URL may say 0, `ttsim_bm/ttsim_bm.cc:794-796`);
- a synchronized run starts at time 0 on both sides (the start tick of the command line is used whether synchronized
  or not, `ttsim_bm/ttsim_bm.cc:973`);
- MMIO reads are at most 64 bytes long (the adapter checks this for writes only, at `ttsim_bm/ttsim_bm.cc:308`,
  although its read buffer has that size).

Latencies and intervals are in picoseconds, after the conversion from the nanoseconds of the URL (the adapter's usage
text calls the URL values picoseconds; the code multiplies them by 1000). Times are unbounded integers; DMA addresses
and BAR translation are on 64-bit arithmetic, the fast path counters on 32 bits.

## Findings

- **When the two sides can get stuck.** An interval of at most the latency on each side is not enough when the
  two latencies differ. `Progress.NeverStuckIff` gives the exact condition on the four link parameters: the adapter's
  interval is at most the host's latency (only the host greets, and its greeting must not fall due before the
  adapter owes its first sync), and the two intervals together exceed the two latencies together by at most 1 ps.
  The condition is the same for every clock period. With one latency for both directions, intervals of at most the
  latency do satisfy it.
- **The fast path is equivalent exactly below 2^27 tiles.** `perf/README.md:49-51` calls it provably equivalent. If
  clocking an idle tile does nothing, it is, for every device model and every run from reset, if and only if the chip
  has fewer than 2^27 tiles with 32-bit core masks (`FastPathLimit.EquivalentIff`): from there on a run exists that
  activates cores until the counter wraps to zero, after which the skip loses a sweep that does something. The
  counters agree with the masks modulo 2^32 for any number of tiles.
- **DMA outside the window is lost silently on the wire.** The probe drops such a write yet acknowledges it, and
  answers such a read with all ones. This happens sub-operation by sub-operation: `Bytewise.WriteByteByByte` and
  `Bytewise.ReadByteByByte` say for every transfer which bytes get through, and `Chunking.ReadsBackIffInWindow` that
  writing and reading back works for a range exactly when the range lies in the window.
- **A URL that begins with `--`** is the only reason for a printable configuration not to survive the round trip
  through the command line (`CommandLine.CommandRoundTrip`).

## Model

| member | source | states |
|---|---|---|
| Bars.AcceptedStaysInWindow | ttsim_bm/ttsim_bm.cc:206-229 | an access is accepted if and only if it fits its window, and a non-empty accepted one lies in it byte for byte, neither end wrapping around 64 bits |
| Bars.AddressDeterminesAccess | ttsim_bm/ttsim_bm.h:53-56 | the windows are disjoint on both chips and for any BAR4 override: two accepted accesses that share a byte go to the same BAR at offsets as far apart as their addresses |
| Bars.EmptyAccessIsAmbiguous | ttsim_bm/ttsim_bm.cc:224-227 | the one exception: a zero-length access at the end of BAR0 has the address of the start of BAR2 |
| Bars.MemoryMap | ttsim_bm/ttsim_bm.cc:186-191 | in numbers: where each BAR is, how large it is on each chip, and that a BAR4 override, if not zero, replaces its size |
| Timing.AStepKeeps | ttsim_bm/ttsim_bm.cc:684-704 | every adapter step, nested or not, keeps both directions of the link paced, ordered and within their deadlines, and a running clock batch short of the deadline |
| Timing.RunKeeps | ttsim_bm/ttsim_bm.cc:278-356 | the timing invariant holds in every reachable state, whatever the interleaving, the library and the host |
| Timing.Causality | ttsim_bm/ttsim_bm.cc:262-270 | synchronized, neither clock passes its next message or next owed sync, every message is handed over at exactly its stamp, and the clocks differ by no more than the latency towards the one ahead |
| Timing.StampsArePaced | ttsim_bm/ttsim_bm.cc:55-61 | along any run, synchronized or not, each side's stamps never decrease, sends from nested callbacks included; in a synchronized run they are at most one sync interval apart |
| Progress.NeverBothBlocked | tests/tt_host_probe.cc:228-258 | under the condition on the link parameters no reachable state has both sides polled dry, owing nothing and unable to advance, in the main loop or in a pump |
| Progress.NeverStuckIff | ttsim_bm/ttsim_bm.cc:551-578 | for every clock period, no run over given wires gets stuck if and only if that condition holds; one latency and intervals of at most it satisfy it |
| Progress.LateFirstSyncBlocks | tests/tt_host_probe.cc:373-377 | for every clock period, if the greeting falls due before the adapter's first sync is owed, there is a run that ends with both sides blocked: nothing owed, nothing due, no room to advance |
| Progress.LongSilenceBlocks | tests/tt_host_probe.cc:507-515 | for every clock period, if the two may be silent for longer than messages are under way, there is a run that ends with both sides blocked |
| Progress.CatchUp | ttsim_bm/ttsim_bm.cc:551-598 | left alone and with a device that does no DMA, the adapter clocks and jumps from deadline to deadline, sending a sync at each multiple of its interval, until it has seen all the host sent |
| DmaSafety.OneOutstandingDma | ttsim_bm/ttsim_bm.cc:36-53 | in every reachable state at most one sub-operation is on the two rings, it is the one the innermost callback waits for, and no completion ever goes to a dead, foreign or finished slot |
| DmaSafety.ConsumeKeepsDma | ttsim_bm/ttsim_bm.cc:319-334 | the only completion that can be at the head of the ring matches the slot it names in kind, length and content |
| DmaSafety.HostServesDma | tests/tt_host_probe.cc:145-189 | serving a request turns it into its one completion, carrying what memory holds, stamped one round trip after the request was sent |
| DmaSafety.PumpOnlyAppends | ttsim_bm/ttsim_bm.cc:369-401 | while the pump waits the adapter makes no other libttsim call, answers no MMIO and only appends to the MMIO queue |
| DmaSafety.TransferTakesItsRoundTrips | ttsim_bm/ttsim_bm.cc:403-432 | a transfer ends after exactly ceil(size / chunk limit) sub-operations and, synchronized, takes exactly one round trip of the link for each |
| DmaSafety.RunKeepsDma | ttsim_bm/ttsim_bm.cc:434-465 | the DMA invariant (progress of the transfer, place and time of the sub-operation under way) holds in every reachable state |
| Transparency.LooksSequential | ttsim_bm/ttsim_bm.cc:467-519 | in the main loop, libttsim's calls with all they were told and returned, host memory and the completions sent are exactly those of the sequential machine for the same events; inside a call, those it has before the call |
| Transparency.HostServesT | tests/tt_host_probe.cc:145-189 | serving a sub-operation changes nothing about what the call in progress will come to |
| Transparency.RunKeepsT | ttsim_bm/ttsim_bm.cc:403-465 | in every reachable state, pump included, the outcome of the call in progress is already that of the sequential machine |
| Service.ExactlyOnce | ttsim_bm/ttsim_bm.cc:476-519 | requests begun, then queued, then on the ring are the requests issued, in order; completions are one per non-posted request that is over, in order, unmapped accesses included; the counters count the requests begun: reads, writes, and posted writes among them |
| Service.HostSeesSequentialDevice | tests/tt_host_probe.cc:191-204 | the completions the host has received, read data included, are a prefix of those the sequential machine gives for a prefix of the requests issued |
| Service.SequentialRepliesAreOwed | ttsim_bm/ttsim_bm.cc:490-516 | the sequential machine completes each read and non-posted write once and no posted write |
| Service.CompletionsMatchRequests | tests/tt_host_probe.cc:260-282 | without posted writes the i-th completion the host gets has the kind and id of the i-th request it issued |
| Answers.EveryEventIsInTheBooks | ttsim_bm/ttsim_bm.cc:478-516 | in every reachable state, each event that is over made its own call: a read entered the read entry point with its translated address and length, a write the write one with its address and bytes, a batch the clock one with its steps; a read's completion carries what that call returned, byte j at place j, zeros where it returned less, all zeros if unmapped |
| Answers.CompletionCarriesItsAnswer | ttsim_bm/ttsim_bm.cc:492-500 | the i-th completion the host has received is that of the i-th request served that is owed one, with exactly these bytes |
| Messages.MessagesTakeEffect | ttsim_bm/ttsim_bm.cc:278-356 | in every reachable state: told to exit if and only if a terminate message has been taken; control flags those of the last control message taken; arrived requests those taken, in order; DMA counters the completions taken by kind; no write over 64 bytes taken; no terminate message lost |
| Halting.NothingBegunAfterExit | ttsim_bm/ttsim_bm.cc:684-704 | once a terminate message has been taken, along any continuation only requests of the iteration in progress and, as its last thing, at most one clock batch are begun, and nothing once it is over |
| Halting.StopsExactlyThere | ttsim_bm/ttsim_bm.cc:379-384 | the adapter stops exactly at the top of the loop or in a pump polled dry with its slot open, if told to exit, or on a write over 64 bytes; and stopping changes nothing else |
| Halting.TerminationHalts | ttsim_bm/ttsim_bm.cc:345-347 | once a terminate message has been taken the adapter stops after finitely many steps of its own, wherever it is, synchronized or not, even if the host never does anything again |
| Halting.StoppedForGood | ttsim_bm/ttsim_bm.cc:686 | a stopped adapter never does anything again |
| Ledger.EveryPicosecondAccounted | ttsim_bm/ttsim_bm.cc:588-598 | device time is exactly clock steps of finished batches plus jumps plus time in DMA pumps less what batches had room for; clock steps never exceed the time elapsed; pumps take one round trip per completed sub-operation |
| Ledger.EndBatchBalances | ttsim_bm/ttsim_bm.cc:592-598 | taking the later of batch end and current time keeps the books balanced |
| Ledger.CompletionBalances | ttsim_bm/ttsim_bm.cc:395-399 | a completion moves exactly one round trip from the wait in progress to the finished ones |
| Fairness.EveryFairScheduleEndsTheCall | ttsim_bm/ttsim_bm.cc:367-401 | from every reachable state inside a call, over wires that cannot get stuck and with nobody ending the simulation, every endless schedule that asks nothing new of the device and in which the adapter steps, the host sends owed syncs, polls and moves its clock again and again ends the call after finitely many steps, with the outcome of the sequential machine |
| Fairness.RobinIsFair | tests/tt_host_probe.cc:228-258 | such schedules exist from every reachable state: taking turns is one |
| Fairness.EveryCallReturns | ttsim_bm/ttsim_bm.cc:36-53 | so every call can return, by cooperation alone |
| Fairness.AdapterGoesOn | ttsim_bm/ttsim_bm.cc:370-400 | any step of the adapter inside a call takes the call closer to its end, or leaves it level while the host has a duty to do |
| Fairness.HostGoesOn | tests/tt_host_probe.cc:228-258 | any cooperative step of the host takes the call closer to its end or changes nothing, and the duty that helps takes it closer |
| ProbeDuty.RoundDoesEveryDuty | tests/tt_host_probe.cc:228-258 | every full round of the probe does every duty of a fair host: it sends what is owed, polls until nothing is due, and moves its clock as far as duty asks |
| ProbeDuty.ProbeIsFair | tests/tt_host_probe.cc:228-258 | schedules in which the adapter and the parts of the probe's rounds come again and again are fair |
| ProbeDuty.ProbeEndsEveryCall | tests/tt_host_probe.cc:228-258 | so with the probe as its peer every libttsim call ends |
| Returning.TimeIsAhead | ttsim_bm/ttsim_bm.cc:386-399 | simulated time is bounded inside a transfer: while a sub-operation is under way the two clocks together cannot pass twice the moment its completion is due plus the device's latency, and afterwards the host cannot pass the device's clock by more than that latency |
| Returning.AdapterMoves | ttsim_bm/ttsim_bm.cc:370-400 | a pump that is not blocked gets its completion, or closer to it or to taking it over, in every step |
| Bytewise.ReadByteByByte | tests/tt_host_probe.cc:145-168 | every chunked read, wherever it goes: a byte comes from its own address exactly if its own sub-operation lies in host memory, and is all ones otherwise |
| Bytewise.WriteByteByByte | tests/tt_host_probe.cc:171-189 | every chunked write, wherever it goes: a byte lands at its own address exactly if its own sub-operation lies in host memory and otherwise leaves what is there, and memory that no byte is addressed to is untouched |
| Bytewise.WindowInNumbers | tests/tt_host_probe.cc:96-121 | in numbers: where memory begins, where a byte of a transfer goes, and when a range is in the window |
| Chunking.ChunkedReadIsDirect | ttsim_bm/ttsim_bm.cc:412-431 | inside the window a chunked read returns the bytes of the range in order, each once, for every chunk limit |
| Chunking.ChunkedWriteIsDirect | ttsim_bm/ttsim_bm.cc:443-464 | inside the window a chunked write lands byte for byte and leaves every other byte alone |
| Chunking.ReadsBackIffInWindow | tests/tt_host_probe.cc:114-121 | what DmaMemWrite wrote DmaMemRead returns, for all data and any two chunk limits, if and only if the range lies in host memory |
| Chunking.LeavingWindowShows | tests/tt_host_probe.cc:160-164 | a read that leaves the window has a byte of all ones in it whatever is in memory |
| Chunking.LooksDirect | ttsim_bm/ttsim_bm.cc:403-465 | while transfers stay in the window the adapter and memory are those of a machine that moves each transfer in one piece: chunk limit, link and interleaving cannot be seen |
| WindowCrossing.RunOnceIsRunClocks | ttsim_bm/ttsim_bm.cc:551-598 | the call the window results iterate is what the system's adapter does from the acting phase with nothing queued and a device that does no DMA |
| WindowCrossing.RunOnceAdvances | ttsim_bm/ttsim_bm.cc:551-598 | each RunClocks call short of the deadline moves time, by the steps that fit up to the cap or by a jump, and never past the deadline |
| WindowCrossing.CrossesWindow | ttsim_bm/ttsim_bm.cc:583-598 | repeated calls land exactly on the deadline after floor(window / period) steps, in the fewest calls the cap allows, and one jump if and only if a remainder is left |
| Clocking.BatchIsBegun | ttsim_bm/ttsim_bm.cc:555-590 | polled and drained, the adapter begins a batch exactly if unsynchronized or a step fits, of as many steps as fit before the next message and the next owed sync, or as configured if unsynchronized, at most 2^20; else it jumps to that limit or, standing at it, notes that it waits |
| Clocking.BatchesOnlyThere | ttsim_bm/ttsim_bm.cc:690-692 | clock batches are begun from nowhere else, and never with requests queued |
| Clocking.EveryBatchIsWhole | ttsim_bm/ttsim_bm.cc:575-590 | along any run every batch is between 1 and 2^20 steps; in an unsynchronized run it is exactly the smaller of the configured batch and 2^20 |
| Clocking.UnsynchronizedCalls | ttsim_bm/ttsim_bm.cc:575-598 | unsynchronized, k calls without DMA run k times that many steps and advance time by that many periods |
| Clocking.PumpMovesTime | ttsim_bm/ttsim_bm.cc:386-399 | a waiting pump moves time by a whole batch if unsynchronized, else to the first of the next message, the next owed sync and the end of a batch, or not at all if one of the former has come |
| Composition.ProgramsAreTheSystem | ttsim_bm/ttsim_bm.cc:684-704 | however the two programs interleave and however late each sees the other's messages, some run of the system has the same adapter, host and undelivered messages |
| Composition.ProgramsLookSequential | tests/tt_host_probe.cc:136-282 | for the two programs: no fault, sequential behaviour, completions a prefix of the sequential ones and, without posted writes, one for one those of the requests, clocks within the latencies |
| Composition.PartsRunAlone | ttsim_bm/ttsim_bm.cc:684-704 | in a joint run each program takes exactly the steps it takes alone given what it sees |
| Composition.ProgramRunsMeet | ttsim_bm/ttsim_bm.cc:684-704 | a run of the adapter alone and a run of the probe alone meet in a run of the system whenever some interleaving lets each see only what the other has sent before |
| Adapter.AdapterSim.AllocPcieOut | ttsim_bm/ttsim_bm.cc:234-253 | a slot is stamped now plus latency and recorded as last-out; none may be held already |
| Adapter.AdapterSim.SendPcieOut | ttsim_bm/ttsim_bm.cc:255-257 | the held slot is released to the ring, at its end |
| Adapter.AdapterSim.SyncOut | ttsim_bm/ttsim_bm.cc:687-688 | owed syncs are sent until none is owed, in system steps |
| Adapter.AdapterSim.PollPcie | ttsim_bm/ttsim_bm.cc:278-356 | one message or none, handled as the system does; the queue only grows; never with a slot held, never entering libttsim; told to exit exactly if a terminate message has been taken |
| Adapter.AdapterSim.HandleMessage | ttsim_bm/ttsim_bm.cc:286-354 | the whole new state for each message type; a terminate message, and nothing else, sets the exit flag; an oversized write ends the process before its slot is released |
| Adapter.AdapterSim.CompleteDma | ttsim_bm/ttsim_bm.cc:319-334 | a completion fills the slot whose address it carries and is counted; any other is a fault |
| Adapter.AdapterSim.PollPcieAll | ttsim_bm/ttsim_bm.cc:359-362 | the ring is drained, in system steps, back at the point of acting |
| Adapter.AdapterSim.DmaPumpUntil | ttsim_bm/ttsim_bm.cc:369-401 | returns with the slot done, in system steps, libttsim's history untouched and the queue only appended to; or the process has ended, as it does if told to exit |
| Adapter.AdapterSim.PumpOnce | ttsim_bm/ttsim_bm.cc:379-399 | polled dry with the slot open: stop if told to, else move time to the capped deadline |
| Adapter.AdapterSim.DmaMemRead | ttsim_bm/ttsim_bm.cc:403-432 | the callback reaches, in system steps, the point where the call has been told the bytes fetched |
| Adapter.AdapterSim.DmaMemWrite | ttsim_bm/ttsim_bm.cc:434-465 | the callback reaches, in system steps, the point where the call has been told its write is done |
| Adapter.AdapterSim.CallLib | ttsim_bm/ttsim_bm.cc:36-53 | a call with its callbacks, no slot held on entry or return, ends having been told what its transfers moved |
| Adapter.AdapterSim.DrainDeferredMmio | ttsim_bm/ttsim_bm.cc:476-519 | the queue is emptied, in system steps, requests that arrive meanwhile included |
| Adapter.AdapterSim.PopMmio | ttsim_bm/ttsim_bm.cc:478-488 | the head is popped and counted, and either enters libttsim or is answered with zeros: exactly the system's step |
| Adapter.AdapterSim.Complete | ttsim_bm/ttsim_bm.cc:498-516 | a read or non-posted write is answered once, with a slot allocated only now |
| Adapter.AdapterSim.RunClocks | ttsim_bm/ttsim_bm.cc:551-599 | a batch, a jump or a wait, in system steps, back at the top of the loop |
| Adapter.AdapterSim.PlanClocks | ttsim_bm/ttsim_bm.cc:555-590 | the number of steps, the jump and the wait are those of the system's step |
| Adapter.AdapterSim.FinishClocks | ttsim_bm/ttsim_bm.cc:592-598 | accounting for a finished batch is exactly the system's step |
| Adapter.AdapterSim.RunLoop | ttsim_bm/ttsim_bm.cc:684-704 | the main loop takes only system steps and sees, poll by poll, what the peer makes visible; if a terminate message was among what it took, it has stopped |
| Adapter.AdapterSim.constructor | ttsim_bm/ttsim_bm.cc:114-159 | the globals start as the system's adapter does |
| Probe.ProbeSim.Poll | tests/tt_host_probe.cc:136-225 | exactly one poll of the system's host, what is sent having become visible as the script says; if it finds nothing, nothing is due; accesses stay completed one for one, or a completion came in that nobody waits for, which shows as a fault |
| Probe.ProbeSim.TakeCompletion | tests/tt_host_probe.cc:191-204 | a completion of the pending access, in kind and id, completes it; any other is a fault |
| Probe.ProbeSim.PumpUntil | tests/tt_host_probe.cc:228-258 | takes full rounds (send an owed sync, poll dry, move the clock to the next stop), the last broken off when the access completes, by its own completion; giving up, the clock has moved or stands at its deadline |
| Probe.RoundMovesTime | tests/tt_host_probe.cc:243-256 | every full round leaves the clock moved on or at its deadline, and unsynchronized moved on by one step |
| Probe.ProbeSim.Advance | tests/tt_host_probe.cc:243-256 | time moves exactly to the next stop: synchronized, the deadline, capped at 1000 steps if asked; otherwise one step on; never back |
| Probe.ProbeSim.MmioWrite | tests/tt_host_probe.cc:260-271 | issues exactly this request, pumps in full rounds and returns with its completion and no other |
| Probe.ProbeSim.MmioRead | tests/tt_host_probe.cc:273-282 | issues exactly this request, pumps in full rounds and returns with the bytes of its completion, the only one that came in |
| Probe.ProbeSim.IdleHold | tests/tt_host_probe.cc:496-528 | keeps time and serves the device in full rounds, issuing nothing; the clock has moved or stands at its deadline |
| Bits.WalkSetBits | perf/libttsim-idle-fastpath.patch:92-94 | the loop visits exactly the set bits, each once, ascending, in popcount many rounds |
| Bits.ClearLowest | perf/libttsim-idle-fastpath.patch:92-93 | mask & (mask - 1) drops the position that count-trailing-zeros finds and nothing else, and gets smaller |
| Bits.SetBit | perf/libttsim-idle-fastpath.patch:42 | or-ing in a bit adds one to the popcount exactly if it was clear |
| Bits.ClearBit | perf/libttsim-idle-fastpath.patch:44 | and-ing out a bit takes one off the popcount exactly if it was set |
| InstFifo.RingIsBoundedQueue | perf/libttsim-idle-fastpath.patch:54-62 | over any run of pushes and pops the ring is a queue of its size less one: same contents, overflow on the same push |
| InstFifo.StoreAppends | perf/libttsim-idle-fastpath.patch:54-62 | the pointers meet after a store exactly if there was no room; otherwise the instruction is appended |
| InstFifo.DropTakesHead | perf/libttsim-idle-fastpath.patch:80-82 | advancing the read pointer takes the head off |
| FastPath.OperationKeepsAgreement | perf/libttsim-idle-fastpath.patch:38-47 | for any number of tiles and at every mask change, in the middle of a sweep too, the counters are the sums of the popcounts of the masks modulo 2^32, a pipe being active exactly when its FIFO is not empty |
| FastPath.PipesNeverWrap | perf/libttsim-idle-fastpath.patch:57-60 | below 2^27 tiles the counters are the sums themselves, and the pipe counter moves by exactly one when a pipe becomes active or its FIFO runs empty, the unguarded decrement never wrapping |
| FastPath.PopKeepsAgreement | perf/libttsim-idle-fastpath.patch:80-84 | a pop keeps the agreement |
| FastPath.PushKeepsAgreement | perf/libttsim-idle-fastpath.patch:54-60 | a push that does not overflow keeps the agreement |
| FastPath.SetCoreSwitches | perf/libttsim-idle-fastpath.patch:41-45 | activating or deactivating a core makes its bit so and changes no other bit, no other tile and nothing else |
| FastPath.SetEthSwitches | perf/libttsim-idle-fastpath.patch:48-50 | the same for an eth core and the chip-wide mask |
| FastPath.PushAppends | perf/libttsim-idle-fastpath.patch:54-62 | a push puts its instruction at the end of the FIFO of its pipe, activates that pipe and changes nothing else, and is fatal exactly if the FIFO has but one slot left |
| FastPath.PopTakesFirst | perf/libttsim-idle-fastpath.patch:80-84 | a pop takes the first instruction out of the FIFO of its pipe, deactivates the pipe exactly if it was the last, and changes nothing else |
| FastPath.AllInOrder | perf/libttsim-idle-fastpath.patch:76-90 | carrying out operations is carrying out each once, in order |
| FastPath.ClockInOrder | perf/libttsim-idle-fastpath.patch:76-94 | a clock clocks every tile once, in order, each on what the ones before have left, and then exactly the eth cores active by then, each once and ascending |
| FastPath.IdleClockSkipsSweep | perf/libttsim-idle-fastpath.patch:73-75 | with both counters zero what a fast clock does is independent of every tile |
| FastPath.ZeroMeansIdle | perf/libttsim-idle-fastpath.patch:69-75 | below 2^27 tiles both counters zero implies that every mask of every tile is zero |
| FastPath.IdleSweepIsNothing | perf/libttsim-idle-fastpath.patch:70-72 | sweeping an idle chip changes nothing |
| FastPath.ClocksAgree | perf/libttsim-idle-fastpath.patch:68-94 | one clock with the counters and the skip does what one clock that always sweeps does, below 2^27 tiles |
| FastPath.FastPathIsInvisible | perf/README.md:44-51 | below 2^27 tiles, for any sequence of clocks, activations, pushes and pops both chips end together or hold the same, counters in agreement |
| FastPathLimit.EquivalentIff | perf/README.md:49-51 | for every number of tiles: the fast path cannot be told from the original, by any device model whose idle tiles do nothing and any run from reset, if and only if there are fewer than 2^27 tiles |
| FastPathLimit.Fill | perf/libttsim-idle-fastpath.patch:38-47 | from 2^27 sleeping tiles on, activating core after core from reset leads both chips to 2^27 fully active tiles |
| FastPathLimit.SkipShows | perf/libttsim-idle-fastpath.patch:69-75 | on that chip both counters read zero, and the next clock of the fast chip differs from that of the original |
| FastPath.ChipSim.SetCoreActive | perf/libttsim-idle-fastpath.patch:38-47 | the in-place update is the operation, it makes the core's bit so and changes no other, and the counters still agree |
| FastPath.ChipSim.PushInst | perf/libttsim-idle-fastpath.patch:54-62 | the in-place push is the operation, refused exactly when it fills the FIFO |
| FastPath.ChipSim.PopInst | perf/libttsim-idle-fastpath.patch:80-84 | the in-place pop is the operation, and below 2^27 tiles the pipe counter never grows |
| FastPath.ChipSim.ClockCurrentChip | perf/libttsim-idle-fastpath.patch:68-94 | the patched function, in place, is the fast clock, and below 2^27 tiles leaves the chip as the original function without counters and skip does |
| FastPath.ChipSim.ClockEthCores | perf/libttsim-idle-fastpath.patch:91-94 | the eth cores clocked are the set bits of the mask on entry, ascending |
| CommandLine.NumberReadsBack | ttsim_bm/ttsim_bm.cc:884 | strtoull with base 0 reads back every decimal number up to 2^64 - 1 |
| Numerals.PrefixTellsBase | ttsim_bm/ttsim_bm.cc:884 | numbers written with 0x or 0X in base 16, with 0 in base 8 and without in base 10 are read back, in either case of digits, up to what ends them |
| Numerals.SignsAreRead | ttsim_bm/ttsim_bm.cc:884 | leading white space and a plus are skipped, a minus negates on 64 bits, and what does not fit saturates |
| Numerals.ArgumentsOneByOne | ttsim_bm/ttsim_bm.cc:880-902 | the first two arguments that are no options are url and start tick; a third, an option without its value and an unknown option are refused |
| Numerals.OptionsTakeTheirValues | ttsim_bm/ttsim_bm.cc:904-917 | what each option does with its value |
| Numerals.AcceptedInTheEnd | ttsim_bm/ttsim_bm.cc:921-937 | what is accepted in the end, and the defaults |
| CommandLine.WordsOfJoin | ttsim_sim_bm_py/simbricks/components/tenstorrent/simulation/behavioral/ttsim.py:115-124 | splitting at blanks undoes joining words that contain none |
| CommandLine.RunCmdIsJoin | ttsim_sim_bm_py/simbricks/components/tenstorrent/simulation/behavioral/ttsim.py:115-124 | the printed command is its arguments with one blank between each two |
| CommandLine.ParseOptions | ttsim_bm/ttsim_bm.cc:876-938 | the loop over argv computes what reading the arguments one after another does, refusals included |
| CommandLine.UrlIsPositional | ttsim_bm/ttsim_bm.cc:880-884 | no accepted command line yields a url that begins with two dashes |
| CommandLine.CommandRoundTrip | ttsim_bm/ttsim_bm.cc:876-938 | for every printable configuration, splitting and parsing the printed command recovers it if and only if its url does not look like an option; an absent BAR4 size is recovered as 0 |
| CommandLine.PeriodIsLongestThatKeepsUp | ttsim_bm/ttsim_bm.cc:969-972 | the period is positive and the longest that is not slower than the frequency asked for, exact if and only if the frequency divides 10^6 MHz, too slow if and only if it exceeds that |
| CommandLine.AcceptedIsRunnable | ttsim_bm/ttsim_bm.cc:921-937 | every accepted command line gives a positive period and batch, as the system requires |

## Left out

- Loading libttsim with `dlopen`, sockets, shared memory and the SimBricks library: foreign code, represented by `Lib` and `Link`.
- Adapter.AdapterSim.AllocPcieOut: the wait for a full ring (`ttsim_bm/ttsim_bm.cc:241-251` spins without polling) and the exits on a terminated peer are not modelled; rings are unbounded here.
- The peer-terminated flag of the link and the exits that depend on it; a terminate message and the exits it leads to are an absorbing stopped state.
- Terminate and interrupt messages from device to host: the adapter sends none of its own.
- uint64 overflow of simulated time.
- Progress lines, profile dumps, wall-clock measurement, the self-test, and the device intro.
- JSON conversion, guest commands and image scripts of the Python package: field copies and plumbing.
- The numeric value of `--progress-secs` (kept as text), and `extra_args` in the round trip.
- Memory the host changes on its own: host memory changes only by served DMA, as in the probe.
- The interior of the tile sweep: clocking a tile or core is an arbitrary sequence of the visible operations and of changes to the rest of the chip, which may depend on everything but the counters. Advancing the read pointer, which the diff does not show, is taken to be the same step as for the write pointer.
- FastPath.FastPathIsInvisible: assumes that clocking a tile with both masks zero does nothing, as the patch's comment says.
- Adapter.AdapterSim.RunLoop: follows a finite script of what the peer makes visible, since methods must terminate; the script is arbitrary, and followed exactly.
- Adapter.AdapterSim.DmaPumpUntil: may also give up when that script is used up; that the wait ends is Fairness.EveryFairScheduleEndsTheCall.
- Adapter.AdapterSim.DrainDeferredMmio: may also stop, inside a DMA callback, when that script is used up.
- Probe.ProbeSim.PumpUntil: may also give up when the script of what the device makes visible is used up.
- Probe.ProbeSim.Poll: a completion that nobody waits for, which the original writes through whatever address it carries, ends the access with a fault; that none comes is Composition.ProgramsLookSequential.
- Fairness.EveryFairScheduleEndsTheCall: is about synchronized links; polls that do not see yet what has been sent are not among the steps of its schedules.
- Clock steps always being run in synchronized mode: windows shorter than a clock period are skipped, so only time progress and the ledger are claimed.
