# netchaos, modelled and proved in Dafny

netchaos is a Go library that simulates a network inside one process: listeners, dials and connections
whose every write goes through a chain of seeded faults (partition, loss, bandwidth, latency, corruption,
duplication). This project models its transport, its fault engine, the connection protocol on top of them
and the bookkeeping of names, ports and traces, and proves what the library is for: runs that are explained
by their traces, determined by their seed, and free of lost bytes, lost wake-ups and wrong errors.

`dafny verify dfyconfig.toml` checks all of it.

## How it is built

* **Steps.** A section of the source under one mutex is one atomic step; a write, which reads the partition
  state and then the settings under locks of their own while it holds its pipe's, is three. `PipeSpec` gives the steps of
  one direction of a connection as functions on its state; the class `Pipe.Pipe` is the object itself, with
  its fields and loops, and each of its methods is proved to take exactly that step. The theorems are about
  runs of any length of these steps (`PipeInvariant`, `PipeRuns`, `PipeLimits`, `PipeTiming`, `LinkBacklog`,
  `Determinism`, `Isolation`). Those of `DrawLaws`, `Decisions`, `Delivery`, `Arrival` and `Endings` say the same
  in terms of what a caller sees: raw words, settings, payload bytes and instants, with no reference to how
  the steps compute them. And `NetworkRuns` shows that every direction of every run of a whole network
  is such a run: settings that only grow and the one clock are a consequence there, not an assumption.
* **Time** is an explicit clock that never runs back. Timers are events: a callback may run at any instant,
  late, or after it was stopped.
* **Randomness.** A derived stream is an arbitrary infinite sequence of 64-bit words, subject only to the
  rejection loops ending on it (`Draws.Fair`).
* **Concurrency.** `Protocol` cuts Read, Write, Close and Reset into their steps and lets any number of calls
  interleave with deadlines, timers, partitions and settings; a write there takes effect under any partition
  state and any settings in force since the last write. `ProtocolSafety` and `ProtocolRuns` say which
  errors can surface, `ProtocolWaking` that no call is left asleep, `ProtocolEffects` that deadlines bind, that
  a Close and a Reset complete and that calls report what happened. A notification channel that is closed and
  replaced is a generation counter. `Conn` is the object, one pass of its loops at a time.
* **Establishment and naming.** `Listeners` is the accept queue, `Establishment` interleaves the steps of any
  number of dials, their registrations for Reset and Trace included, with Accepts and Closes, `AddressBook` and `Topology` are the address book, the port
  search and the lookup, `Registry` is what a Reset finds, `TraceExport` the exported trace, `Encoding` the
  key of a stream.

## Where the code and its comments disagree

* The comment at `faults.go:118-123` says that each fault's draws are independent of what every other fault
  decided. Corruption is the exception: the site of a flip is drawn from corruption's own stream, and only
  for units that loss did not drop. `Isolation.CorruptionUnmovedExactly` says exactly when a change of the
  loss settings leaves corruption's stream where it was, `Isolation.LossMovesCorruption` gives two runs that
  differ only in the loss rate at the first write and corrupt different units. Loss, latency and duplication
  are isolated as the comment says.
* The comments at `listener.go:78` and `netchaos.go:370-377` say that every claimed slot is filled and that no
  failed dial takes an ordinal. The return at `netchaos.go:498-500` does neither.
  `Establishment.NothingLostExactly` says that the claim holds exactly of the runs in which no dial was
  refused a local address, `Establishment.RefusedAnAddressExactly` when that happens,
  `Establishment.EachFailureLosesOneSlotAndOneOrdinal` what it costs, and
  `Establishment.AFailedDialCanFillTheBacklog` is a run in which one such dial closes a listener to all others.

## Model

| member | source | states |
|---|---|---|
| Words.Mul64 | bandwidth.go:69-70 | the two words of a 128-bit product together are the product |
| Words.Div64 | bandwidth.go:77-77 | below the panic condition, quotient and remainder satisfy the division equation and the quotient fits a word |
| Bandwidth.DelayIsExact | bandwidth.go:68-82 | the delay is the exact quotient rounded down, and the clamp applies only when that is no time.Duration; the division precondition always holds |
| Bandwidth.DelayMonotone | bandwidth.go:68-82 | longer units never take less time, faster links never more |
| Bandwidth.DelayCoversUnit | bandwidth.go:68-82 | an unclamped delay is short of the unit's true transmission time by less than a nanosecond |
| Draws.LargestWordIsAccepted | rand.go:133-142 | for every n some word is accepted, so streams on which rejection ends exist |
| Draws.BoundedDrawIsUniform | rand.go:133-142 | each value below n is produced by exactly floor(2^64 / n) raw words |
| Draws.RejectedDraws | rand.go:133-142 | exactly 2^64 mod n raw words are rejected, fewer than half |
| Draws.TrialMonotone | rand.go:81-93 | on the same draw, a higher rate never turns a hit into a miss |
| Draws.Stream.Bernoulli | rand.go:81-93 | one draw, consumed whatever the rate, decides the trial |
| Draws.Stream.BoundedUint64 | rand.go:133-142 | reads up to the first word the rejection keeps, skipping the threshold changes nothing, and returns v with v * 2^64 <= word * n < (v + 1) * 2^64 |
| Draws.Stream.Next | rand.go:72-74 | one raw word, in stream order, each consumed once |
| Draws.Stream.UniformDuration | rand.go:111-114 | the duration lies in [min, max] and the span never overflows |
| Draws.Stream.CorruptionSite | rand.go:124-126 | a byte index below the size and a bit index below 8, drawn in this order |
| DrawLaws.ReturnedValueIsUniform | rand.go:133-142 | every v below n is what the draw returns for exactly floor(2^64 / n) of the words that are kept |
| DrawLaws.DurationIsExact | rand.go:111-114 | the duration is min plus the bounded draw of the inclusive span, from the first word kept |
| DrawLaws.DurationIsUniform | rand.go:111-114 | every duration of the range comes from as many words as any other |
| DrawLaws.SiteIsExact | rand.go:124-126 | the byte is drawn first, then the bit, each from its own first word kept |
| DrawLaws.TrialIsExact | rand.go:81-93 | a trial hits exactly when the top 53 bits of its word are below the rate in parts of 2^53 |
| DrawLaws.TrialsMeetTheRate | rand.go:81-93 | the words that hit number 2^11 times the rate in parts of 2^53, rounded up |
| Faults.Decide | faults.go:128-196 | a partitioned unit draws nothing; any other draws from every configured stream, with delay and flip site in range |
| Faults.FlipBitIsInvolution | faults.go:192-196 | the flip changes the byte and undoes itself |
| Decisions.PartitionIsExact | faults.go:129-136 | only a partition makes a unit partitioned, which then has drawn nothing and is nothing else; any other records its size |
| Decisions.LossIsExact | faults.go:143-146 | loss costs one word of its stream, which decides by the rate |
| Decisions.LatencyIsExact | faults.go:148-151 | latency costs one bounded draw of its stream, dropped or not |
| Decisions.DuplicationIsExact | faults.go:153-156 | duplication costs one word of its stream, which decides by the rate |
| Decisions.CorruptionIsExact | faults.go:158-196 | corruption costs one word, and a site only for a hit unit that is neither dropped nor empty: the byte first, then the bit |
| Decisions.RunIsDecidedByWords | faults.go:128-196 | in every run each event's flags are those of the next unused word of each fault's own stream, and its size is the payload's |
| Delivery.FlipIsOneBit | faults.go:192-196 | the flip changes the drawn bit and no other |
| Delivery.EveryByteIsAccountedFor | faults.go:128-251 | in every reachable state that was not aborted, bytes read, readable and delayed are the accepted payloads in order, each as often as its event says and byte for byte but for the recorded bit |
| Delivery.ReadBytesAreAccountedFor | faults.go:128-251 | even after an abort what was read begins such a stream |
| Delivery.PlainRunDeliversWhatWasWritten | faults.go:214-226 | if no event records a fault, they are the payloads written |
| Delivery.HarmlessRunIsAByteStream | faults.go:198-250 | without partition, loss, duplication and corruption a connection is a faithful byte stream, whatever latency and bandwidth do |
| Pipe.Pipe.TryRead | pipe.go:146-194 | takes the read step of the specification, and the caller's buffer holds the bytes returned and is otherwise unchanged |
| Pipe.Pipe.CopyHead | pipe.go:156-163 | one round of the loop moves bytes from the head chunk to the buffer and loses none |
| Pipe.Pipe.CopyOut | pipe.go:155-164 | the copying loop hands out the longest prefix of the byte stream the buffer takes and keeps the rest |
| Pipe.Pipe.EndOrWait | pipe.go:181-193 | end of stream, or which channel to wait on, and when the end is recorded as seen |
| Pipe.Pipe.TryWrite | pipe.go:203-221 | admits the whole payload, refuses it or blocks, exactly as the specification's step |
| Pipe.Pipe.DrawFaults | faults.go:141-196 | the draws, in the source's order, are the decision; the buffer then holds the content to deliver |
| Pipe.Pipe.Toss | faults.go:143-161 | a configured probability costs exactly one trial of its own stream, an unconfigured one nothing |
| Pipe.Pipe.DrawLatency | faults.go:148-151 | a configured latency costs one duration, an unconfigured one nothing |
| Pipe.Pipe.CorruptData | faults.go:158-196 | flips exactly the drawn bit in place, of a unit that survived loss and is not empty |
| Pipe.Pipe.Deliver | faults.go:128-251 | the composed evaluator changes queues, counters, link clock, timer, trace and stream positions exactly as specified |
| Pipe.Pipe.Settle | faults.go:170-250 | loss, then bandwidth, then latency, then duplication, in this order |
| Pipe.Pipe.Discard | faults.go:170-177 | a discarded unit gives its room back, is recorded and wakes the writers |
| Pipe.Pipe.HandOver | faults.go:214-226 | an undelayed unit becomes readable at once, twice if duplicated |
| Pipe.Pipe.Append | faults.go:237-250 | the duplicate goes behind its original with the same release |
| Pipe.Pipe.Transmit | faults.go:202-212 | the link-busy recurrence |
| Pipe.Pipe.ClampToTail | faults.go:228-233 | never before the unit at the tail of the queue |
| Pipe.Pipe.Enqueue | faults.go:228-250 | both copies at the tail with one release and one arming |
| Pipe.Pipe.Close | pipe.go:250-260 | graceful close keeps what is queued |
| Pipe.Pipe.Abort | pipe.go:265-281 | abort discards everything and stops the timer |
| Pipe.Pipe.Note | trace.go:50-55 | the event gets the next sequence number |
| Pipe.Pipe.ReleaseDueLatency | latency.go:107-126 | the callback moves exactly the due units, in order, and re-arms for the new head |
| Pipe.Pipe.ArmForAppend | latency.go:76-81 | an append arms the timer only for a new head |
| Pipe.Pipe.ArmTimer | latency.go:87-101 | one live timer for the head, at once if the head is overdue, none for an empty queue |
| Pipe.Pipe.MoveDue | latency.go:115-120 | the loop moves the due prefix and stops at the first unit that is not due |
| PipeInvariant.TakeSplitsStream | pipe.go:155-164 | a read returns a prefix of the byte stream and leaves the rest; nothing read into a real buffer means nothing was left |
| PipeInvariant.StepKeeps | pipe.go:146-281 | every step keeps the invariant: buffer count, one live timer for the head, release order, event numbering, link clock, explained bytes |
| PipeInvariant.RunKeeps | pipe.go:146-281 | the invariant holds after every legal run of a fresh pipe |
| PipeRuns.RunIsObserved | pipe.go:146-221 | the history of a run is its accepted writes in order, its output what its reads returned |
| PipeRuns.TraceExplainsBytes | faults.go:128-251 | in every reachable state that was not aborted, bytes read, readable and pending are the accepted payloads replayed through the recorded events, one event a write, numbered in order |
| PipeRuns.ReadBytesAreExplained | faults.go:128-251 | even after an abort, what was read is a prefix of that replay |
| PipeRuns.StepStaysRecent | netchaos.go:578-586 | an operation under settings in force since the last write and the clock of this moment is legal, so the immediate branch never overtakes pending units |
| PipeLimits.BufferIsBounded | pipe.go:214-221 | never more than max(bound, longest) plus one duplicate of the longest; without duplication max(bound, longest), and above the bound only one payload is held |
| PipeLimits.BlockedWriterHasUnreadBytes | pipe.go:214-220 | a blocked writer has real unread bytes in front of it |
| PipeLimits.EofExactly | pipe.go:181-193 | end of stream if and only if closed, drained and not hidden by a partition (or reported before), and then everything that was to arrive has been read |
| PipeLimits.EofIsPermanent | pipe.go:181-183 | once reported it is reported by every later read, partitioned or not |
| PipeLimits.EofIsRemembered | pipe.go:190-191 | the first report is what makes it permanent |
| PipeLimits.ReadsDrain | pipe.go:154-179 | a read into a non-empty buffer never returns nothing, and the buffered bytes are a measure that every read lowers |
| PipeLimits.ClosedPipeDrains | pipe.go:146-194 | when the writer closes, the last release and any run of more reads than there are bytes, with no partition in the way, end the stream with everything that was to arrive read |
| Endings.GracefulCloseDeliversEverything | conn.go:284-301 | from the first write on: any run, a close, the last release and enough reads end the stream, and the reads together are what arrives of the writes, byte for byte |
| Endings.ClosedPipeRefusesWrites | pipe.go:207-209 | after a close every later write of any run fails and nothing is recorded |
| Endings.AbortedPipeIsOver | pipe.go:265-281 | after an abort nothing is queued or armed, reads end and writes fail, for good |
| PipeTiming.ReleaseIsPeak | faults.go:228-233 | clamping against the pending tail alone gives the maximum over all history |
| PipeTiming.ReleaseIsRunningMaximum | faults.go:198-250 | in every run each delayed unit is released at the running maximum of transmission end plus drawn delay, never earlier than it drew |
| PipeTiming.UnitsReleasedOnTime | latency.go:76-126 | after every run with callbacks run when due, the next such callback makes readable exactly the units whose release is that instant and leaves only later ones |
| PipeTiming.NothingIsOverdue | latency.go:76-126 | in such a run no queued unit is ever overdue and a pending unit always has the one timer ahead, for the head's release |
| PipeTiming.CallbackReleasesAllDue | latency.go:107-126 | a callback, however late, leaves nothing due behind |
| PipeTiming.AbortStrandsNothing | pipe.go:265-281 | after an abort there is no unit and no timer, for good |
| Arrival.AcceptedWriteTakesEffect | faults.go:128-251 | a lost unit goes nowhere, one under latency or a throttle leaves the reader's queue alone and is held until at least its draw has passed, any other is readable at once |
| Arrival.RunIsTimedExactly | faults.go:202-212 | in every run each recorded serialization is the wait for the link plus floor(size * 10^9 / rate) clamped, and 0 without a throttle |
| Arrival.NothingArrivesEarly | faults.go:198-250 | until the drawn latency of a write has passed, no byte of it or of a later one has been read or is readable, whenever callbacks run |
| LinkBacklog.LinkClockClosedForm | faults.go:202-212 | the link clock is the maximum over transmitted units of write time plus all delays from it on |
| LinkBacklog.BusyUntilIsBacklog | faults.go:202-212 | busyUntil in every reachable state is that closed form over the recorded history, at one rate |
| LinkBacklog.RateBound | bandwidth.go:68-82 | the bytes of consecutive units stay within rate times link time plus a nanosecond a unit |
| Determinism.RunDetermined | faults.go:128-196 | the draw-derived fields of a trace and the stream positions are a function of the admitted writes alone |
| Determinism.DecisionsIgnoreTime | faults.go:128-196 | and of those, write times do not matter |
| Determinism.NonInterference | faults.go:125-252 | two runs whose accepted writes agree have the same faults and the same byte stream, whatever reads, clocks, bounds and recording do |
| Isolation.LossIsIsolated | faults.go:143-146 | loss decisions depend on loss's own stream and settings; partitioned units consume nothing |
| Isolation.LatencyIsIsolated | faults.go:148-151 | one duration a unit from latency's own stream, dropped units included |
| Isolation.DuplicationIsIsolated | faults.go:153-156 | duplication decisions depend on duplication's own stream and settings |
| Isolation.CorruptionSeesOnlyLoss | faults.go:158-196 | corruption depends on its own stream and settings, unit sizes and which units loss dropped, nothing else |
| Isolation.LossIndependent | faults.go:118-123 | nothing but loss settings can move a loss decision |
| Isolation.RaisedLossDropsMore | faults.go:143-146 | raising only the loss rate can only enlarge the set of dropped units |
| Isolation.DropShiftsCorruptionExactly | faults.go:170-196 | a drop moves corruption's stream exactly when the corruption coin hit a non-empty unit |
| Isolation.CorruptionUnmovedExactly | faults.go:118-123 | over all runs: corruption's stream ignores loss if and only if no unit that loss treats differently was hit and had a byte to flip |
| Isolation.LossAloneDecides | faults.go:143-146 | whether a unit is dropped is one coin of loss's own stream, at a position that only loss's own settings determine |
| Isolation.CorruptionUnmovedBySettings | faults.go:118-123 | the same with the loss side in terms of the loss settings and loss's own stream |
| Isolation.LossMovesCorruption | faults.go:118-123 | two runs that differ only in one loss rate and corrupt different units |
| Controls.PairKeyIsUnordered | partition.go:11-16 | two keys are equal exactly when they name the same two peers |
| Controls.UnwokenDialsAreStillCutOff | netchaos.go:662-674 | as long as the channel a dial waits on is not replaced, no partition has changed |
| Controls.Network.Partition | partition.go:92-102 | adds the pair and announces it, or changes nothing |
| Controls.Network.Heal | partition.go:120-130 | removes the pair and announces it, or changes nothing |
| Controls.Network.CheckPartition | partition.go:155-160 | the partition state and the generation to wait on, from one instant |
| Controls.Network.SetLatency | netchaos.go:578-586 | turns latency on and never off, and touches no other setting |
| Controls.Network.SetPacketLoss | netchaos.go:600-607 | turns loss on and never off, and touches no other setting |
| Controls.Network.SetDuplication | netchaos.go:625-632 | turns duplication on and never off, and touches no other setting |
| Controls.Network.SetCorruption | netchaos.go:650-657 | turns corruption on and never off, and touches no other setting |
| NetworkRuns.DirectionsAreIndependent | netchaos.go:508-521 | each direction of any network run stands where its own operations alone would take a fresh pipe, in a legal run, even when setters and partitions come between what a write reads |
| NetworkRuns.DirectionIsExplained | faults.go:125-252 | hence its history is its accepted writes and accounts for its bytes, one by one |
| NetworkRuns.ConnectionsDoNotInterfere | conn.go:93-112 | two network runs that agree on one direction's writes deliver the same there, whatever every other connection does |
| NetworkRuns.LastSetIsInForce | netchaos.go:578-657 | in every run the settings and partitions in force are those last made |
| NetworkRuns.WritesSeeTheirOwnTime | faults.go:129-141 | a write is partitioned exactly if its pair was when it began, under settings in force at some moment of it |
| Deadlines.Deadline.SetTo | deadline.go:56-75 | installs the deadline for every later look at it, always announces it, and arms a callback for the future only |
| Deadlines.DeadlineIsTheLastAskedFor | deadline.go:38-86 | over any run of sets, callbacks and stops a deadline has passed exactly from the instant last asked for on |
| Deadlines.ChangesAreAnnounced | deadline.go:45-75 | every set and every callback replaces the channel, and a set arms for exactly the instant asked for |
| Deadlines.Deadline.RunCallback | deadline.go:71-75 | the callback announces a change and leaves the deadline alone |
| Deadlines.Deadline.IsExpired | deadline.go:40-44 | set and not after now |
| Deadlines.Deadline.Halt | deadline.go:79-86 | stops the callback and keeps the deadline |
| Registry.ResetFindsExactlyTheLive | reset.go:52-64 | a Reset targets exactly the ends registered for its pair that have neither closed nor been reset since, each once |
| Registry.WithoutCutsFirst | reset.go:93-98 | splicing out the first occurrence is the removal the specification names |
| Registry.ResetRegistry.Deregister | reset.go:89-100 | the loop removes the end if it is there and changes nothing else |
| Registry.ResetRegistry.Register | reset.go:80-84 | appends the ends under their pair |
| Registry.ResetRegistry.TakeAll | reset.go:56-64 | hands out all ends of the pair and forgets them |
| ProtocolSafety.NextSafe | conn.go:145-301 | every step of every call, Close and Reset keeps who may have closed or aborted what |
| ProtocolSafety.TryIsSafe | conn.go:190-210 | a failed try has a reason that the two checks after it tell apart |
| ProtocolSafety.TargetsAllKnow | reset.go:70-75 | when a Reset starts to abort, both ends know of it or are closed |
| ProtocolRuns.RunStaysSound | conn.go:172-301 | all of this holds in every reachable state of a connection |
| ProtocolRuns.ErrorsAreSound | conn.go:172-301 | EOF only after a graceful peer close with every byte read, broken pipe only after a peer close, closed ends report closed, reset ends reset, timeouts only past the deadline on record; no short write, no empty read |
| ProtocolRuns.ResetAloneIsNeverEof | reset.go:66-75 | while neither end is closed, calls fail only with reset or timeout |
| ProtocolRuns.OnlyReadersAbort | conn.go:289-301 | no pipe is aborted under a reader that is neither closed nor reset |
| ProtocolEffects.DeadlineOnRecord | conn.go:324-352 | in every run the deadline on record is the one last set |
| ProtocolEffects.DeadlinesBind | conn.go:188-192 | a call that looks at its deadline times out if and only if the one last set has passed, and goes on otherwise |
| ProtocolEffects.CloseTakesEffect | conn.go:289-301 | how far a Close has come is what it has done: closed, deregistered, stream ended, reading aborted |
| ProtocolEffects.ResetTakesEffect | reset.go:70-75 | a finished Reset has told every target and aborted both its pipes |
| ProtocolEffects.ResetTargetsEveryOpenEnd | reset.go:56-61 | in every run a Reset that begins has every open end among its targets, or an earlier one had |
| ProtocolEffects.LateCallsFail | conn.go:178-187 | in every run a call started on a closed end returns nothing but that, on a reset end nothing but the reset or a later close |
| ProtocolEffects.CallsReportWhatHappened | conn.go:172-282 | in every run the bytes reported by reads are those that left the pipe and the writes reported are those recorded |
| ProtocolEffects.EndOfFileIsTheWholeStream | conn.go:194-210 | a reported end of the stream means that all that ever arrives has been read, byte for byte |
| ProtocolWaking.StepIsCalm | pipe.go:136-220 | a pipe step that does not replace the channel leaves every reason to wait standing |
| ProtocolWaking.StepStaysMuted | pipe.go:185-189 | while partitioned, only an abort changes a stream that has ended unannounced |
| ProtocolWaking.NoWakeupIsLost | conn.go:212-218 | in every reachable state a waiting call that could go on has had a channel closed, or its deadline's callback is due |
| ProtocolWaking.WaitingHasAReason | conn.go:274-282 | an unwoken reader waits for units a timer is armed for, for an open writer or for Heal; an unwoken writer for bytes that are there |
| Conn.Conn.ReadPass | conn.go:172-211 | one pass of Read: closed before reset before deadline before pipe, the pipe untouched by the first three |
| Conn.Conn.WritePass | conn.go:230-273 | one pass of Write, likewise, with the second look at the deadline at a later instant before it waits |
| Conn.Conn.Close | conn.go:289-301 | deregisters, closes the written pipe, aborts the read one, stops both timers; a second Close does nothing |
| Conn.Conn.AbortReset | conn.go:152-155 | both pipes are aborted |
| Conn.AnUndisturbedCallIsOnePass | conn.go:172-282 | the interleaved steps of a call, undisturbed, come to what the pass says, with the same effect on the pipes |
| Conn.UndisturbedWaitIsAsleep | conn.go:188-217 | a call that goes to wait with nothing in between waits on channels of which none is closed yet |
| Conn.Reset | reset.go:52-76 | every registered end of the pair is signalled and both its pipes are aborted |
| Encoding.BigEndianIsInjective | rand.go:63-64 | fixed-width big-endian octets determine the number |
| Encoding.BigEndianRoundTrips | rand.go:63-64 | most significant octet first: reading the octets back gives the number |
| Encoding.KeyInputLayout | rand.go:60-65 | tag, seed, ordinal, side and kind each stand where the layout says |
| Encoding.KeyInputIsInjective | rand.go:59-69 | different seed, ordinal, side or kind means a different key input |
| AddressBook.CandidateIsInjective | addressing.go:49-63 | the pool has as many addresses as its counter has values |
| AddressBook.Ipv4PoolIsTheBenchmarkRange | addressing.go:49-56 | the IPv4 pool is exactly 198.18.0.0/15, section 2.2.2 of RFC 6890 |
| AddressBook.Ipv6PoolIsUniqueLocal | addressing.go:57-64 | the IPv6 pool lies in fd00::/8, section 3.1 of RFC 4193, in counter order |
| AddressBook.NoTwoPeersShareAnAddress | addressing.go:30-73 | in every run no two peers own one address and no name has two in a family |
| AddressBook.AddressesAreForever | addressing.go:44-46 | a name keeps its address, and the address stands for the name ever after |
| AddressBook.IdentityIsForever | addressing.go:17-28 | a host once resolved is always resolved to the same peer |
| AddressBook.RefusedExactlyWhenExhausted | addressing.go:47-72 | a name is refused if and only if every address of the pool is owned; otherwise it gets one nobody had |
| AddressBook.RefusalIsExact | addressing.go:33-63 | an address is refused exactly to a literal of the other family and to a new name when the pool is used up |
| AddressBook.LiteralsAreNeverHandedOut | addressing.go:65-67 | no synthetic address is a literal already met |
| AddressBook.AddressTable.CanonicalPeer | addressing.go:17-28 | resolves to the owner and reserves an unknown literal |
| AddressBook.AddressTable.FindFree | addressing.go:47-67 | the search finds the first free candidate and terminates by the rest of the pool, counters wrapping as words do |
| AddressBook.AddressTable.PeerIp | addressing.go:33-73 | the whole effect of looking up or assigning an address |
| Listeners.Listener.ReserveSlot | listener.go:79-91 | refused, full or one slot claimed |
| Listeners.Listener.FillSlot | listener.go:105-115 | a reserved slot has room, so the send does not block; a closed listener queues nothing |
| Listeners.Listener.TryAccept | listener.go:58-65 | an Accept takes the head of the queue, or nothing when there is none |
| Listeners.Listener.Close | listener.go:133-152 | the drain closes every queued connection, in order, once |
| Establishment.FillNeverBlocks | listener.go:93-115 | in every reachable state a dial with a claimed slot finds room in the queue |
| Establishment.ClaimsSucceedExactly | listener.go:79-91 | in every reachable state a claim is refused only by a closed listener, full only when queue, dials under way and lost slots make up its backlog, and otherwise succeeds |
| Establishment.NothingIsDroppedUnlessClosed | listener.go:105-115 | as long as no listener has closed, every connection established is queued or accepted |
| Establishment.EveryEndIsInOnePlace | listener.go:58-152 | the server end of every ordinal taken is in exactly one place, of any other in none |
| Establishment.NothingLostExactly | netchaos.go:476-500 | every slot filled and no ordinal burned if and only if no dial of the run was refused a local address |
| Establishment.RefusedAnAddressExactly | netchaos.go:496-500 | refused exactly for a literal of the other family, or a name without an address when the pool is exhausted |
| Establishment.EachFailureLosesOneSlotAndOneOrdinal | netchaos.go:483-500 | each such failure loses one slot of that listener and one ordinal, for good |
| Establishment.AFailedDialCanFillTheBacklog | netchaos.go:498-500 | a run after which an empty, unused listener refuses every dial |
| Establishment.DirectionsAreRegisteredOnce | netchaos.go:537-540 | in every run each direction is registered for Trace once, which is all the export relies on |
| Establishment.RegistryHoldsExactlyTheLive | netchaos.go:527-529 | in every run each end is registered for Reset once, so the registry holds exactly the live ends of each pair |
| Topology.EveryPortComesUp | netchaos.go:222-227 | the wrapping counter visits every port of the range |
| Topology.Directory.FindPort | netchaos.go:221-235 | finds the first free port from the counter on, round 8000 to 65535, and fails if and only if all of them are taken for the peer |
| Topology.Directory.ChoosePort | netchaos.go:221-238 | no port exactly when the one asked for, or every one, is taken |
| Topology.Directory.Bind | netchaos.go:239-254 | the address and the entry on record, or neither |
| Topology.Directory.Listen | netchaos.go:199-255 | which error in which case, exactly; a tcp4 listener gets 4 octets, a tcp6 one 16, a literal its own address; the listener is on record and its address stands for its peer |
| Topology.Directory.Deregister | netchaos.go:260-267 | frees that port and no other |
| Topology.Directory.Lookup | netchaos.go:435-465 | reachable means an address of the dial's family and, for a literal, that address: an explicit port reaches exactly a reachable listener there, no port exactly the only reachable one, in any map order |
| TraceExport.Recorder.Record | trace.go:50-55 | events are numbered by their position |
| TraceExport.Tracer.Register | trace.go:211-215 | appends the direction, in whatever order dials get there |
| TraceExport.Insert | trace.go:241-244 | a handle goes to its place and none is lost |
| TraceExport.Tracer.Trace | trace.go:230-267 | every recorded event exactly once, strictly increasing by ordinal, side and sequence |
| TraceExport.IncreasingIsUnique | trace.go:217-219 | there is only one such export |
| TraceExport.ExportIgnoresRegistrationOrder | trace.go:211-215 | so it does not depend on the order in which racing dials register |

## Left out

- SHA-256 and ChaCha8: a stream is any sequence; only the encoding of the key is proved injective.
- The Go memory model, goroutine scheduling and real timers: atomic steps and clock events stand for them, and one critical section reads the clock once.
- IEEE floats: rates are reals and the 53-bit draw is an exact fraction, so rounding of a rate is not captured.
- Instants and durations are unbounded integers outside the serialization delay and the bounded draw.
- Payload slices: a queued payload is a value, so the fact that a queued slice and its duplicate do not share memory is by construction; the in-place flip and the caller's read buffer are arrays.
- Pipe.Pipe.Note: the recorder is a field of the pipe rather than an object of its own; TraceExport.Recorder models it for the export.
- Pipes without a Network: the static fault policy, the blocking read and write helpers and enqueue, which only the library's own checks use, are not modelled.
- Protocol: a deadline may be set at any time, also after Close, where the source refuses; the theorems hold of more runs than the source has.
- Conn.Conn.ReadPass: one pass without waiting; waiting and interleaving are in Protocol, where Conn.AnUndisturbedCallIsOnePass ties the two.
- Conn.Conn.WritePass: likewise; nobody else sets the deadline between its two looks at it, which only Protocol allows.
- Listeners.Listener.Close: nothing interleaves with its drain here; in Establishment the drain is one step a connection.
- Establishment: building the pair of connection ends touches nothing shared and is not a step of its own.
- Controls.Network.Partition: takes the two peers as already resolved; what resolving a host does is AddressBook.AddressTable.CanonicalPeer.
- Controls.Network.Heal: likewise.
- TraceExport.SortHandles: an insertion sort stands for the library's stable sort; stability is not stated because no two directions have the same key.
- Topology.Directory.Listen: a listener is known by an id, the accept queue behind it is Listeners.Listener.
- Contexts, cancellation, WithDialTimeout, DialerFor, option constructors and range panics: easy members.
- Address text: splitting host and port, parsing IP literals and IPv6 zones; peers are names or literal addresses.
- net.OpError wrapping, error numbers, plan9 fallbacks, net.Addr rendering and ephemeral ports: shape only.
- The counter of timer arms.
