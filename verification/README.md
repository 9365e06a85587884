# QMK firmware: a model and its proofs

This project models the stateful cores of the QMK keyboard firmware and of its UF2 converter in Dafny, and
proves what they keep over every run, what they give back, and where they do not do what they are for.

Most parts have two layers. A *specification* describes the state as values (sequences, maps, records) and
one operation as a function from state to state; the theorems are about it. An *engine* is the code in its own
form, a class with the source's variables, arrays and loops; the contract of each of its methods equates the
new state with the specification's, so every theorem is about the code.

| files | part of the system |
|---|---|
| `TappingModel`, `TappingRuns`, `TappingDecisions`, `TappingEvidence`, `TappingEngine` | the tap/hold state machine: one undecided key, an eight-slot ring of waiting events, 16-bit times, a drain that can stop part way |
| `TappingVerdict`, `TappingReleases`, `TappingOutOfTurn`, `TappingWrongRelease`, `TappingAtOnce`, `TappingTaken`, `TappingFailures` | whether a press and its release get the same verdict: runs in which they do, and exactly when a release that is not delivered in turn disagrees with its press |
| `DeferredModel`, `DeferredProofs`, `DeferredTimes`, `DeferredRepeats`, `DeferredEngine` | deferred execution: tokens from a wrapping byte, timers on a wrapping 32-bit clock, callbacks that call back |
| `KeymapStorage`, `KeymapBuffers`, `Via`, `MacroStrings`, `KeymapEngine` | what VIA keeps in EEPROM: keymap, encoder map, layout options, macros, the validity marker |
| `LayerCache` | layer resolution and the bit-sliced source-layer cache |
| `OneShot` | one-shot layers in a packed byte |
| `Uf2Model`, `Uf2Proofs`, `Uf2Blocks`, `HexMeaning`, `HexLines`, `HexProofs`, `Uf2Engine` | binary and Intel HEX to UF2 and back |
| `DynamicMacro` | two macros growing towards each other in one array |
| `Matrix` | key events from matrix scans, with ghost filtering |
| `Encoder` | quadrature decoding |
| `PageWrites` | page-split block writes to an external EEPROM over I2C and SPI |
| `Bytes`, `Arithmetic` | bytes and 16-bit words, powers and remainders |

## How the system is represented

- Times are unbounded integers. The code reads them only as differences modulo 2^16 (`Diff16`) or as signed
  32-bit differences (`Ahead`), and so do the specifications; the theorems compare the outcome with the
  unbounded clock.
- Answers of code that is not modelled are streams of arbitrary values: whether a record is a tapping record,
  permissive hold and hold-on-other-key-press, what a deferred callback does and returns, whether the SPI bus
  starts. The hooks that may replace a layer state are arbitrary functions. A theorem holds for all of them.
- `process_record` is an append to a trace. A tap/hold event carries a rank, its number among the events of its
  key, which no operation reads.
- Overflowing widths are written out where they matter: token bytes, layout options in 32 bits, the encoder's
  state byte, UF2 words.
- A layer bit mask is the set of its layers; the bytes of the layer cache are bit vectors, updated by the code's
  own expression. Matrix rows are numbers of any width with recursive `And` and `Xor`.

## Where the code differs from what is said about it

- A key's release is meant to be processed with the tap count of its press. The state machine does not ensure
  this: `TappingOvertaken.OvertakenRelease`, `TappingSkipped.SkippedRelease` and `TappingMistaken.MistakenRelease` are
  runs with alternating events, increasing times and no clock wrap in which press and release of a key get different
  verdicts.
  - `TappingReleases.AgreementIfReleasesSafe` proves the agreement for every run whose releases are safe when they are
    delivered, a condition on the state and the release before the call: in turn, or with its press not waiting and
    no press of its key as the tapping key. Presses may overtake freely.
  - A release that is not in turn is processed at once or taken for the release of the tapping key
    (`TappingOutOfTurn.ReleaseOutOfTurn`), and `TappingTaken.OutOfTurnIff` says for every run, whatever happened
    before, and every continuation exactly when it then disagrees with its press. Processed at once, it does if the
    press waits and is processed later, or if the tapping key is a press of its key and its own press was processed
    as a hold (`TappingAtOnce.AtOnceIff`). Taken for the release of another press, it does if its own press is
    processed as a hold (`TappingTaken.TakenReleaseIff`).
  - The tapping key that took it and its own waiting release disagree exactly if a press of another tapping key
    waited before that release and the release is processed (`TappingWrongRelease.WrongReleaseIff`).
- The comment at line 135 of `quantum/deferred_exec.c` takes a changed token as the sign that a callback cancelled
  itself and queued a new execution. The new execution can get the same token in the same slot and is then
  cleared: `DeferredProofs.SelfRequeueSurvivesIff` gives the exact condition.
- Delays and gaps between task calls below 2^31 ms do not keep the signed 32-bit comparison right, in two ways. A
  callback that always asks for less than the gap falls behind until its due time looks like the future, and is then
  skipped (`DeferredTimes.LaggingTimerMissed`). A callback that extends its own entry and also returns a delay adds
  the two, and can be called 49 days early though every gap is 1 ms (`DeferredTimes.EarlyCall`). Over all runs, a due
  entry is missed if and only if its lag modulo 2^32 ms exceeds 2^31 ms (`DeferredTimes.MissedIff`), and one that
  is not due is called early if and only if it lies ahead by at least 2^31 ms, or by nothing, modulo 2^32 ms
  (`DeferredTimes.EarlyIff`). `DeferredTimes.RunNeverEarly` and `DeferredTimes.EachDueEntryOnce` prove what is meant
  from bounds on delays alone, and `DeferredTimes.PacedEntryOnce` that nothing is missed from bounds on gaps too.
- The comment at lines 289-290 of `quantum/dynamic_keymap.c` says that reading a macro cannot go past the end. It
  starts one byte past the end exactly when the buffer holds exactly as many zeros as the macro's number:
  `MacroStrings.ReadsStayInsideIff`. An unknown code is sent as it stands if and only if no tap, down, up or delay
  code has gone before it in the macro, and else together with what such a code left in the chunk:
  `MacroStrings.UnknownCodeIff`.
- The comment at lines 292-298 of `quantum/action_layer.c` promises the same action on release as on press. A key that
  is neither in the matrix nor an encoder has no entry in the cache, and its release is resolved on layer 0:
  `LayerModel.SameActionIff`.
- The comment at lines 172-173 of `quantum/dynamic_macro.h` says that recording stops at the end of the other macro. It
  goes on, and further events are not stored: `DynamicMacro.TakenSoFar`.
- The Intel Hexadecimal Object File Format Specification wraps the addresses of a data record at the end of its 64K
  segment, or of the 4G linear space. The loop at lines 194-200 of `util/uf2conv.py` counts on:
  `HexMeaning.SegmentNotWrapped`. The reader places every byte as specified if and only if no data record runs over
  that end: `HexMeaning.PlacedAsSpecifiedIff`.
- The packet loop at lines 115-117 of `drivers/eeprom/eeprom_i2c.c` counts in a byte, and does not end for a
  transaction of more than 255 bytes: `PageWrites.PacketLoopEndsIff`.
- `util/uf2conv.py` line 52 is meant to skip a block with a bad magic number; building the message adds a string
  and a number, which raises an exception, so the whole reading fails: `Uf2Proofs.BadMagicRaises`. The assertion
  messages at lines 59, 70, 72 and 74 have the same flaw and raise too. `Uf2Proofs.RaisesIff` says of any file
  exactly when reading it raises.

## Model

| member | source | states |
|---|---|---|
| TappingModel.FirstCandidate | quantum/action_tapping.c:505-510 | the first buffered release of the tapping key within its term, and no earlier record is one |
| TappingDecisions.HoldIff | quantum/action_tapping.c:196-342 | the undecided tapping key is processed with count 0 and forgotten exactly by an event or tick after its term, a press for which hold-on-other-key-press is answered, or the release of another key whose press waits and for which permissive hold is answered |
| TappingDecisions.FirstTapIff | quantum/action_tapping.c:196-214 | it is processed with count 1 exactly by its release within the term, which waits with that count |
| TappingDecisions.EarlyReleaseIff | quantum/action_tapping.c:233-262 | before the decision exactly the releases of other keys are processed, as they are, whose press does not wait and that need not be retained |
| TappingDecisions.NothingYet | quantum/action_tapping.c:263-289 | when nothing is processed an event waits, a tick is ignored, and the tapping key becomes interrupted exactly by a press |
| TappingDecisions.HoldInterruptedIff | quantum/action_tapping.c:263-283 | a hold is processed as interrupted exactly if it was before or a press within the term decides it |
| TappingDecisions.StartIff | quantum/action_tapping.c:171-191 | without a tapping key exactly the press of a tap-hold key becomes it, at once a tap if its release waits within the term; other events are processed as they are |
| TappingDecisions.HeldTapIff | quantum/action_tapping.c:293-369 | after a tap is decided: its release gets its count, another tap-hold press takes over and unregisters a count above 1, anything else passes |
| TappingDecisions.RepressIff | quantum/action_tapping.c:390-404 | a tapped key pressed again is processed at once with a count one higher, up to 15, exactly within the quick-tap term of a tap that was not interrupted, and else becomes undecided |
| TappingDecisions.AfterTapIff | quantum/action_tapping.c:383-424 | after a tap releases pass, another tap-hold press takes over, and any other press passes and interrupts the tap |
| TappingDecisions.TapForgottenIff | quantum/action_tapping.c:384-432 | the tap is forgotten exactly after its term, nothing being processed |
| TappingDecisions.BeforeOnTheClock | quantum/action_tapping.c:196 | within a term on the 16-bit clock is within it on the unbounded clock unless that has wrapped round |
| TappingDecisions.DrainDecidesAlike | quantum/action_tapping.c:101-109 | a waiting record is decided on as if it was delivered |
| TappingDecisions.DrainGoesOn | quantum/action_tapping.c:101-109 | after a whole call something waits only for an undecided or forgotten tapping key or a first tap |
| TappingDecisions.NestedHold | quantum/action_tapping.c:166-291 | a key typed inside a tap-hold key with permissive hold: hold, press, release, release, in this order |
| TappingDecisions.NestedTap | quantum/action_tapping.c:166-291 | the same without permissive hold: nothing until the outer release, then a tap with the inner key behind its press |
| TappingRuns.ReachableWellFormed | quantum/action_tapping.c:80-521 | over every run: at most seven records wait, buffered presses carry no count, a released tapping key has count at least 1, a pressed one with count 1 has a stamped release waiting, no count exceeds 15, ticks are neither stored nor processed |
| TappingRuns.ExactlyOnce | quantum/action_tapping.c:80-113 | over every run the multiset of key events received equals those processed (synthetic releases aside) plus the undecided tapping key plus those waiting plus those dropped by overflow |
| TappingRuns.TickWorks | quantum/action_tapping.c:97-109 | a tick later than the tapping term strictly decreases 2 * waiting + undecided, until it is 0 |
| TappingRuns.FifteenTicksDrain | quantum/action_tapping.c:97-109 | from every reachable state fifteen late ticks leave the buffer empty and nothing undecided |
| TappingRuns.TapsAreJustified | quantum/action_tapping.c:196-214 | over every run whatsoever a press is processed with count 1 only if some release of its key, not necessarily its own, was received within the tapping term modulo 2^16 |
| TappingEvidence.TapsByOwnRelease | quantum/action_tapping.c:196-214 | over every run with increasing times that does not wrap round onto stored events, a press is processed with count 1 only if its own release was received later than it and within its tapping term |
| TappingReleases.AgreementIfReleasesSafe | quantum/action_tapping.c:166-433 | over every run with increasing times, no wrap onto stored events and every release safe (in turn, or its press not waiting and no press of its key the tapping key), whatever presses overtake: the n-th release of a key is processed after its n-th press and with its tap count, unless a synthetic release with that count came between |
| TappingVerdict.VerdictAgreement | quantum/action_tapping.c:166-433 | the same over every run whose presses too are delivered in turn, with less asked of the clock: each event comes less than 2^16 ms after the stored events of its key |
| TappingOutOfTurn.AgreeIsAllPairs | quantum/action_tapping.c:166-433 | a key agrees exactly if each of its presses agrees with the release that follows it |
| TappingOutOfTurn.OnePlace | quantum/action_tapping.c:80-113 | over every run each event received is in exactly one place: processed once, undecided, waiting, or dropped |
| TappingOutOfTurn.ReleaseOutOfTurn | quantum/action_tapping.c:166-433 | a release that is not in turn is processed at once or taken for the release of the tapping key |
| TappingTaken.OutOfTurnIff | quantum/action_tapping.c:166-433 | for every release not in turn, in every run with increasing times and no wrap onto stored events, whatever was delivered before, and in every continuation: the exact condition under which it disagrees with its press, unless it is the first tap of its own press |
| TappingAtOnce.AtOnceIff | quantum/action_tapping.c:166-432 | in every such run, in turn or not: a release processed at once disagrees with its press, in any continuation, if and only if the press waits and is processed later, or the tapping key is a press of the key and the release's own press was processed with count 0 |
| TappingAtOnce.RunKept | quantum/action_tapping.c:166-433 | over every run the waiting events of a key are in order; a decided tapping key was processed with its count and, if that is above 1, is older than all waiting events of its key; the newest event of a key, if a press processed with a count above 1, is still the tapping key or was unregistered |
| TappingTaken.TakenReleaseIff | quantum/action_tapping.c:196-214 | in every such run, in turn or not: a release taken for that of an undecided tapping key that is not its press disagrees with its press, in any continuation, if and only if both are processed, the press with count 0 |
| TappingOutOfTurn.ProcessedReleaseIff | quantum/action_tapping.c:293-432 | in every run a release processed at once while its press waits disagrees with its press, in any continuation, if and only if the press is processed: it is not waiting, undecided or dropped |
| TappingWrongRelease.WrongReleaseIff | quantum/action_tapping.c:196-214 | when a later release is taken for that of the undecided tapping key, while its own waits first among its key's events, then in every continuation with later events of the key in turn the tapping key and its own release agree if and only if no press of another tapping key waits before that release, or the release is not processed |
| TappingVerdict.OrderlyRunIsPaired | quantum/action_tapping.c:166-433 | after every orderly run the stored events of each key are consecutive and in order, only the oldest may be stamped, and press and release counts already processed agree |
| TappingVerdict.DeliveryKeepsPairingIffInTurn | quantum/action_tapping.c:81-95 | after an orderly run delivering the next event keeps that invariant, order of the stored events included, if and only if the event is in turn |
| TappingVerdict.DrainPaired | quantum/action_tapping.c:101-109 | draining the buffer keeps a key paired, wherever it stops |
| TappingOvertaken.OvertakenRelease | quantum/action_tapping.c:423-430 | a run in which a release overtakes its waiting press and the counts disagree |
| TappingSkipped.SkippedRelease | quantum/action_tapping.c:401-403 | a run in which a new tap starts without a search of the buffer and the counts disagree |
| TappingMistaken.MistakenRelease | quantum/action_tapping.c:347-354 | a run in which a release is processed with the count of another press of its key, its own press having been processed as a hold |
| TappingEngine.Engine.constructor | quantum/action_tapping.c:62-65 | the initial state |
| TappingEngine.Engine.WaitingBufferTyped | quantum/action_tapping.c:470-477 | true exactly if the opposite transition of the key waits |
| TappingEngine.Engine.WaitingBufferEnq | quantum/action_tapping.c:439-455 | appends an event and succeeds exactly if fewer than seven wait; a tick is accepted and not stored |
| TappingEngine.Engine.WaitingBufferClear | quantum/action_tapping.c:461-464 | nothing waits |
| TappingEngine.Engine.WaitingBufferScanTap | quantum/action_tapping.c:494-521 | the ring, the tapping key and the trace change as the specified search says |
| TappingEngine.Engine.ProcessTapping | quantum/action_tapping.c:166-433 | one call on a record of its own or on the front of the ring refines the specified move |
| TappingEngine.Engine.ProcessUndecided | quantum/action_tapping.c:197-214 | the branches for a pressed tapping key with count 0 |
| TappingEngine.Engine.ProcessWhileUndecided | quantum/action_tapping.c:215-292 | another key's event within the term of an undecided tapping key |
| TappingEngine.Engine.ProcessTap | quantum/action_tapping.c:294-379 | the branches for a pressed tapping key with a positive count |
| TappingEngine.Engine.ProcessReleased | quantum/action_tapping.c:383-432 | the branches for a released tapping key |
| TappingEngine.Engine.ActionTappingProcess | quantum/action_tapping.c:80-113 | one call refines the specified step: delivery, overflow, drain |
| TappingEngine.Engine.DrainOnce | quantum/action_tapping.c:101-109 | one iteration of the drain |
| TappingEngine.Engine.Receive | quantum/action_tapping.c:81-95 | the part before the drain, with what an overflow drops |
| DeferredProofs.AllocateTokenComplete | quantum/deferred_exec.c:30-40 | the token is non-zero and unused; failure means all of 1..255 are in the table |
| DeferredProofs.AllocatesThis | quantum/deferred_exec.c:30-40 | a given free token is returned exactly when all tokens before it are in use |
| DeferredProofs.DeferIff | quantum/deferred_exec.c:46-73 | queueing succeeds exactly for a positive delay and a callback, with a free slot and a free token; the next search goes on from the token found |
| DeferredProofs.DeferFaithful | quantum/deferred_exec.c:46-73 | a new timer under a fresh token is added to the map of timers, or nothing changes |
| DeferredProofs.ExtendFaithful | quantum/deferred_exec.c:75-93 | the due time of a live token moves, or nothing changes |
| DeferredProofs.CancelFaithful | quantum/deferred_exec.c:95-116 | a live token is removed, or nothing changes |
| DeferredProofs.RunIsFaithful | quantum/deferred_exec.c:18-157 | over every run with any callers, callbacks and times: live tokens are non-zero and distinct, only live tokens are called, with their own timer, and the table holds exactly the timers the history leaves |
| DeferredProofs.LegalAt | quantum/deferred_exec.c:118-157 | whatever a legal history contains was legal when it happened, in particular no cancelled token is called |
| DeferredProofs.NoDrift | quantum/deferred_exec.c:141-146 | a timer whose callback returns d and is never extended is due at t0 + k * d after k repetitions |
| DeferredRepeats.SurvivesIff | quantum/deferred_exec.c:133-154 | over every run and for every slot called: a token its operations leave in the slot is live when the turn ends if and only if the callback returned a positive delay, and is due that much later than the operations left it; all other timers are as the operations left them |
| DeferredRepeats.StaysInSlot | quantum/deferred_exec.c:133-139 | a callback that does not cancel its token leaves it in its slot |
| DeferredRepeats.RepeatingLives | quantum/deferred_exec.c:118-157 | over every run an execution whose callback always asks to be called again, and that nobody cancels, stays live |
| DeferredTimes.EachInvocationReacts | quantum/deferred_exec.c:133 | over every run each invocation has a reaction of its own |
| DeferredTimes.LastIsLastTask | quantum/deferred_exec.c:119-123 | the time kept is that of the last task call that was not throttled |
| DeferredTimes.CalledIff | quantum/deferred_exec.c:118-157 | over every run with any callers, callbacks and times: a task call runs a slot's callback exactly once if it is not throttled and the slot is live at its turn and late, modulo 2^32 ms, by at most 2^31 ms, and else not at all |
| DeferredTimes.MissedIff | quantum/deferred_exec.c:125-155 | over every run: a live due entry is missed by an unthrottled task call if and only if its lag modulo 2^32 ms exceeds 2^31 ms, the lag being the time since the due time last set less the delays its callback returned since |
| DeferredTimes.EarlyIff | quantum/deferred_exec.c:125-155 | over every run: a live entry not yet due is called early if and only if it lies ahead, modulo 2^32 ms, by at least 2^31 ms or by nothing |
| DeferredTimes.RecentlySetNeverMissed | quantum/deferred_exec.c:125-155 | over every run: a due entry whose due time was last set, by queueing or extending, to at most 2^31 ms ago is called |
| DeferredTimes.SetsDue | quantum/deferred_exec.c:46-93 | the due time so set is no earlier than the operation |
| DeferredTimes.DueFromHistory | quantum/deferred_exec.c:141-146 | in every legal history a live timer is due when it was last set to be, plus the delays its callback returned since |
| DeferredTimes.RunNeverEarly | quantum/deferred_exec.c:118-157 | over every run with delays below 2^31 ms, a callback's extension of its own entry plus the delay it returns included, whatever the gaps between task calls: no callback is called before it is due on the unbounded clock |
| DeferredTimes.EachDueEntryOnce | quantum/deferred_exec.c:125-155 | over every such run, whatever the gaps, in a task call that is not throttled each slot's callback runs once if it is live and late, modulo 2^32 ms, by at most 2^31 ms at its turn and not otherwise; what runs is due on the unbounded clock and was there, with that due time, when the call began |
| DeferredTimes.RunKeepsPace | quantum/deferred_exec.c:118-157 | if moreover gaps are below 2^31 ms and a callback that asks to be called again asks for at least the gap before the call it runs in, every live timer is due after the last task call |
| DeferredTimes.PacedEntryOnce | quantum/deferred_exec.c:125-155 | then nothing is missed: each slot's callback runs once if it is live and due on the unbounded clock at its turn and not otherwise |
| DeferredTimes.TaskThrottles | quantum/deferred_exec.c:119-123 | for gaps below 2^31 ms a task call is skipped exactly when the unbounded clock has not advanced |
| DeferredTimes.LaggingTimerMissed | quantum/deferred_exec.c:118-157 | a run with delays of 1 ms and gaps below 2^31 ms in which an unthrottled task call skips a due entry |
| DeferredTimes.EarlyCall | quantum/deferred_exec.c:118-157 | a run with delays below 2^31 ms and gaps of 1 ms in which a callback is called 49 days before it is due |
| DeferredProofs.SelfRequeueSurvivesIff | quantum/deferred_exec.c:133-153 | a callback that cancels itself, queues a new execution and returns 0 keeps it if and only if an earlier slot or an earlier token was free |
| DeferredEngine.Scheduler.constructor | quantum/deferred_exec.c:163-164 | an empty table |
| DeferredEngine.Scheduler.TokenCanBeUsed | quantum/deferred_exec.c:18-28 | non-zero and not in the table |
| DeferredEngine.Scheduler.AllocateToken | quantum/deferred_exec.c:30-40 | refines the specified search, and says what `current_token` becomes |
| DeferredEngine.Scheduler.DeferExecAdvanced | quantum/deferred_exec.c:46-73 | the whole new state and the token |
| DeferredEngine.Scheduler.ExtendDeferredExecAdvanced | quantum/deferred_exec.c:75-93 | the whole new state; true exactly if the token is in the table and the delay is positive |
| DeferredEngine.Scheduler.CancelDeferredExecAdvanced | quantum/deferred_exec.c:95-116 | the whole new state; true exactly if the token is in the table |
| DeferredEngine.Scheduler.Invoke | quantum/deferred_exec.c:133 | the callback may do anything the scheduler offers |
| DeferredEngine.Scheduler.VisitSlot | quantum/deferred_exec.c:127-154 | one iteration of the task loop |
| DeferredEngine.Scheduler.DeferredExecAdvancedTask | quantum/deferred_exec.c:118-157 | throttle and pass over all slots |
| KeymapStorage.NoAlias | quantum/dynamic_keymap.c:108-133 | distinct keys and encoder directions have disjoint addresses, for all region sizes |
| KeymapStorage.AddressInRegion | quantum/dynamic_keymap.c:66-98 | keys lie in the keymap region, encoders in the encoder region |
| KeymapStorage.GetSet | quantum/dynamic_keymap.c:113-150 | setting one position is read there and nowhere else; a request out of range changes nothing |
| KeymapStorage.OutOfRange | quantum/dynamic_keymap.c:113-150 | a request out of range reads 0 and writes nothing |
| KeymapStorage.AddressByNumber | quantum/dynamic_keymap.c:66-133 | keys in layer, row, column order and encoders in layer order, clockwise first, two bytes each |
| KeymapStorage.ResetRestoresFlash | quantum/dynamic_keymap.c:153-168 | after a reset every position reads what is in flash |
| KeymapStorage.ResetRestoresAll | quantum/dynamic_keymap.c:153-168 | that is every key of the matrix and both directions of every encoder, on every layer |
| KeymapBuffers.BufferByte | quantum/dynamic_keymap.c:185-196 | a buffer write overlays the covered part of its region and nothing else |
| KeymapBuffers.AnyChunking | quantum/dynamic_keymap.c:185-196 | any split of a transfer into chunks makes the same updates as one call |
| KeymapBuffers.ReadBackBuffer | quantum/dynamic_keymap.c:170-196 | what was written is read back inside the region, zero beyond it |
| KeymapBuffers.BufferViewsKeys | quantum/dynamic_keymap.c:113-183 | the buffer is the keys in layer, row, column order, high byte first |
| KeymapBuffers.KeyAfterBufferWrite | quantum/dynamic_keymap.c:113-196 | a key after a buffer write has the written bytes where the buffer covers it and the old ones elsewhere |
| KeymapBuffers.BufferWriteStaysInside | quantum/dynamic_keymap.c:185-196 | a keymap buffer write changes no encoder and no byte outside the keymap |
| Via.MagicDigits | quantum/via.c:63-66 | each magic byte decodes to its two digits of year, month or day |
| Via.MagicIff | quantum/via.c:63-66 | two builds have the same magic if and only if they were made on the same date |
| Via.Magic | quantum/via.c:63-66 | for a build date of digits no magic byte is 0xFF |
| Via.ValidForOtherIff | quantum/via.c:62-69 | memory valid for one build is valid for another if and only if both are of the same date |
| Via.NewBuildResets | quantum/via.c:93-117 | after a complete boot of one build, a complete boot of another resets everything to its own defaults if the dates differ, and changes nothing if not |
| Via.OptionsRoundTrip | quantum/via.c:119-144 | layout options read back modulo 256^N, N being the configured number of bytes |
| Via.OptionsByte | quantum/via.c:135-144 | the least significant byte is at the highest address |
| Via.ContentResets | quantum/via.c:109-114 | options, keymap, encoder map and macros all hold their defaults after the updates between the two marker changes, whatever was there |
| Via.InterruptedInit | quantum/via.c:106-117 | stopped after n byte updates: unwritten for n = 0, reported invalid for every n in between, valid and fully reset at the end |
| Via.CrashConsistency | quantum/via.c:62-117 | after any sequence of boots and resets, each cut short anywhere, memory is as it was, or reported invalid, or fully reset |
| Via.CompleteBoot | quantum/via.c:93-104 | a boot that is not cut short ends valid: untouched if it was valid, else fully reset |
| Via.CompleteReset | quantum/via.c:106-117 | a reset that is not cut short ends valid and fully reset, whatever was there |
| Via.OthersKept | quantum/via.c:106-117 | over any sequence of boots and resets, each cut short anywhere, every byte outside the regions, the custom configuration included, is kept |
| MacroStrings.ReadsStayInsideIff | quantum/dynamic_keymap.c:257-335 | in a buffer whose last byte is 0 a read leaves the buffer if and only if it holds exactly `id` > 0 zeros |
| MacroStrings.TokenAdvances | quantum/dynamic_keymap.c:288-337 | each chunk consumes at least one byte, fits the eight bytes and stays terminated |
| MacroStrings.SendsTheMacro | quantum/dynamic_keymap.c:257-340 | for well-formed macros the chunks sent for macro `id` are its items and concatenate to its string |
| MacroStrings.SendsEachKind | quantum/dynamic_keymap.c:287-338 | the bytes of a macro with a character, a tap, a key held and released and a delay, and what is sent for it |
| MacroStrings.SendGuards | quantum/dynamic_keymap.c:257-284 | nothing is sent for a number too high, a buffer not ending in a zero, or too few macros; else what is sent starts behind exactly as many zeros as the number |
| MacroStrings.AbortsIff | quantum/dynamic_keymap.c:292-335 | reading stops at a zero and aborts exactly at a prefix without a code, an act code without a key, or a delay without at most four characters and a bar |
| MacroStrings.AbortSendsNothing | quantum/dynamic_keymap.c:298-330 | after an abort nothing more is sent |
| MacroStrings.UnknownSentIff | quantum/dynamic_keymap.c:292-338 | for every buffer and chunk, an unknown code is sent as it stands if and only if the third byte of the chunk is zero |
| MacroStrings.UnknownCodeIff | quantum/dynamic_keymap.c:287-338 | in a macro sent from its start, the chunk of an unknown code is the code as it stands if and only if no tap, down, up or delay code has gone before it |
| MacroStrings.UnknownCodeSendsStaleByte | quantum/dynamic_keymap.c:298-338 | a run in which an unknown code is sent with the key of the tap before it |
| KeymapEngine.Eeprom.Set | quantum/dynamic_keymap.c:122-150 | exactly the specified byte updates, in order |
| KeymapEngine.Eeprom.Get | quantum/dynamic_keymap.c:113-142 | the word at the position, 0 out of range |
| KeymapEngine.Eeprom.Reset | quantum/dynamic_keymap.c:153-168 | exactly the specified byte updates, in order |
| KeymapEngine.Eeprom.SetBuffer | quantum/dynamic_keymap.c:185-196 | exactly the specified byte updates, for the keymap and the macro region |
| KeymapEngine.Eeprom.GetBuffer | quantum/dynamic_keymap.c:170-183 | the bytes of the region, zero beyond it |
| KeymapEngine.Eeprom.MacroReset | quantum/dynamic_keymap.c:248-255 | exactly the specified byte updates |
| KeymapEngine.Eeprom.MacroSend | quantum/dynamic_keymap.c:257-340 | refines the specified reader |
| KeymapEngine.Eeprom.SendStrings | quantum/dynamic_keymap.c:287-340 | the reading loop |
| KeymapEngine.Eeprom.ReadToken | quantum/dynamic_keymap.c:292-337 | one iteration of the reading loop |
| KeymapEngine.Eeprom.ReadDelay | quantum/dynamic_keymap.c:317-335 | the inner loop for a delay |
| KeymapEngine.Eeprom.SetLayoutOptions | quantum/via.c:135-144 | exactly the specified byte updates |
| KeymapEngine.Eeprom.GetLayoutOptions | quantum/via.c:121-131 | the 32-bit value of the option bytes |
| KeymapEngine.Eeprom.SetValid | quantum/via.c:73-82 | exactly the three marker updates |
| KeymapEngine.Eeprom.IsValid | quantum/via.c:62-69 | the marker is the magic of this build |
| KeymapEngine.Eeprom.EeconfigInitVia | quantum/via.c:106-117 | the byte updates of all five steps in this order |
| KeymapEngine.Eeprom.ViaInit | quantum/via.c:93-104 | nothing is written if the marker is valid, else a full reset |
| LayerModel.Topmost | quantum/action_layer.c:323-343 | the layer is on, below the maximum and not transparent, or 0, and every layer above it that is on is transparent |
| LayerModel.OneTopmost | quantum/action_layer.c:323-343 | there is only one such layer |
| LayerModel.ReleaseFollowsPress | quantum/action_layer.c:299-317 | over every run of layer changes and key events a cached release gets the layer that was topmost, among those on, at its slot's latest press, and 0 before any; a press, and any event past the cache, gets the topmost layer |
| LayerModel.SameActionIff | quantum/action_layer.c:299-313 | a release gives the action of the press if and only if the key has a cache entry or layer 0 gives the same action |
| LayerModel.SameSlotIff | quantum/action_layer.c:260-289 | two keys share an entry exactly if they are the same matrix position or turns of the same encoder |
| LayerModel.DirectionsShare | quantum/action_layer.c:265-270 | both directions of an encoder have an entry, and it is the same |
| LayerCache.WithBitOn | quantum/action_layer.c:236 | the byte update sets the chosen bit to the chosen value and keeps the other seven |
| LayerCache.Cache.Update | quantum/action_layer.c:232-238 | the entry becomes the layer, every other entry keeps its value |
| LayerCache.Cache.Read | quantum/action_layer.c:244-254 | the number stored in the entry |
| LayerEngine.EntriesDiffer | quantum/action_layer.c:262 | different matrix positions have different entries |
| LayerEngine.Layers.LayerSwitchGetLayer | quantum/action_layer.c:323-343 | the topmost layer that is on and not transparent, or 0 |
| LayerEngine.Layers.UpdateSourceLayersCache | quantum/action_layer.c:260-271 | the cache behaves as a map from slots to layers: one slot changes |
| LayerEngine.Layers.ReadSourceLayersCache | quantum/action_layer.c:277-289 | the layer of the slot, 0 for a key without one |
| LayerEngine.Layers.StoreOrGetAction | quantum/action_layer.c:299-317 | refines the specified key event |
| LayerEngine.Layers.LayerStateSet | quantum/action_layer.c:114-127 | the layers become what the hook makes of the given ones, and the cache is left alone |
| LayerEngine.Layers.LayerOn | quantum/action_layer.c:168-170 | the layer is added, subject to the hook |
| LayerEngine.Layers.LayerOff | quantum/action_layer.c:176-178 | the layer is removed, subject to the hook |
| LayerEngine.Layers.LayerInvert | quantum/action_layer.c:184-186 | the layer is added or removed, subject to the hook |
| LayerEngine.Layers.LayerMove | quantum/action_layer.c:160-162 | the layer is the only one, subject to the hook |
| LayerEngine.Layers.LayerXor | quantum/action_layer.c:206-208 | the symmetric difference, subject to the hook |
| LayerEngine.Layers.DefaultLayerStateSet | quantum/action_layer.c:34-47 | the same for the default layers |
| OneShot.PackIff | quantum/action_util.c:88-103 | the packed byte gives back layer and state if and only if they fit in five and three bits |
| OneShot.OnUntilBoth | quantum/action_util.c:172-206 | from a start on, under any clears in any order, the layer stays on until both conditions occurred, goes off at that call, no other layer changes, and later clears do nothing |
| OneShot.ToggledStays | quantum/action_util.c:199-206 | clears do not end a toggled layer |
| OneShot.SetIs | quantum/action_util.c:172-183 | the layer goes on and no other changes; the byte gives back layer and state, or is as before if one-shot layers are disabled |
| OneShot.DisabledClears | quantum/action_util.c:199-206 | while disabled clears change no layer, only the byte |
| OneShot.Keyboard.SetOneshotLayer | quantum/action_util.c:172-183 | the whole new state |
| OneShot.Keyboard.ResetOneshotLayer | quantum/action_util.c:188-194 | the byte is 0, the layers are as before |
| OneShot.Keyboard.ClearOneshotLayerState | quantum/action_util.c:199-206 | the whole new state |
| Uf2Proofs.ReadsBack | util/uf2conv.py:37-109 | reading a written file with its own settings gives the image of its blocks, and raises exactly when they go back, leave a gap above 10 MB or one that is not a multiple of 4 |
| Uf2Proofs.RaisesIff | util/uf2conv.py:48-74 | reading any file raises, whatever family is asked for, if and only if some block has a bad magic number, or is a flash block with more than 476 data bytes or whose distance from the flash block before it in its section is negative, above 10 MB or no multiple of 4 |
| Uf2Proofs.BadMagicRaises | util/uf2conv.py:51-53 | one block with a bad magic number makes the whole reading fail |
| Uf2Proofs.ReadsAs | util/uf2conv.py:37-109 | any file that does not raise reads as zeros and data block by block, for the family asked for or for all; as nothing, with start address 0, if it ends in a flash block, no family is asked for and there are several |
| Uf2Proofs.BinRoundTrip | util/uf2conv.py:37-142 | a binary converted to UF2 and back is padded with zeros to a multiple of 256, with or without a family |
| Uf2Proofs.BinConverts | util/uf2conv.py:121-142 | the conversion succeeds exactly if the last block's address fits 32 bits |
| Uf2Blocks.BinBlocks | util/uf2conv.py:121-166 | block i of a file from a binary: number i of the count, address, 256 bytes of data, family, final magic number, zeros behind the data |
| Uf2Blocks.HexBlocks | util/uf2conv.py:149-205 | the same for Intel HEX, with the device flag and tag if a device is given |
| HexProofs.FilledImage | util/uf2conv.py:189-200 | the blocks filled from data bytes describe an image exactly if pages never go back and leave no gap above 10 MB, and then each byte has the value the file gives its address, or 0 |
| HexLines.HexRaisesIff | util/uf2conv.py:168-205 | converting any text raises exactly if a bad line comes before any end record, or an address or the number of blocks does not fit 32 bits |
| HexLines.LineSays | util/uf2conv.py:174-200 | what one line does: skipped without a colon, data at consecutive addresses, a new base address, or nothing |
| HexLines.ParsesLine | util/uf2conv.py:177-181 | a line gives the bytes of its pairs, or raises if one is unreadable |
| HexLines.PairIff | util/uf2conv.py:180 | a pair is readable exactly if both characters are digits, of either case, or one is and the other is blank |
| HexProofs.ReadsToEnd | util/uf2conv.py:174-200 | a file of printed records reads as data bytes at consecutive addresses after the upper address last given, and nothing after the end record counts |
| HexMeaning.PlacedAsSpecifiedIff | util/uf2conv.py:183-200 | those addresses are the ones of the Intel HEX specification, which wraps at 64K or 4G, if and only if no data record runs over the end of its segment or of the address space |
| HexMeaning.SegmentNotWrapped | util/uf2conv.py:194-200 | two records for which they are not |
| HexProofs.SplitJoin | util/uf2conv.py:174 | joined lines are split into themselves |
| HexProofs.HexRoundTrip | util/uf2conv.py:37-205 | HEX to UF2 to binary, from the text of the file to the image, with the exact conditions for a file, for an image, and for the addresses to be the specified ones |
| Uf2Engine.Converter.ConvertToUf2 | util/uf2conv.py:121-142 | refines the specified conversion, exceptions included |
| Uf2Engine.Converter.ConvertFromUf2 | util/uf2conv.py:37-109 | refines the specified reader, exceptions and `appstartaddr` included |
| Uf2Engine.Converter.ReadOne | util/uf2conv.py:48-108 | one iteration of the block loop |
| Uf2Engine.Converter.ConvertFromHexToUf2 | util/uf2conv.py:168-205 | refines the specified conversion |
| Uf2Engine.Converter.ReadHexLine | util/uf2conv.py:175-200 | one line: what it changes, or that it raises |
| Uf2Engine.Converter.ParseRecord | util/uf2conv.py:177-181 | the bytes of a record |
| Uf2Engine.Converter.StoreByte | util/uf2conv.py:195-198 | the byte goes into the current block, or a new one when the page changes |
| Uf2Engine.Converter.MakeBlock | util/uf2conv.py:149-166 | the 512 bytes of a block |
| Uf2Engine.Converter.PackHeader | util/uf2conv.py:151-158 | the flags and the eight header words |
| Uf2Engine.Converter.PadBlock | util/uf2conv.py:163-164 | zeros up to the final magic number |
| DynamicMacro.RunInvariant | quantum/dynamic_macro.h:154-260 | over every run both macros fit the buffer together, and a saved one is empty or starts with a press and ends with a release |
| DynamicMacro.TakenSoFar | quantum/dynamic_macro.h:104-122 | what a recording holds is the first recordable events from the first press on, as far as there is room |
| DynamicMacro.Session | quantum/dynamic_macro.h:60-260 | start, any events, stop: the saved macro is the events in order minus leading releases, events past capacity and trailing presses; the other macro is unchanged; the play key plays exactly that |
| DynamicMacro.PassesIff | quantum/dynamic_macro.h:201-259 | exactly the releases of start and play keys while idle, and the stop and play keys while recording, are kept from further processing |
| DynamicMacro.PlaysIff | quantum/dynamic_macro.h:201-243 | nothing is played but by the release of a play key while idle |
| DynamicMacro.RecordsIff | quantum/dynamic_macro.h:201-239 | recording is started exactly by the release of a start key while idle and ended exactly by the press of the stop key |
| DynamicMacro.Recorder.PlayMacro | quantum/dynamic_macro.h:77-93 | the records between begin and end, in either direction |
| DynamicMacro.Recorder.RecordKey | quantum/dynamic_macro.h:104-122 | the recording grows as specified, never past the other macro, whose records are untouched |
| DynamicMacro.Recorder.RecordEnd | quantum/dynamic_macro.h:128-142 | the end is moved before trailing presses |
| DynamicMacro.Recorder.ProcessRecord | quantum/dynamic_macro.h:154-260 | refines the specified step and keeps 0 <= macro_end <= r_macro_end + 1 <= size |
| Bits.MoreThanOne | quantum/keyboard.c:232-235 | `x & (x - 1)` is non-zero exactly if two different bits are set |
| MatrixModel.SharedBits | quantum/keyboard.c:242-257 | the bit tests say whether two rows share two columns with pressed real keys |
| MatrixModel.GhostsArePairs | quantum/keyboard.c:253-257 | a row withheld because of another one has that one withheld for the same reason |
| MatrixModel.WithheldIff | quantum/keyboard.c:558-580 | over every run, after a scan the events so far describe a row as read if and only if none of its keys changed or no other row shares two pressed real-key columns with it |
| MatrixModel.EventsAlternate | quantum/keyboard.c:530-583 | over every run of scans each key's events alternate, a press first, and `matrix_previous` is the net effect of all events |
| MatrixModel.ScanInOrder | quantum/keyboard.c:560-580 | the events of a scan come row by row and column by column, each key at most once |
| MatrixEngine.Keyboard.GetRealKeys | quantum/keyboard.c:220-230 | the pressed columns that have a key |
| MatrixEngine.Keyboard.HasGhostInRow | quantum/keyboard.c:237-259 | true exactly if another row shares two columns |
| MatrixEngine.Keyboard.MatrixTask | quantum/keyboard.c:538-582 | the events, in order, the rows remembered, and a tick event when nothing changed and the clock did |
| MatrixEngine.Keyboard.ScanRows | quantum/keyboard.c:563-580 | the row loop: the events of the scan and the rows remembered |
| MatrixEngine.Keyboard.GenerateTickEvent | quantum/keyboard.c:514-521 | a tick exactly if the clock changed modulo 2^16 since the last one |
| EncoderModel.Conservation | drivers/encoder/encoder_quadrature.c:161-207 | for every path of pin states the sum of table entries equals resolution * (positive - negative queue calls) plus the change of the remainder, which stays below the resolution |
| EncoderModel.CallIff | drivers/encoder/encoder_quadrature.c:161-198 | a step calls exactly when the count reaches the resolution, in its direction, and then starts again from 0 |
| EncoderModel.TurningCalls | drivers/encoder/encoder_quadrature.c:161-207 | turning one way, every so many reads as the resolution says make one call in that direction |
| EncoderModel.DeltaIsPhase | drivers/encoder/encoder_quadrature.c:72 | the table counts 1 for the next phase, -1 for the one before, 0 when both pins change or none |
| EncoderModel.SamePins | drivers/encoder/encoder_quadrature.c:200-207 | a read that finds the pins as they were changes nothing |
| EncoderModel.TravelPhase | drivers/encoder/encoder_quadrature.c:72 | on single-step paths the sum follows the Gray-code phase modulo 4 |
| EncoderModel.BackNegates | drivers/encoder/encoder_quadrature.c:72 | the way back over a path has the negated sum |
| EncoderModel.BounceCancels | drivers/encoder/encoder_quadrature.c:161-207 | going somewhere and back leaves calls and remainder together as they were |
| EncoderEngine.Encoders.HandleRead | drivers/encoder/encoder_quadrature.c:200-207 | one read of the pins refines the specified step; other encoders are unchanged |
| EncoderEngine.Encoders.HandleStateChange | drivers/encoder/encoder_quadrature.c:161-198 | the new count and the queue calls |
| PageWrites.DecodeEncode | drivers/eeprom/eeprom_i2c.c:48-54 | the big-endian address bytes decode to the address |
| PageWrites.ProgramInPage | drivers/eeprom/eeprom_i2c.c:107-133 | on a device that wraps inside its pages a transaction within one page is a plain overlay |
| PageWrites.PlaceInPage | drivers/eeprom/eeprom_i2c.c:107-133 | on the device no byte of a transaction leaves the page it starts in |
| PageWrites.SplitInPages | drivers/eeprom/eeprom_i2c.c:107-133 | no transaction crosses a page, and they cover the block in order without a gap |
| PageWrites.SentCleanly | drivers/eeprom/eeprom_spi.c:152-205 | what is written after any number of transactions is nothing, ends at a page boundary, or is complete |
| PageWrites.Device.FillTargetAddress | drivers/eeprom/eeprom_i2c.c:48-54 | the address bytes, and nothing behind them |
| PageWrites.Device.SendPacket | drivers/eeprom/eeprom_i2c.c:114-127 | one I2C transaction overlays its portion |
| PageWrites.PacketLoopEndsIff | drivers/eeprom/eeprom_i2c.c:115-117 | a byte counter reaches the length of a transaction if and only if that is at most 255 |
| PageWrites.Device.WriteBlockI2c | drivers/eeprom/eeprom_i2c.c:97-140 | for transactions of at most 255 bytes, on pages of any size: memory becomes the old one with the whole block laid over it, by the specified transactions |
| PageWrites.Device.WriteCommand | drivers/eeprom/eeprom_spi.c:197-200 | a write cycle takes place only while the latch is set, and clears it |
| PageWrites.Device.WriteBlockSpi | drivers/eeprom/eeprom_spi.c:147-217 | the transactions before the first failing turn are written and no more; the latch is left set exactly by the third early return |

## Left out

- TappingReleases.AgreementIfReleasesSafe: one direction for releases that queue up. After a release that was not safe,
  a later one of its key can queue up in turn and still disagree, when a press not its own finds it in the buffer or
  another release was taken for it, as in `TappingSkipped`; no exact condition is given for those.
- TappingTaken.OutOfTurnIff: not for a release that is the first tap of its own press while older events of its key wait.
- TappingWrongRelease.WrongReleaseIff: for continuations in which later events of the key are delivered in turn, and the
  tapping key's own release as the oldest waiting event of its key; a later release that is again out of turn can
  take it up.
- TappingEngine.Engine.ProcessTapping: the retro-shift and combo variants, the swap-hands hint and debug output are not
  modelled; `process_record` does not change the layer state, whose effect is in the arbitrary answers.
- TappingEngine.Engine.Receive: `clear_keyboard` on overflow is not modelled, only what the buffer drops.
- DeferredEngine.Scheduler.Invoke: a callback that itself calls the task of its table.
- DeferredTimes.PacedEntryOnce: its conditions on delays and gaps are sufficient; the exact one is that of `MissedIff`.
- DeferredEngine.Scheduler.DeferExecAdvanced: the null table pointer is not modelled; an empty table is.
- DynamicMacro.Session: playback is output; records that make the firmware call back into the recorder while a macro
  plays are not followed.
- LayerEngine.Layers.StoreOrGetAction: the keymap is fixed during a run; a keymap edited while a key is held changes the
  action of the stored layer.
- LayerEngine.Layers.LayerStateSet: the variants that release keys on a layer change. `layer_or`, `layer_and` and
  `layer_clear` are this call with a set operation, like those that are modelled.
- LayerEngine.Layers.DefaultLayerStateSet: the variants that release keys on a layer change.
- OneShot.OnUntilBoth: two one-shot layers at once, timeouts and swap hands.
- Uf2Engine.Converter.ConvertFromUf2: the report printed for the last block.
- Uf2Engine.Converter.ConvertFromHexToUf2: `appstartaddr` afterwards; signs before hexadecimal digits, which the test of
  `is_hex` excludes.
- KeymapStorage.NoAlias: the regions follow each other as they do by default; a configuration that overrides their
  addresses is not modelled.
- KeymapEngine.Eeprom.ViaInit: the keyboard-level hooks.
- KeymapEngine.Eeprom.MacroSend: where the code would read past the macro region the method stops and says so.
- EncoderEngine.Encoders.HandleStateChange: the variant with a default position, split keyboards, and resolutions above
  127, which an 8-bit count cannot hold.
- MatrixEngine.Keyboard.MatrixTask: scanning itself.
- PageWrites.Device.WriteBlockI2c: transactions of more than 255 bytes, which never end; the write-protect pin, waiting
  times and bus errors; device addresses that depend on the memory address.
- PageWrites.Device.WriteBlockSpi: the time-out clock behind the busy check; the bus is an arbitrary sequence of outcomes.
- `process_action` and everything behind `process_record`, HID reports, LEDs, audio and user hooks.
- The encoder event queue, both crc8 builds, typing-speed smoothing, and the core configuration's own initialisation.
- Keycode tables, colour conversion, the command console, drive discovery and the command line of the converter.
