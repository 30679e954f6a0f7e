# tcp-shift: a verified model of its transport and congestion control

tcp-shift terminates TCP in user space and runs its own loss recovery and
congestion control on top of lwIP. This project models the four parts of it
whose correctness is hardest to see, and proves what they are for. Every `.dfy`
file is checked by `dafny verify dfyconfig.toml`.

**Loss-recovery transport layer.** `Ledger.DeliveryLedger` is the growable slot
table that counts delivered bytes, with the loops of the adapter. Beside it runs
a ghost book (`LedgerBook`) that names every payload byte by its unbounded
sequence number; the object invariant says that the 32-bit table refines the
book and that the counter is the number of distinct bytes covered. The two RACK
passes (`RackOrder`, and `RackSegment` for what they choose), PRR with its send
credit (`Prr`), flight accounting (`Flight`), the timer-handle registry
(`Registry`) and the recovery-episode hooks (`RecoveryHooks`) are modelled the same
way. `RateSampling` says what a delivery-rate sample measures: the ledger carries a
ghost history of flight starts, deliveries and application-limited marks, and a
trace of each tracked segment to the moment of its latest transmission.

**CUBIC with HyStart++.** `CubicMath` holds the fixed-point arithmetic and both
cube-root searches, `CubicModel` what each event does to the state,
`CubicController` the object that does it in place. `CubicLaws`, `CubicClock` and
`CubicAudit` prove the laws of whole connections and the refinement of the
repository's unbounded-integer growth audit, `CubicMeaning` what each event means
in bytes and what HyStart++ decides from its samples, `CubicWitness` the failing
runs.

**Compact BBR.** `BbrModel` and `BbrController` likewise; `BbrRuns` proves when an
ACK is accepted and that the controller never wedges, `BbrLaws` the windowed
maximum and the recovery episode, `BbrMeaning` the minima and the full-pipe verdict
over every run and each published number as a formula.

**BBRv3.** `Bbr3Model` and `Bbr3Controller`; `Bbr3Runs` proves that an ACK is
handled all or nothing, the phase machine's invariants, and the aggregation
filter; `Bbr3Meaning` the two-cycle bandwidth filter, the minima and the full-pipe
verdict over every run, and each move, bound and published number exactly. Their
hypothesis that a valid sample carries a rate is what
`RateSampling.SampleLaw` proves of the ledger's samples.

`Words` and `Scaling` give machine words as subset types (an unguarded overflow
is a verification error) and the exact meaning of every hand-split product.
`RoundRing` defines the naive maximum over a history of samples and the two
ten-slot rings that must equal it; `PathHistory` does the same for minimum
round-trip times and for the search for a full pipe.

Methods that change state are proved equal to a step function of the old state;
the laws are then lemmas about those step functions over all runs. A run may
contain rejected events: they leave exactly what the code writes before it
rejects.

## Findings

Four promises do not hold as stated. Each has a witness, a run from a fresh
controller, and an exact condition that can be computed before the call.

- A CSS acknowledgement of fewer than four bytes can shrink the CUBIC window by
  one byte, because the window is re-quantised to Q16 even when the growth is
  zero. `ShrinkWitness` shows it; `ShrinkExact` says exactly when.
- A HyStart++ exit is not always consumed by the ACK that raises it. It stays
  pending, and CSS passes its fifth round, exactly when that ACK acknowledges
  nothing, comes at an invalid transport, has a clock running backwards, or has
  been moved into congestion avoidance by a new limit or MSS without being
  application-limited (`PendingExit`). At a fixed transport only the first and
  the third remain (`FixedPendingExit`), and no accepted event leaves CSS past
  round five (`CssEnds`). `PendingWitness`, `OverrunWitness` and `LimitWitness`
  show the cases. They arise at the controller's own interface: the adapter drops
  ACKs of nothing, reads a monotonic clock and has one window limit.
- The growth audit divides by the published window, the code by the stored one,
  which may be a byte less at the minimum window. `AuditWitness` shows a W_est
  that differs far below the limit; `StepRefinesAudit` gives the exact condition
  for agreement.
- Compact BBR rejects well-formed ACKs outside Startup when its bandwidth estimate
  rounds the pacing rate to zero; a flow that delivers a byte every few seconds,
  so that its samples have an RTT but no rate, gets there when its minimum RTT
  expires. `WedgeWitness` shows it with samples the ledger makes; `AckExact`
  gives the least estimate for the mode the ACK will end in, and `ThreeSuffices`
  the bound that is enough in every mode.

## Model

| member | source | states |
|---|---|---|
| `Words.SignedDistanceExact` | src/lwip/cc_adapter.c:1921-1934 | the signed 32-bit difference of two wrapped sequence numbers is their true difference if and only if that difference fits 32 signed bits |
| `Scaling.ScaleFloor` | src/cc/bbr.c:28-47 | the split computation equals the unbounded floor of value times ratio clipped at 2^64-1, with no intermediate overflow |
| `Scaling.ScaleCeil` | src/cc/bbr.c:49-75 | the same for the ceiling |
| `Scaling.Scale3` | src/cc/bbr3_model.c:10-29 | the BBRv3 form equals the same clipped floor |
| `Scaling.ProductCeil` | src/lwip/prr.c:17-47 | the PRR ceiling product equals the unbounded ceiling clipped at 2^64-1 |
| `Scaling.BdpCeil` | src/cc/bbr.c:84-134 | the four-term split gives the exact ceiling BDP clipped at 2^64-1 |
| `Scaling.BdpCeil3` | src/cc/bbr3_probe.c:23-37 | the three-term split gives the same exact ceiling BDP |
| `Scaling.BdpFloor` | src/cc/bbr3_controller.c:24-33 | the floor BDP is exact and clipped |
| `Scaling.BdpFormsAgree` | src/cc/bbr3_controller.c:24-33 | the two ceilings agree everywhere; floor and ceiling differ by at most one, and are equal exactly when the division is exact or both saturate |
| `Scaling.BdpCeilPositive` | src/cc/bbr.c:94-96 | the BDP is positive exactly when bandwidth and RTT are |
| `LedgerBook.Advance` | src/lwip/cc_adapter.c:2355-2407 | extending one slot's acknowledged prefix adds exactly the new bytes to the covered set, each for the first time |
| `LedgerBook.Enter` | src/lwip/cc_adapter.c:936-972 | entering a new segment keeps the table tracking the book and adds its bytes to the sent set |
| `LedgerBook.Leave` | src/lwip/cc_adapter.c:974-988 | releasing a slot keeps the table tracking the book; undelivered bytes become abandoned, never delivered |
| `LedgerBook.Conservation` | src/lwip/cc_adapter.c:1013-1029 | bytes first sent = bytes delivered + outstanding payload + bytes abandoned by early release |
| `LedgerBook.TracksEnds` | src/lwip/cc_adapter.c:1498-1507 | the 32-bit segment ends are images of unbounded ends close enough to be compared |
| `Ledger.AckedPayloadExact` | src/lwip/cc_adapter.c:1921-1934 | within reach the 32-bit code finds the true length of the acknowledged prefix |
| `Ledger.InSackExact` | src/lwip/cc_adapter.c:2409-2424 | within reach the 32-bit test says exactly whether a block covers the whole segment |
| `Ledger.NewerExact` | src/lwip/cc_adapter.c:2261-2269 | the candidate test is the (transmit time, end of sequence) order |
| `Ledger.DeliveryLedger.Balance` | src/lwip/cc_adapter.c:1013-1029 | conservation in every reachable state of the object |
| `Ledger.DeliveryLedger.Find` | src/lwip/cc_adapter.c:859-872 | finds the segment's slot, or reports that no slot holds it |
| `Ledger.DeliveryLedger.Grow` | src/lwip/cc_adapter.c:887-934 | succeeds exactly when memory and the cap allow; eight slots, then doubling up to the cap; same contents, new slots empty, nothing counted |
| `Ledger.DeliveryLedger.OnSegmentTx` | src/lwip/cc_adapter.c:1936-2104 | a retransmission refreshes its slot and snapshot and enters no bytes; a new segment is entered exactly when a slot is empty or the table can grow, and enters exactly its payload; a new flight is a new moment of the history and restarts the send clocks; each transmission is traced to the history before it |
| `Ledger.DeliveryLedger.Retransmit` | src/lwip/cc_adapter.c:2021-2074 | the slot gets a fresh send time, delivered count and snapshot, and a trace to this moment; its prior inflight is exactly the outstanding payload; fully delivered or not it goes before RACK again; nothing else changes |
| `Ledger.DeliveryLedger.FirstTransmit` | src/lwip/cc_adapter.c:2076-2104 | entered exactly when a slot is empty or memory and the cap allow growth; outstanding payload then rises by the payload |
| `Ledger.DeliveryLedger.MarkAppLimited` | src/lwip/cc_adapter.c:3607-3654 | the marker is set once, at everything delivered or outstanding, and is never below the delivered count until it is cleared |
| `Ledger.DeliveryLedger.OnSegmentAcked` | src/lwip/cc_adapter.c:2174-2208 | frees the slot and counts nothing; a fully acknowledged slot leaves the books unchanged |
| `Ledger.DeliveryLedger.AckSweep` | src/lwip/cc_adapter.c:2355-2407 | the covered set gains exactly the tracked bytes below the ACK; the sum added is their number; the candidate is the newest touched slot |
| `Ledger.DeliveryLedger.SackSweep` | src/lwip/cc_adapter.c:2426-2486 | the covered set gains exactly the bytes of segments some block covers, however the blocks overlap or repeat |
| `Ledger.DeliveryLedger.Finish` | src/lwip/cc_adapter.c:2271-2407 | the RACK passes unless deferred, then a sample exactly when bytes were delivered, from the chosen slot, measured over the history; the delivery is appended to the history and the clocks follow it |
| `Ledger.DeliveryLedger.TakeSample` | src/lwip/cc_adapter.c:2271-2353 | the sample measures the candidate: ACK interval since the last delivery before its latest transmission (or the flight start), send interval since that send phase began, application-limited exactly when a mark then stood; the marker is cleared exactly when delivery passes it |
| `Ledger.DeliveryLedger.RunRack` | src/lwip/cc_adapter.c:1509-1634 | both passes; in reach, reordering is declared exactly when a never-retransmitted segment was delivered behind the forward-most delivered sequence, and RACK.segment is the usable delivered segment sent last or the old one; the minimum RTT is the least in any case; the markers stay in reach |
| `RateSampling.SampleLaw` | src/lwip/cc_adapter.c:2305-2352 | a sample is valid exactly when it carries a non-zero rate; the rate is the floor over the longer of send and ACK interval, so it exceeds neither; no RTT from a retransmission (what the intervals measure is SampleMeasures) |
| `RateSampling.SampleMeasures` | src/lwip/cc_adapter.c:2305-2352 | for a traced slot the ACK interval runs from the last delivery before its latest transmission or the flight start, the send interval from the send time of the slot that delivery sampled, the prior count is what had been delivered then, and the flags say whether a mark stood and whether it was sent more than once |
| `RateSampling.SnapshotTraced` | src/lwip/cc_adapter.c:2021-2104 | the snapshot of a transmission records exactly the history up to it |
| `RateSampling.ClocksAdvance` | src/lwip/cc_adapter.c:2271-2353 | a flight start, a delivery and a mark each move the clocks as one more moment of the history would |
| `RateSampling.MarkerStands` | src/lwip/cc_adapter.c:3607-3654 | the marker is set exactly while some mark has not been passed by a later delivery, and holds that mark |
| `Ledger.ResendPrior` | src/lwip/cc_adapter.c:2021-2074 | a tracked segment's own remainder is part of the outstanding payload, so the second bound of a retransmission's prior inflight never shows |
| `Ledger.AdvancesExact` | src/lwip/cc_adapter.c:2814-2827 | within reach the deferral test is SND.UNA < ACK <= SND.NXT |
| `Ledger.DeliveryLedger.OnCumulativeAck` | src/lwip/cc_adapter.c:2355-2407 | exactly-once delivery for a cumulative ACK with both RACK passes over the newly delivered slots |
| `Ledger.DeliveryLedger.OnSack` | src/lwip/cc_adapter.c:2426-2486 | exactly-once delivery for SACK blocks |
| `Ledger.DeliveryLedger.ReceiveAck` | src/lwip/cc_adapter.c:2814-2827 | an ACK that advances SND.UNA and carries SACK blocks gets one combined RACK pass over everything either delivered, one reordering verdict and one choice of RACK.segment, and each part its sample, measured over the history as it stood |
| `Ledger.DeliveryLedger.OutstandingPayload` | src/lwip/cc_adapter.c:1013-1029 | the sum of undelivered payload, capped at 32 bits |
| `RackOrder.SelectNext` | src/lwip/cc_adapter.c:1528-1548 | the scan finds the least waiting slot in the pass's order, or that none waits |
| `RackOrder.VisitsBounded` | src/lwip/cc_adapter.c:1509-1634 | an ordered visit list repeats nothing, so it is no longer than the table: both unbounded loops terminate |
| `RackOrder.OrderedPass` | src/lwip/cc_adapter.c:1524-1580 | visits every waiting slot exactly once, in order, and marks each; what the first pass leaves is RackSegment.NoteLaw, what the second is ReorderingExact |
| `RackOrder.ProcessDelivered` | src/lwip/cc_adapter.c:1509-1634 | the same slots are visited first by (time, end), then by end; none is left between the passes; what they decide is RackSegment.PassSegment and PassReordering |
| `RackSegment.NoteLaw` | src/lwip/rack_tlp.c:72-104 | after the first pass RACK.segment is the old one or a usable delivered segment, and no usable delivered segment is after it in (transmit time, unbounded end) order; RACK.rtt is that of the last usable segment; usable means sent, not in the future, and not a retransmission with a round trip below the minimum |
| `RackSegment.NoteMinimum` | src/lwip/cc_adapter.c:1549-1572 | the minimum RTT is the least of its old value and the non-zero round trips of delivered segments sent once |
| `RackSegment.PassSegment` | src/lwip/cc_adapter.c:1509-1634 | both passes of one ACK: the choice, the minimum and the round trip are the first pass's, the end of RACK.segment is followed without wrap-around |
| `RackOrder.ReorderingExact` | src/lwip/rack_tlp.c:106-124 | reordering is declared exactly when a never-retransmitted segment is delivered behind the forward-most sequence delivered before this ACK (a marker of zero counts as unset) |
| `RackOrder.PassReordering` | src/lwip/cc_adapter.c:1582-1634 | both passes of one ACK declare reordering exactly when some newly delivered, never-retransmitted segment ends below the forward-most delivered sequence, which is followed without wrap-around; an unset marker is compared with nothing |
| `Flight.SackedBytes` | src/lwip/cc_adapter.c:1057-1089 | the capped sum of bytes acknowledged beyond the cumulative ACK |
| `Flight.RecoverFs` | src/lwip/cc_adapter.c:1091-1104 | raw span minus SACKed bytes, never below zero |
| `Flight.FlightAgrees` | src/lwip/cc_adapter.c:1057-1104 | when tracked segments tile the unacknowledged space, span minus SACKed bytes is the ledger's outstanding payload, across wrap-around |
| `Flight.AdmissionExact` | src/lwip/cc_adapter.c:404-496 | the adjusted window admits n bytes exactly when n fits the PRR credit, or outstanding + n fits cwnd |
| `Prr.PrrState.Init` | src/lwip/prr.c:56-70 | starts a fresh episode exactly for non-zero RecoverFS and ssthresh |
| `Prr.PrrState.OnAck` | src/lwip/prr.c:72-133 | charges the delivered data and grants the clipped RFC value, or rejects unchanged |
| `Prr.PrrState.Allowance` | src/lwip/prr.c:98-129 | the computed send count is the RFC's, clipped to 32 bits |
| `Prr.PrrState.OnSend` | src/lwip/prr.c:135-143 | charges sent bytes exactly when active and non-zero |
| `Prr.PrrState.Complete` | src/lwip/prr.c:145-158 | returns ssthresh as the window and resets |
| `Prr.GrantFollowsRfc` | src/lwip/prr.c:72-133 | for ssthresh at most RecoverFS no saturation is visible: the grant is section 6.2 of RFC 9937 |
| `Prr.GrantExact` | src/lwip/prr.c:72-133 | above ssthresh the grant fills the share and not a byte more: (out + sndcnt) * RecoverFS reaches delivered * ssthresh, one byte less would not; below, it is the lesser of the room and what conservation and a safe segment allow, never nothing at first; cwnd is inflight plus the grant |
| `Prr.Gate.ApplyAck` | src/lwip/cc_adapter.c:1177-1205 | the grant replaces the credit unless its window does not fit the transport |
| `Prr.Gate.OnSegmentTx` | src/lwip/cc_adapter.c:1957-1992 | a transmission spends credit and is charged, or forfeits the credit |
| `Prr.Gate.Send` | src/lwip/cc_adapter.c:511-536 | behind the send gate a segment leaves exactly when it fits the credit, and is then charged in full; otherwise nothing changes |
| `Prr.CountersTrackTotals` | src/lwip/prr.c:95-96 | prr_delivered and prr_out are the unbounded totals of the episode, saturated |
| `Prr.EpisodeBound` | src/lwip/prr.c:72-143 | over any interleaving, bytes charged plus unspent credit are at most delivered + SMSS(1 + number of SafeACKs) |
| `Prr.GatedRunsCharged` | src/lwip/cc_adapter.c:511-536 | when every transmission passed the gate, the charged bytes are all bytes sent |
| `Prr.GatedEpisodeBound` | src/lwip/cc_adapter.c:1957-1992 | so over any gated run all bytes sent plus unspent credit obey the same bound |
| `Prr.ProportionalBound` | src/lwip/prr.c:98-102 | while every ACK sees more than ssthresh in flight, it is at most ceil(delivered * ssthresh / RecoverFS) |
| `Registry.GenerationRepeats` | src/lwip/cc_adapter.c:230-235 | two uses of a slot share a generation exactly when they are a whole number of 2^32-1 cycles apart |
| `Registry.StaleHandleBound` | src/lwip/cc_adapter.c:635-661 | a stale generation does not recur within 2^32-2 reuses, and does recur at the next |
| `Registry.PacingRegistry.Grow` | src/lwip/cc_adapter.c:184-213 | doubles the table with vacant entries exactly when memory and the size type allow |
| `Registry.PacingRegistry.Register` | src/lwip/cc_adapter.c:215-246 | terminates; succeeds exactly when a slot is vacant or growth succeeds; the flow gets a vacant slot's id and a fresh generation, every other entry is untouched |
| `Registry.PacingRegistry.Unregister` | src/lwip/cc_adapter.c:272-298 | vacates the flow's own entry and no other; active follows |
| `Registry.PacingRegistry.DistinctIds` | src/lwip/cc_adapter.c:215-246 | distinct live flows have distinct ids |
| `Registry.PacingRegistry.Resume` | src/lwip/cc_adapter.c:635-661 | a release resumes a flow exactly when its id and generation match an occupied entry, and lets it transmit exactly when it is still attached; a stale one touches nothing |
| `RecoveryHooks.Connection.MarkEnter` | src/lwip/cc_hooks.h:128-139 | opens an episode at SND.NXT, or leaves the current one untouched |
| `RecoveryHooks.Connection.MarkExit` | src/lwip/cc_hooks.h:141-152 | closes the episode once |
| `RecoveryHooks.Connection.PrrBegin` | src/lwip/cc_adapter.c:1375-1406 | whether PRR is active afterwards, on every path |
| `RecoveryHooks.Connection.Loss` | src/lwip/cc_hooks.h:317-331 | a handled loss is in an episode; within one the end marker does not move and nothing is counted again |
| `RecoveryHooks.Connection.RackRetransLoss` | src/lwip/cc_hooks.h:362-374 | a lost retransmission changes neither the episode nor its end marker |
| `RecoveryHooks.Connection.TlpLoss` | src/lwip/cc_hooks.h:376-389 | a tail-loss probe response creates no episode |
| `RecoveryHooks.Connection.AckSeen` | src/lwip/cc_adapter.c:2506-2608 | an empty ACK is ignored; a failed preparation or PRR grant unbinds the adapter, anything else is handled |
| `RecoveryHooks.Connection.SackSeen` | src/lwip/cc_adapter.c:2778-2923 | blocks that deliver nothing change nothing; otherwise any failed step unbinds the adapter, PRR being applied here only when no cumulative ACK follows |
| `RecoveryHooks.Connection.RecoveryExit` | src/lwip/cc_hooks.h:404-420 | closes an open episode exactly once whatever the adapter answers; a bound adapter has PRR inactive |
| `RecoveryHooks.Connection.OnRecoveryExit` | src/lwip/cc_adapter.c:3273-3356 | whether the adapter stays bound and whether it handled the exit |
| `RecoveryHooks.Connection.Timeout` | src/lwip/cc_hooks.h:422-445 | an RTO cancels the open episode even if the callback fails; enters = exits + cancelled + open is kept |
| `CubicMath.CubeLeq` | src/cc/cubic.c:228-240 | two divisions decide value^3 <= limit exactly, without overflow |
| `CubicMath.CuberootFloor` | src/cc/cubic.c:242-257 | the bisection returns the floor of the cube root of any 64-bit value |
| `CubicMath.AuditCbrt` | scripts/p6-cubic-rfc9438-growth-audit.py:59-70 | the audit's doubling search returns the same floor for any integer |
| `CubicMath.CubeSat` | src/cc/cubic.c:259-274 | the cube, saturated at 2^64-1 |
| `CubicMath.WindowExact` | src/cc/cubic.c:276-292 | saturation is invisible: the code's window and the exact one compare alike with every window below 2^48 |
| `CubicMath.WindowBelowK` | src/cc/cubic.c:289-291 | before K nothing saturates: code and audit agree |
| `CubicMath.WindowMonotone` | scripts/p6-cubic-rfc9438-growth-audit.py:51-57 | the window function never decreases in time |
| `CubicMath.WindowAnchors` | src/cc/cubic.c:318-326 | with K the floored cube root, the curve is W_max at K, at least the epoch window at 0, and K is the last instant with that property |
| `CubicMath.TimeExact` | src/cc/cubic.c:206-219 | the Q10 conversion is the exact floor for every 64-bit time; its guard never fires |
| `CubicMath.BytesExact` | src/cc/cubic.c:58-72 | below 2^48 only the limit clips |
| `CubicMath.RoundTrip` | src/cc/cubic.c:49-72 | bytes to Q16 and back loses one byte exactly when the division is inexact, and none otherwise |
| `CubicController.Controller.constructor` | src/cc/cubic.c:371-406 | a valid initialisation gives the initial state |
| `CubicController.Controller.Normalize` | src/cc/cubic.c:135-148 | clamps the window and threshold |
| `CubicController.Controller.Publish` | src/cc/cubic.c:150-181 | the state and policy after publication |
| `CubicController.Controller.FinishHystart` | src/cc/cubic.c:183-204 | hands over to CUBIC exactly when an exit is pending |
| `CubicController.Controller.StartEpoch` | src/cc/cubic.c:294-327 | the epoch's state with the searched cube root as K |
| `CubicController.Controller.Avoid` | src/cc/cubic.c:508-543 | the state after congestion-avoidance growth |
| `CubicController.Controller.ModelOnAck` | src/cc/cubic.c:408-543 | the whole model ACK with its rejections and what they leave behind |
| `CubicController.Controller.HystartOnAck` | src/cc/cubic_hystart.c:83-184 | rounds, samples, CSS entry and revert (ObserverLaw), and the exit |
| `CubicController.Controller.OnAck` | src/cc/cubic_controller.c:55-94 | HyStart++ observes first, then the window grows by the credited bytes |
| `CubicController.Controller.OnLoss` | src/cc/cubic_controller.c:96-113 | reduction with a two-segment floor (ReductionLaw), HyStart++ ended |
| `CubicController.Controller.OnEcn` | src/cc/cubic_controller.c:115-129 | reduction with a one-segment floor (ReductionLaw), HyStart++ ended |
| `CubicController.Controller.OnTimeout` | src/cc/cubic_controller.c:131-147 | the timed-out state of TimeoutLaw, HyStart++ ended |
| `CubicRuns.AckShape` | src/cc/cubic.c:408-543 | exactly when an ACK is accepted, and its three forms; a rejected one leaves the window model as it was |
| `CubicRuns.PublishedOk` | src/cc/cubic.c:150-181 | publication restores the bounds and publishes the window the state stands for |
| `CubicRuns.WindowKept` | src/cc/cubic.c:135-181 | every accepted event keeps the invariant and publishes a window in [effective minimum, limit] |
| `CubicRuns.ObserverFacts` | src/cc/cubic_hystart.c:83-184 | an exit is raised exactly by the slow-start ACK that completes the fifth CSS round |
| `CubicLaws.LifecycleStep` | src/cc/cubic_controller.c:55-147 | any event at any MSS and limit keeps the lifecycle invariant; a finished observer stays finished |
| `CubicLaws.HystartLifecycle` | src/cc/cubic_hystart.c:33-184 | over every run at any transport: at most one exit, never re-armed after exit, loss, ECN or RTO, and CSS past its fifth completed round only while an exit pends |
| `CubicLaws.PendingExit` | src/cc/cubic.c:408-502 | at any transport: exactly when an ACK is accepted, and exactly which ACKs leave a raised exit pending and let CSS pass its fifth round |
| `CubicLaws.FixedPendingExit` | src/cc/cubic.c:480-502 | at a fixed transport a raised exit stays pending exactly for an ACK of nothing or a clock running backwards; otherwise it is consumed after the quarter growth, slow start is over, and W_max and the prior window start there with K = 0 |
| `CubicLaws.CssEnds` | src/cc/cubic_hystart.c:120-184 | at a fixed transport no accepted event of any run leaves an exit pending or CSS past its fifth round |
| `CubicWitness.PendingWitness` | src/cc/cubic_hystart.c:120-140 | a run of rejected ACKs from a fresh controller leaves an exit pending |
| `CubicWitness.OverrunWitness` | src/cc/cubic_hystart.c:120-140 | one more leaves CSS on with six completed rounds |
| `CubicWitness.LimitWitness` | src/cc/cubic.c:438-443 | lowering the limit on the ACK of the fifth round: accepted, and the exit stays pending |
| `CubicLaws.InitialOk` | src/cc/cubic.c:371-406 | a valid initialisation satisfies the invariants |
| `CubicLaws.FixedStep` | src/cc/cubic.c:408-668 | every event, accepted or rejected, keeps the invariants; a rejected one leaves the window model unchanged |
| `CubicLaws.WindowOverRuns` | src/cc/cubic.c:135-181 | over every run the stored window stays between the minimum and the limit in Q16, and is within one byte of the published window |
| `CubicLaws.ShrinkExact` | src/cc/cubic.c:480-502 | an accepted ACK shrinks the window exactly when its CSS growth is zero bytes and the window is not representable in Q16, and then by one byte |
| `CubicWitness.ShrinkWitness` | src/cc/cubic.c:489-498 | ten one-byte ACKs take a fresh controller from a published 10001 bytes to 10000 |
| `CubicMeaning.ReductionLaw` | src/cc/cubic.c:545-636 | a loss (floor two segments) or ECN mark (one) at any transport is rejected unchanged or stores the Q16 value of 7/10 of the flight within the segment floor, effective minimum and limit as window and threshold, published up to one byte; it remembers the old window, applies fast convergence to W_max and ends HyStart++ |
| `CubicMeaning.TimeoutLaw` | src/cc/cubic.c:638-669 | a timeout at any transport publishes exactly the effective minimum, stores the Q16 value of 7/10 of the flight with a two-segment floor within the limit as threshold, remembers the old window and keeps W_max |
| `CubicMeaning.AfterTimeout` | src/cc/cubic.c:294-327 | after a timeout W_max is kept by every accepted ACK in slow start or a pause; the first in congestion avoidance starts an epoch with W_max at its window and K = 0 |
| `CubicMeaning.EpochLaw` | src/cc/cubic.c:294-327 | an epoch starts at the current window; W_max is kept unless a timeout or the first epoch replaces it |
| `CubicMeaning.SlowStartLaw` | src/cc/cubic.c:480-502 | an accepted slow-start ACK adds the acknowledged bytes, at most eight segments unpaced and a quarter in CSS, within the limit and up to the byte Q16 may lose |
| `CubicMeaning.RescaleKeepsBytes` | src/cc/cubic.c:74-85 | rescaling to another MSS keeps the window in bytes, up to one |
| `CubicMeaning.InitialLaw` | src/cc/cubic.c:371-406 | a valid initialisation stores the given window and threshold in Q16, with fast convergence on and nothing known |
| `CubicMeaning.ThresholdLaw` | src/cc/cubic.c:150-181 | a published threshold is never zero: the stored one in bytes, or the effective minimum |
| `CubicMeaning.ObserverLaw` | src/cc/cubic_hystart.c:83-184 | CSS is entered exactly when at least eight samples of the round have a minimum above the last round's by an eighth of it, kept between 4 and 16 ms, and left exactly when eight samples fall below the baseline taken on entry; rounds, baseline and counters exactly |
| `CubicMeaning.ObserverOverRuns` | src/cc/cubic_hystart.c:68-184 | over every run at any transport the two minima and the sample count are those of the round-trip samples of the last two rounds |
| `CubicMeaning.LeastIsLeast` | src/cc/cubic_hystart.c:141-160 | the reference minimum is a minimum |
| `CubicLaws.GrowthPerAck` | src/cc/cubic.c:508-543 | the cubic target is at most 1.5 cwnd and one ACK adds at most half a segment, namely (target - cwnd)/cwnd of one; the Reno branch never lowers the window |
| `CubicClock.ActiveTimeBounds` | src/cc/cubic.c:445-475 | counted time is non-negative and at most wall time |
| `CubicClock.PauseKeeps` | src/cc/cubic.c:453-465 | an application-limited ACK stops the clock at the ACK before it |
| `CubicClock.ResumeKeeps` | src/cc/cubic.c:468-475 | resuming moves the epoch start past the pause without saturating |
| `CubicClock.ClockOverRuns` | src/cc/cubic.c:434-478 | the clock relation holds after every run, at any MSS and limit and however they change |
| `CubicClock.EpochClock` | src/cc/cubic.c:504-515 | after every run and at any transport, now - epoch_start does not underflow and is the sum of gaps between consecutive ACKs that are both not application-limited |
| `CubicClock.AdjustedAvoids` | src/cc/cubic.c:74-148 | rescaling to another MSS and clamping to another limit keep the order of window and threshold |
| `CubicRuns.PublishedStored` | src/cc/cubic.c:150-181 | at any transport publication stores the normalised window unchanged: its repair of a window below the minimum never fires on the stored value |
| `CubicMath.BytesAbove` | src/cc/cubic.c:49-72 | a window above x bytes in Q16 is at least x bytes, at every MSS |
| `CubicAudit.EpochK` | scripts/p6-cubic-rfc9438-growth-audit.py:172-180 | starting an epoch gives the audit's K |
| `CubicAudit.WEstAgrees` | scripts/p6-cubic-rfc9438-growth-audit.py:191-201 | W_est is the audit's, clipped at the window limit |
| `CubicAudit.TimesAgree` | scripts/p6-cubic-rfc9438-growth-audit.py:40-48 | both times are the audit's |
| `CubicAudit.RenoAgrees` | scripts/p6-cubic-rfc9438-growth-audit.py:211-215 | in the Reno branch target and window are the audit's |
| `CubicAudit.CubicAgrees` | scripts/p6-cubic-rfc9438-growth-audit.py:216-233 | in the cubic branch the target is the audit's, clipped at the limit |
| `CubicAudit.BranchAgrees` | scripts/p6-cubic-rfc9438-growth-audit.py:203-233 | the branch, target and window are the audit's, up to the window limit |
| `CubicAudit.StepRefinesAudit` | src/cc/cubic.c:504-543 | K, W_est, target and cwnd all equal the audit's if and only if the limit does not bind on W_est or the target and W_est does not depend on the byte the stored window may lack; above the floor only the limit matters |
| `CubicAudit.RunRefinesAudit` | scripts/p6-cubic-rfc9438-growth-audit.py:169-233 | the same equivalence for the next congestion-avoidance ACK of every run |
| `CubicWitness.AuditWitness` | src/cc/cubic.c:508-512 | a fresh controller at its minimum window of 10001 bytes grows W_est by one more than the audit |
| `RoundRing.PeakIsMax` | src/cc/bbr.c:269-278 | the reference definition is the maximum of the recorded values in range |
| `RoundRing.AdmitTracks` | src/cc/bbr.c:297-357 | recording a sample keeps every slot equal to its round's maximum, however many rounds were skipped |
| `RoundRing.FilterIsWindowMax` | src/cc/bbr.c:269-278 | the published maximum is the naive maximum of the last ten rounds |
| `RoundRing.RecordedTracks` | src/cc/bbr.c:269-357 | for every unbounded history with non-decreasing rounds |
| `RoundRing.NotedTracks` | src/cc/bbr3_controller.c:99-104 | recording in the tagged ring keeps it exact |
| `RoundRing.RingAdvances` | src/cc/bbr3_controller.c:84-104 | later rounds need no clean-up: stale tags fall out of the window |
| `RoundRing.RecentIsWindowMax` | src/cc/bbr3_controller.c:105-114 | the scan gives the naive maximum of the last one to ten rounds |
| `BbrController.BandwidthFilter.RecomputeMax` | src/cc/bbr.c:269-278 | the loop computes the maximum of the ten slots |
| `BbrController.BandwidthFilter.ClearSkipped` | src/cc/bbr.c:319-324 | the loop zeroes exactly the slots of the skipped rounds |
| `BbrController.BandwidthFilter.Age` | src/cc/bbr.c:297-329 | the filter aged to the given round |
| `BbrController.BandwidthFilter.Record` | src/cc/bbr.c:350-356 | the filter with the sample admitted |
| `BbrController.Controller.constructor` | src/cc/bbr_controller.c:32-69 | the initial state with the bootstrap rate |
| `BbrController.Controller.Estimate` | src/cc/bbr.c:497-517 | rejects a clock running backwards unchanged, otherwise updates round, bandwidth, full pipe and RTT in this order; what they then are is BandwidthIsWindowMax and PathOverRuns |
| `BbrController.Controller.CheckDrain` | src/cc/bbr_drain.c:60-92 | Startup to Drain to ProbeBW, as DrainLaw decides |
| `BbrController.Controller.UpdateProbeRtt` | src/cc/bbr_probe.c:271-336 | entry, hold and exit of ProbeRTT, as ProbeRttLaw decides |
| `BbrController.Controller.UpdateCycle` | src/cc/bbr_probe.c:142-204 | the eight-phase cycle of CycleLaw; fails exactly when the clock precedes the phase |
| `BbrController.Controller.OnAck` | src/cc/bbr_controller.c:71-204 | the whole ACK, with what each rejection leaves behind |
| `BbrController.Controller.RecoveryEnter` | src/cc/bbr_controller.c:221-255 | entry, including the marker it moves before rejecting |
| `BbrController.Controller.RecoveryNoteLoss` | src/cc/bbr_controller.c:257-291 | loss charged inside recovery, one segment at least left |
| `BbrController.Controller.RecoveryExit` | src/cc/bbr_controller.c:293-317 | exit restores the larger window, within the limit |
| `BbrController.Controller.OnTimeout` | src/cc/bbr_controller.c:319-361 | baseline reset, recovery dropped, window from the surviving flight |
| `BbrRuns.RateThresholds` | src/cc/bbr_probe.c:125-140 | the least bandwidth at which each gain gives a non-zero rate |
| `BbrRuns.InitialRateNonzero` | src/cc/bbr_pacing.c:5-26 | the bootstrap rate is never zero |
| `BbrRuns.PolicyExact` | src/cc/bbr_controller.c:164-191 | with the mode's invariants a policy is always given, its window in [MSS, limit]; its rate is non-zero exactly above the mode's least bandwidth |
| `BbrRuns.AckExact` | src/cc/bbr_controller.c:71-204 | an ACK is accepted if and only if it has bytes, a non-zero clock not running backwards, and the bandwidth it will estimate reaches the least one of the mode it will end in, both computed from the state before it |
| `BbrRuns.ThreeSuffices` | src/cc/bbr_controller.c:187-191 | an estimate of three bytes per second after the ACK is enough in every mode |
| `BbrRuns.StepKeeps` | src/cc/bbr_controller.c:71-361 | every event keeps the invariant, accepted or not: Drain and ProbeBW imply a full pipe and bandwidth, ProbeBW and ProbeRTT a minimum RTT, the cycle never starts in the future |
| `BbrRuns.NeverWedges` | src/cc/bbr_controller.c:71-204 | after every run, a well-formed ACK is accepted unless it will end outside Startup below three bytes per second; the window is in [MSS, limit] and the rate non-zero |
| `BbrLaws.BandwidthIsWindowMax` | src/cc/bbr.c:331-357 | over every run, whatever MSS and limit each event has, the estimate is the maximum of all samples admitted in the ten rounds ending at the latest admitted one |
| `PathHistory.BaselineMeaning` | src/cc/bbr.c:374-407 | no counted round after the baseline grew by a quarter over it |
| `BbrMeaning.PathOverRuns` | src/cc/bbr.c:359-452 | over every run at any transports: the five-second minimum is the least round trip since its own sample, taken at its stamp; the ten-second minimum is a sampled round trip, none shorter since, at most the other, stamped by its sample or by the end of a ProbeRTT hold; the pipe is full exactly when three counted rounds in a row did not grow the estimate by a quarter over the baseline |
| `BbrMeaning.MinimaLaw` | src/cc/bbr.c:409-452 | a sample lowers each minimum to itself if it is shorter; a minimum rises only when its stamp is more than five or ten seconds old, to the sample or to the five-second minimum; without a sample neither moves |
| `BbrMeaning.PipeLaw` | src/cc/bbr.c:374-407 | one ACK of the full-pipe search follows the history of counted rounds |
| `BbrMeaning.RoundsLaw` | src/cc/bbr.c:280-295 | a round is counted exactly when the ACK covers data sent after everything delivered when the last one opened |
| `BbrLaws.ConservationHolds` | src/cc/bbr_recovery.c:83-134 | from an accepted entry in any state, at any transports, every accepted ACK of older data publishes at least min(its limit, inflight + acked), whatever losses are charged between |
| `BbrLaws.ConservationEnds` | src/cc/bbr.c:280-295 | in any state and at any transport conservation ends exactly with an ACK that opens a round at a window of one segment or more, which acknowledges data sent after entry |
| `BbrLaws.ExitRestores` | src/cc/bbr_recovery.c:136-162 | after any run inside recovery leaving is accepted exactly at a valid transport whose limit holds the window, and restores at least min(limit, window before entry) |
| `BbrLaws.ExitAccepted` | src/cc/bbr_controller.c:293-317 | at a fixed transport leaving recovery is always accepted |
| `BbrLaws.PacedLaw` | src/cc/bbr_drain.c:51-58 | Drain paces at most 7/20 of the estimate, DOWN three quarters, cruise at most all, UP and Startup at least all of it |
| `BbrLaws.PolicyMeaning` | src/cc/bbr_probe.c:206-269 | Startup never lowers the rate and, until the pipe is full, grows by at most the acknowledged bytes; ProbeBW stays within twice the BDP; ProbeRTT goes to the four-segment floor |
| `BbrMeaning.PolicyLaw` | src/cc/bbr_probe.c:206-269 | window, threshold and rate of each mode as formulas of the exact BDP: 739/256 of it in Startup and Drain, twice in ProbeBW, the four-segment floor in ProbeRTT; gains 739, 88, 320, 192 and 256 over 256 less one per cent |
| `BbrMeaning.AckLaw` | src/cc/bbr_controller.c:71-204 | an accepted ACK publishes the window and rate of the mode it ends in, from the window before it or the one ProbeRTT had saved; while recovery conserves packets, exactly inflight plus acknowledged bytes within [cwnd, limit] |
| `BbrMeaning.InitialRateLaw` | src/cc/bbr_pacing.c:5-26 | the bootstrap rate is the window per RTT (a millisecond if unknown), at least one, at Startup's gain |
| `BbrMeaning.FreshLaw` | src/cc/bbr_controller.c:32-69 | a fresh controller knows nothing, paces the initial window over a millisecond, and takes its cycle offset from the seed |
| `BbrMeaning.DrainLaw` | src/cc/bbr_drain.c:60-92 | Startup ends exactly when the pipe is full, Drain exactly when a valid sample's prior inflight fits a positive BDP |
| `BbrMeaning.ProbeRttLaw` | src/cc/bbr_probe.c:271-336 | ProbeRTT is entered exactly when the minimum has expired; the hold runs from the first ACK that finds the flight at the floor, and ends exactly when 200 ms and a packet-timed round have passed |
| `BbrMeaning.RestoreLaw` | src/cc/bbr_probe.c:364-376 | leaving ProbeRTT restores the saved window within the limit, and never lowers it |
| `BbrMeaning.CycleLaw` | src/cc/bbr_probe.c:142-204 | exactly when each phase of the cycle ends: UP after a minimum RTT with loss or 5/4 BDP in flight, DOWN after a minimum RTT or at one BDP, the rest after a minimum RTT |
| `BbrMeaning.RecoveryLaw` | src/cc/bbr_controller.c:206-361 | every event but an ACK: entry publishes inflight plus acknowledged bytes, a loss note takes the lost bytes off, a timeout keeps the surviving flight and one segment, each between one segment and the limit; leaving restores the larger window |
| `BbrMeaning.ConservedLaw` | src/cc/bbr_recovery.c:83-134 | the window recovery hands on is unchanged, or inflight plus acknowledged bytes within [cwnd, limit] while it conserves |
| `BbrLaws.CycleOrder` | src/cc/bbr_probe.c:142-204 | a cycle never starts in DOWN, moves one phase at a time, and leaves any phase but DOWN only after a minimum RTT |
| `BbrLaws.WedgeWitness` | src/cc/bbr_probe.c:289-298 | two one-byte ACKs whose ledger samples carry no rate put a fresh controller into ProbeRTT, and the second is rejected |
| `BbrLaws.SlowSamples` | src/lwip/cc_adapter.c:2210-2217 | a byte acknowledged after more than a second gives a sample with an RTT and no rate |
| `Bbr3Controller.Controller.constructor` | src/cc/bbr3_controller.c:35-74 | the initial state |
| `Bbr3Controller.Controller.Estimate` | src/cc/bbr3_model.c:142-176 | rejects unchanged, or updates round, RTT, bandwidth and full pipe; what they then are is Bbr3Meaning.PathOverRuns |
| `Bbr3Controller.Controller.Congest` | src/cc/bbr3_congestion.c:262-335 | rejects unchanged, or the new bounds and whether probing went too far |
| `Bbr3Controller.Controller.Aggregate` | src/cc/bbr3_controller.c:76-115 | the aggregation state after the ACK |
| `Bbr3Controller.Controller.Note` | src/cc/bbr3_controller.c:99-104 | the arrays hold the ring with the value recorded |
| `Bbr3Controller.Controller.Scan` | src/cc/bbr3_controller.c:107-114 | the loop computes the maximum over recently tagged slots |
| `Bbr3Controller.Controller.EnterProbe` | src/cc/bbr3_probe.c:101-130 | a fresh scheduler in DOWN, or nothing |
| `Bbr3Controller.Controller.ScheduleProbe` | src/cc/bbr3_probe.c:215-308 | the scheduler's step and its result |
| `Bbr3Controller.Controller.AdvancePhase` | src/cc/bbr3_controller.c:196-238 | Drain, ProbeBW and ProbeRTT in the code's order |
| `Bbr3Controller.Controller.UpdateProbeRtt` | src/cc/bbr3_controller.c:146-194 | entry, hold and release of ProbeRTT |
| `Bbr3Controller.Controller.UpdatePolicy` | src/cc/bbr3_controller.c:240-291 | pacing, window and policy: the formulas of WindowLaw and RateLaw |
| `Bbr3Controller.Controller.OnAck` | src/cc/bbr3_controller.c:293-349 | the whole ACK |
| `Bbr3Runs.AllOrNothing` | src/cc/bbr3_controller.c:293-349 | accepted if and only if well formed; rejected, the whole state is unchanged; accepted, the window is between four segments and the cap of the final phase, below max(BDP/2, 4 MSS) in ProbeRTT, and the rate is non-zero |
| `Bbr3Meaning.WindowLaw` | src/cc/bbr3_controller.c:240-291 | from the state handed to the policy: until the pipe is full the window is cwnd + acked while below the target or before the initial window is delivered, else cwnd; with a full pipe min(cwnd + acked, target); ProbeRTT adds max(BDP/2, 4 MSS); then the cap, four segments and 32 bits. The target is 2, 9/4 (UP, plus two segments) or 1/2 (ProbeRTT) of the exact floor BDP plus the aggregation maximum |
| `Bbr3Meaning.AckWindow` | src/cc/bbr3_controller.c:293-349 | every accepted ACK publishes that window for the phase it ends in, from the window before it or the one ProbeRTT had saved |
| `Bbr3Meaning.CapIs` | src/cc/bbr3_congestion.c:354-380 | the cap is unbounded in Startup, otherwise the long-term bound (less 15 per cent and at least a segment in CRUISE and ProbeRTT), lowered by the short-term one where it applies, at least four segments |
| `Bbr3Meaning.RateLaw` | src/cc/bbr3_controller.c:240-291 | the rate is 277, 50, 90, 125 or 100 per cent of the capped estimate less one per cent, and replaces the old one if the pipe is full or it is higher; the quantum is a millisecond of it within bounds |
| `Bbr3Meaning.FreshLaw` | src/cc/bbr3_controller.c:35-74 | a fresh controller paces the initial window over a millisecond at Startup's gain, with no bounds and alpha at one |
| `Bbr3Runs.DiscardedResultsSucceed` | src/cc/bbr3_controller.c:184-236 | both discarded probe_enter calls succeed; probe_on_ack fails exactly when the first round after probing, with pending feedback and a full-strength sample, finds the cycle counter at its maximum |
| `Bbr3Runs.NextCycleKeeps` | src/cc/bbr3_model.c:178-193 | ageing leaves exactly the current cycle's maximum: the estimate survives if and only if that cycle has seen a rate |
| `Bbr3Meaning.PathOverRuns` | src/cc/bbr3_model.c:59-193 | over every run: the estimate is the largest sample of the current probing cycle and the one before; each minimum is a sampled round trip with no shorter one since, stamped by its sample or by the end of a ProbeRTT hold, the ten-second one at most the other; the pipe is full exactly when three counted rounds in a row did not grow by a quarter |
| `Bbr3Meaning.CyclesMax` | src/cc/bbr3_model.c:142-193 | two parity slots hold the maxima of this cycle and the last, so their larger is the naive maximum over both |
| `Bbr3Meaning.MinimaLaw` | src/cc/bbr3_model.c:64-93 | the five-second minimum falls to a shorter sample and rises only more than five seconds after its stamp; the ten-second one follows it down, and up only more than ten seconds after its own |
| `Bbr3Meaning.PipeLaw` | src/cc/bbr3_model.c:108-140 | one ACK of the full-pipe search follows the history of counted rounds |
| `Bbr3Meaning.RoundsLaw` | src/cc/bbr3_model.c:95-106 | a round is counted exactly when the ACK covers data sent after the last one opened |
| `Bbr3Runs.ScheduledKept` | src/cc/bbr3_probe.c:215-308 | the scheduler keeps a bandwidth, leaves DOWN and CRUISE below 63 rounds, and fails exactly at an exhausted cycle counter |
| `Bbr3Runs.LeavesInTime` | src/cc/bbr3_probe.c:163-174 | an ACK of new data that stays in DOWN or CRUISE has counted fewer rounds than Reno would wait and less time than the drawn wait |
| `Bbr3Meaning.CruiseRefillLaw` | src/cc/bbr3_probe.c:262-276 | CRUISE ends exactly when the wait is over or Reno would have grown a segment; REFILL becomes UP exactly after a round of its own |
| `Bbr3Meaning.UpLaw` | src/cc/bbr3_probe.c:188-308 | UP becomes DOWN exactly on excess, on a flight at a bound known to be too high, or on three rounds without growth by a quarter while the window is not the limit; with the marks and draws DOWN then starts from |
| `Bbr3Meaning.DownLaw` | src/cc/bbr3_probe.c:240-262 | the first round after a probe ages the filter if it has feedback and retries a precautionary stop; otherwise DOWN probes when due and cruises exactly when the flight fits BDP and headroom |
| `Bbr3Meaning.DrawNonzero` | src/cc/bbr3_probe.c:39-48 | the generator never reaches zero from a non-zero seed |
| `Bbr3Meaning.DrainLaw` | src/cc/bbr3_controller.c:196-216 | Startup ends exactly when the pipe is full; Drain exactly when the flight fits the BDP or more than three rounds have passed, with a fresh scheduler |
| `Bbr3Meaning.HoldLaw` | src/cc/bbr3_controller.c:146-194 | ProbeRTT is entered exactly when the five-second minimum has expired without an idle restart; the hold runs from the first ACK at max(BDP/2, 4 MSS), and ends exactly when more than 200 ms and a round have passed |
| `Bbr3Runs.EnteredFacts` | src/cc/bbr3_probe.c:56-74 | the drawn wait is in [2 s, 3 s) and the round counter starts at zero or one |
| `Bbr3Runs.StepKeeps` | src/cc/bbr3_controller.c:196-238 | every ACK whose valid sample carries a rate keeps the phase invariants and a non-zero bandwidth, also at an exhausted cycle counter |
| `Bbr3Runs.PhaseMachine` | src/cc/bbr3_controller.c:146-238 | over every run: ProbeBW implies an initialised scheduler, full pipe, bandwidth and minimum RTT; Startup and Drain an uninitialised one; bandwidth never returns to zero |
| `Bbr3Runs.CongestionLaw` | src/cc/bbr3_congestion.c:164-335 | short-term bounds move only at the end of a loss round outside probing, never below what the round delivered; the long-term bound falls only on an excess signal that is not application-limited, once per probe |
| `Bbr3Meaning.RoundLaw` | src/cc/bbr3_congestion.c:135-224 | the end of a round outside probing: loss takes each short-term bound, or the estimate and window in its place, to 7/10 but not below what the round delivered; marks scale the in-flight bound by 1 - alpha * 85/256; the evidence starts afresh |
| `Bbr3Meaning.WithinRound` | src/cc/bbr3_congestion.c:262-296 | within a round the evidence only accumulates |
| `Bbr3Meaning.AlphaLaw` | src/cc/bbr3_congestion.c:135-165 | alpha is the 1/16 moving average of the marked fraction of the round |
| `Bbr3Meaning.ExcessLaw` | src/cc/bbr3_congestion.c:40-48 | excess is more than two per cent lost or more than half marked, exactly, in a probing sample, once per probe |
| `Bbr3Meaning.LongLaw` | src/cc/bbr3_congestion.c:296-326 | on excess the long-term bound becomes the sample's inflight, not below 7/10 of the target; otherwise a probing sample raises it to its inflight and by the growth of UP |
| `Bbr3Meaning.GrowthLaw` | src/cc/bbr3_congestion.c:226-260 | a segment per full increment of acknowledged bytes, none of them lost, and the increment shrinks with each round |
| `Bbr3Meaning.AckBounds` | src/cc/bbr3_controller.c:310-349 | the bounds after a whole ACK are the congestion model's for the signal as told, except that a new probe lifts the short-term ones and rearms the excess signal, and the end of ProbeRTT lifts the short-term ones |
| `Bbr3Runs.PacingLaw` | src/cc/bbr3_controller.c:252-261 | until the pipe is full the rate never falls; afterwards each phase's new rate is within its gain of the estimate |
| `Bbr3Runs.AggregationIsWindowMax` | src/cc/bbr3_controller.c:76-115 | over every run extra_acked is the maximum measurement over the last ten rounds, or over the current round until the pipe is full; a measurement is BeyondLaw's |
| `Bbr3Meaning.BeyondLaw` | src/cc/bbr3_controller.c:76-98 | a measurement is min(cwnd, what the interval acknowledged beyond rate times time, plus this ACK's bytes); the interval restarts exactly when the rate explains all of it |

## Left out

- lwIP itself, the runtime pacer heap and event loop, sockets, TUN and process set-up: I/O around the modelled state.
- Clock reads and allocation success are parameters (`now`, `memoryOk`); a zero clock is the code's own "no reading".
- Telemetry counters, trace blocks and sample counters: they decide nothing.
- Event, round and delivered counters (`delivered_bytes`, `round_count`, `ack_events`, hook event counts) are unbounded; their wrap-around is not modelled. BBRv3's `cycle_count` keeps its 32 bits and its failure.
- Laws of a changing MSS or window limit: the CUBIC step functions rescale as the code does, but the window and audit laws fix MSS (at most 65536) and limit; reductions, timeouts, the HyStart++ lifecycle and its samples, and the epoch clock hold for any. Compact BBR fixes them only where acceptance is promised.
- `src/lwip/rack_tlp.c` beyond the transmission order, delivery notes and reordering detection: reordering windows, loss timers, tail-loss probes and DSACK handling.
- The bindings that would feed ledger samples to the unregistered BBRv3 controller: that a valid sample carries a rate is a hypothesis of `PhaseMachine`, `StepKeeps` and the whole-ACK laws of `Bbr3Meaning`, proved of the ledger by `SampleLaw`.
- BBRv3 recovery snapshot and spurious-loss undo: two independent assignments, never called by the controller.
- Reno, observation, transport pacing, initial window and the registry of controllers: nearly straight-line code.
- `src/service_config.c`, `src/bridge/bridge.c`, `src/host/`, log-parsing and benchmark scripts: no state machine worth proving.
- `hystart_pacing_active` is a constant of a run; the call that sets it is not modelled as an event.
- In `CubicController`, `BbrController` and `Bbr3Controller` the structures inside the state object are values held in mutable fields, so field-level aliasing inside one structure is not modelled; slot and filter buffers are arrays.
- Registry.PacingRegistry.Resume: stops at the decision to transmit; the transmission itself belongs to lwIP.
- RecoveryHooks.Connection.AckSeen: whether preparing the ACK succeeded (smoothed RTT, tail-loss response) is a parameter.
- Ledger.DeliveryLedger.RunRack: the reordering verdict and the choice of RACK.segment are promised while tracked segments lie within 2^31 of the forward-most delivered sequence and of the end of RACK.segment, beyond which a 32-bit comparison cannot decide; every method keeps this, if a first transmission is itself within that distance.
- Ledger.DeliveryLedger.Retransmit: the per-slot mark of the qualification-only BBRv3 loss observer is not modelled.
- Ledger.DeliveryLedger.OnSegmentTx: requires new segments to lie within 2^31 - 2^16 bytes of what is tracked and not to overlap it, as TCP's send window guarantees; pacing and credit charging are modelled in `Prr.Gate`.
