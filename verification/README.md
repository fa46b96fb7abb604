# Verification model of the GNSS data simulator

This project models the stateful and numerical core of the GNSS data simulator (C++) in Dafny and proves
properties of whole runs of it.  To verify it:

    dafny verify dfyconfig.toml

The modules follow the simulator's own components:

| module | what it models |
|---|---|
| `SimTime` | GPS week and time of week in nanoseconds, with the int64 and int bounds written out, and the epoch grid |
| `NavPlan` | fragment plans: the slot tables of every broadcast message, next slot occurrences, received masks |
| `NavStore` | the three-segment record store, the index space over it, the HOT/WARM snapshot, the search for a copied record |
| `NavMessages` | what the broadcast messages look like, to compare the slot tables with |
| `NavDelivery`, `NavDeliveryTheorems`, `NavRuns`, `NavSources` | the delivery protocol as functions on values, its invariant, its runs, and where what they deliver comes from |
| `NavReceiver`, `NavSetup` | the receiver object that carries the protocol out in place, and what is built before the first epoch |
| `Carrier`, `CarrierRuntime` | the FLL/PLL tracker and the sub-stepping runtime around it |
| `RootSelection`, `UrbanTracker`, `UrbanHistory`, `UrbanProgress` | the urban code tracker: root choice, lock, loss, reacquisition, and the epoch around it |
| `RealSums`, `ComplexMeans`, `CodeCorrelation`, `CodeProfiles` | finite sums, complex numbers and their weighted means; the step-waveform autocorrelation; the supported code profiles |
| `CodeTracking`, `DllRoots`, `RootSearch` | composite correlation and coherent nulls; bisection and scan; the whole root search |
| `PhaseUnwrap` | carrier phase unwrapping, range rate, and the check that joins it with the epoch |
| `NavCollector`, `FixedSolution` | the fragment collector; the fixed state of the reported position |
| `Scenario` | the periodic scenario engine and the counters of the epoch loop |
| `Wrappers`, `Decibel`, `Integers`, `Reals` | results and options; C/N0 values; whole multiples and Euclid's recursion; absolute values and multiples of reals |

Objects that the simulator updates in place are classes (`NavPlan.PlanBuilder`, `NavReceiver.Receiver`,
`Carrier.Tracker`, `CarrierRuntime.Runtime`, `UrbanTracker.SignalTracker`, `PhaseUnwrap.Unwrapper`,
`NavCollector.Collector`, `FixedSolution.FixState`, `Scenario.Engine`).  Each method is proved against a function on
the object's value, and the theorems are about that function.  Code that the model does not contain enters as a
parameter: the loop-noise filter and the Gaussian samples, the ambiguity mixing, the square root and the argument of
a complex number, the composite C/N0 at a code phase, the open-sky C/N0 estimate, the signal wavelength, and the
message family of a record.

## Main results

- A run of the navigation protocol from power-on never fails, delivers each stream as a prefix of its schedule,
  copies each record at most once, in order, and never before it was transmitted (`NavRuns.RunsAreSound`); a cold
  receiver has acquired once a signal was tracked for a cycle and its longest fragment (`NavRuns.ColdRunAcquires`).
- What a run delivers is known exactly.  A HOT or WARM receiver copies the records transmitted after power-on that it
  hears, and no others (`NavSources.NormalCopiesIff`).  A cold channel acquires exactly when a tracking signal of its
  family has heard every part of the latest record since both lock and transmission (`NavRuns.AcquiresIff`,
  `NavDeliveryTheorems.CandidateOffers`), and from then on copies what it hears (`NavSources.AcquiredStreamIff`);
  whatever is announced was heard (`NavSources.RunsAreSourced`).
- The received mask of every plan is complete exactly from its availability time on
  (`NavPlan.CompleteIffAvailable`), for every message and across week rollover; its fragments end where the parts of
  the broadcast message do, in the time scale of the system (`NavMessages.PlanHearsMessage`).
- The carrier tracker changes mode at most twice at a constant C/N0 exactly when all four persistences exceed the
  comparison tolerance (`Carrier.NoChatterIff`), and cycle slips cost time (`CarrierRuntime.SlipsTakeTime`).  It
  leaves a mode exactly when the C/N0 has asked for that without a break for the persistence (`Carrier.ExitsIff`).
- Over exact reals, one carrier update over a span agrees with two over its parts exactly when the coherent interval
  is at least machine epsilon (`CarrierRuntime.BatchIndependenceIff`).  In doubles the subtractions round, and a
  rest of a step can remain.
- What lock, loss and validity of the urban tracker say about its whole history (`UrbanHistory.LockTheorem`); the
  failure "root selection diverged" cannot occur (`UrbanProgress.NeverDiverges`), and a signal in lock after an epoch
  tracks a stable zero of that epoch's own discriminator (`UrbanProgress.LockedOnStableZero`).  Acquisition takes the
  strongest stable root (`RootSelection.AcquisitionTakesStrongest`), and no lock begins before its order allows
  (`UrbanHistory.LockFollowsOrder`).
- A coherent null is reported exactly for the paths that the signal's own code cannot see at any phase
  (`RootSearch.NullStatusOfCode`, from `CodeTracking.NullIff`); every code correlation is bounded by one in magnitude
  (`CodeProfiles.IdealIsBounded`); unwrapping recovers the true phase
  (`PhaseUnwrap.UnwrappingIsTrue`) and goes on exactly within one unbroken lock (`PhaseUnwrap.ContinuesIff`).
- A successful run of the scenario misses no cycle exactly when no two epochs in a row step over a part of the cycle
  (`Scenario.RunSeesUnlessStepsOver`); for runs past the first repeated phase that is a condition on the interval
  (`Scenario.LongRunSeesIff`).

## Where the code has conditions of its own

- A difference of two times is refused beyond 15250 weeks even where it fits int64:
  `SimTime.DifferenceRefusesRepresentable` gives one, `SimTime.DifferenceExact` exactly which differences are given.
- A persistence of at most 1e-12 s makes the carrier tracker chatter: `Carrier.ShortPersistenceChatters`.
- Below a coherent interval of machine epsilon, two carrier updates and one over both spans draw different numbers
  of samples: `CarrierRuntime.BatchIndependenceIff`, and `CarrierRuntime.TinyStepsDiffer` for validated
  configurations and epochs of whole nanoseconds that show it.
- A composite code whose two subcarriers have the same multiple and power in opposite phase has correlation zero,
  not one, at no delay: `CodeProfiles.OneUnlessCancelled`; `CodeProfiles.CancellingProfile` is a validated one.
- A sampling interval fits a scenario cycle if it is at most the off part, and less than the on part plus the greatest
  common divisor of interval and period.  Let the period hold that divisor y times: a successful run of more than y
  epochs misses no cycle exactly when the interval fits (`Scenario.LongRunSeesIff`), and a shorter one exactly when
  none of its own steps is over a part (`Scenario.RunSeesUnlessStepsOver`).  With 0.4 s on and 2 s off, four epochs
  at 1 Hz already miss a cycle: `Scenario.ShortCycleMissed`.
- The product in the interpolation of a delay leaves int64 for validated distributions with spans above about
  2.8e14, 3.1e14 or 2.8e15 nanoseconds in their three parts: `UrbanTracker.SampleFitsIff`, with an instance in
  `UrbanTracker.LongSpanOverflows`.  The simulator itself runs with the default configuration only
  (src/core/simulator.cpp:1130), whose spans all fit: `UrbanTracker.DefaultsFit`.
- The delays after which pseudorange, Doppler and carrier phase become valid are not ordered by the validation, so
  no order among the three flags is claimed.

## Model

| member | source | states |
|---|---|---|
| SimTime.CompareIsOrder | src/core/sim_time.cpp:72-86 | Comparison of normalized times is the order of the instants they denote, and is zero for equal times only. |
| SimTime.NormalizeExact | src/core/sim_time.cpp:29-49 | Normalization keeps the instant, and succeeds exactly when some valid time denotes it. |
| SimTime.AddExact | src/core/sim_time.cpp:88-101 | Adding nanoseconds succeeds exactly when the exact sum is representable, and then returns it. |
| SimTime.AddKeepsInt64 | src/core/sim_time.cpp:88-101 | No intermediate value of an addition leaves int64, those of its normalization included, for any int64 argument. |
| SimTime.DifferenceExact | src/core/sim_time.cpp:103-123 | A difference is given exactly for week gaps up to 15250 that fit int64, and is then the exact difference. |
| SimTime.DifferenceRefusesRepresentable | src/core/sim_time.cpp:103-115 | Two times whose difference fits int64 and is refused all the same. |
| SimTime.DifferenceSign | src/core/sim_time.cpp:72-123 | The sign of a difference agrees with the comparison. |
| SimTime.AddUndoesDifference | src/core/sim_time.cpp:88-123 | Adding a difference back to the earlier time gives the later one again. |
| SimTime.EpochIndexIsLeast | src/core/sim_time.cpp:168-184 | The index found for an event is the least one whose epoch is not before the event. |
| SimTime.EpochIndexInvertsEpochTime | src/core/sim_time.cpp:151-184 | Looking up the time of epoch k gives k, whenever both calls succeed. |
| SimTime.EpochCountExact | src/core/sim_time.cpp:186-194 | An index is counted exactly when its epoch begins before the duration ends. |
| SimTime.IntervalTimesRate | src/core/sim_time.cpp:125-149 | The supported rates are 1, 5, 10, 20 and 50 Hz, and their interval is a second divided by the rate. |
| NavPlan.PhaseIsPositiveMod | src/gnss/nav_message_scheduler.cpp:22-28 | The phase in a cycle is what the code computes from the truncating remainder. |
| NavPlan.NextStartIsFirst | src/gnss/nav_message_scheduler.cpp:37-41 | The slot start taken is an occurrence of the slot at or after acquisition, and no occurrence lies between. |
| NavPlan.FragmentCompletesAtNextSlot | src/gnss/nav_message_scheduler.cpp:30-51 | A fragment completes at the end of the first slot occurrence at or after acquisition on the absolute time line, across week rollover and with the BDT offset; it fails exactly when that instant is not representable. |
| NavPlan.PlanBuilder.AddPeriodicFragment | src/gnss/nav_message_scheduler.cpp:59-76 | Appends the fragment with the next mask bit, raises the availability time and extends the required mask, or leaves the plan alone. |
| NavPlan.PlaceFragments | src/gnss/nav_message_scheduler.cpp:86-189 | Places the slots of a message in order and stops at the first one that does not fit. |
| NavPlan.BuildPlan | src/gnss/nav_message_scheduler.cpp:203-338 | The in-place builder returns the plan that the slot table, the variant and the acquisition time define. |
| NavPlan.TablesAreWellFormed | src/gnss/nav_message_scheduler.cpp:86-189 | In every message table the slots are in order, disjoint, and inside a cycle that divides the week. |
| NavPlan.PlanMeaning | src/gnss/nav_message_scheduler.cpp:203-338 | A plan exists exactly when the signal has a table for the variant and every slot end is representable; then it has one fragment per slot with the identifier of the slot and bits 0 to n-1, the full required mask, the latest completion as availability time, and the family and variant of its message. |
| NavPlan.FullMaskValue | src/gnss/nav_message_scheduler.cpp:66-74 | The required mask of n fragments is, as a number, 2^n - 1. |
| NavPlan.AvailabilityIsMonotone | src/gnss/nav_message_scheduler.cpp:30-76 | Acquiring later never makes a plan available earlier. |
| NavPlan.ComputeReceivedMask | src/gnss/nav_message_scheduler.cpp:340-351 | The loop over the fragments returns the bits of those that are complete. |
| NavPlan.PlanBits | src/gnss/nav_message_scheduler.cpp:340-351 | In a built plan the bits received at a time are those of the slots that have ended by then. |
| NavPlan.CompleteIffAvailable | src/gnss/nav_message_scheduler.cpp:353-356 | A built plan is complete by its masks exactly from its availability time on. |
| NavPlan.BuiltPlanCompletes | src/gnss/nav_message_scheduler.cpp:203-356 | Every plan the builder returns requires the full mask of its fragments, becomes available after acquisition, and is complete exactly from its availability time on. |
| NavPlan.LaterPlanIsNoEarlier | src/gnss/nav_message_scheduler.cpp:203-338 | Of two plans of one message the one acquired later is available no earlier. |
| NavPlan.ReceivedMaskGrows | src/gnss/nav_message_scheduler.cpp:340-351 | A fragment once received stays received, and no bit outside the required mask is ever set. |
| NavPlan.NextSlotsDisjoint | src/gnss/nav_message_scheduler.cpp:86-189 | Next occurrences of two different slots of a table never overlap. |
| NavPlan.Packing | src/gnss/nav_message_scheduler.cpp:86-189 | Disjoint spans starting at or after an instant need at least their total duration. |
| NavPlan.WaitBounds | src/gnss/nav_message_scheduler.cpp:30-189 | A plan takes at least the sum of its fragment durations and less than a cycle plus its longest fragment. |
| NavPlan.SlotsNeedTotalDuration | src/gnss/nav_message_scheduler.cpp:30-189 | Some slot of the table ends no earlier than the sum of all its durations after acquisition. |
| NavMessages.TablesAreMessages | src/gnss/nav_message_scheduler.cpp:86-338 | A signal has a slot table exactly if it has a message that cold acquisition can use, under the variants it has; the slots of the table are the parts of that message: which identifiers, how long, where in the frame, and BeiDou frames 14 s behind GPS time. |
| NavMessages.PlanHearsMessage | src/gnss/nav_message_scheduler.cpp:30-338 | A plan has one fragment for each part of its signal's message. Each is complete at the second of a frame, in the time scale of the system, at which that part ends, and is the first of its kind heard from the beginning. |
| NavMessages.CandidateHearsMessage | src/core/simulator.cpp:551-579 | A signal hears a target from the later of its lock and the transmission on; a BeiDou D1D2 target of satellite 1 to 5 as the ten D2 pages, of any other as the three D1 subframes. |
| NavStore.FindReceiverRecord | src/gnss/navigation_state.cpp:78-88 | The search from the end finds the last record with an identity, or none. |
| NavStore.CopiedRecordIsFound | src/gnss/navigation_state.cpp:183-191 | After any copy the identity search resolves, in the shifting ephemeris/GLONASS/ionosphere index space, to the record just appended, even when earlier records have the same identity; no other record changes. |
| NavStore.SelectLatest | src/gnss/rtklib_adapter.cpp:353-387 | The selection loop computes the selection after all records. |
| NavStore.SnapshotIsLatestPerKey | src/gnss/rtklib_adapter.cpp:353-402 | For each satellite and message type with an available record exactly one is kept: the latest, and of equally late ones the first in the file. |
| NavStore.CopySnapshot | src/gnss/rtklib_adapter.cpp:337-412 | The snapshot holds the selected ephemerides of both kinds and every available ionosphere record, in order. |
| NavStore.AvailableOnlySubset | src/gnss/rtklib_adapter.cpp:403-410 | The ionosphere records of a snapshot are exactly those available. |
| NavStore.AvailableOnlyInOrder | src/gnss/rtklib_adapter.cpp:403-410 | They are there once each, in the order of the file. |
| NavStore.SnapshotIsTyped | src/gnss/rtklib_adapter.cpp:337-412 | Every record of a snapshot sits in the segment of its kind. |
| NavCollector.Collector.Ingest | src/gnss/nav_message_scheduler.cpp:368-383 | Accepts a piece with a required bit, starts afresh on another issue of data, and reports completeness; rejects others without change. |
| NavCollector.BitsOfOneIssue | src/gnss/nav_message_scheduler.cpp:375-380 | The bits held are exactly those of accepted pieces since the issue of data last changed: issues are never mixed. |
| NavCollector.CompleteIffAllHeld | src/gnss/nav_message_scheduler.cpp:380-382 | An accepted piece completes the message exactly when every required bit has come with the present issue of data. |
| NavDeliveryTheorems.CopyKeepsCore | src/gnss/navigation_state.cpp:165-208 | Copying the next record of a stream keeps prefix order, at most one copy, copy order and earliest times. |
| NavDeliveryTheorems.AcquireKeepsCore | src/core/simulator.cpp:665-682 | Copying the latest target and consuming the earlier records of its stream keeps prefix order, at most one copy, copy order and earliest times. |
| NavDeliveryTheorems.ApplySucceeds | src/gnss/navigation_state.cpp:165-208 | For a valid record and time the copy never fails to find what it has just appended, and logs it once. |
| NavDeliveryTheorems.StreamKeepsInv | src/core/simulator.cpp:634-644 | Streaming never fails, and copies at once every wanted record that is available, and nothing else. |
| NavDeliveryTheorems.LatestTargetIsLatest | src/core/simulator.cpp:581-594 | The cold target is the latest available undelivered record of its family, and there is one unless none is pending. |
| NavDeliveryTheorems.HeardMeaning | src/core/simulator.cpp:340-360 | The two tracking tests, and the streams a HOT or WARM receiver takes, ask whether some tracking signal of that satellite and family is there, or any tracking signal for the ionosphere. |
| NavDeliveryTheorems.CandidateOffers | src/core/simulator.cpp:551-571 | A signal with a plan for a record is tracking and carries its family; the plan starts at the later of lock and transmission, has the record's issue of data, and is available at the first instant by which every slot of the message has come round since. |
| NavDeliveryTheorems.OfferHasPlan | src/core/simulator.cpp:551-571 | Conversely a tracking signal of the family has a plan, for just that instant, whenever that instant is a representable time. |
| NavDeliveryTheorems.BestPlanIsBest | src/core/simulator.cpp:551-579 | The plan taken among the signals is for the target and none of the others is available before it. |
| NavDeliveryTheorems.BestPlanIsFirst | src/core/simulator.cpp:572-576 | It is one of the plans offered, and the first of equally early ones. |
| NavDeliveryTheorems.RetargetFits | src/core/simulator.cpp:658-663 | After a candidate is offered, the channel holds a plan for the target that is available no later. |
| NavDeliveryTheorems.RetargetAims | src/core/simulator.cpp:648-663 | The plan then held is for the latest record on the air and the earliest among the plan held for that record before and all offers; a held plan that no offer is before stays. |
| NavDeliveryTheorems.SuppressEffect | src/core/simulator.cpp:596-612 | Suppression consumes exactly the other records of the stream transmitted no later than the target. |
| NavDeliveryTheorems.SuppressMakesPrefix | src/core/simulator.cpp:596-612 | Delivering the latest target and suppressing the rest delivers exactly the stream up to the target. |
| NavDeliveryTheorems.DeliverSucceeds | src/gnss/nav_message_scheduler.cpp:385-409 | Delivering a plan that belongs to its target never fails: its issue of data always matches the record. |
| NavDeliveryTheorems.ColdChannelKeepsInv | src/core/simulator.cpp:628-684 | One family of a cold receiver in one epoch never fails and touches its own stream only. Once acquired it copies what is on the air, at once, while a signal of the family tracks, and nothing otherwise. Before, it acquires exactly when the instant it aims for has come, is delivered up to the target and copies that alone; it waits, or does nothing without an aim. |
| NavRuns.IonStepKeepsInv | src/core/simulator.cpp:614-626 | The ionosphere stream of a cold receiver never fails, and copies what is on the air while some signal tracks, at once, and nothing otherwise; it touches no other stream. |
| NavRuns.ColdChannelsKeepInv | src/core/simulator.cpp:628-684 | All families of an epoch, in order, keep the invariant, and none disturbs another. |
| NavRuns.ColdStep | src/core/simulator.cpp:614-686 | An epoch of a cold receiver never fails; for the ionosphere and every family the state before the epoch decides exactly which records are delivered and when they count as available, and no other record changes. |
| NavRuns.NormalStep | src/core/simulator.cpp:688-716 | An epoch of a HOT or WARM receiver never fails; of every stream it copies, at once, what is on the air and heard, and nothing else. |
| NavRuns.PowerOnInv | src/gnss/navigation_state.cpp:128-163 | Power-on establishes the invariant, in every start-up mode. |
| NavRuns.RunsAreSound | src/core/simulator.cpp:614-724 | From power-on, over any epochs, the protocol never fails; delivered records form prefixes, copies are unique, in schedule order and never early, the store is the replay of the copies, and every record delivered was copied or precedes a copied one of its stream. |
| NavRuns.AcquiresWhenAvailable | src/core/simulator.cpp:648-682 | An epoch by which some tracking signal has heard all of the latest record of a family delivers that record. |
| NavRuns.AcquiresIff | src/core/simulator.cpp:648-682 | A searching channel acquires in an epoch exactly when the latest record on the air is offered by a tracking signal of its family and the earliest of the offers and of a plan held for that record has come due. |
| NavRuns.BoundedAcquisition | src/core/simulator.cpp:648-682 | A signal that tracks a cycle and its longest fragment after both transmission and lock gets the latest record delivered, whatever plan was held before. |
| NavRuns.ColdRunAcquires | src/core/simulator.cpp:614-724 | From power-on, over any epochs: once some epoch finds a signal tracking a family, with the latest record of its stream on the air, for a cycle and the longest fragment, the channel of a cold receiver has acquired and holds a copy of a record of its stream, to the end of the run. |
| NavRuns.AcquiringCopies | src/core/simulator.cpp:648-682 | In every cold run a channel that has acquired has copied a record of its stream. |
| NavSources.PowerOnMeaning | src/gnss/navigation_state.cpp:128-163 | A HOT or WARM receiver is switched on with exactly the records transmitted by then marked delivered, the latest of each satellite and message type in its store, and every available ionosphere record once; a COLD one with nothing. No channel has acquired or holds a plan. |
| NavSources.DeliversOnlyHeard | src/core/simulator.cpp:614-716 | In every start-up mode whatever an epoch newly delivers is on the air and its stream is heard at that epoch: a tracking signal of that satellite and family, or any for the ionosphere. |
| NavSources.RunsAreSourced | src/core/simulator.cpp:614-724 | Over any run: every event announces, at an epoch at which its stream is heard, a record the receiver did not have at power-on; all are available at the epoch that announces them, but the first of a cold channel, which is available when a plan promised by a signal of some epoch was; every plan held was so promised; everything delivered was heard at some epoch. |
| NavSources.PromiseMeaning | src/core/simulator.cpp:551-579 | Such a promise is by a tracking signal of that satellite and family, for no sooner than the total duration of the slots after both its lock and the transmission, and within a cycle and the longest slot of the later of them. |
| NavSources.NormalDelivers | src/core/simulator.cpp:688-716 | A HOT or WARM run ends with exactly the records delivered that were transmitted by power-on or heard at some epoch while on the air. |
| NavSources.NormalCopiesIff | src/core/simulator.cpp:688-716 | It copies exactly those transmitted after power-on and heard at some epoch. |
| NavSources.IonosphereCopiesIff | src/core/simulator.cpp:614-626 | A cold run copies exactly the ionosphere records that were on the air at an epoch at which some signal tracked. |
| NavSources.AcquiredStreamIff | src/core/simulator.cpp:628-684 | After a cold channel has acquired a record, its stream is at every later epoch delivered up to that record and beyond it exactly as far as it was heard; of these that record and the later ones are copied, the earlier ones never. |
| NavSources.NormalInOrder | src/core/simulator.cpp:688-716 | The records announced in a HOT or WARM epoch are in schedule order. |
| NavSources.ColdInOrder | src/core/simulator.cpp:614-686 | A cold epoch announces ionosphere records first, in schedule order, and then those of the channels, channel by channel. |
| NavReceiver.ComputeAnyTracking | src/core/simulator.cpp:340-349 | True exactly when some signal is tracking. |
| NavReceiver.ComputeFamilyTracking | src/core/simulator.cpp:351-360 | True exactly when some signal of the satellite tracks the family. |
| NavReceiver.BestColdPlan | src/core/simulator.cpp:551-579 | The loop over the signals returns the best offered plan, the first on ties. |
| NavReceiver.Receiver.PowerOn | src/gnss/navigation_state.cpp:128-163 | New delivery flags, the store of the start-up mode and blank cold plans; refused for an invalid time or an empty truth store. |
| NavReceiver.Receiver.ApplyRecord | src/gnss/navigation_state.cpp:165-208 | Copies one record in place exactly as the protocol function says, including the error cases and the repeat that does nothing. |
| NavReceiver.Receiver.StreamKey | src/core/simulator.cpp:617-645 | The in-place walk over the schedule copies every available undelivered record of one stream. |
| NavReceiver.Receiver.ProcessNormal | src/core/simulator.cpp:688-716 | One HOT or WARM epoch in place. |
| NavReceiver.Receiver.LatestColdTarget | src/core/simulator.cpp:581-594 | The loop returns the last available undelivered record of the family. |
| NavReceiver.Receiver.SuppressSuperseded | src/core/simulator.cpp:596-612 | Marks the superseded records in the delivery flags and changes nothing else. |
| NavReceiver.Receiver.DeliverIfComplete | src/gnss/nav_message_scheduler.cpp:385-409 | Delivers the target of a complete plan, with the four error cases of the code. |
| NavReceiver.Receiver.ProcessColdChannel | src/core/simulator.cpp:629-683 | One family of a cold receiver in place: stream, retarget, deliver, suppress. |
| NavReceiver.Receiver.ProcessCold | src/core/simulator.cpp:614-686 | One cold epoch in place, ionosphere first, then every family in order. |
| NavReceiver.Receiver.Process | src/core/simulator.cpp:718-724 | Dispatch on the start-up mode. |
| NavSetup.InsertOrdered | src/core/simulator.cpp:257-263 | Puts a record where the schedule order has it. |
| NavSetup.BuildSchedule | src/core/simulator.cpp:231-265 | The schedule lists every record once, by transmit time and then by index. |
| NavSetup.ScheduleIsByTime | src/core/simulator.cpp:257-263 | Earlier transmissions stand first in a schedule, and of equal ones the earlier record index. |
| NavSetup.ScheduleIsUnique | src/core/simulator.cpp:257-263 | Only one list holds every record once in schedule order, so the sorting algorithm does not matter. |
| NavSetup.SatelliteNumbers | src/core/simulator.cpp:287-294 | The distinct positive satellite numbers of the schedule, ascending. |
| NavSetup.BuildPairs | src/core/simulator.cpp:299-323 | One cold channel for every satellite and family that occurs, none twice, the satellites ascending. |
| NavSetup.BuildSetup | src/core/simulator.cpp:231-329 | Builds what the run theorems ask for, from any typed truth store; fails exactly without a supported satellite. |
| NavSetup.PowerOnPeriod | src/core/simulator.cpp:614-724 | The receiver object, switched on and taken through any epochs, never fails, and ends in a state with everything the run theorems state: from the state at power-on that is described there, and in HOT and WARM with copies of exactly the records transmitted since and heard. |
| Carrier.Tracker.EnterUnlocked | src/model/carrier_tracking.cpp:51-59 | Clears ages, error and persistence and drops to unlocked, keeping the segment number. |
| Carrier.Tracker.EnterFllFromUnlocked | src/model/carrier_tracking.cpp:61-70 | Enters pull-in with a new segment number. |
| Carrier.Tracker.EnterFllFromPll | src/model/carrier_tracking.cpp:72-81 | Drops to steady FLL, keeping the carrier lock age. |
| Carrier.Tracker.EnterPll | src/model/carrier_tracking.cpp:83-92 | Enters PLL, keeping the carrier lock age. |
| Carrier.Tracker.Advance | src/model/carrier_tracking.cpp:272-325 | The transition switch in place equals the transition function. |
| Carrier.Tracker.Update | src/model/carrier_tracking.cpp:241-358 | Bad arguments change nothing; otherwise the transition is made, the filter applied, and the report is that of the new state; a filter failure leaves the transition made. |
| Carrier.ChangeUsesOne | src/model/carrier_tracking.cpp:162-168 | Under the validated threshold order each mode change at a C/N0 leaves fewer changes possible. |
| Carrier.AtMostTwoChanges | src/model/carrier_tracking.cpp:272-325 | At a constant C/N0 at most two mode changes ever happen, from any state. |
| Carrier.ShortPersistenceChatters | src/model/carrier_tracking.cpp:31-33 | A persistence within the tolerance gives a reachable run, in steps no longer than the coherent interval, with three changes at a constant C/N0. |
| Carrier.NoChatterIff | src/model/carrier_tracking.cpp:31-33 | A validated tracker never makes three changes at a constant C/N0 exactly when all four persistences exceed the tolerance. |
| Carrier.ChangesTakeTime | src/model/carrier_tracking.cpp:272-325 | While the signal is available the accumulators never exceed the time not yet paid for by mode changes. |
| Carrier.ChangesFromReset | src/model/carrier_tracking.cpp:272-325 | N mode changes from reset need at least N times the shortest persistence less the tolerance. |
| Carrier.LocksInBoundedTime | src/model/carrier_tracking.cpp:272-310 | After any history a C/N0 above the PLL entry threshold for both entry persistences and one step gives phase lock. |
| Carrier.ValidityMeansHistory | src/model/carrier_tracking.cpp:352-354 | Valid carrier phase means unbroken phase lock for the configured delay; valid Doppler, unbroken lock for its delay. |
| Carrier.PllAgeMeaning | src/model/carrier_tracking.cpp:312-325 | The phase-lock age is the time since phase lock was entered and has held. |
| Carrier.LockAgeMeaning | src/model/carrier_tracking.cpp:285-325 | The carrier lock age is the time since lock was gained and has held, through changes between FLL and PLL. |
| Carrier.ExitsIff | src/model/carrier_tracking.cpp:265-325 | After any history the tracker gains lock, gains or loses phase lock, or loses lock, exactly when the C/N0 has been on that side of that threshold, in the mode left and without a break, for that persistence; without a signal it is unlocked at once. |
| Carrier.PullInMeaning | src/model/carrier_tracking.cpp:61-92 | FLL is in pull-in exactly if it was entered from unlocked and has not lasted for the pull-in duration; entered from PLL it is steady at once. |
| Carrier.SegmentCountsGains | src/model/carrier_tracking.cpp:61-70 | The carrier segment number counts the locks gained since reset. |
| Carrier.ChangesStartClean | src/model/carrier_tracking.cpp:51-92 | Lock is gained and lost with no error, age or persistence; between frequency and phase lock the error and the lock age go on and the persistences are cleared. |
| CarrierRuntime.CycleOffset | src/model/carrier_tracking_runtime.cpp:45-56 | The ambiguity of a segment is at most 100000 cycles either way, and zero for the first segment only. |
| CarrierRuntime.OffsetOfMix | src/model/carrier_tracking_runtime.cpp:45-56 | A later segment has the ambiguity that its mixed number gives modulo 200001, less 100000, and one cycle instead of zero. |
| CarrierRuntime.SubStepsCover | src/model/carrier_tracking_runtime.cpp:169-193 | The steps of an epoch are positive, no longer than the coherent interval, and lose less than machine epsilon of it. |
| CarrierRuntime.SubStepsSplit | src/model/carrier_tracking_runtime.cpp:169-193 | Cutting an epoch at a whole number of steps does not change the steps. |
| CarrierRuntime.StepCountsSplitIff | src/model/carrier_tracking_runtime.cpp:169-193 | Cut at a whole number of steps, an epoch of whole nanoseconds takes as many steps as its parts exactly when the step is at least machine epsilon. |
| CarrierRuntime.Runtime.Restart | src/model/carrier_tracking_runtime.cpp:116-125 | Resets tracking and continuity and leaves the generator where it is. |
| CarrierRuntime.Runtime.Step | src/model/carrier_tracking_runtime.cpp:173-188 | One step draws one sample, advances the tracker, and starts a new phase segment with its ambiguity exactly on leaving PLL. |
| CarrierRuntime.Runtime.Advance | src/model/carrier_tracking_runtime.cpp:169-193 | The sub-step loop terminates and equals the fold of the step over the steps of the epoch. |
| CarrierRuntime.Runtime.Update | src/model/carrier_tracking_runtime.cpp:127-198 | One runtime update in place, with its error cases, resets and first call. |
| CarrierRuntime.BatchIndependence | src/model/carrier_tracking_runtime.cpp:127-198 | One update over a span equals two over its parts, the first a whole number of steps: same state, samples drawn, segment and report, slips joined. |
| CarrierRuntime.BatchIndependenceIff | src/model/carrier_tracking_runtime.cpp:127-198 | Where one update over a span and the two over its parts all succeed, they agree, already in the number of samples drawn, exactly when the coherent interval is at least machine epsilon. |
| CarrierRuntime.NanosecondInSteps | src/model/carrier_tracking_runtime.cpp:189-192 | One nanosecond can be cut into any number, from ten million on, of equal steps shorter than machine epsilon. |
| CarrierRuntime.TinyStepsDiffer | src/model/carrier_tracking_runtime.cpp:189-192 | With such a step the default configuration passes the validation, and two epochs one nanosecond apart draw a different number of samples in one update and in two. |
| CarrierRuntime.NextCallSucceeds | src/model/carrier_tracking_runtime.cpp:127-198 | After any successful calls, an accepted call later than all of them, by at most 15249 weeks, fails only if the noise filter does. |
| CarrierRuntime.FaintCalls | src/model/carrier_tracking_runtime.cpp:74-80 | Any C/N0 but an unusable one is accepted, and none at all counts as -120 dB-Hz. |
| CarrierRuntime.RuntimeHistory | src/model/carrier_tracking_runtime.cpp:127-198 | After any successful calls the tracker is the bare tracker run over the steps since the restart, and the phase segment counts the losses of phase lock in them. |
| CarrierRuntime.CallAgrees | src/model/carrier_tracking_runtime.cpp:171-196 | An update reports a slip exactly when phase lock was lost in it. |
| CarrierRuntime.ExitsNeedChanges | src/model/carrier_tracking.cpp:272-325 | Each loss of phase lock takes two mode changes, and one more before the first. |
| CarrierRuntime.SlipsTakeTime | src/model/carrier_tracking_runtime.cpp:184-188 | Phase segment n is reached only after 2n + 1 times the shortest persistence less the tolerance, however the epochs are spaced. |
| RootSelection.SelectRoot | src/model/code_tracking_dll.cpp:382-427 | The scan returns the selected index, and fails exactly when no root is stable. |
| RootSelection.PreferenceIsOrder | src/model/code_tracking_dll.cpp:213-236 | Both preferences are strict orders, and roots neither of which is preferred agree in code phase and power. |
| RootSelection.SelectionIsBest | src/model/code_tracking_dll.cpp:398-420 | The root selected is the stable one to which no stable one is preferred, the first of those, and only that one. |
| RootSelection.AcquisitionTakesStrongest | src/model/code_tracking_dll.cpp:227-236 | In acquisition no stable root has more power than the one selected; of equally strong ones it is the nearest to no delay, and then the earlier. |
| RootSelection.TrackingStaysNearest | src/model/code_tracking_dll.cpp:213-225 | In tracking no stable root is nearer the last code phase than the one selected; of equally near ones it is the strongest, and then the earlier. |
| RootSelection.SelectsIffStable | src/model/code_tracking_dll.cpp:398-429 | A root is selected exactly when some root is stable, and then a stable one. |
| RootSelection.SelectionIgnoresOrder | src/model/code_tracking_dll.cpp:398-420 | The order of the list does not change the code phase and power selected. |
| UrbanTracker.SampleWithin | src/model/signal_tracking.cpp:43-63 | A sampled delay lies between the extremes of its distribution, in exact arithmetic. |
| UrbanTracker.SampleGrows | src/model/signal_tracking.cpp:43-63 | A higher draw never samples a shorter delay; draw 0 samples the minimum, and the draws at 50 and 95 percent of the scale the two quantiles. |
| UrbanTracker.ScheduledMeaning | src/model/signal_tracking.cpp:231-272 | An order puts the end of acquisition after the ready time by the delay drawn from the distribution of its context and C/N0 band, between the extremes of that, and leaves the tracker searching, scheduled and without lock. |
| UrbanTracker.SchedulesIff | src/model/signal_tracking.cpp:216-247 | An order is refused exactly for invalid times, a ready time before the switching on, an invalid configuration, or an end of acquisition or a validity time that is not representable. |
| UrbanTracker.SkyMeaning | src/model/urban_signal_tracking.cpp:90-107 | After an update the sky state is that of a direct path, a disturbed one, tracking without sight or none exactly by sight, lock, the C/N0 difference and the code bias. |
| UrbanTracker.SampleFitsIff | src/model/signal_tracking.cpp:43-63 | The products of the interpolation fit int64 at every draw exactly when the three spans of the validated distribution are bounded. |
| UrbanTracker.LongSpanOverflows | src/model/signal_tracking.cpp:43-63 | A validated distribution and a draw whose product leaves int64. |
| UrbanTracker.DefaultsFit | src/model/signal_tracking.cpp:114-142 | The default configuration is valid and none of its interpolation products leaves int64. |
| UrbanTracker.SignalTracker.Reset | src/model/signal_tracking.cpp:193-210 | The state after a reset. |
| UrbanTracker.SignalTracker.Schedule | src/model/signal_tracking.cpp:212-274 | Schedules an acquisition, with the delay of the context, the C/N0 band and the draw, and all derived times, and clears the overlay; refuses bad times, an invalid configuration or an unrepresentable time without change. |
| UrbanTracker.SignalTracker.SwitchOff | src/model/signal_tracking.cpp:284-291 | The signal-off branch of the plain update. |
| UrbanTracker.SignalTracker.BeginLoss | src/model/urban_signal_tracking.cpp:109-123 | The loss of lock with its reason. |
| UrbanTracker.SignalTracker.EnterTracking | src/model/urban_signal_tracking.cpp:125-162 | Entry into lock with the three validity times, or no change. |
| UrbanTracker.SignalTracker.UpdateQualification | src/model/urban_signal_tracking.cpp:164-186 | The acquisition timer and whether it has run long enough. |
| UrbanTracker.SignalTracker.UpdateValidity | src/model/urban_signal_tracking.cpp:188-201 | Lock time and validity flags from the clock. |
| UrbanTracker.SignalTracker.Classify | src/model/urban_signal_tracking.cpp:90-107 | The four urban states. |
| UrbanTracker.SignalTracker.Update | src/model/urban_signal_tracking.cpp:205-346 | One urban update in place, with every branch and the partial effects of its failures. |
| UrbanHistory.RunSound | src/model/urban_signal_tracking.cpp:205-346 | In every state of every run lock is the tracking phase, and only a tracker in lock has valid measurements, a current root and validity times that fit its start. |
| UrbanHistory.ValidatedMeaning | src/model/urban_signal_tracking.cpp:188-201 | A measurement is valid in lock exactly once its delay after the start of tracking is over, and the lock time is the time since that start. |
| UrbanHistory.StepStays | src/model/urban_signal_tracking.cpp:293-345 | An update that keeps lock follows the best stable root, no further than the jump threshold from the last, and sets the flags by the clock. |
| UrbanHistory.StepLoses | src/model/urban_signal_tracking.cpp:293-345 | An update that loses lock has a reason, and what the reason says was so; the schedule is gone, and if the signal is still there a reacquisition is pending, ready at once. |
| UrbanHistory.StepEnters | src/model/urban_signal_tracking.cpp:254-291 | An update that gains lock was above the threshold long enough, after the scheduled acquisition. |
| UrbanHistory.RunIsChain | src/model/urban_signal_tracking.cpp:205-346 | Between all consecutive states of every run timers, entries, kept locks, losses and waits are as their single steps say. |
| UrbanHistory.LockHistory | src/model/urban_signal_tracking.cpp:164-186 | Lock was entered by an update that closed a window of updates all above the acquisition threshold for the full persistence, at or after the end of acquisition, and has been held since. |
| UrbanHistory.LossHistory | src/model/urban_signal_tracking.cpp:318-336 | A loss for low C/N0 closes a window of updates in lock, all below the tracking threshold, of the full persistence. |
| UrbanHistory.LockIsReached | src/model/urban_signal_tracking.cpp:254-291 | Stable roots and enough C/N0 for the whole persistence, up to the end of acquisition, give lock. |
| UrbanHistory.LockTheorem | src/model/urban_signal_tracking.cpp:205-346 | For the states of any run: tracking is lock, validity implies lock and a root, and lock closed a full window above the acquisition threshold and has been held since. |
| UrbanHistory.LockFollowsOrder | src/model/signal_tracking.cpp:231-258 | Every lock of a run goes back to an order before it, and began no earlier than the ready time of that order plus the delay drawn for it, at least the least delay of its context and band. |
| UrbanProgress.UpdateSucceeds | src/model/urban_signal_tracking.cpp:205-346 | The error branches for times that cannot be compared are unreachable from a state whose stored times lie in the past. |
| UrbanProgress.NextUpdateSucceeds | src/model/urban_signal_tracking.cpp:205-346 | After any run in time order, an update with usable input and a scheduled or pending acquisition succeeds. |
| UrbanProgress.NeverDiverges | src/model/urban_signal_epoch.cpp:103-108 | From any state, a tracker in lock after an update tracks the root that the epoch preselected. |
| UrbanProgress.UpdateEpoch | src/model/urban_signal_epoch.cpp:47-133 | One epoch: validation, root search, preselection, C/N0 of that root, tracker update; each failure leaves what the code leaves, and the divergence failure is not among the results. |
| UrbanProgress.LockedOnStableZero | src/model/urban_signal_epoch.cpp:67-133 | A signal in lock after an epoch tracks a stable zero of the discriminator of that epoch, bracketed inside a sign change; a coherent null leaves no signal in lock. |
| CodeCorrelation.ComputeAutocorrelation | src/model/code_correlation.cpp:55-89 | The recursion for negative delays and the double loop compute the correlation function. |
| CodeCorrelation.OverlapsScaled | src/model/code_correlation.cpp:75-83 | In units of one segment the overlap of two segments is a triangle of their distance. |
| CodeCorrelation.RowIsTrapezoid | src/model/code_correlation.cpp:75-87 | The overlaps of one segment add up to a trapezoid of height one. |
| CodeCorrelation.AtMostOne | src/model/code_correlation.cpp:55-89 | The magnitude of the correlation never exceeds one. |
| CodeCorrelation.OneAtZero | src/model/code_correlation.cpp:64-88 | The correlation of a waveform with energy is one at no delay. |
| CodeCorrelation.ZeroBeyondOneChip | src/model/code_correlation.cpp:57-62 | The correlation vanishes from one chip on, on both sides. |
| CodeCorrelation.ConjugateRule | src/model/code_correlation.cpp:57-59 | The conjugate taken for a negative delay is what the double sum itself gives there. |
| CodeCorrelation.ConstantIsTriangle | src/model/code_correlation.cpp:215-219 | A constant waveform has correlation 1 - d, the closed form used without subcarrier. |
| CodeProfiles.Gcd | src/model/code_correlation.cpp:20-27 | The remainder loop computes the Euclidean recursion. |
| Integers.EuclidDivides | src/model/code_correlation.cpp:20-27 | The result of the remainder recursion is positive and divides both numbers. |
| CodeProfiles.SegmentsDivide | src/model/code_correlation.cpp:144-148 | The segment count of a composite waveform is a whole number of half cycles of both subcarriers. |
| CodeProfiles.LookupSucceeds | src/model/code_correlation.cpp:44-53 | With whole half cycles every subcarrier lookup succeeds and gives one or minus one. |
| CodeProfiles.MultipleIff | src/model/code_correlation.cpp:29-42 | The multiple is m exactly if the ratio of the rates is m to within 1e-10 and m is from 1 to 64. |
| CodeProfiles.SubcarrierAlternates | src/model/code_correlation.cpp:44-53 | A subcarrier is positive in its first half cycle and changes sign from each half cycle to the next. |
| CodeProfiles.BuildComposite | src/model/code_correlation.cpp:144-166 | The waveform loop never takes its failure exit. |
| CodeProfiles.CompositeParts | src/model/code_correlation.cpp:117-168 | Each segment of a composite waveform has the secondary fraction of its power in the secondary subcarrier and the rest in the primary; in line for CBOC, with the same or the opposite sign, at right angles for QMBOC, on the one or the other side. |
| CodeProfiles.TmbocMixes | src/model/code_correlation.cpp:172-192 | The TMBOC correlation lies, by the secondary fraction, on the way from the correlation of the primary to that of the secondary. |
| CodeProfiles.IdealIsBounded | src/model/code_correlation.cpp:196-240 | The correlation of every supported code is at most one in magnitude, and zero from one chip on. |
| CodeProfiles.IdealConjugates | src/model/code_correlation.cpp:196-240 | Reversing the delay conjugates the correlation of every supported code. |
| CodeProfiles.OneUnlessCancelled | src/model/code_correlation.cpp:131-192 | Every supported code has correlation one at no delay, unless its two subcarriers cancel; then it is zero everywhere. |
| CodeProfiles.CancellingProfile | src/model/code_correlation.cpp:131-192 | A validated profile whose subcarriers cancel, so that its correlation is zero at every delay. |
| CodeTracking.ComputeComposite | src/model/code_tracking_dll.cpp:88-105 | The loop computes the composite correlation. |
| CodeTracking.AllGroupsCancel | src/model/code_tracking_dll.h:99-118 | The nested loops find that no group of equal delay has voltage left exactly when none has. |
| CodeTracking.SplitGroup | src/model/code_tracking_dll.cpp:88-105 | A group of equal delay can be taken out of the composite sum. |
| CodeTracking.NullIsInvisible | src/model/code_tracking_dll.h:99-121 | When every group cancels, the composite correlation is zero for any code and code phase. |
| CodeTracking.OneGroupLeft | src/model/code_tracking_dll.cpp:88-105 | When no other delay has both voltage left and a response, the composite sum is the voltage of one group times the response at its delay. |
| CodeTracking.NoCorrelation | src/model/code_tracking_dll.cpp:88-105 | If a code sees nothing of paths that do not all cancel, it has no correlation anywhere. |
| CodeTracking.NullIff | src/model/code_tracking_dll.h:69-121 | The grouping test is exact for every code that correlates with itself somewhere, within one chip: it holds precisely for path sets that this code cannot see at any phase. |
| CodeTracking.NothingOutside | src/model/code_tracking_dll.cpp:328-331 | Outside the scanned interval the discriminator is zero. |
| CodeTracking.CodesWithinOneChip | src/model/code_correlation.cpp:60-62 | No supported code correlates with itself one chip away or further. |
| CodeTracking.BpskIsPeaked | src/model/code_correlation.cpp:215-219 | The power of the BPSK correlation is even and falls with the distance, up to one chip. |
| CodeTracking.OnePathRises | src/model/code_tracking_dll.cpp:107-121 | For a single path with such a code the discriminator is zero at the delay of the path, negative before and positive after it, as far as one chip and half the spacing. |
| DllRoots.Refine | src/model/code_tracking_dll.cpp:136-172 | The bisection loop with its exits, and its refusal of a bracket without a sign change. |
| DllRoots.OppositeIffProduct | src/model/code_tracking_dll.cpp:139-142 | The product test of the code is a test of opposite signs. |
| DllRoots.BisectBrackets | src/model/code_tracking_dll.cpp:144-171 | The result is an exact zero, or the midpoint of a sign-changing interval inside the first one no wider than 1e-11 or the first width halved 80 times. |
| DllRoots.HalvedIsQuotient | src/model/code_tracking_dll.cpp:147-169 | Halving n times divides by 2^n. |
| DllRoots.ChangesAreAlternations | src/model/code_tracking_dll.cpp:357-372 | The sign changes refined are exactly those between neighbouring retained samples, in order and disjoint. |
| DllRoots.ScanGrid | src/model/code_tracking_dll.cpp:345-379 | The scan loop, with its early exit, equals refining and collecting all sign changes. |
| DllRoots.Scan | src/model/code_tracking_dll.cpp:345-379 | The scan of an interval cut into equal parts equals refining and collecting all sign changes among its samples. |
| DllRoots.CollectedIff | src/model/code_tracking_dll.cpp:174-211 | Collecting succeeds exactly when the zeros left after dropping each one within 1e-7 chips of the last kept fit the buffer and the limit of 64; the roots are then made from those zeros, in order. |
| DllRoots.CollectedSound | src/model/code_tracking_dll.cpp:174-211 | From increasing zeros the roots kept are separated, each is one of the zeros, and every zero lies at most 1e-7 chips above a root kept. |
| DllRoots.ZerosSound | src/model/code_tracking_dll.cpp:348-373 | One zero for each sign alternation of the retained samples, increasing, each bracketed inside its alternation. |
| DllRoots.FoundRoots | src/model/code_tracking_dll.cpp:308-380 | The reported roots increase with gaps above 1e-7 chips, each bracketed inside an alternation, and every zero lies at most that far above a reported root. |
| DllRoots.NoRootsIff | src/model/code_tracking_dll.cpp:375-378 | The scan reports no roots exactly when the retained samples never change sign. |
| RootSearch.FindRoots | src/model/code_tracking_dll.cpp:308-380 | Validation, interval, span limit and scan. |
| RootSearch.FindRootsWithStatus | src/model/code_tracking_dll.h:74-130 | The wrapper: a null exactly when all groups cancel, otherwise the search. |
| RootSearch.NullStatusIff | src/model/code_tracking_dll.h:69-130 | For a code that correlates with itself somewhere, within one chip, the null status is reported exactly for paths that this code cannot see at any phase. |
| RootSearch.NullStatusOfCode | src/model/code_tracking_dll.h:69-130 | For every supported code whose subcarriers do not cancel each other, the null status is reported exactly for paths that this code cannot see at any phase. |
| RootSearch.NullWouldFail | src/model/code_tracking_dll.cpp:375-378 | Without the null test, paths that all cancel would be a search error. |
| RootSearch.ScanCoversSupport | src/model/code_tracking_dll.cpp:328-331 | The discriminator is zero everywhere outside the interval searched. |
| RootSearch.SearchSound | src/model/code_tracking_dll.cpp:308-380 | Every successful search returns separated roots, each bracketed inside a sign change. |
| RootSearch.SearchesIff | src/model/code_tracking_dll.cpp:308-380 | A valid search succeeds exactly if the interval is at most 64 chips wide, the discriminator changes sign between retained samples, and the zeros left after merging fit the buffer. |
| RootSearch.ScanIsDense | src/model/code_tracking_dll.cpp:328-353 | The scan runs from one chip and half the spacing before the first path to as much after the last, in steps of at most 1/512 chip. |
| RootSearch.RetainsIff | src/model/code_tracking_dll.cpp:344-356 | A sample is skipped as zero exactly if its discriminator is within 1e-13 of the power scale. |
| RootSearch.ExtentIsTight | src/model/code_tracking_dll.cpp:53-72 | The extent of the paths is from the delay of one path to that of another. |
| RootSearch.RootsAreMeasured | src/model/code_tracking_dll.cpp:188-210 | The seconds of a root times the chip rate are its chips; discriminator, slope and power are those of the request at its code phase; it is stable exactly with more than the least slope, and then the discriminator is larger just above it than just below. |
| RootSearch.StableRootsAreZeros | src/model/code_tracking_dll.cpp:174-211 | A root that a search marks as stable is bracketed inside a sign change of the scan and has more than the least stable slope. |
| PhaseUnwrap.Unwrapper.StartSegment | src/model/urban_carrier_temporal.cpp:28-66 | A new segment starts at the wrapped phase; a zero phasor is an error. |
| PhaseUnwrap.Unwrapper.Continue | src/model/urban_carrier_temporal.cpp:136-171 | The phase moves by the remainder, and bias and rate follow it. |
| PhaseUnwrap.Unwrapper.Update | src/model/urban_carrier_temporal.cpp:76-172 | One update in place with all its branches. |
| PhaseUnwrap.RemainderBounds | src/model/urban_carrier_temporal.cpp:143 | The remainder differs by whole turns and is at most half a turn. |
| PhaseUnwrap.RemainderUnique | src/model/urban_carrier_temporal.cpp:143 | The remainder is the only value that differs by whole turns and lies strictly within half a turn. |
| PhaseUnwrap.HalfTurnsGoToEven | src/model/urban_carrier_temporal.cpp:143 | Half way between two whole numbers of turns the remainder is taken from the even one. |
| PhaseUnwrap.RunCoherent | src/model/urban_carrier_temporal.cpp:76-172 | In every state of every run an active segment has an unwrapped phase that is the wrapped one up to whole turns, and the bias that belongs to it. |
| PhaseUnwrap.ValidRateContinues | src/model/urban_carrier_temporal.cpp:117-171 | A valid rate comes from a continued segment, with a step of at most half a turn, and rate times time is the change of the bias. |
| PhaseUnwrap.RateWithinOneLock | src/model/urban_carrier_temporal.cpp:123-134 | A valid rate implies that tracking began no later than the previous sample. |
| PhaseUnwrap.RatesTelescope | src/model/urban_carrier_temporal.cpp:145-148 | Consecutive valid rates times their intervals add up to the change of the carrier range. |
| PhaseUnwrap.UnwrappingIsTrue | src/model/urban_carrier_temporal.cpp:142-145 | If the true phase moves by less than half a turn between epochs, the unwrapped phase follows it exactly. |
| PhaseUnwrap.ContinuesIff | src/model/urban_carrier_temporal.cpp:100-170 | A range rate is given exactly when an active segment goes on: the signal tracks, has not been reacquired, and its lock is not younger than the last sample. A slip is reported exactly when an active segment is lost, restarted by a reacquisition or by such a young lock, and when tracking resumes after an earlier segment. |
| PhaseUnwrap.RestartsAtWrapped | src/model/urban_carrier_temporal.cpp:28-66 | A tracking update that does not continue starts from the wrapped phase, without a rate. |
| PhaseUnwrap.UpdatesIff | src/model/urban_carrier_temporal.cpp:76-141 | An update fails exactly for an invalid time, a signal without wavelength or other than the one configured, a zero phasor, or a segment that would go on without time going forward. |
| PhaseUnwrap.Apply | src/model/urban_measurement_application.cpp:31-94 | The effects on an observation, field by field, with both refusals. |
| PhaseUnwrap.NeverInconsistent | src/model/urban_measurement_application.cpp:42-50 | No report of the unwrapper fails the consistency check with its epoch. |
| PhaseUnwrap.RatesOppose | src/model/urban_measurement_application.cpp:57-77 | The pseudorange moves by the code bias if there is a root; Doppler times wavelength moves against the range rate, and both only with a valid rate; without continuity the carrier stays. |
| PhaseUnwrap.ValidIff | src/model/urban_measurement_application.cpp:78-91 | The observation is available exactly if both sides say so and the signal tracks with a root and a correlation; each measurement is valid exactly if that holds and every side that has a say agrees. |
| PhaseUnwrap.CyclesFollowPhase | src/model/urban_measurement_application.cpp:70-75 | With the same wavelength the carrier observation moves by the unwrapped phase in cycles. |
| Scenario.Engine.Update | src/scenario/scenario_engine.cpp:70-101 | State and transitions of an epoch and what is remembered; refused for times before the last or the start. |
| Scenario.UpdateMeaning | src/scenario/scenario_engine.cpp:18-101 | A time is accepted exactly if it is not before the start nor the last one and its distance from the start can be computed. Power and signal are there as the elapsed time alone decides, in each scenario; an event is announced exactly where the state differs from the last one, or is on at first. |
| Scenario.RunEpochs | src/core/simulator.cpp:1187-1281 | The epoch loop counts what the run function says, and stops at the first failure. |
| Scenario.LogsBalance | src/core/simulator.cpp:1032-1062 | On a successful run powered epochs are the signal-on and signal-off epochs together, and each of the four logs. |
| Scenario.CycleIsQuotient | src/scenario/scenario_engine.cpp:29-39 | The cycle index and the phase are the quotient and the remainder that the engine computes. |
| Scenario.CycleBeginsIff | src/scenario/scenario_engine.cpp:29-39 | From one sample to the next the cycle index grows by one exactly where the state becomes on, unless the step is over the whole off part or over a whole on part. |
| Scenario.CyclesAreCounted | src/scenario/scenario_engine.cpp:18-47 | With gaps no longer than either part no cycle is missed at any sample: on-events are the cycle index plus one, and on minus off is one or zero as the state is on or off. |
| Scenario.NoneMissedIff | src/scenario/scenario_engine.cpp:18-47 | Whatever the sampling, no cycle is missed at any sample exactly when no step between samples is over a part of the cycle. |
| Scenario.FittingGridIsCounted | src/scenario/scenario_engine.cpp:18-47 | On a uniform clock whose interval is at most the off part and less than the on part plus the common divisor of interval and period, no cycle is missed, however long it runs. |
| Scenario.NeverMissesIff | src/scenario/scenario_engine.cpp:18-47 | On a uniform clock that runs past its first repeated phase, no cycle is missed exactly when the interval is at most the off part and less than the on part plus the common divisor of interval and period. |
| Scenario.CountersAreEvents | src/core/simulator.cpp:1200-1225 | The power and signal counters of a successful run are the events of the states it has sampled. |
| Scenario.EpochsAreOnClock | src/core/sim_time.cpp:125-166 | The epochs of the simulator, at every sampling rate, are the instants of a uniform clock from the start. |
| Scenario.RunSucceeds | src/core/simulator.cpp:1187-1281 | A run over times that do not go back and are in reach of the start, with every log written, does not fail. |
| Scenario.RunSeesIff | src/core/simulator.cpp:1187-1281 | After each epoch of a successful run its counters have seen every cycle begin and end exactly when the samples so far have. |
| Scenario.RunSeesUnlessStepsOver | src/core/simulator.cpp:1187-1281 | A successful run misses no cycle exactly when no two epochs in a row step over a part of the cycle. |
| Scenario.EveryCycleIsSeen | src/core/simulator.cpp:1187-1281 | A successful run on a clock whose interval is at most the off part and less than the on part plus the common divisor of interval and period misses no cycle. |
| Scenario.LongRunSeesIff | src/core/simulator.cpp:1187-1281 | For a successful run with more epochs than its phases take to repeat, that bound on the interval is necessary as well. |
| Scenario.FourEpochs | src/core/sim_time.cpp:125-166 | The first four epochs at 1 Hz lie 0, 1, 2 and 3 s after the start, in reach of it. |
| Scenario.ShortCycleMissed | src/core/simulator.cpp:1187-1281 | Epochs 0, 1, 2 and 3 s after the start, of a signal that is on for 0.4 s and off for 2 s: the run succeeds and misses a cycle. |
| FixedSolution.FixState.Update | src/model/bestpos_rtk_model.cpp:27-58 | One update in place, with its refusals and resets. |
| FixedSolution.RunBegan | src/model/bestpos_rtk_model.cpp:33-57 | The stored start is that of the run of qualifying epochs under way, and the state is fixed exactly once that run has lasted the duration. |
| FixedSolution.FixedIff | src/model/bestpos_rtk_model.cpp:27-58 | After any successful updates in time order the state is fixed exactly when qualifying epochs without a break have lasted the duration. |
| FixedSolution.OrderedUpdatesSucceed | src/model/bestpos_rtk_model.cpp:27-58 | With a valid configuration, updates in the order of time over at most 15249 weeks never fail. |

## Left out

- The readers, writers and formats (RINEX, SP3, bias files, JSON, CSV, ASCII logs), the command line, manifests and hashing: input and output.
- RTKLIB calls (satellite positions, single-point solution, ionosphere, troposphere) and the urban radio-frequency layer: foreign or transcendental numerical code, present only as parameters.
- IEEE rounding, infinities other than a C/N0 of minus infinity, and the failures they cause: doubles are reals. Wherever the code guards against a value that is not finite, the guard is left out, except that the carrier noise filter, the composite C/N0 and the C/N0 estimate may fail.
- Wrap-around of 64-bit counters (carrier segment, phase segment): they are unbounded.
- Allocation failure and the growth of the record arrays: the store holds sequences.
- Transmit times between two nanoseconds: the code converts seconds of week to whole nanoseconds for the schedule, and compares RTKLIB's finer times in the snapshot; the model has one grid of whole nanoseconds.
- The two nested lists of satellites and families are one list of channels, and the builders of the message plans are one walk over a table of slots.
- Masks are sets of bit positions; `NavPlan.FullMaskValue` relates them to numbers.
- The message family of a record, and which satellites are supported, are inputs.
- Output of navigation records and its failures: the log of events stands for it, with the epoch of each event added.
- The plain signal tracker without multipath, apart from its reset, scheduling and signal-off branches: its phase is a direct function of three stored times.
- The C/N0 table lookups, the sorting of observations for the solution, and the checksum of log lines: their results enter as inputs or not at all.
- Scenario.RunEpochs: what the receiver does in an epoch, whether it succeeds and which logs it writes, is an input.
- UrbanTracker.SampleWithin: does not model the overflow of the interpolation product, which `UrbanTracker.SampleFitsIff` characterizes.
- Random sequences and Gaussian sampling: a signal's generator is the sequence of its samples.
- The application of the carrier tracker's error and ambiguity to an observation: field-by-field arithmetic.
- The link between tracking and navigation delivery: the delivery theorems hold for any tracking flags and any valid start times.
