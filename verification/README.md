# A verified model of the RTSP server and its Wi-Fi Display layer

This project models the logic of the GStreamer RTSP server under `gst/rtsp-server` and proves
what it promises. `dafny verify dfyconfig.toml` checks everything.

## What is modelled

- **Address pool** (`BigEndian`, `AddressRanges`, `AddressRuns`, `AddressPool`). Ranges are
  boxes of (family, address, port, ttl) cells. The byte loops run on arrays and are tied to the
  number an address denotes; the pool is an object with two lists of range objects that are cut
  in place. Conservation and absence of double allocation are proved over runs; where 32-bit
  arithmetic breaks them, the exact condition is given.
- **Thread pool** (`ThreadProtocol`, `ThreadPool`). Getters, stoppers and leaving loops are
  interleaved atomic steps over reuse counters, references and the queue; the sequential methods
  are proved against the same functions.
- **Media life cycle** (`MediaState`, `MediaObject`). Status, prepare count, active count, target
  and pipeline state, driven by any number of sessions, bus messages and refusals.
- **Wi-Fi Display messages** (`WfdText`, `WfdLines`, `WfdMessage`, `WfdRoundTrip`, `WfdAudio`,
  `WfdMessageObject`, then `UibcNames`, `UibcCapability`, `UibcReader` for the input back
  channel, and `WfdWhole` for both together). The printer and the cursor parser of the attributes
  of section 6.1 of the Wi-Fi Display Technical Specification, and exactly when they are inverse.
  `WfdWire`, `WfdNumbers` and `UibcWire` state the format itself, against its literal labels, names
  and widths.
- **The exchange M1 to M4** (`Handshake`, `WfdClient`, `Resolution`), section 6.4 of the same
  specification: source, ordered channels and sink as steps, and the choice of the resolution.
- **Mount points** (`PathOrder`, `MountPoints`, `SessionLookup`), **sessions** (`SessionTime`,
  `SessionPool`, `SessionWatch`, `KeepAlive`), **RTP-Info** (`RtpInfo`, section 12.33 of RFC 2326)
  and the **clean-up of paths** (`SanitizeUri`).

`Wrappers`, `Sequences` and `Machine` hold what several modules need: the option type,
concatenation and repetition in sequences, and the widths of integers.

## Conventions

- Each object of the program is a class with a `View()` (or a field) that is a plain value. Its
  methods are proved equal to functions on values, and the properties are proved about those
  functions.
- Answers of code that is not modelled are parameters: whether a stream accepts a transport,
  whether the pipeline accepts a state or prerolls, whether a request could be sent, whether a
  response body was understood, clock readings and random ids.
- A C string is the sequence of its characters before the terminator. `strtoul` is modelled with
  its sign, prefix and saturation to 64 bits, stored into 32 bits.
- An absent value stands for a null pointer. Printing a null string gives the text `(null)`, as
  the GNU C library does.
- A bit mask of the input back channel is the set of the positions of its bits.
- "Faithful" in `WfdRoundTrip` spells out per attribute what a caller has to check: the length
  of the audio value, the preferred-mode flag, present strings, and flags that are set.

## Where the code falls short of its own description

- `gst_rtsp_mount_points_add_factory` is documented to free a previous mount point of the same
  path; the code appends a second one. So one is left if and only if there was none before
  (`AddReplacesIffNew`), and removing the path once leaves it mounted (`AddAddRemove`).
- The scan of the mount points is meant to find the longest match but stops at the first entry
  that does not match (`GapDefeatsTheScan`); the lookup in a session scans everything.
- A reservation in an IPv6 range may return another address than the one asked for, or create
  addresses that were never added (`FarReservationMisses`, `LostCarryHappens`); when, is said by
  `ReserveExact` and `ReserveConserves`. A port count that wraps around can be accepted
  (`WrappedPortsAccepted`); `ReserveRightIff` says for which requests.
- A TEARDOWN asks for NULL twice. While another session is active, or after a suspend that reset
  the pipeline, it gives nothing back; otherwise it takes two from the prepare count, or one from
  a count of one (`AcceptedTeardown`, and `TeardownCount` when streams refuse). So the balance of
  prepares is stated for users that give back once.
- A session can be freed with a transport that its stream did not let go; the media then counts
  it as active from then on (`CountIsRightIff`, `TeardownDropsNothingIff`, `ExpiryDropsNothingIff`).
- A PLAY unsuspends the media and changes its state in two steps; a DESCRIBE or the last PAUSE in
  between suspends it again under the PLAY (`EventInsidePlayBreaksIff`).
- A reservation whose ports wrap can leave a range without ports in the pool; it covers no cell
  and does not disturb conservation (`RunConserves`).
- A timeout whose milliseconds do not fit an int can expire a session that is pinned
  (`LongTimeoutExpiresAtOnce`), and one that is negative in 32 bits can hide an expired session
  from the watch (`WatchSeesExpiredIff`, `LongTimeoutHidesExpired`).
- The preferred video format prints its size with a flag that makes the parser skip it
  (`PreferredFormatLosesItsSize`), and without a native resolution it claims the first one
  (`NoNativeResolution`).
- Responses are told apart by their body only, so a trigger of the application passes for M4
  (`EarlyTriggerPassesForM4`) if and only if it is sent before M4 (`TriggerIsSafeIffM4Sent`).

## Model

| member | source | states |
|---|---|---|
| `BigEndian.IncAddress` | gst/rtsp-server/rtsp-address-pool.c:330-342 | the in-place byte loop leaves the bytes of the carry function, whose value is given by `CarriedIsInc` |
| `BigEndian.CarriedIsInc` | gst/rtsp-server/rtsp-address-pool.c:330-342 | the numeric value after the loop: addition that wraps around the address space and loses 2^32 when the 32-bit carry overflows |
| `BigEndian.IncIsModular` | gst/rtsp-server/rtsp-address-pool.c:330-342 | the loop is addition modulo 256^size always for IPv4, and for IPv6 exactly when count plus the last byte stays below 2^32 |
| `BigEndian.DiffAddress` | gst/rtsp-server/rtsp-address-pool.c:344-361 | the byte loop with its early exit returns the saturating 32-bit difference, 0 for different families |
| `BigEndian.DiffExact` | gst/rtsp-server/rtsp-address-pool.c:344-361 | that difference never exceeds the real one and equals it exactly when the addresses without their last byte are less than 2^24 apart |
| `BigEndian.SixteenBytesExactUpTo` | gst/rtsp-server/rtsp-address-pool.c:344-361 | for IPv6, difference and step are exact for offsets up to 2^32 - 256, whatever the addresses |
| `BigEndian.StepFromStart` | gst/rtsp-server/rtsp-address-pool.c:671-685 | stepping from the start of a range by the computed difference lands on the requested address exactly when the difference was exact; otherwise short of it, or below the range |
| `BigEndian.MemCmpIsNumeric` | gst/rtsp-server/rtsp-address-pool.c:602-606 | the byte comparison of two addresses is the comparison of their numbers |
| `BigEndian.ValInjective` | gst/rtsp-server/rtsp-address-pool.c:602-606 | an address is determined by its family and its number, so a cell may be named by the number |
| `AddressRanges.SplitPartitions` | gst/rtsp-server/rtsp-address-pool.c:363-414 | the box asked for and the up to four remaining boxes cover every cell exactly as often as the range did, and all are well formed |
| `AddressPool.Pool.SplitRange` | gst/rtsp-server/rtsp-address-pool.c:363-414 | the range object is cut in place and the pieces are prepended to the free list as the split of values says |
| `AddressPool.Pool.AddRange` | gst/rtsp-server/rtsp-address-pool.c:278-328 | accepted exactly when the ports are ordered, both ends parse with the cast of the ttl, and they are of one family and in order; then prepended |
| `AddressPool.FindSuitable` | gst/rtsp-server/rtsp-address-pool.c:445-472 | finds the first free range that fits flags and port count |
| `AddressPool.Pool.AcquireAddress` | gst/rtsp-server/rtsp-address-pool.c:429-497 | moves range objects as acquire on values does, and returns the allocated one |
| `AddressPool.Pool.Clear` | gst/rtsp-server/rtsp-address-pool.c:199-217 | forgets the free ranges, unless something is allocated |
| `AddressRuns.AcquireComplete` | gst/rtsp-server/rtsp-address-pool.c:445-480 | no result exactly when no single free range offers what was asked, even first port included; then nothing changes |
| `AddressRuns.AcquireSound` | gst/rtsp-server/rtsp-address-pool.c:445-497 | one address, exactly n ports, every flag respected, allocated now, and exactly these cells no longer free |
| `AddressRuns.AcquireThenRelease` | gst/rtsp-server/rtsp-address-pool.c:507-548 | releasing what was acquired makes the same cells free again |
| `AddressRuns.ReleaseFrees` | gst/rtsp-server/rtsp-address-pool.c:507-548 | releasing the k-th allocation, whichever it is: it leaves the allocated ranges, the others keep their order, and every cell is free as often as before and once more where the range covers it |
| `AddressRuns.OlderIsReleased` | gst/rtsp-server/rtsp-address-pool.c:507-548 | releasing an older allocation leaves the newer one, and what was released can be acquired again |
| `AddressPool.Pool.ReleaseAddress` | gst/rtsp-server/rtsp-address-pool.c:507-548 | an outstanding range, wherever it stands in the list, leaves it and is put at the front of the free ranges, the others staying where they were; an unknown one changes nothing |
| `AddressPool.FindAddressInRanges` | gst/rtsp-server/rtsp-address-pool.c:586-619 | the byte tests find the first range whose numbers contain address, ports and ttl |
| `AddressPool.Pool.TakeReserved` | gst/rtsp-server/rtsp-address-pool.c:672-690 | the found range is cut at the requested address and ports |
| `AddressPool.Pool.ReserveAddress` | gst/rtsp-server/rtsp-address-pool.c:641-724 | the four answers and the moved ranges of reserve on values |
| `AddressPool.ReservedBytes` | gst/rtsp-server/rtsp-address-pool.c:672-690 | byte for byte: a taken reservation holds the address asked for if and only if that is near the start of the range it was cut from |
| `AddressRuns.ReserveAnswer` | gst/rtsp-server/rtsp-address-pool.c:655-722 | which of the four answers is given: taken exactly when some free range holds all of the box, in use exactly when only an allocated one does, for every pool and every request whose last port does not wrap to the number of a port |
| `AddressRuns.ReserveRightIff` | gst/rtsp-server/rtsp-address-pool.c:608-610 | over all 32-bit arguments: the answer is right for every pool if and only if the request is refused anyway, its last port does not wrap to the number of a port, or its ttl is above 255 |
| `AddressRuns.WrappedAnswer` | gst/rtsp-server/rtsp-address-pool.c:608-610 | for a request that wraps, the answer is right exactly when it is that the address is not in the pool |
| `AddressRuns.ReserveExact` | gst/rtsp-server/rtsp-address-pool.c:672-690 | a successful reservation takes one address with the ttl asked for; the ports are the requested ones if and only if they do not wrap, the address if and only if it is near the start of its range |
| `AddressRuns.ReserveConserves` | gst/rtsp-server/rtsp-address-pool.c:363-414 | over all 32-bit arguments: a reservation conserves every cell if and only if the carry of the step fits 32 bits, or the range has no ports to lose, and its ports either do not wrap or wrap in a way that keeps them, which is spelled out |
| `AddressRuns.NearConserves` | gst/rtsp-server/rtsp-address-pool.c:344-361 | every near request, hence every IPv4 request, conserves |
| `AddressRuns.NearRequestIsAdmissible` | gst/rtsp-server/rtsp-address-pool.c:641-724 | a request that does not wrap, at an address near the start of its range if it finds one, can be part of any conserving run |
| `AddressRuns.RunConserves` | gst/rtsp-server/rtsp-address-pool.c:278-724 | over every run whose reservations, where they cut a range, keep its cells, empty pieces allowed: free plus allocated ranges over a cell are those at the start plus those added; refused requests may wrap |
| `AddressRuns.AdmissibleRunIffConserving` | gst/rtsp-server/rtsp-address-pool.c:278-724 | that is exact: over all 32-bit arguments the hypothesis of these runs holds if and only if every operation conserves every cell |
| `AddressRuns.NoDoubleAllocation` | gst/rtsp-server/rtsp-address-pool.c:429-724 | in these runs, if the added ranges are disjoint, no two outstanding allocations ever share a cell, and nothing allocated is free |
| `AddressRuns.FarReservationMisses` | gst/rtsp-server/rtsp-address-pool.c:344-361 | an IPv6 request too far from the start of its range gets another address |
| `AddressRuns.LostCarryHappens` | gst/rtsp-server/rtsp-address-pool.c:330-342 | a valid IPv6 range and address for which the carry overflows |
| `AddressRuns.WrappedPortsAccepted` | gst/rtsp-server/rtsp-address-pool.c:608-610 | an input for `ReserveRightIff`: a request whose last port wraps around 32 bits is accepted though no range holds it |
| `AddressRuns.WrappedCutsGoBothWays` | gst/rtsp-server/rtsp-address-pool.c:363-414 | two inputs for `ReserveConserves`: a wrapped cut that keeps every cell and one that does not |
| `ThreadPool.PoolThread.Reuse` | gst/rtsp-server/rtsp-thread-pool.c:134-149 | one more user unless the counter was zero; the counter grows in either case, the reference only on success |
| `ThreadPool.PoolThread.Stop` | gst/rtsp-server/rtsp-thread-pool.c:166-183 | one user less; the last one schedules quit, which takes over the reference |
| `ThreadPool.ClientThreads.Recycle` | gst/rtsp-server/rtsp-thread-pool.c:451-466 | pops queued threads while the queue is full, until one that is not stopping |
| `ThreadPool.ClientThreads.GetThread` | gst/rtsp-server/rtsp-thread-pool.c:432-491 | none when none are allowed; the first recycled one that is not stopping when the queue is full; otherwise a new one; queued last |
| `ThreadPool.ClientThreads.LoopExit` | gst/rtsp-server/rtsp-thread-pool.c:313-342 | the thread leaves the queue, the others stay in order, and the reference of the loop is dropped |
| `ThreadProtocol.StepKeepsInv` | gst/rtsp-server/rtsp-thread-pool.c:134-183 | every atomic step of every getter, stopper and leaving loop keeps the invariant of counters, references and queue |
| `ThreadProtocol.CountersOfSharedThread` | gst/rtsp-server/rtsp-thread-pool.c:134-183 | in every interleaving the reuse counter is the number of holders and the reference count exceeds it by one, up to the steps in flight, which are counted |
| `ThreadProtocol.ToldThreadIsOver` | gst/rtsp-server/rtsp-thread-pool.c:166-183 | quit is scheduled at most once and exactly when the last holder stops; a thread told to quit is held by nobody and never handed out again |
| `ThreadProtocol.FreedExactlyAtTheEnd` | gst/rtsp-server/rtsp-thread-pool.c:313-342 | the references reach zero exactly when the loop is gone and nobody is in the middle of stopping it |
| `ThreadProtocol.QueuedThreadIsAlive` | gst/rtsp-server/rtsp-thread-pool.c:451-491 | in every interleaving, a thread in the queue, or just taken out of it by a getter that holds the lock, has not been freed, although the queue holds no reference |
| `ThreadProtocol.AtMostMaxThreads` | gst/rtsp-server/rtsp-thread-pool.c:445-476 | with a constant positive limit at most that many client threads are not told to quit |
| `ThreadProtocol.LiveFitsQueue` | gst/rtsp-server/rtsp-thread-pool.c:445-476 | because in every state that keeps the invariant each live client thread is queued or carried by the getter that holds the lock |
| `ThreadProtocol.RetryShortensQueue` | gst/rtsp-server/rtsp-thread-pool.c:451-466 | every round of the retry loop shortens the queue, and nothing else lengthens it meanwhile |
| `ThreadProtocol.GetAloneHandsOut` | gst/rtsp-server/rtsp-thread-pool.c:432-491 | the atomic steps of an undisturbed getter hand out exactly the thread that the method promises |
| `MediaObject.StreamTransport.SetActive` | gst/rtsp-server/rtsp-stream-transport.c:378-401 | the flag follows the request exactly when it changes and the stream accepts; the answer tells whether it did |
| `MediaObject.SwitchAll` | gst/rtsp-server/rtsp-media.c:2829-2844 | all configured transports are switched and the difference in active ones is returned |
| `MediaObject.RtspMedia.SetState` | gst/rtsp-server/rtsp-media.c:2783-2902 | the object and the transports change as set_state on values, error branch included; in a media in use each transport is active afterwards as `EveryTransportIsSwitched` says |
| `MediaObject.RtspMedia.SetPipelineState` | gst/rtsp-server/rtsp-media.c:2725-2751 | NULL unprepares; other states set the target, and reach the pipeline unless it is buffering; PAUSED suspends |
| `MediaObject.RtspMedia.Suspend` | gst/rtsp-server/rtsp-media.c:2601-2660 | only a prepared and idle media is suspended, by mode; a refused state is an error |
| `MediaObject.RtspMedia.UnsuspendBegin` | gst/rtsp-server/rtsp-media.c:2671-2722 | back to prepared, or to preroll after a reset |
| `MediaObject.RtspMedia.PrepareBegin` | gst/rtsp-server/rtsp-media.c:2129-2260 | the count is taken, and given back at once when refused: wrong status, used up, or no rtpbin |
| `MediaObject.RtspMedia.PrepareEnd` | gst/rtsp-server/rtsp-media.c:2208-2267 | a failed preroll unprepares once |
| `MediaObject.RtspMedia.Unprepare` | gst/rtsp-server/rtsp-media.c:2367-2414 | nothing when unprepared; otherwise the count drops, and the last one tears down |
| `MediaObject.RtspMedia.HandleBuffering` | gst/rtsp-server/rtsp-media.c:1735-1769 | buffering pauses a media that should play and resumes it when full, never for live media |
| `MediaState.EveryTransportIsSwitched` | gst/rtsp-server/rtsp-media.c:2829-2844 | slot by slot in a media in use: after PLAYING active exactly if it was, or is configured and its stream accepts; after PAUSED, READY or NULL from the target PLAYING exactly if it was and its stream does not let go; otherwise as it was, and empty slots stay empty |
| `MediaState.OtherwiseSwitched` | gst/rtsp-server/rtsp-media.c:2882-2901 | out of use nothing is switched and the answer is no, but for NULL in ERROR, which resets the count and deactivates what its streams let go |
| `MediaState.PipelineFollows` | gst/rtsp-server/rtsp-media.c:2846-2862 | what set_state does to the pipeline, from the counts before and after: the first PLAYING starts it, the last PAUSED pauses and suspends, the last NULL or READY gives a prepare back, a target already set is not set again |
| `MediaState.SuspendReaches` | gst/rtsp-server/rtsp-media.c:2601-2660 | where an idle prepared media ends in the pipeline: nowhere else, in PAUSED or in NULL by the mode that is set, and in ERROR without moving when that is refused; a busy one is left alone |
| `MediaState.UnprepareReaches` | gst/rtsp-server/rtsp-media.c:2271-2414 | where giving back leads: nothing when unprepared, only the count while others are left, and with the last one the end of stream while prepared if asked for, otherwise NULL, used, unprepared at once |
| `MediaState.SuspendedComesBack` | gst/rtsp-server/rtsp-media.c:2601-2722 | suspending an idle media and unsuspending it gives it back, paused in the mode that pauses, and prerolled anew in the mode that resets |
| `MediaState.BufferingPauses` | gst/rtsp-server/rtsp-media.c:1735-1769 | buffering pauses the pipeline of a media that should play, once, and a full buffer resumes it; live media and media that should not play keep their pipeline |
| `MediaState.PrepareAnswers` | gst/rtsp-server/rtsp-media.c:2129-2196 | who is prepared already, who has to wait and who is refused, from status, reuse and rtpbin; only a refusal takes no prepare |
| `MediaState.SetStateKeepsGood` | gst/rtsp-server/rtsp-media.c:2783-2902 | a set_state of one session keeps the count of active transports, idleness of suspended media and the PLAYING target |
| `MediaState.EventKeepsInv` | gst/rtsp-server/rtsp-media.c:2783-2902 | every event outside ERROR keeps: the count is the number of active transports of all sessions, a suspended media serves nobody, and while anyone is served the target is PLAYING |
| `MediaState.RunKeepsInv` | gst/rtsp-server/rtsp-media.c:2601-2902 | the same over every run by any number of sessions |
| `MediaState.NobodyIsCutOff` | gst/rtsp-server/rtsp-media.c:2846-2862 | in every such run, whenever a transport of any session is active, the media is in use, its target is PLAYING and its pipeline plays or buffers |
| `MediaState.CountIsRightIff` | gst/rtsp-server/rtsp-media.c:2829-2844 | over every run, with sessions that leave: the media never counts too few active transports, and counts right if and only if no TEARDOWN or expiry freed a transport that was still active |
| `MediaState.TeardownDropsNothingIff` | gst/rtsp-server/rtsp-session-media.c:94-114 | a TEARDOWN frees no active transport if and only if the session has none, or the media is in use and each of its streams lets go the first time or the second |
| `MediaState.ExpiryDropsNothingIff` | gst/rtsp-server/rtsp-session-media.c:94-114 | an expired session asks only once, so each stream must let go the first time |
| `MediaState.RunInsidePlayBreaksIff` | gst/rtsp-server/rtsp-client.c:1117-1155 | were PLAY not atomic: whatever run of events of other clients outside ERROR comes between its unsuspend and its state change, the invariant breaks if and only if the run leaves the media suspended and the PLAY then has an active transport |
| `MediaState.SuspendsIff` | gst/rtsp-server/rtsp-media.c:2601-2660 | which events leave a media suspended, told from the state before: a DESCRIBE that finds it prepared with nobody counted as active, and a PAUSE that switches off the last one and asks the pipeline for PAUSED |
| `MediaState.EventInsidePlayBreaksIff` | gst/rtsp-server/rtsp-client.c:1117-1155 | both together for one event between the parts of a PLAY, over all servers, events, answers and refusals outside ERROR |
| `MediaState.DescribeInsidePlayBreaksIff` | gst/rtsp-server/rtsp-client.c:1731-1790 | for a DESCRIBE: exactly when the media is prepared with nobody counted and the PLAY has an active transport |
| `MediaState.DescribeInsidePlayBreaks` | gst/rtsp-server/rtsp-client.c:1117-1155 | a server for which a DESCRIBE breaks it |
| `MediaState.PauseInsidePlayBreaks` | gst/rtsp-server/rtsp-client.c:955-1010 | a server with an active transport for which the PAUSE of another session breaks it |
| `MediaState.ErrorTeardownCount` | gst/rtsp-server/rtsp-media.c:2882-2901 | in ERROR a teardown resets the count, which is right exactly when no other transport stays active |
| `MediaState.TeardownCount` | gst/rtsp-server/rtsp-session-media.c:94-114 | the prepare count after a TEARDOWN by any session of any media outside ERROR: what is given back depends on the status, the target, the count, and whether anyone is still counted as active after each of the two requests for NULL |
| `MediaState.TeardownGivesBackOneIff` | gst/rtsp-server/rtsp-client.c:768-828 | exactly one prepare is given back if and only if the media is in use with a target other than NULL, nobody stays counted, and the count was at most one or the first attempt left somebody counted |
| `MediaState.AcceptedTeardown` | gst/rtsp-server/rtsp-media.c:2846-2880 | when the streams accept: nothing is given back while another session is active or after a reset, otherwise two, or one from a count of one |
| `MediaState.ExpiryCount` | gst/rtsp-server/rtsp-session-media.c:94-114 | an expired session gives back one prepare exactly when the media is in use with a target other than NULL and nobody stays counted, and otherwise none |
| `MediaState.RunKeepsBalance` | gst/rtsp-server/rtsp-media.c:2129-2414 | if only users give back, in every run with failed prepares, end-of-stream shutdown, seek and suspension the prepare count is the number of outstanding prepares, positive in use and zero when unprepared |
| `MediaState.TornDownOnlyByTheLast` | gst/rtsp-server/rtsp-media.c:2367-2414 | teardown happens only at the last give-back, and then nobody holds or waits |
| `MediaState.NotReusableStaysDown` | gst/rtsp-server/rtsp-media.c:2155-2156 | a media that is not reusable never leaves UNPREPARED after its first teardown |
| `MediaState.FirstTeardownIsFinal` | gst/rtsp-server/rtsp-media.c:2271-2335 | the first teardown of a media that is not reusable marks it used and is final, whatever its users do afterwards |
| `WfdText.ReadSpaceEnded` | gst/rtsp-server/gstwfdmessage.c:282-297 | the copied prefix: everything before the first white space, cut to the buffer |
| `WfdText.ReadCharEnded` | gst/rtsp-server/gstwfdmessage.c:299-314 | everything before the delimiter, cut to the buffer |
| `WfdText.ReadAttrAndValue` | gst/rtsp-server/gstwfdmessage.c:316-346 | name before and value behind the first delimiter, each cut to its buffer |
| `WfdText.ReadUInt32` | gst/rtsp-server/gstwfdmessage.c:357-363 | skips one space, reads a word, moves the cursor behind it and converts it |
| `WfdText.SpacedField` | gst/rtsp-server/gstwfdmessage.c:357-363 | the i-th read of the cursor over printed words gives the i-th word, and nothing behind the last |
| `WfdText.HexReads` | gst/rtsp-server/gstwfdmessage.c:362 | every zero-padded hexadecimal number of 32 bits is read back, a comma behind it or not |
| `WfdText.SignedReads` | gst/rtsp-server/gstwfdmessage.c:1081-1082 | a port of 2^31 or more is printed as a negative number and read back nevertheless |
| `WfdLines.JoinedParses` | gst/rtsp-server/gstwfdmessage.c:826-858 | a buffer is taken apart into exactly the lines it was joined from |
| `WfdMessage.LabelIsKnown` | gst/rtsp-server/gstwfdmessage.c:368-810 | the label that is printed is the label that is recognised, for all twelve attributes |
| `WfdWire.AudioLine` | gst/rtsp-server/gstwfdmessage.c:365-384 | a line `wfd_audio_codecs:` with any value that fits sets the audio list and nothing else |
| `WfdWire.VideoLine` | gst/rtsp-server/gstwfdmessage.c:385-428 | a line `wfd_video_formats:` with any value that fits sets the video formats and nothing else |
| `WfdWire.CoupledLine` | gst/rtsp-server/gstwfdmessage.c:521-529 | the same for `wfd_coupled_sink` |
| `WfdWire.TriggerLine` | gst/rtsp-server/gstwfdmessage.c:530-535 | the same for `wfd_trigger_method` |
| `WfdWire.UrlLine` | gst/rtsp-server/gstwfdmessage.c:536-543 | the same for `wfd_presentation_URL` |
| `WfdWire.PortsLine` | gst/rtsp-server/gstwfdmessage.c:544-555 | the same for `wfd_client_rtp_ports` |
| `WfdWire.RouteLine` | gst/rtsp-server/gstwfdmessage.c:556-561 | the same for `wfd_route` |
| `WfdWire.UibcSettingLine` | gst/rtsp-server/gstwfdmessage.c:780-788 | `wfd_uibc_setting` is on exactly for the value `enable`, perhaps behind one space |
| `WfdWire.StandbyResumeLine` | gst/rtsp-server/gstwfdmessage.c:789-797 | `wfd_standby_resume_capability` is on exactly for the value `supported`, perhaps behind one space |
| `WfdWire.StandbyLine` | gst/rtsp-server/gstwfdmessage.c:798-800 | a line `wfd_standby` sets the standby field |
| `WfdWire.ConnectorLine` | gst/rtsp-server/gstwfdmessage.c:801-807 | the same for `wfd_connector_type` |
| `WfdWire.IdrLine` | gst/rtsp-server/gstwfdmessage.c:808-810 | a line `wfd_idr_request` sets its field |
| `WfdWire.LongLineIsCut` | gst/rtsp-server/gstwfdmessage.c:826-858 | of a longer line the first 254 characters count |
| `WfdWire.AudioPositions` | gst/rtsp-server/gstwfdmessage.c:368-384 | a codec is a name, its modes and its latency in hexadecimal, in this order, and the next one follows |
| `WfdWire.VideoPositions` | gst/rtsp-server/gstwfdmessage.c:385-428 | which of thirteen words is which field of the video format, all hexadecimal, the size only behind a second word of 1 |
| `WfdWire.PairPositions` | gst/rtsp-server/gstwfdmessage.c:521-543 | the words of the coupled sink and of the URLs |
| `WfdWire.PortsPositions` | gst/rtsp-server/gstwfdmessage.c:544-555 | the words of the ports, decimal |
| `WfdWire.WordPositions` | gst/rtsp-server/gstwfdmessage.c:530-561 | the single word of a trigger or a route, and of the connector in hexadecimal |
| `WfdWire.PrintedOrder` | gst/rtsp-server/gstwfdmessage.c:889-1321 | the lines stand in the order of the standard attributes |
| `WfdWire.LinesEnd` | gst/rtsp-server/gstwfdmessage.c:889-1321 | each line ends in a carriage return and a line feed |
| `WfdWire.PrintedAudio` | gst/rtsp-server/gstwfdmessage.c:901-917 | label, name, modes of eight and latency of two digits, a comma unless it is the last |
| `WfdWire.PrintedVideo` | gst/rtsp-server/gstwfdmessage.c:920-958 | label and the thirteen words with their widths, `none` for a size of 0 |
| `WfdWire.PrintedCoupled` | gst/rtsp-server/gstwfdmessage.c:1037-1053 | label, status of two digits, address or `none` |
| `WfdWire.PrintedUncoupled` | gst/rtsp-server/gstwfdmessage.c:1037-1053 | label and `none` without a sink |
| `WfdWire.PrintedTrigger` | gst/rtsp-server/gstwfdmessage.c:1054-1060 | label and word |
| `WfdWire.PrintedUrls` | gst/rtsp-server/gstwfdmessage.c:1062-1074 | label and both URLs, `none` for a missing one |
| `WfdWire.PrintedPorts` | gst/rtsp-server/gstwfdmessage.c:1076-1086 | label, profile, both ports as signed decimals, mode |
| `WfdWire.PrintedRoute` | gst/rtsp-server/gstwfdmessage.c:1088-1093 | label and word |
| `WfdWire.PrintedUibcSetting` | gst/rtsp-server/gstwfdmessage.c:1279-1287 | label and `enable` or `disable` |
| `WfdWire.PrintedStandbyResume` | gst/rtsp-server/gstwfdmessage.c:1289-1297 | label and `supported` or `none` |
| `WfdWire.PrintedBare` | gst/rtsp-server/gstwfdmessage.c:1299-1319 | the two labels that stand alone |
| `WfdWire.PrintedConnector` | gst/rtsp-server/gstwfdmessage.c:1304-1313 | label and two digits, or `none` for 0 |
| `WfdNumbers.DigitsInOrder` | gst/rtsp-server/gstwfdmessage.c:362 | the sixteen digits in lower case, and the value of each |
| `WfdNumbers.HexIsPrintf` | gst/rtsp-server/gstwfdmessage.c:924-951 | a number with a width: its value in lower-case digits, at least that many, zeros only to fill up |
| `WfdNumbers.SignedIsPrintf` | gst/rtsp-server/gstwfdmessage.c:1081-1082 | a signed decimal: no leading zero, a minus exactly from 2^31 on |
| `WfdNumbers.StrToUlMeans` | gst/rtsp-server/gstwfdmessage.c:357-363 | how a number is read: blanks, sign, digits, whatever stands behind; a minus negates in 64 bits, of which 32 are kept |
| `WfdNumbers.HexPrefixSkipped` | gst/rtsp-server/gstwfdmessage.c:357-363 | a hexadecimal prefix is skipped |
| `WfdWire.TriggerMessage` | gst/rtsp-server/gstwfdmessage.c:1054-1060 | the whole text of a message with a trigger alone |
| `WfdMessageObject.ReadAudio` | gst/rtsp-server/gstwfdmessage.c:368-384 | the loop reads as many codecs as the value has sixteens of characters |
| `WfdMessageObject.ReadVideo` | gst/rtsp-server/gstwfdmessage.c:385-428 | the thirteen reads of the cursor, the last two only with the preferred-mode flag |
| `WfdMessageObject.Message.ParseAttribute` | gst/rtsp-server/gstwfdmessage.c:348-813 | the fields of the message change as the attribute says, the others stay; which label and word is which field is said by `WfdWire` |
| `WfdMessageObject.Message.ParseBuffer` | gst/rtsp-server/gstwfdmessage.c:826-858 | the loop over lines of at most 254 characters; an empty buffer is refused |
| `WfdMessageObject.Message.AsText` | gst/rtsp-server/gstwfdmessage.c:889-1321 | prints the lines of the attributes that are present, in order |
| `WfdMessageObject.AppendAudio` | gst/rtsp-server/gstwfdmessage.c:904-914 | the loop over codecs prints each with a comma between them |
| `WfdMessageObject.VideoText` | gst/rtsp-server/gstwfdmessage.c:923-951 | the prints of the thirteen numbers one after the other give the words that the parser reads |
| `WfdMessageObject.Message.ValueText` | gst/rtsp-server/gstwfdmessage.c:889-1321 | the branches over the fields print the value of an attribute exactly when the message has it |
| `WfdRoundTrip.AudioReads` | gst/rtsp-server/gstwfdmessage.c:368-384 | whatever number of codecs is read, the printed ones come back right and empty ones follow |
| `WfdRoundTrip.VideoReads` | gst/rtsp-server/gstwfdmessage.c:920-958 | the printed format comes back, its size only with the preferred-mode flag 1 |
| `WfdRoundTrip.PreferredFormatLosesItsSize` | gst/rtsp-server/gstwfdmessage.c:1944-1948 | the preferred format, printed with flag 0, comes back exactly when it has no size |
| `WfdRoundTrip.PortsRead` | gst/rtsp-server/gstwfdmessage.c:1076-1086 | profile, both ports and mode come back |
| `WfdRoundTrip.ParsedIsClean` | gst/rtsp-server/gstwfdmessage.c:348-858 | no string the parser stores contains white space, whatever the text is |
| `WfdRoundTrip.ParsedTextIsReread` | gst/rtsp-server/gstwfdmessage.c:826-1321 | what the parser makes of the text of any message without white space in its strings, null pointers included |
| `WfdRoundTrip.RoundTripIff` | gst/rtsp-server/gstwfdmessage.c:826-1321 | for every message whose printed lines fit 254 characters: parsing the text gives the message if and only if its strings have no white space and it is faithful |
| `WfdAudio.ValueLength` | gst/rtsp-server/gstwfdmessage.c:901-917 | n codecs of the standard, L of them LPCM, print as 17 n + L - 1 characters |
| `WfdAudio.AudioBound` | gst/rtsp-server/gstwfdmessage.c:365-384 | the parser counts n + floor((L + n - 1) / 16) codecs, the first n right; the list comes back if and only if L + n is at most 16 |
| `UibcNames.LookupFrom` | gst/rtsp-server/gstwfdmessage.c:675-705 | of all names in the order of the tests, the first found in a token is the printed one |
| `UibcNames.TokensOfSep` | gst/rtsp-server/gstwfdmessage.c:651-666 | the do-loop cuts a printed list into exactly its words |
| `UibcNames.BitsAreSep` | gst/rtsp-server/gstwfdmessage.c:1146-1226 | comparing the mask with what is already printed puts a comma exactly where more is to come |
| `UibcNames.MaskReads` | gst/rtsp-server/gstwfdmessage.c:651-705 | parsing a printed mask, whatever its bits, gives its bits that have a name |
| `UibcWire.CategoryNames` | gst/rtsp-server/gstwfdmessage.c:667-675 | the names GENERIC and HIDC stand for the bits 0 and 1, printed and read |
| `UibcWire.TypeNames` | gst/rtsp-server/gstwfdmessage.c:686-705 | the eight names of input types and their bits, printed and read |
| `UibcWire.PathNames` | gst/rtsp-server/gstwfdmessage.c:741-757 | the six names of paths and their bits, printed and read |
| `UibcWire.TwoNames` | gst/rtsp-server/gstwfdmessage.c:1146-1163 | two names stand in the order of their bits with a comma and a space |
| `UibcWire.CapStands` | gst/rtsp-server/gstwfdmessage.c:1229-1262 | a type and a path with a slash, nothing for an unknown one, and read back |
| `UibcWire.ContainsMeans` | gst/rtsp-server/gstwfdmessage.c:651-705 | a name is found exactly where it stands somewhere in the token |
| `UibcWire.ValueLayout` | gst/rtsp-server/gstwfdmessage.c:1142-1277 | the whole value against its literal keys: the three lists in order, each closed by a semicolon, and the port, or ` none` |
| `UibcCapability.CapsRead` | gst/rtsp-server/gstwfdmessage.c:716-763 | the printed list of types and paths comes back in the same order |
| `UibcCapability.ParsedTextIsReread` | gst/rtsp-server/gstwfdmessage.c:641-779 | what the parser makes of any printed capability that fits 8191 characters |
| `UibcCapability.RoundTripIff` | gst/rtsp-server/gstwfdmessage.c:641-1277 | parsing the printed capability gives it back if and only if all bits are named and the list is not empty and counted right, or, unsupported, it is empty |
| `UibcReader.ReadMask` | gst/rtsp-server/gstwfdmessage.c:653-666 | the do-loop over the tokens of a list collects the bits |
| `UibcReader.ReadCaps` | gst/rtsp-server/gstwfdmessage.c:716-763 | the do-loop appends a node for each token |
| `UibcReader.ReadCapability` | gst/rtsp-server/gstwfdmessage.c:641-779 | the searches and reads of the whole attribute, with the null pointer that follows a missing list |
| `UibcReader.PrintMask` | gst/rtsp-server/gstwfdmessage.c:1160-1226 | the chain of tests prints the names of the bits |
| `UibcReader.PrintCaps` | gst/rtsp-server/gstwfdmessage.c:1228-1267 | the loop over the list |
| `UibcReader.PrintCapability` | gst/rtsp-server/gstwfdmessage.c:1142-1277 | the whole value |
| `WfdWhole.UibcOnTheWire` | gst/rtsp-server/gstwfdmessage.c:641-643 | a line `wfd_uibc_capability:` with any value that fits sets the capability and nothing else |
| `WfdWhole.UibcPrinted` | gst/rtsp-server/gstwfdmessage.c:1142-1277 | and it is printed behind that label |
| `WfdWhole.UibcStands` | gst/rtsp-server/gstwfdmessage.c:1142-1287 | between the route and the setting of the channel |
| `WfdWhole.ParsedWholeIsReread` | gst/rtsp-server/gstwfdmessage.c:826-1321 | what the parser makes of the text of a message together with its input back channel, thirteen attributes in printing order |
| `WfdWhole.WholeRoundTripIff` | gst/rtsp-server/gstwfdmessage.c:826-1321 | for every message with capability whose lines fit 254 characters: parsing the text gives both back if and only if the strings have no white space, the message is faithful, and the capability is |
| `WfdClient.Client.HandleResponse` | gst/rtsp-server/rtsp-client-wfd.c:741-908 | the flags and what is sent change as the model says, by body size and flags only |
| `WfdClient.Client.HandleOptions` | gst/rtsp-server/rtsp-client-wfd.c:910-960 | with a user agent and a working answer the output grows by the answer and M3, or by the answer alone when M3 cannot be sent; otherwise by nothing; the flags stay |
| `Handshake.OptionsAreAnswered` | gst/rtsp-server/rtsp-client-wfd.c:910-960 | the same in every state of the exchange, whatever the flags, with the history of what was sent |
| `Handshake.RunAnswersEveryOptions` | gst/rtsp-server/rtsp-client-wfd.c:295-306 | over every run in which sending succeeds, exactly one M3 is sent for each OPTIONS with a user agent that the source takes |
| `Handshake.StepKeepsInv` | gst/rtsp-server/rtsp-client-wfd.c:741-960 | every step of the source, of a sink over ordered channels and of the application, whenever it sends its triggers, keeps: requests handled, waiting and asked are those sent, in order, and the flags say which are handled |
| `Handshake.HandshakeSafety` | gst/rtsp-server/rtsp-client-wfd.c:741-908 | over every run M4 and the SETUP trigger are sent at most once, M4 only after responses to M1 and M3, the trigger only after M1 and the first request other than M1 and M3 are answered; if every trigger of the application found M4 sent, only after M1, M3 and M4 |
| `Handshake.M4DoneIffPatient` | gst/rtsp-server/rtsp-client-wfd.c:893-902 | over every run: m4_done is set exactly when the first request other than M1 and M3 is answered, and that request is M4 if and only if every trigger of the application found M4 already sent |
| `Handshake.TriggerIsSafeIffM4Sent` | gst/rtsp-server/rtsp-client-wfd.c:893-902 | what the application can check before it triggers: however the run goes on, m4_done is set by the response to M4 if M4 has been sent, and by the response to the trigger if not |
| `Handshake.FlagsAreSetByTheirResponse` | gst/rtsp-server/rtsp-client-wfd.c:893-902 | m1_done is set by the one response to M1, m3_done by the first response to an M3 that is understood, m4_done by the response to the first other request, which is M4 unless a trigger was sent before it |
| `Handshake.OnlyResponsesSetFlags` | gst/rtsp-server/rtsp-client-wfd.c:910-960 | no other step sets a flag |
| `Handshake.EarlyTriggerPassesForM4` | gst/rtsp-server/rtsp-client-wfd.c:893-902 | a run in which a trigger before M4 makes the source send SETUP without M4 being sent |
| `Handshake.RunIsPrompt` | gst/rtsp-server/rtsp-client-wfd.c:295-323 | in every run in which sending succeeds, M4 has been sent exactly when M3 is done and the trigger exactly when M4 is done |
| `Handshake.ExchangeCompletes` | gst/rtsp-server/rtsp-client-wfd.c:741-960 | there is a run in which M1, M3 and M4 are answered and the trigger is sent |
| `Resolution.GetPreferedResolution` | gst/rtsp-server/rtsp-client-wfd.c:325-340 | 0 exactly when the masks share none of the lowest 32 bits, otherwise the highest shared one |
| `Resolution.OfferIsAdvertised` | gst/rtsp-server/rtsp-client-wfd.c:325-340 | the offer is a single bit of both masks exactly when that bit is not bit 31 |
| `Resolution.SetNative` | gst/rtsp-server/gstwfdmessage.c:1861-1882 | the counting loop and shifts compute the field |
| `Resolution.NativeLayout` | gst/rtsp-server/gstwfdmessage.c:1861-1882 | the table in the lowest three bits, above them the index of the highest bit of the resolution |
| `Resolution.NativeRoundTrip` | gst/rtsp-server/gstwfdmessage.c:1983-1986 | for positive resolutions, setting and getting gives the table and the highest bit if and only if the resolution is below 2^31 |
| `Resolution.HighestIsBit` | gst/rtsp-server/gstwfdmessage.c:1869-1873 | the highest bit is the value itself exactly for powers of two |
| `Resolution.NoNativeResolution` | gst/rtsp-server/gstwfdmessage.c:1935-1937 | without a native resolution the preferred format claims the first one and the supported one an undefined shift |
| `MountPoints.Mounts.Match` | gst/rtsp-server/rtsp-mount-points.c:234-297 | sorts on demand and reports the end of the first run of segment-prefixes, which is the path itself or ends just before a slash of it; without a place for the length only an exact match; nothing only when no mount point is one |
| `MountPoints.Mounts.AddFactory` | gst/rtsp-server/rtsp-mount-points.c:312-333 | appends; exactly one mount point has the path afterwards if and only if none had it before |
| `MountPoints.Mounts.RemoveFactory` | gst/rtsp-server/rtsp-mount-points.c:342-370 | removes one mount point of exactly that path, which stays mounted if and only if it was mounted at least twice |
| `MountPoints.AddReplacesIffNew` | gst/rtsp-server/rtsp-mount-points.c:312-333 | the documented replacement of an earlier mount point holds exactly when there is none |
| `MountPoints.RemoveUnmountsIffOnce` | gst/rtsp-server/rtsp-mount-points.c:342-370 | after the removal the count of the path is one less and those of the others are unchanged, so the path stays mounted exactly when it was mounted twice |
| `MountPoints.AddAddRemove` | gst/rtsp-server/rtsp-mount-points.c:312-370 | a path added twice and removed once is still mounted |
| `MountPoints.Mounts.Tidy` | gst/rtsp-server/rtsp-mount-points.c:244-247 | sorted, the same entries |
| `MountPoints.ScanIsLongestIffNoGap` | gst/rtsp-server/rtsp-mount-points.c:234-297 | the scan finds the longest segment-prefix if and only if nothing but prefixes lies between prefixes of the path |
| `MountPoints.UnnestedMountsHaveNoGap` | gst/rtsp-server/rtsp-mount-points.c:206-218 | in particular when no mount point is a segment-prefix of another |
| `MountPoints.SameMultisetSameSorted` | gst/rtsp-server/rtsp-mount-points.c:82-91 | with distinct paths the sorted list, hence the match, does not depend on insertion order |
| `MountPoints.FirstRunIsUnique` | gst/rtsp-server/rtsp-mount-points.c:234-297 | the end of the first run is determined |
| `MountPoints.NoMatchNoRun` | gst/rtsp-server/rtsp-mount-points.c:234-297 | there is a first run exactly when some entry matches |
| `MountPoints.GapDefeatsTheScan` | gst/rtsp-server/rtsp-mount-points.c:234-297 | three mount points for which the scan misses the longest one |
| `PathOrder.HasPrefixMeans` | gst/rtsp-server/rtsp-mount-points.c:206-218 | a mount point is a segment-prefix exactly when it is the path, or the path continues with a slash |
| `PathOrder.TestingIsNotUnderTest` | gst/rtsp-server/rtsp-mount-points.c:206-218 | `/testing` is not under `/test`, `/test/ing` is |
| `PathOrder.StrCmpMeans` | gst/rtsp-server/rtsp-mount-points.c:82-91 | the order is decided at the first difference, a proper prefix first |
| `PathOrder.PrefixesOfOnePath` | gst/rtsp-server/rtsp-mount-points.c:206-218 | of two segment-prefixes of one path the shorter is a segment-prefix of the longer and comes first |
| `SessionLookup.GetMedia` | gst/rtsp-server/rtsp-session.c:276-311 | the full scan returns the first longest media and the matched length, at the end of the path or just before a slash of it; nothing only when no media is one |
| `SessionLookup.LookupsAgreeIffManaged` | gst/rtsp-server/rtsp-session.c:276-311 | a session with media under any of the mount points finds the path of the scan if and only if it manages that path and none further on that is a prefix too |
| `SessionLookup.LookupsAgreeIffNoGap` | gst/rtsp-server/rtsp-session.c:276-311 | a session with media under all of them agrees if and only if there is no gap |
| `SessionTime.TimeoutWhenItFits` | gst/rtsp-server/rtsp-session.c:547-578 | for times that fit an int: whole milliseconds left, clamped at 0 |
| `SessionTime.ExpiryTime` | gst/rtsp-server/rtsp-session.c:547-578 | in the terms of the caller: expired, to the millisecond, when five seconds and the timeout have passed since the last access, or since the clock reading when pinned; before that the whole milliseconds left |
| `SessionTime.ExpiredExactly` | gst/rtsp-server/rtsp-session.c:589-597 | for all times: expired exactly when less than a millisecond is left or the milliseconds are a multiple of 2^32 |
| `SessionTime.PinnedNeverExpires` | gst/rtsp-server/rtsp-session.c:517-578 | a pinned session does not expire when its time fits |
| `SessionTime.NegativeExactly` | gst/rtsp-server/rtsp-session.c:547-578 | when the 32-bit timeout of a session is negative |
| `SessionTime.LongTimeoutExpiresAtOnce` | gst/rtsp-server/rtsp-session.c:547-578 | a timeout that does not fit makes even a pinned, just touched session expire |
| `SessionPool.Session.NextTimeoutMs` | gst/rtsp-server/rtsp-session.c:547-578 | touches a pinned session and computes the milliseconds in 32 bits |
| `SessionPool.Pool.Create` | gst/rtsp-server/rtsp-session-pool.c:323-407 | filed under the first free of the random ids; nothing at the limit or after 101 ids in use; the others stay |
| `SessionPool.Pool.Find` | gst/rtsp-server/rtsp-session-pool.c:271-291 | the session of that id, touched; the others stay |
| `SessionPool.Pool.Remove` | gst/rtsp-server/rtsp-session-pool.c:418-436 | exactly that id is removed |
| `SessionPool.Pool.Cleanup` | gst/rtsp-server/rtsp-session-pool.c:438-473 | exactly the expired sessions are removed and counted |
| `SessionPool.LeastTimeout` | gst/rtsp-server/rtsp-session-pool.c:561-573 | the fold over the sessions in the order of the visit; the least timeout when none is negative, -1 without sessions |
| `SessionWatch.CollectsZero` | gst/rtsp-server/rtsp-session-pool.c:561-573 | the fold is 0 if and only if nothing is below -1 and a 0 is visited after the last -1 |
| `SessionWatch.ZeroInEveryOrder` | gst/rtsp-server/rtsp-session-pool.c:561-573 | the fold is 0 in every order of the visit if and only if some timeout is 0 and none is negative |
| `SessionPool.Pool.Prepare` | gst/rtsp-server/rtsp-session-pool.c:575-598 | the timeout of the watch is the fold over all sessions, their least when all fit; ready exactly at 0 |
| `SessionPool.WatchAgreesWithCleanup` | gst/rtsp-server/rtsp-session-pool.c:438-598 | when the timeouts fit, the watch is ready exactly when the clean-up has something to remove |
| `SessionPool.WatchSeesExpiredIff` | gst/rtsp-server/rtsp-session-pool.c:438-598 | without that bound: a ready watch has something to remove, and with an expired session it is ready in every order if and only if no timeout is negative in 32 bits; one below -1 hides the expired session in every order |
| `SessionPool.LongTimeoutHidesExpired` | gst/rtsp-server/rtsp-session-pool.c:438-598 | two sessions, one expired and one with a timeout of 25 days that hides it from the watch in every order |
| `KeepAlive.Client.LinkSessionTransports` | gst/rtsp-server/rtsp-client.c:669-693 | every TCP transport of the media is prepended and pins the session once more |
| `KeepAlive.Client.UnlinkSessionTransports` | gst/rtsp-server/rtsp-client.c:711-735 | every TCP transport is removed once and the session is unpinned for each |
| `KeepAlive.LinkedExactly` | gst/rtsp-server/rtsp-client.c:669-693 | linking a media adds its TCP transports to the list and nothing else |
| `KeepAlive.UnlinkUndoesLink` | gst/rtsp-server/rtsp-client.c:711-735 | unlinking what was just linked gives the list back as it was |
| `KeepAlive.DriftOfEvent` | gst/rtsp-server/rtsp-client.c:651-735 | only the unlinking of transports that are not linked moves the counter away from the number of linked ones |
| `KeepAlive.RunDrift` | gst/rtsp-server/rtsp-client.c:651-735 | over any run, for sessions old and new, the counter keeps its distance from the number of linked transports if and only if no such unlinking happened |
| `KeepAlive.LinkedSessionIsKept` | gst/rtsp-server/rtsp-session-pool.c:438-473 | over every run of an unused server with any number of clients, sessions and media: the counter is the number of linked transports, and while one of any media of a session is linked, the session is not among those that the clean-up of the table removes |
| `KeepAlive.RepeatedPlayKeepsPinning` | gst/rtsp-server/rtsp-client.c:1131-1132 | a repeated PLAY links again, and one PAUSE undoes only the repetition |
| `RtpInfo.GetRtpInfo` | gst/rtsp-server/rtsp-session-media.c:245-328 | the two loops: the earliest running time, then an entry for each stream that knows one |
| `RtpInfo.EarliestIsUnique` | gst/rtsp-server/rtsp-session-media.c:267-290 | the earliest running time is determined |
| `RtpInfo.StreamsAgreeOnTheInstant` | gst/rtsp-server/rtsp-stream-transport.c:323-367 | every stream is moved back by whole ticks modulo 2^32 to within one tick of the earliest instant, if and only if the ticks fit 64 bits or differ from the saturated ones by a multiple of 2^32; clocks up to one GHz always fit; the earliest stays |
| `RtpInfo.OneSecondIsTheRate` | gst/rtsp-server/rtsp-stream-transport.c:344-354 | a stream that runs 10^9 nanoseconds behind the earliest one is moved back by its clock rate |
| `RtpInfo.NothingMovesForward` | gst/rtsp-server/rtsp-stream-transport.c:344-354 | the branch that adds never changes a timestamp |
| `RtpInfo.EntriesAreTheKnowing` | gst/rtsp-server/rtsp-session-media.c:298-321 | exactly the streams that know something appear, once and in order |
| `SanitizeUri.SanitizeUri` | gst/rtsp-server/rtsp-client.c:1869-1894 | the two-index loop in place computes the specified path; the write index never passes the read index |
| `SanitizeUri.SanitizeIsCanonical` | gst/rtsp-server/rtsp-client.c:1869-1894 | the result is the path rebuilt from its names in order |
| `SanitizeUri.SanitizeForm` | gst/rtsp-server/rtsp-client.c:1869-1894 | no double slash, no trailing slash but the root, never empty from non-empty |
| `SanitizeUri.SanitizeIdempotent` | gst/rtsp-server/rtsp-client.c:1869-1894 | a second clean-up changes nothing |
| `SanitizeUri.Examples` | gst/rtsp-server/rtsp-client.c:1869-1894 | four paths and their clean forms |

## Left out

- GStreamer pipelines, pads, caps, rtpbin, SDP generation, sockets, watches, TLS, HTTP tunnels and
  main loops: only their results appear, as parameters.
- Authorization, tokens, permissions, property accessors, dump functions and object references
  other than those of the threads.
- Message attributes whose printer and parser do not share a format: 3D formats, I2C,
  av_format_change_timing, preferred_display_mode, display_edid and content protection. A line
  with one of these labels leaves the modelled attributes alone; in the program the 3D formats
  also write into the video formats.
- Attributes that are printed without a colon although a value is read (an audio or video list
  that is missing, RTP ports without a profile): the parser then reads behind the end of the line,
  which the model does not describe; `Printable` excludes them.
- Text that does not end its lines with two characters: the parser then skips a character of the
  next line, as modelled, but at the end of the buffer it reads behind it, which is not.
- WfdRoundTrip.RoundTripIff: is stated for messages whose lines fit the line buffer, because a
  line that is cut can still give the same message when only zeros are lost.
- UibcReader.ReadCapability: a missing list dereferences a null pointer in the program; here it
  is an absent result.
- UibcReader.ReadMask: the text of a list is at most 8191 characters, as the buffer that held the
  whole value guarantees.
- WfdWhole.WholeRoundTripIff: the object of a message holds the twelve plain attributes; the
  capability beside them is composed on values, and its own loops are those of `UibcReader`.
- Setters and getters of the audio formats: short, and the channel count is fixed.
- Width, height and frame rate tables of the resolutions, and the body of M3 and M4 beyond the
  resolution mask.
- Handshake.HandshakeSafety: sinks that answer out of order or put a body into other responses
  are not modelled.
- ThreadProtocol.AtMostMaxThreads: the limit is constant during a run; changing it while threads
  are shared, and failure to push a thread, are not modelled.
- MediaState.EventKeepsInv: ERROR status is an exception; `ErrorTeardownCount` says when the count
  is right there. PLAY is one step; `RunInsidePlayBreaksIff` says exactly which runs of other
  clients between its two parts break the invariant. The wait inside a prepare is cut into its two
  ends, and the thread that prepares is no separate actor in the runs of the server.
- SessionPool.Pool.Create: the random ids are a given sequence; the interleaving of several
  threads on the session table is not modelled.
- SessionPool.LeastTimeout: the order in which the table is visited is not fixed.
- SessionPool.Pool.Cleanup: one reading of the clock serves the expiry test of all sessions.
- KeepAlive.LinkedSessionIsKept: timeouts must fit an int, as `PinnedNeverExpires` requires.
