# usbipd-darwin in Dafny

A model of usbipd-darwin, the USB/IP server that exports the USB devices of a Mac over TCP or a Unix
socket, with proofs of what its protocol, its concurrent URB session and its device bookkeeping keep.
`dafny verify dfyconfig.toml` checks everything.

## What is modelled

- **The URB session** (`UrbSession`, `SessionInvariants`, `SessionSafety`, `SessionRuns`, `SessionProgress`). After an
  import the connection carries URBs. The read loop, one spawned task and one blocking closure per
  CMD_SUBMIT, and what they share are a step system: in-flight map, 256 permits, cancel flags, abort
  requests, endpoint mutexes and the locked writer. Each atomic access is one action, a write goes
  out in pieces of any size and can fail or be aborted between any two, and a run is any
  interleaving. Abort lands only where the task is suspended. Theorems are about every reachable
  state: permits are conserved, replies are unique and parse, unlinks are answered in order, the
  in-flight map is exact, draining reaches every task, nothing deadlocks, and work is bounded.
  `SessionRuns` builds the runs that show where the code does less than it says. `Inflight` is the
  table on the heap, with the flags it shares with the tasks, and `InflightRefines` shows that its
  operations do what the steps do.
- **The wire** (`Bytes`, `Urb`, `Framing`, `Op`, `Transfer`). Codecs as the encoders and decoders
  write them, the read loop as a cursor over the received bytes, a client's side for the replies, and
  the lengths of one transfer from padding to reply.
- **Device lists and import** (`Devlist`, `Identity`, `Attach`). Policy and hub filter, the devlist
  reply and its reader, the import decision and reply, the hash that gives bus and device numbers,
  the busid printer, and the one-client-per-device table under interleaved sessions.
- **Hotplug events** (`Replay`, `Events`, `Hotplug`). The publisher turns watched events into a
  snapshot and a broadcast log; subscribers join, read the snapshot and follow the log, and can lag.
  `publish` updates the snapshot and sends as two steps, joining subscribes and takes the snapshot as
  two steps, and the watch starts before the list it overlaps with.
- **The endpoint cache** (`EndpointCache`). The opened device's interface, alternate-setting and
  endpoint maps as a class beside the device's own state, with the outcome of each backend call a
  parameter.
- **The sudoers fragment** (`Sudoers`). Validation, rendering and a reader for the rule line.

Objects that the source updates in place are classes with `modifies`; loops are loops, each tied to a
specification function about which the properties are then proved.

## Where the code and its documentation differ

The model follows the code.

- An unlink is documented to abort the task "so it never writes a stale RET_SUBMIT". It can, exactly
  when the task is past its flag check (`StaleReplyIff`, `StaleReplyHappens`). Worse, the abort can
  land inside the task's write; the RET_UNLINK then follows part of a RET_SUBMIT (`CutReplyHappens`),
  and a client can parse the stream exactly if that did not happen (`OutputFraming`).
- `cancel_endpoint` is documented to unblock a transfer almost immediately. It waits for the mutex the
  transfer holds, so the read loop, and the map lock with it, waits until the transfer returns, exactly
  if there is an endpoint to cancel and its mutex is held (`UnlinkProceedsIff`, `UnlinkBlocks`). Such a
  transfer is bounded by its 60-second timeout.
- A task that finishes before the loop inserts it leaves an entry that nothing removes until an unlink
  of that seqnum, a reuse of it or the drain (`InflightExact`), so the map is not bounded by 256
  (`InflightUnbounded`), but by 256 and the number of such entries (`InflightBound`).
- A stream that ends inside a URB header counts as a clean disconnect, like one that ends before it.
- Records of devices with more than 255 interfaces carry a capped count but all interfaces
  (`LongRecordCutShort`), and a device behind a port numbered 0 could print the busid of a chainless
  one (`BusidClash`). USB numbers ports from 1.
- An ignored failure to select alternate setting 0 makes the endpoint cache disagree with the device
  exactly if the device was left at another setting (`ClaimCoherentIff`, `StaleSelection`).
- Hubs are left out of the device list, but import does not refuse them (`ListedIsImportable`).
- The sudoers fragment is documented never to need quoting. Binary and arguments are escaped, the group
  is not, though it may contain a colon or an equals sign; such a rule cannot be read
  (`FragmentRoundTrip`, `UnreadableGroup`).

## Model

| member | source | states |
|---|---|---|
| `SessionInvariants.TaskFrame` | crates/usbipd/src/daemon.rs:634-641 | what one step of a submit task or its blocking closure may change: it never touches cancel flag, abort request or map bookkeeping, drops its permit exactly at its end, and is writing exactly from taking the writer to letting go of it |
| `UrbSession.EpAddrIs` | crates/usbipd/src/daemon.rs:619-623 | an entry names the endpoint of the task's own transfer: the low four bits of ep, bit 7 exactly for direction 1, and none for ep 0 |
| `SessionInvariants.LoopFrame` | crates/usbipd/src/daemon.rs:521-579 | what one step of the read loop may change: never a task's own progress, and flags and abort requests once set stay set |
| `SessionInvariants.StructureLoop` | crates/usbipd/src/daemon.rs:589-712 | loop steps keep every task well formed (a reply is one the client can parse for its command) and every reference into the task table valid |
| `SessionInvariants.StructureTask` | crates/usbipd/src/daemon.rs:720-815 | the same for steps of a task or its closure |
| `SessionInvariants.LocksLoop` | crates/usbipd/src/daemon.rs:687-694 | loop steps keep: whoever owns the writer lock is writing and conversely, and no endpoint mutex has two holders |
| `SessionInvariants.LocksTask` | crates/usbipd/src/daemon.rs:812 | the same for task and closure steps |
| `SessionInvariants.WireLoop` | crates/usbipd/src/daemon.rs:687-694 | loop steps keep: unless a write was cut, the socket holds the log of complete replies followed by a prefix of the one being written; if one was cut, it holds more bytes than that |
| `SessionInvariants.WireTask` | crates/usbipd/src/daemon.rs:802-814 | the same for task steps |
| `SessionInvariants.AnsweredTask` | crates/usbipd/src/daemon.rs:812-814 | task steps keep: a task that left because its reply was sent has it in the log |
| `SessionSafety.InvStep` | crates/usbipd/src/daemon.rs:508-815 | every step of loop, task or closure keeps the whole session invariant |
| `SessionSafety.ReachableInv` | crates/usbipd/src/daemon.rs:508-815 | the invariant holds in every state that any interleaving reaches |
| `SessionSafety.ReadInputIsGood` | crates/usbipd/src/daemon.rs:598-617 | the commands the read loop recovers from any byte stream satisfy the premise the session theorems put on their input |
| `SessionSafety.PermitConservation` | crates/usbipd/src/daemon.rs:625-641 | in every reachable state available permits, permits of live submit tasks and the one the loop may hold add up to 256 |
| `SessionSafety.SubmitRepliesOnce` | crates/usbipd/src/daemon.rs:769-814 | every RET_SUBMIT answers a submit that was read, with its seqnum and a payload that fits it; no submit is answered twice; with distinct seqnums no seqnum is |
| `SessionSafety.RepliesConveyResults` | crates/usbipd/src/daemon.rs:740-801 | in every reachable state a logged RET_SUBMIT is of a task whose transfer returned, with status -32 for a failure, -75 for data beyond an IN buffer, else 0, the length moved and, for direction 1, exactly the bytes received |
| `SessionInvariants.ResultsTask` | crates/usbipd/src/daemon.rs:740-814 | task steps keep: from the closure's result through check and write to the log the reply says what the transfer returned |
| `SessionSafety.UnlinkRepliesInOrder` | crates/usbipd/src/daemon.rs:661-696 | RET_UNLINKs go out in arrival order, each at most once; all of them are out whenever the loop reads again, and when it stopped exactly if no such write failed |
| `SessionSafety.CancelledNeverWrites` | crates/usbipd/src/daemon.rs:769-772 | a task whose flag was stored before its check writes nothing in any continuation |
| `SessionSafety.StaleReplyIff` | crates/usbipd/src/daemon.rs:655-660 | a flagged task that has not replied can still get a RET_SUBMIT out if and only if it is past its flag check; the documentation says it never does |
| `SessionSafety.StaleReplyAfterUnlink` | crates/usbipd/src/daemon.rs:671-695 | from any such state of an unlink there is a run that logs RET_UNLINK and then the stale RET_SUBMIT |
| `SessionRuns.StaleReplyHappens` | crates/usbipd/src/daemon.rs:655-660 | for every submit and unlink of it there is a run from the start of the session that logs RET_UNLINK and then the stale RET_SUBMIT |
| `SessionRuns.CutReplyHappens` | crates/usbipd/src/daemon.rs:678-694 | for every submit, unlink of it and proper part of the reply there is a run in which the abort cuts the RET_SUBMIT there and the RET_UNLINK follows, so that the client cannot parse the stream |
| `SessionSafety.InflightExact` | crates/usbipd/src/daemon.rs:637-649 | with distinct seqnums, between iterations: every unfinished task that was not unlinked has its own map entry, and any further entry is of a task that had finished before its insert |
| `SessionSafety.InflightBound` | crates/usbipd/src/daemon.rs:637-649 | with distinct seqnums, in every reachable state the map has at most 256 entries beyond those left over by tasks that finished before their insert |
| `SessionRuns.LeftoversPileUp` | crates/usbipd/src/daemon.rs:634-649 | for every list of submits with distinct seqnums there is a run that leaves an entry for each of them and no live task |
| `SessionRuns.InflightUnbounded` | crates/usbipd/src/daemon.rs:642-649 | so for every n up to 2^32 some session has n entries |
| `SessionSafety.DrainComplete` | crates/usbipd/src/daemon.rs:701-712 | after the drain the map is empty and every task has finished or is both flagged and aborted |
| `SessionSafety.OutputFraming` | crates/usbipd/src/daemon.rs:774-814 | at any moment of any run, a client that remembers each submit's direction parses the socket into exactly the server's log and the unfinished tail if and only if no write was cut |
| `SessionProgress.SomeMove` | crates/usbipd/src/daemon.rs:508-815 | constructs an enabled step for every state that satisfies the invariant and has work left |
| `SessionProgress.NoInternalDeadlock` | crates/usbipd/src/daemon.rs:671-694 | in every reachable state with work left some step other than reading is enabled, an internal one unless a reply is being written or a transfer is on the device |
| `SessionProgress.QuiescentIsStuck` | crates/usbipd/src/daemon.rs:508-579 | conversely, a quiescent session can only read the next command or see the client go |
| `SessionProgress.BoundedWork` | crates/usbipd/src/daemon.rs:508-815 | every run that reads no further command is finite, with an explicit bound on its length |
| `SessionProgress.StuckIsQuiescent` | crates/usbipd/src/daemon.rs:508-815 | a reachable state is quiescent if and only if no step is enabled but the client's |
| `SessionProgress.SubmitsSettled` | crates/usbipd/src/daemon.rs:759-814 | in every reachable quiescent state each submit read has its reply in the log, or was flagged at its check, aborted, not joined, or could not be written |
| `SessionProgress.CanQuiesce` | crates/usbipd/src/daemon.rs:508-815 | from every state that satisfies the invariant the session can finish all its work |
| `SessionProgress.UnlinkWaitsOutTransfer` | crates/host-mac/src/lib.rs:750-771 | while any transfer holds the mutex of the cached endpoint, no continuation in which it does not return lets the unlink proceed or changes the locked map; the comment expects cancellation to unblock it |
| `SessionProgress.UnlinkProceedsIff` | crates/host-mac/src/lib.rs:750-771 | in every reachable state past the flag, the unlink can be answered without such a transfer returning if and only if it has no endpoint to cancel or nobody holds that mutex |
| `SessionProgress.UnlinkBlocks` | crates/usbipd/src/daemon.rs:671-680 | for every submit to an endpoint and every unlink of it a run from the start reaches a blocked unlink |
| `Inflight.Table.Insert` | crates/usbipd/src/daemon.rs:642-649 | the entry is put under its seqnum and nothing else changes |
| `Inflight.Table.Unlink` | crates/usbipd/src/daemon.rs:671-680 | the entry goes; its cancel flag and abort handle are raised and no other; the endpoint to cancel is its own, none for endpoint 0 |
| `Inflight.Table.Drain` | crates/usbipd/src/daemon.rs:701-712 | the table is emptied and every flag and abort handle in it is raised |
| `InflightRefines.Insert` | crates/usbipd/src/daemon.rs:642-649 | on the heap and in the step system an insert has the same effect |
| `InflightRefines.Unlink` | crates/usbipd/src/daemon.rs:671-680 | the locked part of an unlink leaves the heap table and its flags as the handler's steps leave the session's map and tasks |
| `InflightRefines.UnlinkLeads` | crates/usbipd/src/daemon.rs:671-680 | those steps, one by one, lead to that state |
| `InflightRefines.Drain` | crates/usbipd/src/daemon.rs:701-712 | the same for the drain |
| `InflightRefines.DrainLeads` | crates/usbipd/src/daemon.rs:701-712 | whatever order the map is drained in, flagging and aborting one by one leads to one state |
| `Bytes.Be32Onto` | crates/usbip-proto/src/urb.rs:41-47 | four bytes are the encoding of the number they read as, signed or unsigned |
| `Bytes.NetworkOrder` | crates/usbip-proto/src/urb.rs:41-47 | numbers go out with the most significant byte first, negative ones in two's complement |
| `Urb.HeaderRoundTrip` | crates/usbip-proto/src/urb.rs:41-63 | the 20-byte header codec is a bijection |
| `Urb.SubmitRoundTrip` | crates/usbip-proto/src/urb.rs:85-112 | the 28-byte CMD_SUBMIT codec is a bijection, negative lengths included |
| `Urb.UnlinkRoundTrip` | crates/usbip-proto/src/urb.rs:151-164 | the 28-byte CMD_UNLINK decoder is a bijection |
| `Urb.CommandLayout` | crates/usbip-proto/src/urb.rs:41-164 | the offset of every field of header, CMD_SUBMIT and CMD_UNLINK |
| `Urb.ReplyLayout` | crates/usbip-proto/src/urb.rs:130-212 | the offset of every field of both replies, with command 3 or 4 and zeros elsewhere |
| `Urb.ShortReads` | crates/usbip-proto/src/urb.rs:49-157 | each decoder fails exactly on too few bytes and says how many it needs |
| `Urb.WriteRetSubmit` | crates/usbip-proto/src/urb.rs:184-195 | appends exactly the wire image of the reply, with seqnum, status, length and payload |
| `Urb.WriteRetUnlink` | crates/usbip-proto/src/urb.rs:198-212 | appends exactly the 48 bytes of the RET_UNLINK |
| `Framing.ReadCommand` | crates/usbipd/src/daemon.rs:521-575 | one turn of the read loop yields the command at the cursor or the reason to stop: disconnect, wrong devid, unknown command, missing payload |
| `Framing.UrbReadLoop` | crates/usbipd/src/daemon.rs:521-575 | the read loop recovers the command list, the bytes consumed and the reason to stop that the stream determines |
| `Framing.PayloadLengthIs` | crates/usbipd/src/daemon.rs:600-617 | direction 1 or a negative length takes no payload, anything else takes length bytes |
| `Framing.NextCommandIs` | crates/usbipd/src/daemon.rs:521-617 | by the bytes at their offsets: disconnect below 48 bytes, devid mismatch, unknown command, cut payload, or a submit or unlink and its exact size |
| `Framing.InputRoundTrip` | crates/usbipd/src/daemon.rs:521-617 | concatenated encodings of any list of commands, described by direction, length and payload alone, are read back as that list, whatever follows, and reading goes on with what follows |
| `Framing.InputExact` | crates/usbipd/src/daemon.rs:521-617 | such a stream is consumed to its last byte and ends as a disconnect |
| `Framing.ReadIsFaithful` | crates/usbipd/src/daemon.rs:521-617 | conversely, on any bytes, what was consumed is the encoding of what was recovered |
| `Framing.OutputRoundTrip` | crates/usbip-proto/src/urb.rs:184-212 | for every reply list in any order, followed by a proper prefix of one more, a client recovers the list and keeps the prefix |
| `Framing.NextReplyOfPartial` | crates/usbip-proto/src/urb.rs:184-212 | a started but unfinished reply is never taken for a complete one |
| `Framing.ReadKeepsLength` | crates/usbip-proto/src/urb.rs:184-212 | on any bytes a client accounts for each of them exactly once |
| `Transfer.PaddedIsLeastCover` | crates/host-mac/src/lib.rs:701-705 | the padded IN length is the least positive multiple of the packet size that covers the request |
| `Transfer.UnpaddedLength` | crates/host-mac/src/lib.rs:701-705 | OUT lengths and endpoints without a packet size are not padded |
| `Transfer.DataTransfer` | crates/host-mac/src/lib.rs:701-746 | IN data are the first bytes received, never more than asked for and as many as reported; OUT reports what the device accepted |
| `Transfer.RunTransfer` | crates/usbipd/src/daemon.rs:740-759 | control data are handed on and reported by direction; a data transfer goes to the header's endpoint address and its bytes are handed on up to the buffer length; failure exactly when the backend fails; results are within the length chain |
| `Transfer.ReplyLengths` | crates/usbipd/src/daemon.rs:774-801 | every reply stays within transfer_buffer_length, IN payload and actual_length agree, the i32 fallback is never used, EPIPE means failure, and EOVERFLOW is sent exactly for a control IN whose data outgrew the buffer |
| `Transfer.BuildReplyConveys` | crates/usbipd/src/daemon.rs:774-801 | status, length and payload of the reply from the result and the raw fields of the command |
| `Attach.DaemonState.TryAttach` | crates/usbipd/src/daemon.rs:147-157 | a guard exactly if nobody holds the busid; then the table gains exactly that entry |
| `Attach.AttachGuard.Drop` | crates/usbipd/src/daemon.rs:165-173 | dropping a guard frees its own slot and no other |
| `Attach.ExclusiveStep` | crates/usbipd/src/daemon.rs:439-491 | every step of any session keeps: table keys are exactly the busids of live guards, no two sessions share one |
| `Attach.BalancedStep` | crates/usbipd/src/daemon.rs:439-491 | every step keeps: a session has freed its slot as often as it claimed one, less the guard it holds |
| `Attach.AttachExclusivity` | crates/usbipd/src/daemon.rs:408-491 | both hold after every interleaving of sessions through open failure, reply failure, devid mismatch and disconnect |
| `Attach.FreedIsAttachable` | crates/usbipd/src/daemon.rs:165-173 | an import that is refused while the device is held succeeds once the holder leaves, whichever way it leaves |
| `Attach.FreeIsServed` | crates/usbipd/src/daemon.rs:439-491 | a permitted request for a device nobody holds, with open and reply succeeding, ends up serving it under its own peer label |
| `Attach.FailuresEnd` | crates/usbipd/src/daemon.rs:424-491 | refusals leave the table alone; a failed open, failed reply or end of session frees exactly the session's busid |
| `Events.Hub.PublishAdded` | crates/usbipd/src/events.rs:206-214 | snapshot and broadcast log gain the device |
| `Events.Hub.PublishRemoved` | crates/usbipd/src/events.rs:216-219 | the snapshot loses the busid and the log gains the line |
| `Events.Hub.SnapshotAdded` | crates/usbipd/src/events.rs:222-230 | lists every device of the snapshot, nothing else, in some order |
| `Events.ListingReplays` | crates/usbipd/src/events.rs:222-230 | replaying such a listing in any order gives the snapshot back |
| `Events.HubInvStep` | crates/usbipd/src/events.rs:206-234 | every step of publisher or subscriber, lagging included, keeps the relation between what a subscriber was sent and the hub's history |
| `Events.SubscriberConverges` | crates/usbipd/src/events.rs:297-324 | over every interleaving, a subscriber that has not lagged and has read up to its snapshot point holds exactly the hub's state at its cursor |
| `Events.LaggedSubscriberAgrees` | crates/usbipd/src/events.rs:193-196 | after any pattern of lost ranges it still agrees with the hub on every busid whose latest line it did not lose |
| `Events.LagIff` | crates/usbipd/src/events.rs:307-322 | a subscriber gets the next line exactly if it is 1 to 256 behind, and otherwise resumes 256 back |
| `Events.PublisherFinishes` | crates/usbipd/src/events.rs:206-219 | from every reachable state the publisher can send all it has, whatever the subscribers do |
| `Events.SubscriberCatchesUp` | crates/usbipd/src/events.rs:307-322 | a subscriber at most 256 behind can read on to the end and lose nothing |
| `Replay.ReplayConverges` | crates/usbipd/src/events.rs:297-324 | replaying a log suffix that the snapshot partly contains gives the current state |
| `Replay.ViewAgrees` | crates/usbipd/src/events.rs:307-322 | with losses, an observer past its snapshot is right about each key whose latest operation was received |
| `Replay.ViewLastReceived` | crates/usbipd/src/events.rs:307-322 | what it holds for a key is the last received operation on it |
| `Replay.ViewNoneReceived` | crates/usbipd/src/events.rs:307-322 | and what the snapshot said if it received none |
| `Hotplug.IdMap.NoteAdded` | crates/usbipd/src/events.rs:158-160 | the id is remembered with its device |
| `Hotplug.IdMap.NoteRemoved` | crates/usbipd/src/events.rs:169-171 | the id is forgotten; an unknown id gives nothing |
| `Hotplug.HandleEvent` | crates/usbipd/src/events.rs:373-387 | one event updates id map, snapshot and log as the event function says, and the snapshot stays what the log replays to |
| `Hotplug.UnplugLine` | crates/usbipd/src/events.rs:373-387 | connecting and disconnecting a device publishes its added line and then a removed line with its busid, vendor and product in their places |
| `Hotplug.UnknownIsSilent` | crates/usbipd/src/events.rs:381-385 | the removal of an unknown id publishes nothing |
| `Hotplug.RemovalsAnnounced` | crates/usbipd/src/events.rs:354-389 | over every run each removed line repeats busid, vendor and product of an earlier added line |
| `Hotplug.RunPublisher` | crates/usbipd/src/events.rs:354-389 | seeding and publisher loop together compute that function's fold over list and events |
| `Hotplug.IdsTracked` | crates/usbipd/src/events.rs:354-389 | the id map is the listed devices overlaid by the watched events, at every moment, replay window included |
| `Hotplug.HubConverges` | crates/usbipd/src/events.rs:349-389 | after any event at or past the list the hub is the index by busid of the live devices, if no live id is reported again under another busid |
| `Hotplug.ConvergesIff` | crates/usbipd/src/events.rs:373-387 | from the list on this holds after every event if and only if no live id is reported again under another busid |
| `Hotplug.MovedIdStaysTwice` | crates/usbipd/src/events.rs:374-380 | two events that do so leave the old busid in the hub |
| `Hotplug.HotplugConverges` | crates/usbipd/src/events.rs:349-389 | with the watch started before the list, the id map is then exactly the live ids and the published log replays to exactly the live busids |
| `Hotplug.IdsAreLive` | crates/usbipd/src/events.rs:354-389 | past the list the id map has exactly the live ids, each with its device's busid, vendor and product |
| `Hotplug.WatchAfterListMisses` | crates/usbipd/src/events.rs:349-352 | with the watch started after the list a removal can be missed for good |
| `Hotplug.SubscriberSeesWorld` | crates/usbipd/src/events.rs:297-389 | end to end: any subscriber that has not lagged and has read everything sent holds exactly the live devices |
| `EndpointCache.LookupDetermined` | crates/host-mac/src/lib.rs:783-825 | if no address is active on two interfaces, the uncached lookup has one outcome whatever the order of the walk |
| `EndpointCache.KindAtFirst` | crates/host-mac/src/lib.rs:813-821 | an address is found with the kind of the first endpoint that has it, and not found exactly if none has |
| `EndpointCache.KindOnIs` | crates/host-mac/src/lib.rs:804-822 | by positions in the descriptors: the interface's first setting with the selected number, or else its first setting, and in it the first endpoint at the address, with its own kind |
| `EndpointCache.ClaimCoherentIff` | crates/host-mac/src/lib.rs:872-897 | after a claim the caches agree with the device if and only if setting 0 was selected or the device was at 0 already |
| `EndpointCache.OpenCoherent` | crates/host-mac/src/lib.rs:827-870 | opening an endpoint that the cached settings name keeps the caches in agreement with the device |
| `EndpointCache.DataTransferRight` | crates/host-mac/src/lib.rs:677-690 | the endpoint used is one the uncached lookup finds in the device's own current settings, and the only one if addresses are unique; with all interfaces aligned its errors are those of the uncached lookup too |
| `EndpointCache.CacheUnobservable` | crates/host-mac/src/lib.rs:677-690 | with all interfaces aligned, unique addresses and no backend failure the answer is exactly that of the uncached lookup |
| `EndpointCache.InterceptsStandardRequests` | crates/host-mac/src/lib.rs:900-912 | the two intercepted requests are recognised exactly by their first two bytes, and value and index by their low bytes |
| `EndpointCache.SetInterfaceMoves` | crates/host-mac/src/lib.rs:622-637 | the interface gets the new setting on device and in cache, or the request fails and leaves the old one, or 0 if a first claim selected it; other interfaces keep theirs and exactly this one's endpoints go |
| `EndpointCache.SetInterfaceCoherent` | crates/host-mac/src/lib.rs:622-637 | agreement of caches and device survives SET_INTERFACE, failed or not |
| `EndpointCache.ControlMeans` | crates/host-mac/src/lib.rs:587-664 | by the bytes of a request: which configuration is selected, which setting of which interface, and that any other request changes nothing |
| `EndpointCache.ControlKeeps` | crates/host-mac/src/lib.rs:587-664 | agreement survives every control request, a SET_CONFIGURATION that fails and leaves the device anywhere included |
| `EndpointCache.RunRight` | crates/host-mac/src/lib.rs:587-897 | over every serial run of control and data requests, with failures at any call but the selection of setting 0 (or there too while no SET_CONFIGURATION fails), the caches agree with the device at every moment and every answer to a data transfer is right about the device at that moment |
| `EndpointCache.OpenedDevice.ByInterface` | crates/host-mac/src/lib.rs:794-803 | grouping gives each interface its alternate settings in descriptor order |
| `EndpointCache.OpenedDevice.EndpointKind` | crates/host-mac/src/lib.rs:783-825 | finds an owner under the cached settings, and reports not found or unsupported exactly when that is so |
| `EndpointCache.OpenedDevice.EnsureInterface` | crates/host-mac/src/lib.rs:872-897 | the new state of caches and device is that of `AfterClaim`, for success and both failures; `ClaimCoherentIff` says when it is coherent |
| `EndpointCache.OpenedDevice.EnsureEndpoint` | crates/host-mac/src/lib.rs:827-870 | a cached endpoint is reused, otherwise exactly the looked-up one is cached; failures cache nothing |
| `EndpointCache.OpenedDevice.DataTransfer` | crates/host-mac/src/lib.rs:677-690 | answers and leaves caches and device as some lookup under the cached settings determines |
| `EndpointCache.OpenedDevice.SetConfiguration` | crates/host-mac/src/lib.rs:595-621 | all caches are empty afterwards, on failure too |
| `EndpointCache.OpenedDevice.InvalidateInterfaceEndpoints` | crates/host-mac/src/lib.rs:666-669 | exactly the endpoints of that interface go |
| `EndpointCache.OpenedDevice.SetInterface` | crates/host-mac/src/lib.rs:622-637 | the new state is that of `AfterSetInterface`, for success and every failure; `SetInterfaceMoves` and `SetInterfaceCoherent` say what that means |
| `EndpointCache.OpenedDevice.ControlTransfer` | crates/host-mac/src/lib.rs:587-664 | dispatches the intercepted requests; every other leaves caches, configuration and settings as they were |
| `EndpointCache.OpenedDevice.Serve` | crates/host-mac/src/lib.rs:587-897 | gives one answer per request, each with the moments before and after it, and together these are a serial run from the initial to the final state |
| `EndpointCache.StaleSelection` | crates/host-mac/src/lib.rs:890-894 | the excluded failure matters: a concrete run in which the ignored error sends a transfer to an endpoint the device's current setting lacks |
| `Identity.ValueOfDecimal` | crates/host-mac/src/lib.rs:254-264 | printed port numbers read back as themselves |
| `Identity.ParseBusId` | crates/host-mac/src/lib.rs:159-168 | the loop computes the bus number, always from 1 to 255 |
| `Identity.DeriveBusDev` | crates/host-mac/src/lib.rs:133-146 | the loops compute both numbers, always from 1 to 255 |
| `Identity.NumberedBusKept` | crates/host-mac/src/lib.rs:159-162 | a bus id that is a number from 1 to 255 is its own bus number |
| `Identity.NumberedBusClamped` | crates/host-mac/src/lib.rs:159-162 | any numeric bus id up to 32 bits is clamped to 1 to 255, a longer one is hashed |
| `Identity.NumberSyntax` | crates/host-mac/src/lib.rs:160 | what counts as a number: digits after an optional plus sign, nothing else |
| `Identity.KnownHashes` | crates/host-mac/src/lib.rs:135-142 | known values of the 32-bit FNV-1 hash |
| `Identity.FoldBytes` | crates/host-mac/src/lib.rs:150-153 | the fold is the exclusive or of all four bytes |
| `Identity.DeviceNumberOf` | crates/host-mac/src/lib.rs:133-153 | the address enters the device number by exclusive or with a value that depends on the port chain alone |
| `Identity.DeviceNumberClash` | crates/host-mac/src/lib.rs:133-153 | on one port chain two different addresses share a device number if and only if their folds are 0 and 1, which is one pair of addresses |
| `Identity.HalvesOfDevid` | crates/host-mac/src/lib.rs:549-550 | splitting a devid gives the two numbers back |
| `Identity.RebuiltExactly` | crates/host-mac/src/lib.rs:549-550 | a client that keeps 8 bits of each number rebuilds the devid if and only if both are at most 255 |
| `Identity.BusidDetermines` | crates/host-mac/src/lib.rs:254-264 | two devices print the same busid if and only if they are on one bus and print the same ports |
| `Identity.BusidInjective` | crates/host-mac/src/lib.rs:254-264 | with ports from 1 the busid determines bus and port chain, and the address when the chain is empty |
| `Identity.BusidClash` | crates/host-mac/src/lib.rs:254-264 | with a port 0 exactly one kind of clash is possible: chain 0, a against the chainless device at address a |
| `Identity.BusidExamples` | crates/host-mac/src/lib.rs:254-264 | a busid with ports and one without, as printed |
| `Op.OpRoundTrip` | crates/usbip-proto/src/op.rs:37-55 | an op header decodes to itself whatever follows |
| `Op.StrRoundTrip` | crates/usbip-proto/src/op.rs:224-264 | a fixed-width string survives if and only if it fits and has no NUL |
| `Op.FixedStrIs` | crates/usbip-proto/src/op.rs:224-229 | every byte of a fixed-width string: the beginning of the string, then NULs |
| `Op.NumbersAt` | crates/usbip-proto/src/op.rs:128-140 | the offset of every number of a record |
| `Op.InterfaceLayout` | crates/usbip-proto/src/op.rs:67-72 | the bytes of every interface of a record |
| `Op.ShortReads` | crates/usbip-proto/src/op.rs:165-195 | each decoder fails exactly on too few bytes and says how many it needs |
| `Op.RecordRoundTrip` | crates/usbip-proto/src/op.rs:125-222 | a device record decodes to the device and its own size, whatever follows, if and only if the strings fit and there are at most 255 interfaces |
| `Op.LongRecordCutShort` | crates/usbip-proto/src/op.rs:139-143 | with more interfaces the decoder stops inside the interface list |
| `Op.EncodeOp` | crates/usbip-proto/src/op.rs:37-41 | appends exactly the 8 header bytes |
| `Op.EncodeHeaderOnly` | crates/usbip-proto/src/op.rs:148-163 | appends exactly the 312-byte fixed part |
| `Op.Encode` | crates/usbip-proto/src/op.rs:125-144 | appends exactly the record, interface by interface |
| `Op.Decode` | crates/usbip-proto/src/op.rs:165-222 | the cursor reads exactly the device, size or short-read error that the fixed offsets determine |
| `Op.EncodeRepImport` | crates/usbip-proto/src/op.rs:245-259 | appends exactly the import reply or the refusal |
| `Op.ImportReplyRead` | crates/usbip-proto/src/op.rs:245-259 | a client tells refusal from acceptance by the status and reads the numbers and busid back |
| `Op.ImportReplyHead` | crates/usbip-proto/src/op.rs:245-259 | an import reply begins with version 0x0111, code 3 and status 0 or 1 |
| `Devlist.ExportedFaithful` | crates/usbipd/src/daemon.rs:842-868 | no field is lost or swapped between a host device and its record |
| `Devlist.ExportedFields` | crates/usbipd/src/daemon.rs:842-868 | each field of a record is the device's field of that name, and the path is the prefix and the busid |
| `Devlist.Filter` | crates/usbipd/src/daemon.rs:87-92 | the policy loop keeps the permitted devices in order |
| `Devlist.ListedMembers` | crates/usbipd/src/daemon.rs:76-92 | a device is listed if and only if it is present, permitted and not a hub |
| `Devlist.ListedByPolicy` | crates/usbipd/src/daemon.rs:76-82 | per policy: nothing is listed, every device but hubs, or those whose vendor and product are a listed pair |
| `Devlist.ListedInOrder` | crates/usbipd/src/daemon.rs:87-92 | the list keeps the order of the host and leaves out no device that may be listed |
| `Devlist.EncodeRepDevlist` | crates/usbipd/src/daemon.rs:827-837 | the loop writes header, count and the records of the non-hub devices |
| `Devlist.HandleDevlist` | crates/usbipd/src/daemon.rs:392-399 | the reply is the one for the permitted non-hub devices |
| `Devlist.DevlistReplyHead` | crates/usbipd/src/daemon.rs:830-833 | the reply begins with version 0x0111, code 5, status 0 and the number of devices |
| `Devlist.DevlistRoundTrip` | crates/usbipd/src/daemon.rs:827-868 | a client reads the reply to its last byte and gets exactly the listed devices in order if and only if each survives the wire |
| `Devlist.ClientSeesListed` | crates/usbipd/src/daemon.rs:827-868 | the n-th record stands for the n-th listed device, field by field |
| `Devlist.CheckImport` | crates/usbipd/src/daemon.rs:414-437 | an import request is refused unless its busid is that of a device the policy permits |
| `Devlist.ImportByPolicy` | crates/usbipd/src/daemon.rs:424-437 | per policy: no import passes, any device found does, or one of a listed pair |
| `Devlist.FoundIsFirst` | crates/usbipd/src/daemon.rs:424 | an import is of the first device with the busid |
| `Devlist.ListedIsImportable` | crates/usbipd/src/daemon.rs:424-437 | with unique busids, a device is listed if and only if importing by its record's busid gets exactly it past the policy and it is not a hub |
| `Devlist.DevidEndToEnd` | crates/usbipd/src/daemon.rs:470-515 | for every bus id, port chain and address, a client that reads the import reply and keeps 8 bits of each number puts together the devid the URB loop checks |
| `Sudoers.InvalidChars` | crates/usbipd/src/sudoers.rs:49-51 | finds the first character that is not safe |
| `Sudoers.EscapeSudoers` | crates/usbipd/src/sudoers.rs:61-70 | the loop escapes exactly the special characters |
| `Sudoers.SpecialExactly` | crates/usbipd/src/sudoers.rs:61-66 | exactly the seven word terminators of sudoers(5) are escaped |
| `Sudoers.Render` | crates/usbipd/src/sudoers.rs:74-142 | accepts if and only if group, absolute binary and arguments are all nonempty safe words; otherwise reports the first problem in the order of the checks |
| `Sudoers.ProblemOrder` | crates/usbipd/src/sudoers.rs:74-110 | each problem is reported exactly if nothing looked at before it is wrong |
| `Sudoers.SafeExactly` | crates/usbipd/src/sudoers.rs:53-55 | exactly the letters, the digits and nine more characters are safe |
| `Sudoers.AcceptedIsHarmless` | crates/usbipd/src/sudoers.rs:40-51 | no white space, quote, wildcard or other character with a meaning to sudoers or a shell is in an accepted word |
| `Sudoers.UnescapeOfEscape` | crates/usbipd/src/sudoers.rs:61-70 | unescaping undoes escaping on every string |
| `Sudoers.EscapedWordRead` | crates/usbipd/src/sudoers.rs:57-70 | for a reader whose words end at spaces and unescaped special characters, an escaped word reads as itself |
| `Sudoers.CommandRead` | crates/usbipd/src/sudoers.rs:130-139 | such a reader gets exactly the binary and the arguments out of the command part |
| `Sudoers.RuleRead` | crates/usbipd/src/sudoers.rs:130-139 | it gets group, binary and arguments out of the rule if and only if the group has no special character, and otherwise reads no rule |
| `Sudoers.OneRule` | crates/usbipd/src/sudoers.rs:113-141 | the fragment has exactly one line that is neither blank nor a comment |
| `Sudoers.FragmentRoundTrip` | crates/usbipd/src/sudoers.rs:74-142 | reading the fragment of an accepted specification gives it back if and only if the group has neither colon nor equals sign |
| `Sudoers.UnreadableGroup` | crates/usbipd/src/sudoers.rs:78-83 | a specification that is accepted and whose rule cannot be read |
| `Sudoers.FragmentInjective` | crates/usbipd/src/sudoers.rs:74-142 | distinct accepted specifications give distinct fragments |

## Left out

- `crates/host-mac/src/capture.rs`, `maybe_capture`, `OpenedDevice::drop` and release at shutdown: calls into IOKit with no behaviour of their own to prove.
- nusb and tokio internals: a transfer returns some result within its timeout, a broadcast channel is an ordered log of which a slow reader can lose a range, an abort takes effect where a task is suspended. Poisoned mutexes and the size of the blocking thread pool are not modelled.
- Concurrent SET_INTERFACE against an endpoint being opened: the cache is proved for serial operation; opening checks and inserts in separate critical sections.
- Control requests other than the two intercepted ones are taken not to change configuration or alternate settings of the device.
- Equality of device numbers between a device list and a later import: the address is hashed and may change on re-enumeration.
- Isochronous transfers: the server does not read packet descriptors.
- Lossy UTF-8 decoding of received strings: strings are their bytes, with ASCII in mind.
- Sockets, listeners, peer labels, loopback checks, command line, logging, JSON lines of the event socket and `speed_to_usbip`: easy members around the core.
- Manufacturer, product and serial strings of a device: they are not sent over USB/IP.
- Error messages and comment lines: `Render` and the read loop report which check failed, not its wording, and of the comment lines of the sudoers fragment it is only proved that they are comments.
- SessionSafety.InflightExact: assumes distinct submit seqnums, because map entries are keyed by seqnum alone; so do SessionSafety.InflightBound, SessionSafety.DrainComplete and SessionSafety.OutputFraming.
- SessionSafety.PermitConservation: counts permits, not threads, because an abort returns the permit while the blocking closure runs on.
- Hotplug.HotplugConverges: assumes at most one live device id per busid, as one port holds one device, and that no live id is reported again under another busid, without which it fails; so do Hotplug.HubConverges and Hotplug.SubscriberSeesWorld. Hotplug.ConvergesIff is exact for events past the list and assumes the second of those before it.
- EndpointCache.SetInterfaceMoves: takes a failed `set_alt_setting` to leave the device's setting as it was, while a failed SET_CONFIGURATION may leave anything.
- Devlist.DevlistRoundTrip: assumes at most 2^32 - 1 listed devices, beyond which the count is capped.
- Devlist.ListedIsImportable: assumes unique busids, because import takes the first match.
