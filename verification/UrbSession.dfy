/**
 * One URB session as a step system: the read loop, one task and one blocking closure per CMD_SUBMIT,
 * and what they share (in-flight map, permits, cancel flags, endpoint mutexes, the locked writer).
 * Every action is one atomic step; runs are arbitrary interleavings.
 */
module UrbSession {
  import opened Bytes
  import opened Urb
  import opened Framing
  import opened Transfer

  const MAX_INFLIGHT_URBS: nat := 256

  /** The blocking closure. `obj` names an endpoint object, that is, one endpoint mutex. */
  datatype Closure =
    | Queued
    | Waiting(obj: nat)                     // wants the endpoint mutex
    | Holding(obj: nat)                     // in the blocking transfer, mutex held
    | Control                               // in a control transfer, no mutex
    | Returned(result: Option<HostResult>)  // None: joining the closure failed

  /** The spawned task. It can be suspended, and so aborted, in Transferring, Ready and Writing only. */
  datatype TaskPc =
    | Transferring
    | Transferred(result: HostResult)       // before the cancel-flag check
    | Ready(reply: Reply)                   // past the check, wants the writer
    | Writing(reply: Reply, sent: nat)      // holds the writer
    | Leaving                               // run_submit returned
    | Removed                               // removed its own key from the map
    | Finished                              // permit dropped
    | Aborted                               // future dropped at an await point, permit with it

  /** How `run_submit` returned, if it did. */
  datatype Exit =
    | Inside
    | JoinFailed      // the closure could not be joined
    | SawFlag         // the cancel flag was up at the check
    | ReplySent       // the reply went out whole
    | WriteFailed     // the reply could not be written

  /** `taken`, `early` and `exit` are history: they guard no step. */
  datatype Task = Task(
    cmd: Command,
    pc: TaskPc,
    closure: Closure,
    cancelled: bool,
    abortRequested: bool,
    taken: bool,    // an unlink or the drain took its entry out of the map
    early: bool,    // it had removed its key before the loop inserted it
    exit: Exit)

  datatype LoopPc =
    | Reading
    | Acquiring(cmd: Command)
    | Permitted(cmd: Command)
    | Spawned(t: nat)
    | UnlinkPending(seqnum: u32, target: u32)
    | UnlinkHit(seqnum: u32, t: nat)        // map locked
    | UnlinkFlagged(seqnum: u32, t: nat)    // map locked, wants the endpoint mutex
    | UnlinkCancelled(seqnum: u32, t: nat)  // map locked
    | UnlinkReply(seqnum: u32)              // wants the writer
    | UnlinkWriting(seqnum: u32, sent: nat) // holds the writer
    | Draining
    | DrainHit(pending: seq<nat>)
    | DrainFlagged(t: nat, pending: seq<nat>)
    | Stopped

  datatype Owner = Free | ByLoop | ByTask(t: nat)

  datatype Entry = FromTask(t: nat, reply: Reply) | FromLoop(reply: Reply)

  datatype State = State(
    next: nat,                  // commands read so far
    loop: LoopPc,
    tasks: seq<Task>,
    inflight: map<u32, nat>,
    permits: int,
    writer: Owner,
    out: seq<byte>,             // bytes on the socket
    log: seq<Entry>,            // replies completely written, in order
    torn: bool,                 // some reply was cut after its first byte
    lost: bool)                 // a RET_UNLINK could not be written

  datatype Action =
    | ReadNext
    | Disconnect
    | Acquire
    | Spawn
    | Insert
    | UnlinkTake
    | UnlinkFlag
    | UnlinkCancel(hit: Option<nat>)
    | UnlinkAbort
    | UnlinkGrab
    | UnlinkSend(n: nat)
    | UnlinkFail
    | DrainTake(keys: seq<u32>)
    | DrainFlag
    | DrainAbort
    | DrainDone
    | ClosureStart(t: nat, obj: nat)
    | ClosureGrab(t: nat)
    | ClosureReturn(t: nat, result: Option<HostResult>)
    | Resume(t: nat)
    | Check(t: nat)
    | Grab(t: nat)
    | Send(t: nat, n: nat)
    | SendFail(t: nat)
    | SelfRemove(t: nat)
    | Finish(t: nat)
    | AbortLands(t: nat)

  function Init(): State {
    State(0, Reading, [], map[], MAX_INFLIGHT_URBS, Free, [], [], false, false)
  }

  function Seqnum(k: Task): u32 {
    k.cmd.header.seqnum
  }

  /** `ep_addr` of the in-flight entry; 0 means there is no endpoint to cancel. */
  function EpAddr(h: UrbHeader): byte {
    if h.ep == 0 then 0 else h.ep % 16 + (if DirIn(h) then 0x80 else 0)
  }

  /** An entry names the endpoint of the task's own transfer, none for control transfers. */
  lemma EpAddrIs(h: UrbHeader)
    ensures h.ep == 0 ==> EpAddr(h) == 0
    ensures h.ep != 0 ==> EpAddr(h) == TransferAddress(h)
    ensures h.ep != 0 ==> EpAddr(h) % 0x80 == h.ep % 16 && (EpAddr(h) >= 0x80 <==> h.direction == 1)
  {
  }

  /** The unlink handler keeps the map locked from the removal to the abort. */
  predicate MapLocked(l: LoopPc) {
    l.UnlinkHit? || l.UnlinkFlagged? || l.UnlinkCancelled?
  }

  predicate EndpointFree(s: State, obj: nat) {
    forall t | 0 <= t < |s.tasks| :: s.tasks[t].closure != Holding(obj)
  }

  predicate Gone(pc: TaskPc) {
    pc.Removed? || pc.Finished?
  }

  predicate Over(pc: TaskPc) {
    pc.Finished? || pc.Aborted?
  }

  /** `keys` lists every key once: the arbitrary order in which a map is drained. */
  predicate IsDrainOf(keys: seq<u32>, m: map<u32, nat>) {
    && |keys| == |m|
    && (forall q | q in m :: q in keys)
    && (forall i | 0 <= i < |keys| :: keys[i] in m)
  }

  function Drained(keys: seq<u32>, m: map<u32, nat>): (r: seq<nat>)
    requires IsDrainOf(keys, m)
    ensures |r| == |m|
    ensures forall i | 0 <= i < |keys| :: r[i] == m[keys[i]]
  {
    seq(|keys|, i requires 0 <= i < |keys| => m[keys[i]])
  }

  lemma DrainedHas(keys: seq<u32>, m: map<u32, nat>, q: u32)
    requires IsDrainOf(keys, m) && q in m
    ensures m[q] in Drained(keys, m)
  {
    var i :| 0 <= i < |keys| && keys[i] == q;
    assert Drained(keys, m)[i] == m[q];
  }

  // ----- guards -----

  predicate LoopEnabled(input: seq<Command>, s: State, a: Action) {
    match a
    case ReadNext => s.loop.Reading? && s.next < |input|
    case Disconnect => s.loop.Reading?
    case Acquire => s.loop.Acquiring? && s.permits > 0
    case Spawn => s.loop.Permitted?
    case Insert => s.loop.Spawned? && s.loop.t < |s.tasks|
    case UnlinkTake => s.loop.UnlinkPending? &&
                       (s.loop.target in s.inflight ==> s.inflight[s.loop.target] < |s.tasks|)
    case UnlinkFlag => s.loop.UnlinkHit? && s.loop.t < |s.tasks|
    case UnlinkCancel(hit) =>
      && s.loop.UnlinkFlagged? && s.loop.t < |s.tasks|
      && (hit.Some? ==> EpAddr(s.tasks[s.loop.t].cmd.header) != 0 && EndpointFree(s, hit.value))
    case UnlinkAbort => s.loop.UnlinkCancelled? && s.loop.t < |s.tasks|
    case UnlinkGrab => s.loop.UnlinkReply? && s.writer.Free?
    case UnlinkSend(n) => s.loop.UnlinkWriting? && 1 <= n && s.loop.sent + n <= HEADER_SIZE
    case UnlinkFail => s.loop.UnlinkWriting?
    case DrainTake(keys) => s.loop.Draining? && IsDrainOf(keys, s.inflight)
    case DrainFlag => s.loop.DrainHit? && s.loop.pending != [] && s.loop.pending[0] < |s.tasks|
    case DrainAbort => s.loop.DrainFlagged? && s.loop.t < |s.tasks|
    case DrainDone => s.loop.DrainHit? && s.loop.pending == []
    case _ => false
  }

  /** The part of a task action's guard that looks at the task alone. */
  predicate TaskCan(k: Task, a: Action) {
    match a
    case ClosureStart(_, _) => k.closure.Queued?
    case ClosureGrab(_) => k.closure.Waiting?
    case ClosureReturn(_, r) =>
      && k.cmd.Submit?
      && (k.closure.Queued? || k.closure.Holding? || k.closure.Control?)
      && (k.closure.Queued? && r.Some? ==> r.value.HostFailed?)
      && (r.Some? ==> Plausible(k.cmd, r.value))
    case Resume(_) => k.pc.Transferring? && k.closure.Returned?
    case Check(_) => k.pc.Transferred? && k.cmd.Submit?
    case Grab(_) => k.pc.Ready?
    case Send(_, n) => k.pc.Writing? && 1 <= n && k.pc.sent + n <= |ReplyBytes(k.pc.reply)|
    case SendFail(_) => k.pc.Writing?
    case SelfRemove(_) => k.pc.Leaving?
    case Finish(_) => k.pc.Removed?
    case AbortLands(_) => k.abortRequested && (k.pc.Transferring? || k.pc.Ready? || k.pc.Writing?)
    case _ => false
  }

  predicate TaskAction(a: Action) {
    || a.ClosureStart? || a.ClosureGrab? || a.ClosureReturn? || a.Resume? || a.Check? || a.Grab?
    || a.Send? || a.SendFail? || a.SelfRemove? || a.Finish? || a.AbortLands?
  }

  predicate TaskEnabled(s: State, a: Action) {
    && TaskAction(a) && a.t < |s.tasks| && TaskCan(s.tasks[a.t], a)
    && (a.ClosureGrab? ==> EndpointFree(s, s.tasks[a.t].closure.obj))
    && (a.Grab? ==> s.writer.Free?)
    && (a.SelfRemove? ==> !MapLocked(s.loop))
  }

  predicate Enabled(input: seq<Command>, s: State, a: Action) {
    LoopEnabled(input, s, a) || TaskEnabled(s, a)
  }

  // ----- effects of the loop, one shared variable at a time -----

  /** The send of `n` more bytes puts the last byte of the reply on the socket. */
  predicate LoopCompletes(s: State, a: Action) {
    a.UnlinkSend? && s.loop.UnlinkWriting? && s.loop.sent + a.n == HEADER_SIZE
  }

  function LoopAfter(input: seq<Command>, s: State, a: Action): LoopPc
    requires LoopEnabled(input, s, a)
  {
    match a
    case ReadNext =>
      var c := input[s.next];
      if c.Submit? then Acquiring(c) else UnlinkPending(c.header.seqnum, c.unlink.unlinkSeqnum)
    case Disconnect => Draining
    case Acquire => Permitted(s.loop.cmd)
    case Spawn => Spawned(|s.tasks|)
    case Insert => Reading
    case UnlinkTake =>
      if s.loop.target in s.inflight then UnlinkHit(s.loop.seqnum, s.inflight[s.loop.target])
      else UnlinkReply(s.loop.seqnum)
    case UnlinkFlag => UnlinkFlagged(s.loop.seqnum, s.loop.t)
    case UnlinkCancel(_) => UnlinkCancelled(s.loop.seqnum, s.loop.t)
    case UnlinkAbort => UnlinkReply(s.loop.seqnum)
    case UnlinkGrab => UnlinkWriting(s.loop.seqnum, 0)
    case UnlinkSend(n) => if LoopCompletes(s, a) then Reading else UnlinkWriting(s.loop.seqnum, s.loop.sent + n)
    case UnlinkFail => Draining
    case DrainTake(keys) => DrainHit(Drained(keys, s.inflight))
    case DrainFlag => DrainFlagged(s.loop.pending[0], s.loop.pending[1..])
    case DrainAbort => DrainHit(s.loop.pending)
    case DrainDone => Stopped
  }

  function NewTask(cmd: Command): Task {
    Task(cmd, Transferring, Queued, false, false, false, false, Inside)
  }

  function MarkTaken(tasks: seq<Task>, order: seq<nat>): (r: seq<Task>)
    ensures |r| == |tasks|
    ensures forall t | 0 <= t < |r| :: r[t] == if t in order then tasks[t].(taken := true) else tasks[t]
  {
    seq(|tasks|, t requires 0 <= t < |tasks| => if t in order then tasks[t].(taken := true) else tasks[t])
  }

  function TasksAfter(input: seq<Command>, s: State, a: Action): seq<Task>
    requires LoopEnabled(input, s, a)
  {
    match a
    case Spawn => s.tasks + [NewTask(s.loop.cmd)]
    case Insert => s.tasks[s.loop.t := s.tasks[s.loop.t].(early := Gone(s.tasks[s.loop.t].pc))]
    case UnlinkTake =>
      if s.loop.target in s.inflight then
        var t := s.inflight[s.loop.target];
        s.tasks[t := s.tasks[t].(taken := true)]
      else s.tasks
    case UnlinkFlag => s.tasks[s.loop.t := s.tasks[s.loop.t].(cancelled := true)]
    case UnlinkAbort => s.tasks[s.loop.t := s.tasks[s.loop.t].(abortRequested := true)]
    case DrainTake(keys) => MarkTaken(s.tasks, Drained(keys, s.inflight))
    case DrainFlag =>
      var t := s.loop.pending[0];
      s.tasks[t := s.tasks[t].(cancelled := true)]
    case DrainAbort => s.tasks[s.loop.t := s.tasks[s.loop.t].(abortRequested := true)]
    case _ => s.tasks
  }

  function InflightAfter(input: seq<Command>, s: State, a: Action): map<u32, nat>
    requires LoopEnabled(input, s, a)
  {
    match a
    case Insert => s.inflight[Seqnum(s.tasks[s.loop.t]) := s.loop.t]
    case UnlinkTake => s.inflight - {s.loop.target}
    case DrainTake(_) => map[]
    case _ => s.inflight
  }

  function LoopStep(input: seq<Command>, s: State, a: Action): State
    requires LoopEnabled(input, s, a)
  {
    var r := if s.loop.UnlinkWriting? then RetUnlink(s.loop.seqnum, 0) else RetUnlink(0, 0);
    State(
      if a.ReadNext? then s.next + 1 else s.next,
      LoopAfter(input, s, a),
      TasksAfter(input, s, a),
      InflightAfter(input, s, a),
      if a.Acquire? then s.permits - 1 else s.permits,
      if a.UnlinkGrab? then ByLoop else if a.UnlinkFail? || LoopCompletes(s, a) then Free else s.writer,
      if a.UnlinkSend? then s.out + ReplyBytes(r)[s.loop.sent..s.loop.sent + a.n] else s.out,
      if LoopCompletes(s, a) then s.log + [FromLoop(r)] else s.log,
      s.torn || (a.UnlinkFail? && s.loop.sent > 0),
      s.lost || a.UnlinkFail?)
  }

  // ----- effects of a task or its closure -----

  predicate Completes(k: Task, a: Action) {
    a.Send? && k.pc.Writing? && k.pc.sent + a.n == |ReplyBytes(k.pc.reply)|
  }

  function PcAfter(k: Task, a: Action): TaskPc
    requires TaskCan(k, a)
  {
    match a
    case Resume(_) => (match k.closure.result case None => Leaving case Some(r) => Transferred(r))
    case Check(_) => if k.cancelled then Leaving else Ready(BuildReply(k.cmd, k.pc.result))
    case Grab(_) => Writing(k.pc.reply, 0)
    case Send(_, n) => if Completes(k, a) then Leaving else Writing(k.pc.reply, k.pc.sent + n)
    case SendFail(_) => Leaving
    case SelfRemove(_) => Removed
    case Finish(_) => Finished
    case AbortLands(_) => Aborted
    case _ => k.pc
  }

  function ClosureAfter(k: Task, a: Action): Closure
    requires TaskCan(k, a)
  {
    match a
    case ClosureStart(_, obj) => if k.cmd.header.ep == 0 then Control else Waiting(obj)
    case ClosureGrab(_) => Holding(k.closure.obj)
    case ClosureReturn(_, r) => Returned(r)
    case _ => k.closure
  }

  function ExitAfter(k: Task, a: Action): Exit
    requires TaskCan(k, a)
  {
    match a
    case Resume(_) => if k.closure.result.None? then JoinFailed else k.exit
    case Check(_) => if k.cancelled then SawFlag else k.exit
    case Send(_, _) => if Completes(k, a) then ReplySent else k.exit
    case SendFail(_) => WriteFailed
    case _ => k.exit
  }

  function TaskAfter(k: Task, a: Action): Task
    requires TaskCan(k, a)
  {
    k.(pc := PcAfter(k, a), closure := ClosureAfter(k, a), exit := ExitAfter(k, a))
  }

  /** The writer guard is dropped: the reply is out, the write failed, or the abort landed in it. */
  predicate Releases(k: Task, a: Action) {
    k.pc.Writing? && (Completes(k, a) || a.SendFail? || a.AbortLands?)
  }

  function TaskStep(s: State, a: Action): State
    requires TaskEnabled(s, a)
  {
    var k := s.tasks[a.t];
    State(
      s.next,
      s.loop,
      s.tasks[a.t := TaskAfter(k, a)],
      if a.SelfRemove? then s.inflight - {Seqnum(k)} else s.inflight,
      if a.Finish? || a.AbortLands? then s.permits + 1 else s.permits,
      if a.Grab? then ByTask(a.t) else if Releases(k, a) then Free else s.writer,
      if a.Send? then s.out + ReplyBytes(k.pc.reply)[k.pc.sent..k.pc.sent + a.n] else s.out,
      if Completes(k, a) then s.log + [FromTask(a.t, k.pc.reply)] else s.log,
      s.torn || (Releases(k, a) && !Completes(k, a) && k.pc.sent > 0),
      s.lost)
  }

  function Step(input: seq<Command>, s: State, a: Action): State
    requires Enabled(input, s, a)
  {
    if LoopEnabled(input, s, a) then LoopStep(input, s, a) else TaskStep(s, a)
  }

  // ----- runs -----

  predicate ValidRun(input: seq<Command>, s: State, acts: seq<Action>)
    decreases |acts|
  {
    acts == [] || (Enabled(input, s, acts[0]) && ValidRun(input, Step(input, s, acts[0]), acts[1..]))
  }

  function Run(input: seq<Command>, s: State, acts: seq<Action>): State
    requires ValidRun(input, s, acts)
    decreases |acts|
  {
    if acts == [] then s else Run(input, Step(input, s, acts[0]), acts[1..])
  }

  ghost predicate Reachable(input: seq<Command>, s: State) {
    exists acts :: ValidRun(input, Init(), acts) && Run(input, Init(), acts) == s
  }

  lemma OneStep(input: seq<Command>, s: State, a: Action)
    requires Enabled(input, s, a)
    ensures ValidRun(input, s, [a]) && Run(input, s, [a]) == Step(input, s, a)
  {
    hide Step, Enabled;
    assert [a][1..] == [] && ValidRun(input, Step(input, s, a), []);
  }

  lemma RunCons(input: seq<Command>, s: State, a: Action, acts: seq<Action>)
    requires Enabled(input, s, a) && ValidRun(input, Step(input, s, a), acts)
    ensures ValidRun(input, s, [a] + acts) && Run(input, s, [a] + acts) == Run(input, Step(input, s, a), acts)
  {
    hide Step, Enabled;
    assert ([a] + acts)[1..] == acts;
  }

  lemma {:induction false} RunConcat(input: seq<Command>, s: State, first: seq<Action>, second: seq<Action>)
    requires ValidRun(input, s, first) && ValidRun(input, Run(input, s, first), second)
    ensures ValidRun(input, s, first + second)
    ensures Run(input, s, first + second) == Run(input, Run(input, s, first), second)
    decreases |first|
  {
    hide Step, Enabled;
    if first == [] {
      assert first + second == second;
    } else {
      assert (first + second)[0] == first[0] && (first + second)[1..] == first[1..] + second;
      RunConcat(input, Step(input, s, first[0]), first[1..], second);
    }
  }
}
