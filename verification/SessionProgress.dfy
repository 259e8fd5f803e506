/** Progress of URB sessions: no internal deadlock, bounded work between commands, and quiescence. */
module SessionProgress {
  import opened Bytes
  import opened Urb
  import opened Framing
  import opened Transfer
  import opened UrbSession
  import opened SessionInvariants
  import opened SessionSafety
  import opened SessionRuns

  // ----- no step is missing -----

  /** Nothing left to do but wait for the client: the loop reads or is gone, and every task is over. */
  predicate Quiescent(s: State) {
    && (s.loop.Reading? || s.loop.Stopped?) && s.writer.Free?
    && forall t | 0 <= t < |s.tasks| :: Over(s.tasks[t].pc) && s.tasks[t].closure.Returned?
  }

  predicate OnDevice(s: State) {
    exists t | 0 <= t < |s.tasks| :: s.tasks[t].closure.Holding? || s.tasks[t].closure.Control?
  }

  /** Steps that are up to the client sending, the client reading replies, or the device. */
  predicate External(a: Action) {
    || a.ReadNext? || a.Disconnect?
    || a.UnlinkSend? || a.UnlinkFail? || a.Send? || a.SendFail?
    || a.ClosureReturn?
  }

  /** What `cancel_endpoint` would find in the endpoint cache for the unlinked task. */
  predicate CancelsCached(s: State, a: Action, cached: nat) {
    a.UnlinkCancel? && s.loop.UnlinkFlagged? && s.loop.t < |s.tasks| ==>
      a.hit == if EpAddr(s.tasks[s.loop.t].cmd.header) == 0 then None else Some(cached)
  }

  predicate GoodMove(input: seq<Command>, s: State, a: Action, cached: nat) {
    && Enabled(input, s, a) && !a.ReadNext? && !a.Disconnect? && CancelsCached(s, a, cached)
    && (s.writer.Free? && !OnDevice(s) ==> !External(a))
  }

  /** An endpoint mutex is free, or its holder is on the device and will return. */
  lemma EndpointMove(input: seq<Command>, s: State, obj: nat, cached: nat) returns (a: Action)
    requires Structure(input, s) && !EndpointFree(s, obj)
    ensures GoodMove(input, s, a, cached) && a.ClosureReturn?
  {
    var t :| 0 <= t < |s.tasks| && s.tasks[t].closure == Holding(obj);
    assert TaskOk(s.tasks[t]);
    hide TaskOk, ReplyBytes, Plausible;
    a := ClosureReturn(t, None);
    assert OnDevice(s);
  }

  lemma ClosureMove(input: seq<Command>, s: State, t: nat, cached: nat) returns (a: Action)
    requires Structure(input, s) && t < |s.tasks| && !s.tasks[t].closure.Returned?
    ensures GoodMove(input, s, a, cached)
  {
    assert TaskOk(s.tasks[t]);
    hide Structure, ReplyBytes, Plausible;
    match s.tasks[t].closure
    case Queued => a := ClosureStart(t, 0);
    case Waiting(obj) =>
      if EndpointFree(s, obj) {
        a := ClosureGrab(t);
      } else {
        a := EndpointMove(input, s, obj, cached);
      }
    case Holding(_) =>
      a := ClosureReturn(t, None);
      assert OnDevice(s);
    case Control =>
      a := ClosureReturn(t, None);
      assert OnDevice(s);
  }

  /** Whoever holds the writer is writing: it waits for the client only. */
  lemma WriterMove(input: seq<Command>, s: State, cached: nat) returns (a: Action)
    requires Structure(input, s) && Locks(s) && !s.writer.Free?
    ensures GoodMove(input, s, a, cached)
  {
    if s.writer.ByLoop? {
      hide TaskOk, ReplyBytes;
      a := UnlinkSend(1);
    } else {
      assert TaskOk(s.tasks[s.writer.t]);
      hide TaskOk, ReplyBytes;
      a := Send(s.writer.t, 1);
    }
  }

  lemma TaskMove(input: seq<Command>, s: State, t: nat, cached: nat) returns (a: Action)
    requires Structure(input, s) && Locks(s) && t < |s.tasks| && !MapLocked(s.loop)
    requires !Over(s.tasks[t].pc) && s.tasks[t].closure.Returned?
    ensures GoodMove(input, s, a, cached)
  {
    assert TaskOk(s.tasks[t]);
    if !s.writer.Free? {
      a := WriterMove(input, s, cached);
    } else {
      hide Structure, ReplyBytes, Plausible, ReplyFor, EndpointFree;
      match s.tasks[t].pc
      case Transferring => a := Resume(t);
      case Transferred(_) => a := Check(t);
      case Ready(_) => a := Grab(t);
      case Leaving => a := SelfRemove(t);
      case Removed => a := Finish(t);
    }
  }

  lemma MapKeys(m: map<u32, nat>) returns (keys: seq<u32>)
    ensures IsDrainOf(keys, m)
  {
    if m == map[] {
      keys := [];
    } else {
      var q :| q in m;
      var rest := m - {q};
      assert m.Keys == rest.Keys + {q} && |m| == |m.Keys| && |rest| == |rest.Keys|;
      var more := MapKeys(rest);
      keys := [q] + more;
    }
  }

  lemma UnlinkMove(input: seq<Command>, s: State, cached: nat) returns (a: Action)
    requires Structure(input, s) && MapLocked(s.loop)
    ensures GoodMove(input, s, a, cached)
  {
    hide TaskOk, ReplyBytes;
    match s.loop
    case UnlinkHit(_, _) => a := UnlinkFlag;
    case UnlinkCancelled(_, _) => a := UnlinkAbort;
    case UnlinkFlagged(_, t) =>
      if EpAddr(s.tasks[t].cmd.header) == 0 {
        a := UnlinkCancel(None);
      } else if EndpointFree(s, cached) {
        a := UnlinkCancel(Some(cached));
      } else {
        a := EndpointMove(input, s, cached, cached);
      }
  }

  lemma LoopMove(input: seq<Command>, s: State, cached: nat) returns (a: Action)
    requires Structure(input, s) && s.writer.Free? && !MapLocked(s.loop)
    requires !s.loop.Reading? && !s.loop.Stopped? && !s.loop.UnlinkWriting?
    requires s.loop.Acquiring? ==> s.permits > 0
    ensures GoodMove(input, s, a, cached)
  {
    hide TaskOk, ReplyBytes, EndpointFree, EpAddr;
    match s.loop
    case Acquiring(_) => a := Acquire;
    case Permitted(_) => a := Spawn;
    case Spawned(_) => a := Insert;
    case UnlinkPending(_, _) => a := UnlinkTake;
    case UnlinkReply(_) => a := UnlinkGrab;
    case Draining =>
      var keys := MapKeys(s.inflight);
      a := DrainTake(keys);
    case DrainHit(p) => a := if p == [] then DrainDone else DrainFlag;
    case DrainFlagged(_, _) => a := DrainAbort;
  }

  /** Until the session is quiescent some step other than reading a command is enabled. */
  lemma SomeMove(input: seq<Command>, s: State, cached: nat) returns (a: Action)
    requires Inv(input, s) && !Quiescent(s)
    ensures GoodMove(input, s, a, cached)
  {
    hide Structure, Log, Wire, Arrival, InflightMap, Cancellation, GoodMove, Over;
    if MapLocked(s.loop) {
      a := UnlinkMove(input, s, cached);
    } else if !s.writer.Free? {
      a := WriterMove(input, s, cached);
    } else if t :| 0 <= t < |s.tasks| && !s.tasks[t].closure.Returned? {
      a := ClosureMove(input, s, t, cached);
    } else if t :| 0 <= t < |s.tasks| && !Over(s.tasks[t].pc) {
      a := TaskMove(input, s, t, cached);
    } else {
      AllOverFreesPermits(s);
      a := LoopMove(input, s, cached);
    }
  }

  lemma {:induction false} NoneHeld(ts: seq<Task>)
    requires forall t | 0 <= t < |ts| :: Over(ts[t].pc)
    ensures Held(ts) == 0
  {
    if ts != [] {
      NoneHeld(ts[..|ts| - 1]);
    }
  }

  /** A loop that waits for a permit waits for a live task. */
  lemma AllOverFreesPermits(s: State)
    requires Permits(s) && forall t | 0 <= t < |s.tasks| :: Over(s.tasks[t].pc)
    ensures s.loop.Acquiring? ==> s.permits > 0
  {
    NoneHeld(s.tasks);
  }

  /**
   * No internal deadlock. In every reachable state that still has work, whatever endpoint object the
   * cache holds, some step is enabled; and if no reply is being written and nothing is on the device,
   * an internal step is.
   */
  lemma NoInternalDeadlock(input: seq<Command>, s: State, cached: nat)
    requires GoodInput(input) && Reachable(input, s) && !Quiescent(s)
    ensures exists a :: GoodMove(input, s, a, cached)
  {
    ReachableInv(input, s);
    hide Inv, Reachable, Quiescent, GoodMove;
    var a := SomeMove(input, s, cached);
    assert GoodMove(input, s, a, cached);
  }

  /** The other direction: a quiescent session only waits for its client. */
  lemma QuiescentIsStuck(input: seq<Command>, s: State, a: Action)
    requires Quiescent(s) && !a.ReadNext? && !a.Disconnect?
    ensures !Enabled(input, s, a)
  {
    hide EndpointFree, ReplyBytes, Plausible;
    assert TaskAction(a) && a.t < |s.tasks| ==> Over(s.tasks[a.t].pc) && s.tasks[a.t].closure.Returned?;
  }

  // ----- bounded work -----

  function ClosureRank(c: Closure): nat {
    match c
    case Queued => 3
    case Waiting(_) => 2
    case Returned(_) => 0
    case _ => 1
  }

  function PcRank(k: Task): nat {
    match k.pc
    case Transferring => 5 + HEADER_SIZE + (if k.cmd.Submit? then BufferLength(k.cmd.cmd) else 0)
    case Transferred(_) => 4 + HEADER_SIZE + (if k.cmd.Submit? then BufferLength(k.cmd.cmd) else 0)
    case Ready(r) => 3 + |ReplyBytes(r)|
    case Writing(r, sent) => 2 + (if sent < |ReplyBytes(r)| then |ReplyBytes(r)| - sent else 0)
    case Leaving => 2
    case Removed => 1
    case _ => 0
  }

  function TaskRank(k: Task): nat {
    ClosureRank(k.closure) + PcRank(k)
  }

  function LoopRank(l: LoopPc, entries: nat): nat {
    match l
    case Acquiring(c) => 8 + 2 * entries + TaskRank(NewTask(c))
    case Permitted(c) => 7 + 2 * entries + TaskRank(NewTask(c))
    case Spawned(_) => 6 + 2 * entries
    case Reading => 3 + 2 * entries
    case UnlinkPending(_, _) => 57 + 2 * entries
    case UnlinkHit(_, _) => 56 + 2 * entries
    case UnlinkFlagged(_, _) => 55 + 2 * entries
    case UnlinkCancelled(_, _) => 54 + 2 * entries
    case UnlinkReply(_) => 53 + 2 * entries
    case UnlinkWriting(_, sent) => 4 + 2 * entries + (if sent < HEADER_SIZE then HEADER_SIZE - sent else 0)
    case Draining => 2 + 2 * entries
    case DrainHit(p) => 1 + 2 * |p|
    case DrainFlagged(_, p) => 2 + 2 * |p|
    case Stopped => 0
  }

  /** An upper bound on the steps the session can still take without reading another command. */
  function Work(s: State): nat {
    LoopRank(s.loop, |s.inflight|) + Sum(s.tasks, TaskRank)
  }

  lemma TaskRankDrops(k: Task, a: Action)
    requires TaskOk(k) && TaskCan(k, a) && TaskAction(a)
    ensures TaskRank(TaskAfter(k, a)) < TaskRank(k)
  {
    if a.Check? {
      ReplyLengths(k.cmd, k.pc.result);
    }
  }

  lemma RemoveShrinks(m: map<u32, nat>, q: u32)
    ensures |m - {q}| <= |m|
  {
    assert (m - {q}).Keys == m.Keys - {q};
    if q in m.Keys {
      assert |m.Keys - {q}| == |m.Keys| - 1;
    } else {
      assert m.Keys - {q} == m.Keys;
    }
  }

  lemma InsertGrows(m: map<u32, nat>, q: u32, t: nat)
    ensures |m[q := t]| <= |m| + 1
  {
    assert m[q := t].Keys == m.Keys + {q};
  }

  lemma WorkDropsTask(input: seq<Command>, s: State, a: Action)
    requires Structure(input, s) && TaskEnabled(s, a)
    ensures Work(TaskStep(s, a)) < Work(s)
  {
    hide TaskOk, TaskRank, TaskAfter, TaskCan, ReplyBytes, Completes, Releases, EndpointFree;
    var k := s.tasks[a.t];
    assert TaskOk(k);
    TaskRankDrops(k, a);
    SumUpdate(s.tasks, TaskRank, a.t, TaskAfter(k, a));
    RemoveShrinks(s.inflight, Seqnum(k));
  }

  predicate LoopRankFalls(input: seq<Command>, s: State, a: Action)
    requires LoopEnabled(input, s, a)
  {
    LoopRank(LoopAfter(input, s, a), |InflightAfter(input, s, a)|) < LoopRank(s.loop, |s.inflight|)
  }

  lemma RankFallsSubmit(input: seq<Command>, s: State, a: Action)
    requires LoopEnabled(input, s, a) && (a.Acquire? || a.Insert?)
    ensures LoopRankFalls(input, s, a)
  {
    hide TaskRank;
    if a.Insert? {
      InsertGrows(s.inflight, Seqnum(s.tasks[s.loop.t]), s.loop.t);
    }
  }

  lemma RankFallsUnlink(input: seq<Command>, s: State, a: Action)
    requires LoopEnabled(input, s, a)
    requires a.UnlinkFlag? || a.UnlinkCancel? || a.UnlinkAbort? || a.UnlinkGrab? || a.UnlinkFail?
    ensures LoopRankFalls(input, s, a)
  {
    hide EndpointFree, EpAddr, TaskRank;
  }

  lemma RankFallsTake(input: seq<Command>, s: State)
    requires LoopEnabled(input, s, UnlinkTake)
    ensures LoopRankFalls(input, s, UnlinkTake)
  {
    hide TaskRank;
    RemoveShrinks(s.inflight, s.loop.target);
  }

  lemma RankFallsSend(input: seq<Command>, s: State, n: nat)
    requires LoopEnabled(input, s, UnlinkSend(n))
    ensures LoopRankFalls(input, s, UnlinkSend(n))
  {
    hide TaskRank;
  }

  lemma RankFallsDrain(input: seq<Command>, s: State, a: Action)
    requires LoopEnabled(input, s, a)
    requires a.Disconnect? || a.DrainTake? || a.DrainFlag? || a.DrainAbort? || a.DrainDone?
    ensures LoopRankFalls(input, s, a)
  {
    hide TaskRank;
  }

  lemma LoopRankDrops(input: seq<Command>, s: State, a: Action)
    requires LoopEnabled(input, s, a) && !a.ReadNext? && !a.Spawn?
    ensures LoopRankFalls(input, s, a)
  {
    assert !TaskAction(a);
    hide LoopRankFalls, LoopEnabled;
    match a
    case Acquire => RankFallsSubmit(input, s, a);
    case Insert => RankFallsSubmit(input, s, a);
    case UnlinkSend(n) => RankFallsSend(input, s, n);
    case UnlinkTake => RankFallsTake(input, s);
    case UnlinkFlag => RankFallsUnlink(input, s, a);
    case UnlinkCancel(_) => RankFallsUnlink(input, s, a);
    case UnlinkAbort => RankFallsUnlink(input, s, a);
    case UnlinkGrab => RankFallsUnlink(input, s, a);
    case UnlinkFail => RankFallsUnlink(input, s, a);
    case _ => RankFallsDrain(input, s, a);
  }

  lemma WorkDropsSpawn(input: seq<Command>, s: State)
    requires LoopEnabled(input, s, Spawn)
    ensures Work(LoopStep(input, s, Spawn)) < Work(s)
  {
    SumSnoc(s.tasks, TaskRank, NewTask(s.loop.cmd));
    hide ReplyBytes;
  }

  lemma WorkDropsLoop(input: seq<Command>, s: State, a: Action)
    requires Structure(input, s) && LoopEnabled(input, s, a) && !a.ReadNext?
    ensures Work(LoopStep(input, s, a)) < Work(s)
  {
    if a.Spawn? {
      WorkDropsSpawn(input, s);
    } else {
      hide LoopAfter, InflightAfter, TasksAfter, LoopEnabled, Structure, ReplyBytes;
      LoopFrame(input, s, a);
      LoopRankDrops(input, s, a);
      SumSame(s.tasks, TasksAfter(input, s, a), TaskRank);
    }
  }

  /** Every run that reads no further command is finite, and `Work` bounds its length. */
  lemma {:induction false} BoundedWork(input: seq<Command>, s: State, acts: seq<Action>)
    requires GoodInput(input) && Inv(input, s) && ValidRun(input, s, acts)
    requires forall i | 0 <= i < |acts| :: !acts[i].ReadNext?
    ensures |acts| + Work(Run(input, s, acts)) <= Work(s)
    decreases |acts|
  {
    hide Work, Structure, LoopEnabled, TaskEnabled, LoopStep, TaskStep, Locks, Permits, Log, Results, Wire, Arrival,
      InflightMap, Cancellation;
    if acts != [] {
      var a := acts[0];
      assert !a.ReadNext?;
      if LoopEnabled(input, s, a) {
        WorkDropsLoop(input, s, a);
      } else {
        WorkDropsTask(input, s, a);
      }
      InvStep(input, s, a);
      hide Inv;
      assert forall i | 0 <= i < |acts| - 1 :: acts[1..][i] == acts[i + 1];
      BoundedWork(input, Step(input, s, a), acts[1..]);
    }
  }

  /** And quiescence is always within reach, however the session stands. */
  lemma {:induction false} CanQuiesce(input: seq<Command>, s: State) returns (acts: seq<Action>)
    requires GoodInput(input) && Inv(input, s)
    ensures ValidRun(input, s, acts) && Quiescent(Run(input, s, acts))
    ensures forall i | 0 <= i < |acts| :: !acts[i].ReadNext? && !acts[i].Disconnect?
    decreases Work(s)
  {
    hide Inv, Work, Quiescent, Enabled, Step;
    if Quiescent(s) {
      acts := [];
    } else {
      var a := SomeMove(input, s, 0);
      InvStep(input, s, a);
      OneStep(input, s, a);
      BoundedWork(input, s, [a]);
      var more := CanQuiesce(input, Step(input, s, a));
      RunConcat(input, s, [a], more);
      acts := [a] + more;
    }
  }

  /** A run that only the client can extend has ended in a quiescent session, and conversely. */
  lemma StuckIsQuiescent(input: seq<Command>, s: State)
    requires GoodInput(input) && Reachable(input, s)
    ensures (forall a :: Enabled(input, s, a) ==> a.ReadNext? || a.Disconnect?) <==> Quiescent(s)
  {
    ReachableInv(input, s);
    hide Inv, Reachable, Enabled, Quiescent;
    if Quiescent(s) {
      forall a: Action | !a.ReadNext? && !a.Disconnect? ensures !Enabled(input, s, a) {
        QuiescentIsStuck(input, s, a);
      }
    } else {
      var a := SomeMove(input, s, 0);
    }
  }

  // ----- every submit is accounted for -----

  /** What became of a submit: its reply is in the log, or there is a reason why not. */
  predicate Settled(s: State, t: nat)
    requires t < |s.tasks|
  {
    var k := s.tasks[t];
    if k.pc.Aborted? then k.cancelled && k.abortRequested
    else
      match k.exit
      case Inside => false
      case JoinFailed => k.closure == Returned(None)
      case SawFlag => k.cancelled
      case ReplySent => Replied(s.log, t)
      case WriteFailed => true
  }

  /** Once the session is quiescent every submit read has a task, and each is settled. */
  lemma SubmitsSettled(input: seq<Command>, s: State)
    requires GoodInput(input) && Reachable(input, s) && Quiescent(s)
    ensures s.next <= |input| && TaskCommands(s.tasks) == Submits(input[..s.next])
    ensures forall t | 0 <= t < |s.tasks| :: Settled(s, t)
  {
    ReachableInv(input, s);
    hide Reachable, Results, Wire, Log, Permits, Locks, InflightMap, Cancellation, LoopOk, Replied;
    hide Plausible, ReplyFor, Framed, ReplyBytes;
    assert forall t | 0 <= t < |s.tasks| :: TaskOk(s.tasks[t]);
    assert TaskCommands(s.tasks) + [] == TaskCommands(s.tasks);
  }

  // ----- cancellation does not interrupt a transfer -----

  /** The unlink handler is past its flag and `cancel_endpoint` would lock a mutex that is held. */
  predicate Blocked(s: State, obj: nat) {
    && s.loop.UnlinkFlagged? && s.loop.t < |s.tasks|
    && EpAddr(s.tasks[s.loop.t].cmd.header) != 0 && !EndpointFree(s, obj)
  }

  /** `obj` is what the cache holds, and no transfer on it returns in this step. */
  predicate LetsRun(s: State, a: Action, obj: nat) {
    && CancelsCached(s, a, obj)
    && !(a.ClosureReturn? && a.t < |s.tasks| && s.tasks[a.t].closure == Holding(obj))
  }

  predicate LetsAllRun(input: seq<Command>, s: State, acts: seq<Action>, obj: nat)
    requires ValidRun(input, s, acts)
    decreases |acts|
  {
    acts == [] || (LetsRun(s, acts[0], obj) && LetsAllRun(input, Step(input, s, acts[0]), acts[1..], obj))
  }

  lemma BlockedLoop(input: seq<Command>, s: State, a: Action, obj: nat)
    requires Blocked(s, obj) && LetsRun(s, a, obj)
    ensures !LoopEnabled(input, s, a)
  {
    hide EpAddr, EndpointFree;
  }

  lemma BlockedTask(s: State, a: Action, obj: nat)
    requires Blocked(s, obj) && TaskEnabled(s, a) && LetsRun(s, a, obj)
    ensures var s' := TaskStep(s, a); Blocked(s', obj) && s'.loop == s.loop && s'.inflight == s.inflight
  {
    hide ReplyBytes, Plausible, EpAddr, PcAfter, ExitAfter, Completes, Releases;
    var h :| 0 <= h < |s.tasks| && s.tasks[h].closure == Holding(obj);
    assert TaskStep(s, a).tasks[h].closure == Holding(obj);
  }

  lemma BlockedStep(input: seq<Command>, s: State, a: Action, obj: nat)
    requires Blocked(s, obj) && Enabled(input, s, a) && LetsRun(s, a, obj)
    ensures var s' := Step(input, s, a); Blocked(s', obj) && s'.loop == s.loop && s'.inflight == s.inflight
  {
    hide Blocked, LetsRun, LoopEnabled, TaskEnabled, TaskStep;
    BlockedLoop(input, s, a, obj);
    BlockedTask(s, a, obj);
  }

  /**
   * `cancel_endpoint` is meant to make a blocked transfer return at once. It cannot: a transfer holds
   * the endpoint mutex, the unlinked one or another, so until it returns by itself the loop stays where
   * it is, with the map locked and unchanged.
   */
  lemma {:induction false} UnlinkWaitsOutTransfer(input: seq<Command>, s: State, acts: seq<Action>, obj: nat)
    requires Blocked(s, obj) && ValidRun(input, s, acts) && LetsAllRun(input, s, acts, obj)
    ensures var s' := Run(input, s, acts); Blocked(s', obj) && s'.loop == s.loop && s'.inflight == s.inflight
    decreases |acts|
  {
    hide Blocked, Enabled, Step, LetsRun;
    if acts != [] {
      BlockedStep(input, s, acts[0], obj);
      UnlinkWaitsOutTransfer(input, Step(input, s, acts[0]), acts[1..], obj);
    }
  }

  /** The unlink that `s` is handling has its RET_UNLINK out in `s'`, and the loop reads again. */
  predicate UnlinkAnswered(s: State, s': State)
    requires s.loop.UnlinkFlagged?
  {
    s'.loop.Reading? && |s'.log| > |s.log| && s'.log[|s'.log| - 1] == FromLoop(RetUnlink(s.loop.seqnum, 0))
  }

  predicate Harmless(a: Action) {
    !a.UnlinkCancel? && !a.ClosureReturn?
  }

  lemma {:induction false} HarmlessLetsRun(input: seq<Command>, s: State, acts: seq<Action>, obj: nat)
    requires ValidRun(input, s, acts) && forall i | 0 <= i < |acts| :: Harmless(acts[i])
    ensures LetsAllRun(input, s, acts, obj)
    decreases |acts|
  {
    hide Step, Enabled;
    if acts != [] {
      assert Harmless(acts[0]);
      assert forall i | 0 <= i < |acts| - 1 :: acts[1..][i] == acts[i + 1];
      HarmlessLetsRun(input, Step(input, s, acts[0]), acts[1..], obj);
    }
  }

  lemma UnlinkWrites(input: seq<Command>, s: State)
    requires s.loop.UnlinkReply? && s.writer.Free?
    ensures LoopEnabled(input, s, UnlinkGrab)
    ensures var s' := LoopStep(input, s, UnlinkGrab);
            s'.loop == UnlinkWriting(s.loop.seqnum, 0) && s'.log == s.log && s'.writer.ByLoop?
  {
  }

  lemma UnlinkWritten(input: seq<Command>, s: State, q: u32)
    requires s.loop == UnlinkWriting(q, 0)
    ensures LoopEnabled(input, s, UnlinkSend(HEADER_SIZE))
    ensures var s' := LoopStep(input, s, UnlinkSend(HEADER_SIZE));
            s'.loop.Reading? && s'.log == s.log + [FromLoop(RetUnlink(q, 0))]
  {
    hide ReplyBytes;
  }

  lemma ReplyWithFreeWriter(input: seq<Command>, s: State) returns (acts: seq<Action>)
    requires s.loop.UnlinkReply? && s.writer.Free?
    ensures ValidRun(input, s, acts) && forall i | 0 <= i < |acts| :: Harmless(acts[i])
    ensures var s' := Run(input, s, acts);
            s'.loop.Reading? && s'.log == s.log + [FromLoop(RetUnlink(s.loop.seqnum, 0))]
  {
    hide LoopStep, LoopEnabled;
    UnlinkWrites(input, s);
    var s1 := Step(input, s, UnlinkGrab);
    UnlinkWritten(input, s1, s.loop.seqnum);
    OneStep(input, s1, UnlinkSend(HEADER_SIZE));
    RunCons(input, s, UnlinkGrab, [UnlinkSend(HEADER_SIZE)]);
    acts := [UnlinkGrab] + [UnlinkSend(HEADER_SIZE)];
  }

  /** The RET_UNLINK gets out, after the reply some task may be writing. */
  lemma ReplyGetsOut(input: seq<Command>, s: State) returns (acts: seq<Action>)
    requires GoodInput(input) && Inv(input, s) && s.loop.UnlinkReply?
    ensures ValidRun(input, s, acts) && forall i | 0 <= i < |acts| :: Harmless(acts[i])
    ensures var s' := Run(input, s, acts);
            && s'.loop.Reading? && |s'.log| > |s.log|
            && s'.log[|s'.log| - 1] == FromLoop(RetUnlink(s.loop.seqnum, 0))
  {
    hide Structure, Permits, Log, Answered, Results, Wire, Arrival, InflightMap, Cancellation, TaskStep, TaskEnabled,
      LoopStep, LoopEnabled, ReplyBytes;
    if s.writer.Free? {
      acts := ReplyWithFreeWriter(input, s);
    } else {
      var a := TaskFinishesWrite(input, s, s.writer.t);
      var more := ReplyWithFreeWriter(input, Step(input, s, a));
      RunCons(input, s, a, more);
      acts := [a] + more;
    }
  }

  lemma CancelPasses(input: seq<Command>, s: State, obj: nat) returns (a: Action)
    requires s.loop.UnlinkFlagged? && s.loop.t < |s.tasks|
    requires EpAddr(s.tasks[s.loop.t].cmd.header) == 0 || EndpointFree(s, obj)
    ensures LoopEnabled(input, s, a) && LetsRun(s, a, obj)
    ensures var s' := LoopStep(input, s, a);
            s'.loop == UnlinkCancelled(s.loop.seqnum, s.loop.t) && s'.log == s.log && s'.tasks == s.tasks
  {
    hide EpAddr, EndpointFree;
    a := UnlinkCancel(if EpAddr(s.tasks[s.loop.t].cmd.header) == 0 then None else Some(obj));
  }

  lemma AbortPasses(input: seq<Command>, s: State)
    requires s.loop.UnlinkCancelled? && s.loop.t < |s.tasks|
    ensures LoopEnabled(input, s, UnlinkAbort)
    ensures var s' := LoopStep(input, s, UnlinkAbort); s'.loop == UnlinkReply(s.loop.seqnum) && s'.log == s.log
  {
  }

  lemma UnlinkProceeds(input: seq<Command>, s: State, obj: nat) returns (acts: seq<Action>)
    requires GoodInput(input) && Inv(input, s) && s.loop.UnlinkFlagged? && s.loop.t < |s.tasks|
    requires EpAddr(s.tasks[s.loop.t].cmd.header) == 0 || EndpointFree(s, obj)
    ensures ValidRun(input, s, acts) && LetsAllRun(input, s, acts, obj) && UnlinkAnswered(s, Run(input, s, acts))
  {
    hide Inv, LoopStep, LoopEnabled, TaskEnabled, TaskStep, LetsRun, Harmless;
    var a := CancelPasses(input, s, obj);
    var s1 := Step(input, s, a);
    InvStep(input, s, a);
    AbortPasses(input, s1);
    var s2 := Step(input, s1, UnlinkAbort);
    InvStep(input, s1, UnlinkAbort);
    var more := ReplyGetsOut(input, s2);
    RunCons(input, s1, UnlinkAbort, more);
    var rest := [UnlinkAbort] + more;
    AbortHarmless();
    HarmlessLetsRun(input, s1, rest, obj);
    RunCons(input, s, a, rest);
    acts := [a] + rest;
    assert acts[1..] == rest;
  }

  lemma AbortHarmless()
    ensures Harmless(UnlinkAbort)
  {
  }

  /**
   * Exactly when an unlink gets past its cancel and answers without any transfer on the cached endpoint
   * object returning: if there is no endpoint to cancel, or nobody holds the object's mutex.
   */
  lemma UnlinkProceedsIff(input: seq<Command>, s: State, obj: nat)
    requires GoodInput(input) && Reachable(input, s) && s.loop.UnlinkFlagged?
    ensures s.loop.t < |s.tasks|
    ensures (exists acts :: ValidRun(input, s, acts) && LetsAllRun(input, s, acts, obj)
                            && UnlinkAnswered(s, Run(input, s, acts)))
            <==> EpAddr(s.tasks[s.loop.t].cmd.header) == 0 || EndpointFree(s, obj)
  {
    ReachableInv(input, s);
    assert s.loop.t < |s.tasks|;
    hide Inv, Reachable, ValidRun, Run, LetsAllRun, EpAddr, EndpointFree;
    if EpAddr(s.tasks[s.loop.t].cmd.header) == 0 || EndpointFree(s, obj) {
      var acts := UnlinkProceeds(input, s, obj);
    } else {
      forall acts | ValidRun(input, s, acts) && LetsAllRun(input, s, acts, obj)
        ensures !UnlinkAnswered(s, Run(input, s, acts))
      {
        UnlinkWaitsOutTransfer(input, s, acts, obj);
      }
    }
  }

  /** And there are such sessions, for any submit to an endpoint, any unlink of it and any object. */
  lemma UnlinkBlocks(c: Command, u: Command, obj: nat) returns (s: State)
    requires c.Submit? && EpAddr(c.header) != 0 && u.Unlink? && u.unlink.unlinkSeqnum == c.header.seqnum
    ensures Reachable([c, u], s) && s.loop == UnlinkFlagged(u.header.seqnum, 0) && Blocked(s, obj)
  {
    hide EpAddr, Reachable;
    s := BlockedUnlinkHappens(c, u, obj);
  }
}
