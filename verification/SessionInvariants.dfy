/** What every step of a URB session keeps, one invariant per concern. */
module SessionInvariants {
  import opened Bytes
  import opened Urb
  import opened Framing
  import opened Transfer
  import opened UrbSession

  /** The read loop only hands on payloads of the announced length. */
  predicate Framed(c: Command) {
    c.Submit? ==> |c.payload| == if c.header.direction == 1 || c.cmd.length < 0 then 0 else c.cmd.length
  }

  predicate GoodInput(input: seq<Command>) {
    forall i | 0 <= i < |input| :: Framed(input[i])
  }

  // ----- structure: tasks and the loop's references to them -----

  /** A reply the client can parse as the answer to `c`. */
  predicate ReplyFor(c: Command, r: Reply)
    requires c.Submit?
  {
    && r.RetSubmit? && r.seqnum == c.header.seqnum
    && 0 <= r.actual && (r.actual > 0 ==> r.actual <= c.cmd.length)
    && (if c.header.direction == 1 then |r.payload| == r.actual else r.payload == [])
  }

  predicate TaskOk(k: Task) {
    && k.cmd.Submit? && Framed(k.cmd)
    && (k.closure.Returned? && k.closure.result.Some? ==> Plausible(k.cmd, k.closure.result.value))
    && (k.pc.Transferred? ==> Plausible(k.cmd, k.pc.result))
    && (k.pc.Ready? || k.pc.Writing? ==> ReplyFor(k.cmd, k.pc.reply))
    && (k.pc.Writing? ==> k.pc.sent < |ReplyBytes(k.pc.reply)|)
    && (k.exit.Inside? <==> !k.pc.Leaving? && !Gone(k.pc))
    && (k.exit.JoinFailed? ==> k.closure == Returned(None))
    && (k.exit.SawFlag? ==> k.cancelled)
    && (k.abortRequested ==> k.cancelled)
    && (k.cancelled ==> k.taken)
    && (k.pc.Aborted? ==> k.abortRequested)
    && (k.early ==> Gone(k.pc))
  }

  predicate LoopOk(s: State) {
    var n := |s.tasks|;
    match s.loop
    case Acquiring(c) => c.Submit? && Framed(c)
    case Permitted(c) => c.Submit? && Framed(c)
    case Spawned(t) => t == n - 1 && !s.tasks[t].taken && !s.tasks[t].early
    case UnlinkHit(_, t) => t < n && s.tasks[t].taken
    case UnlinkFlagged(_, t) => t < n && s.tasks[t].cancelled
    case UnlinkCancelled(_, t) => t < n && s.tasks[t].cancelled
    case UnlinkWriting(_, sent) => sent < HEADER_SIZE
    case DrainHit(p) => forall i | 0 <= i < |p| :: p[i] < n && s.tasks[p[i]].taken
    case DrainFlagged(t, p) =>
      && t < n && s.tasks[t].cancelled
      && forall i | 0 <= i < |p| :: p[i] < n && s.tasks[p[i]].taken
    case _ => true
  }

  predicate Structure(input: seq<Command>, s: State) {
    && s.next <= |input|
    && (forall t | 0 <= t < |s.tasks| :: TaskOk(s.tasks[t]))
    && LoopOk(s)
    && (forall q | q in s.inflight :: s.inflight[q] < |s.tasks|)
  }

  // ----- frames: what each kind of step may change -----

  /** A task step leaves to the loop what the loop sets, and passes through each stage in order. */
  lemma TaskFrame(k: Task, a: Action)
    requires TaskCan(k, a) && TaskAction(a)
    ensures var k' := TaskAfter(k, a);
            && k'.cmd == k.cmd && k'.taken == k.taken && k'.early == k.early
            && k'.cancelled == k.cancelled && k'.abortRequested == k.abortRequested
            && (Gone(k'.pc) <==> Gone(k.pc) || a.SelfRemove?)
            && (a.SelfRemove? ==> k.pc.Leaving? && k'.pc.Removed?)
            && (k'.pc.Aborted? ==> k.pc.Aborted? || k.abortRequested)
            && (k'.pc.Writing? <==> a.Grab? || (k.pc.Writing? && !Releases(k, a)))
            && (a.Grab? ==> k.pc.Ready?)
            && PermitOf(k) == PermitOf(k') + (if a.Finish? || a.AbortLands? then 1 else 0)
  {
    hide ReplyBytes, Plausible, BuildReply;
  }

  /** The loop never touches a task's own progress, and what it sets stays set. */
  lemma LoopFrame(input: seq<Command>, s: State, a: Action)
    requires LoopEnabled(input, s, a)
    ensures var ts := TasksAfter(input, s, a);
            && (if a.Spawn? then ts == s.tasks + [NewTask(s.loop.cmd)] else |ts| == |s.tasks|)
            && forall t | 0 <= t < |s.tasks| ::
                 && ts[t].cmd == s.tasks[t].cmd && ts[t].pc == s.tasks[t].pc
                 && ts[t].closure == s.tasks[t].closure && ts[t].exit == s.tasks[t].exit
                 && (s.tasks[t].taken ==> ts[t].taken)
                 && (s.tasks[t].cancelled ==> ts[t].cancelled)
                 && (s.tasks[t].abortRequested ==> ts[t].abortRequested)
                 && (a.UnlinkTake? || a.DrainTake? || ts[t].taken == s.tasks[t].taken)
                 && (a.Insert? || ts[t].early == s.tasks[t].early)
  {
    hide EpAddr, EndpointFree;
  }

  lemma TaskOkAfter(k: Task, a: Action)
    requires TaskOk(k) && TaskCan(k, a) && TaskAction(a)
    ensures TaskOk(TaskAfter(k, a))
  {
    if a.Check? {
      ReplyLengths(k.cmd, k.pc.result);
    }
    hide ReplyBytes, Plausible, BuildReply;
  }

  lemma TasksOkLoop(input: seq<Command>, s: State, a: Action)
    requires Structure(input, s) && LoopEnabled(input, s, a)
    ensures var ts := TasksAfter(input, s, a); forall t | 0 <= t < |ts| :: TaskOk(ts[t])
  {
    hide ReplyBytes, Plausible, ReplyFor, Framed, EpAddr, EndpointFree;
  }

  lemma LoopOkUnlink(input: seq<Command>, s: State, a: Action)
    requires Structure(input, s) && LoopEnabled(input, s, a)
    requires
      || a.UnlinkTake? || a.UnlinkFlag? || a.UnlinkCancel? || a.UnlinkAbort?
      || a.UnlinkGrab? || a.UnlinkSend? || a.UnlinkFail?
    ensures LoopOk(LoopStep(input, s, a))
  {
    hide ReplyBytes, Framed, EpAddr, EndpointFree, TaskOk, InflightAfter;
  }

  lemma LoopOkDrainTake(input: seq<Command>, s: State, keys: seq<u32>)
    requires Structure(input, s) && LoopEnabled(input, s, DrainTake(keys))
    ensures LoopOk(LoopStep(input, s, DrainTake(keys)))
  {
    hide TaskOk;
    var s', order := LoopStep(input, s, DrainTake(keys)), Drained(keys, s.inflight);
    assert s'.tasks == MarkTaken(s.tasks, order) && s'.loop == DrainHit(order);
    hide LoopStep, LoopEnabled;
    forall i | 0 <= i < |order|
      ensures order[i] < |s.tasks| && s'.tasks[order[i]].taken
    {
      assert order[i] == s.inflight[keys[i]] && order[i] in order;
    }
  }

  lemma LoopOkDrain(input: seq<Command>, s: State, a: Action)
    requires Structure(input, s) && LoopEnabled(input, s, a)
    requires a.Disconnect? || a.DrainFlag? || a.DrainAbort? || a.DrainDone?
    ensures LoopOk(LoopStep(input, s, a))
  {
    hide TaskOk;
    if a.DrainFlag? {
      assert forall i | 0 <= i < |s.loop.pending| - 1 :: s.loop.pending[1..][i] == s.loop.pending[i + 1];
    }
  }

  lemma LoopOkSubmit(input: seq<Command>, s: State, a: Action)
    requires GoodInput(input) && Structure(input, s) && LoopEnabled(input, s, a)
    requires a.ReadNext? || a.Acquire? || a.Spawn? || a.Insert?
    ensures LoopOk(LoopStep(input, s, a))
  {
    hide ReplyBytes, Framed, EpAddr, EndpointFree, TaskOk, InflightAfter;
  }

  lemma LoopOkAfter(input: seq<Command>, s: State, a: Action)
    requires GoodInput(input) && Structure(input, s) && LoopEnabled(input, s, a)
    ensures LoopOk(LoopStep(input, s, a))
  {
    hide LoopOk, LoopStep, Structure;
    match a
    case ReadNext => LoopOkSubmit(input, s, a);
    case Acquire => LoopOkSubmit(input, s, a);
    case Spawn => LoopOkSubmit(input, s, a);
    case Insert => LoopOkSubmit(input, s, a);
    case Disconnect => LoopOkDrain(input, s, a);
    case DrainTake(keys) => LoopOkDrainTake(input, s, keys);
    case DrainFlag => LoopOkDrain(input, s, a);
    case DrainAbort => LoopOkDrain(input, s, a);
    case DrainDone => LoopOkDrain(input, s, a);
    case _ => LoopOkUnlink(input, s, a);
  }

  lemma LoopOkSame(s: State, s': State)
    requires LoopOk(s) && s'.loop == s.loop && |s'.tasks| == |s.tasks|
    requires forall t | 0 <= t < |s.tasks| ::
               && s'.tasks[t].taken == s.tasks[t].taken && s'.tasks[t].early == s.tasks[t].early
               && s'.tasks[t].cancelled == s.tasks[t].cancelled
    ensures LoopOk(s')
  {
    hide Framed;
  }

  lemma StructureLoop(input: seq<Command>, s: State, a: Action)
    requires GoodInput(input) && Structure(input, s) && LoopEnabled(input, s, a)
    ensures Structure(input, LoopStep(input, s, a))
  {
    LoopFrame(input, s, a);
    TasksOkLoop(input, s, a);
    LoopOkAfter(input, s, a);
    hide ReplyBytes, TaskOk, LoopOk, TasksAfter, LoopAfter, EndpointFree;
  }

  lemma StructureTask(input: seq<Command>, s: State, a: Action)
    requires Structure(input, s) && TaskEnabled(s, a)
    ensures Structure(input, TaskStep(s, a))
  {
    hide ReplyBytes, TaskOk, LoopOk, TaskAfter, TaskCan, Completes, Releases, EndpointFree;
    TaskFrame(s.tasks[a.t], a);
    TaskOkAfter(s.tasks[a.t], a);
    LoopOkSame(s, TaskStep(s, a));
  }

  // ----- locks -----

  /** The writer has one owner, and it is the one that is writing; an endpoint mutex has one holder. */
  predicate Locks(s: State) {
    && (forall t | 0 <= t < |s.tasks| :: s.tasks[t].pc.Writing? <==> s.writer == ByTask(t))
    && (s.writer.ByTask? ==> s.writer.t < |s.tasks|)
    && (s.loop.UnlinkWriting? <==> s.writer.ByLoop?)
    && (forall t, u | 0 <= t < u < |s.tasks| ::
          s.tasks[t].closure.Holding? ==> s.tasks[t].closure != s.tasks[u].closure)
  }

  lemma LocksLoop(input: seq<Command>, s: State, a: Action)
    requires Locks(s) && LoopEnabled(input, s, a)
    ensures Locks(LoopStep(input, s, a))
  {
    LoopFrame(input, s, a);
    hide ReplyBytes, TasksAfter, InflightAfter, EndpointFree;
  }

  lemma ClosureFrame(k: Task, a: Action)
    requires TaskCan(k, a) && TaskAction(a)
    ensures var c := TaskAfter(k, a).closure;
            c.Holding? ==> c == k.closure || (a.ClosureGrab? && k.closure.Waiting? && c.obj == k.closure.obj)
  {
    hide ReplyBytes, Plausible, BuildReply;
  }

  lemma LocksOneTask(s: State, s': State, t: nat)
    requires Locks(s) && t < |s.tasks| == |s'.tasks| && s'.loop == s.loop
    requires s'.tasks == s.tasks[t := s'.tasks[t]]
    requires s'.tasks[t].pc.Writing? <==> s'.writer == ByTask(t)
    requires
      || s'.writer == s.writer
      || (s.writer.Free? && s'.writer == ByTask(t)) || (s.writer == ByTask(t) && s'.writer.Free?)
    requires var c := s'.tasks[t].closure; c.Holding? ==> c == s.tasks[t].closure || EndpointFree(s, c.obj)
    ensures Locks(s')
  {
  }

  lemma LocksTask(s: State, a: Action)
    requires Locks(s) && TaskEnabled(s, a)
    ensures Locks(TaskStep(s, a))
  {
    TaskFrame(s.tasks[a.t], a);
    ClosureFrame(s.tasks[a.t], a);
    assert s.tasks[a.t].pc.Writing? <==> s.writer == ByTask(a.t);
    hide ReplyBytes, TaskAfter, TaskCan, Completes, Locks, EndpointFree;
    LocksOneTask(s, TaskStep(s, a), a.t);
  }

  // ----- permits -----

  function Sum(ts: seq<Task>, f: Task -> nat): nat {
    if ts == [] then 0 else Sum(ts[..|ts| - 1], f) + f(ts[|ts| - 1])
  }

  lemma {:induction false} SumUpdate(ts: seq<Task>, f: Task -> nat, t: nat, k: Task)
    requires t < |ts|
    ensures Sum(ts[t := k], f) + f(ts[t]) == Sum(ts, f) + f(k)
  {
    var n := |ts| - 1;
    if t < n {
      assert ts[t := k][..n] == ts[..n][t := k];
      SumUpdate(ts[..n], f, t, k);
    } else {
      assert ts[t := k][..n] == ts[..n];
    }
  }

  lemma SumSnoc(ts: seq<Task>, f: Task -> nat, k: Task)
    ensures Sum(ts + [k], f) == Sum(ts, f) + f(k)
  {
    assert (ts + [k])[..|ts|] == ts;
  }

  lemma {:induction false} SumSame(ts: seq<Task>, us: seq<Task>, f: Task -> nat)
    requires |ts| == |us| && forall t | 0 <= t < |ts| :: f(ts[t]) == f(us[t])
    ensures Sum(ts, f) == Sum(us, f)
  {
    if ts != [] {
      SumSame(ts[..|ts| - 1], us[..|us| - 1], f);
    }
  }

  function PermitOf(k: Task): nat {
    if Over(k.pc) then 0 else 1
  }

  function Held(ts: seq<Task>): nat {
    Sum(ts, PermitOf)
  }

  /** Permits are neither lost nor made: free, held by live tasks, or in the loop's hand. */
  predicate Permits(s: State) {
    && s.permits >= 0
    && s.permits + Held(s.tasks) + (if s.loop.Permitted? then 1 else 0) == MAX_INFLIGHT_URBS
  }

  lemma PermitsLoop(input: seq<Command>, s: State, a: Action)
    requires Structure(input, s) && Permits(s) && LoopEnabled(input, s, a)
    ensures Permits(LoopStep(input, s, a))
  {
    LoopFrame(input, s, a);
    hide ReplyBytes, TasksAfter, InflightAfter, EndpointFree, TaskOk, LoopOk;
    var s' := LoopStep(input, s, a);
    if a.Spawn? {
      SumSnoc(s.tasks, PermitOf, NewTask(s.loop.cmd));
    } else {
      SumSame(s.tasks, s'.tasks, PermitOf);
    }
  }

  lemma PermitsTask(input: seq<Command>, s: State, a: Action)
    requires Structure(input, s) && Permits(s) && TaskEnabled(s, a)
    ensures Permits(TaskStep(s, a))
  {
    TaskFrame(s.tasks[a.t], a);
    hide ReplyBytes, TaskAfter, TaskCan, Completes, Releases, TaskOk, LoopOk, EndpointFree;
    SumUpdate(s.tasks, PermitOf, a.t, TaskAfter(s.tasks[a.t], a));
  }

  // ----- the reply log -----

  predicate Log(s: State) {
    && (forall i | 0 <= i < |s.log| ::
          match s.log[i]
          case FromTask(t, r) =>
            && t < |s.tasks| && s.tasks[t].exit.ReplySent?
            && s.tasks[t].cmd.Submit? && ReplyFor(s.tasks[t].cmd, r)
          case FromLoop(r) => r.RetUnlink? && r.status == 0)
    && (forall i, j | 0 <= i < j < |s.log| && s.log[i].FromTask? && s.log[j].FromTask? :: s.log[i].t != s.log[j].t)
  }

  lemma LogLoop(input: seq<Command>, s: State, a: Action)
    requires Structure(input, s) && Log(s) && LoopEnabled(input, s, a)
    ensures Log(LoopStep(input, s, a))
  {
    LoopFrame(input, s, a);
    hide ReplyBytes, TasksAfter, InflightAfter, EndpointFree, TaskOk, LoopOk, ReplyFor, LoopAfter;
  }

  lemma LogOneTask(s: State, s': State, t: nat)
    requires Log(s) && t < |s.tasks| == |s'.tasks| && s'.tasks == s.tasks[t := s'.tasks[t]]
    requires s'.tasks[t].cmd == s.tasks[t].cmd && (s.tasks[t].exit.ReplySent? ==> s'.tasks[t].exit.ReplySent?)
    requires s'.log == s.log ||
             (!s.tasks[t].exit.ReplySent? && s'.tasks[t].exit.ReplySent? && exists r :: LoggedBy(s, s', t, r))
    ensures Log(s')
  {
    hide ReplyFor;
  }

  predicate LoggedBy(s: State, s': State, t: nat, r: Reply)
    requires t < |s.tasks|
  {
    s'.log == s.log + [FromTask(t, r)] && s.tasks[t].cmd.Submit? && ReplyFor(s.tasks[t].cmd, r)
  }

  lemma LogTask(input: seq<Command>, s: State, a: Action)
    requires Structure(input, s) && Log(s) && TaskEnabled(s, a)
    ensures Log(TaskStep(s, a))
  {
    TaskFrame(s.tasks[a.t], a);
    assert TaskOk(s.tasks[a.t]);
    hide ReplyBytes, EndpointFree, Structure, ReplyFor, PcAfter, ClosureAfter, Plausible, Log;
    assert Completes(s.tasks[a.t], a) ==> LoggedBy(s, TaskStep(s, a), a.t, s.tasks[a.t].pc.reply);
    LogOneTask(s, TaskStep(s, a), a.t);
  }

  predicate Replied(log: seq<Entry>, t: nat) {
    exists i | 0 <= i < |log| :: log[i].FromTask? && log[i].t == t
  }

  /** A task that left because its reply was sent has it in the log. */
  predicate Answered(s: State) {
    forall t | 0 <= t < |s.tasks| && s.tasks[t].exit.ReplySent? :: Replied(s.log, t)
  }

  lemma RepliedStays(log: seq<Entry>, e: Entry, t: nat)
    ensures Replied(log, t) ==> Replied(log + [e], t)
    ensures e.FromTask? && e.t == t ==> Replied(log + [e], t)
  {
    var more := log + [e];
    assert more[|log|] == e;
    if Replied(log, t) {
      var i :| 0 <= i < |log| && log[i].FromTask? && log[i].t == t;
      assert more[i] == log[i];
    }
  }

  lemma AnsweredLoop(input: seq<Command>, s: State, a: Action)
    requires Answered(s) && LoopEnabled(input, s, a)
    ensures Answered(LoopStep(input, s, a))
  {
    LoopFrame(input, s, a);
    hide ReplyBytes, TasksAfter, InflightAfter, EndpointFree, LoopAfter, Replied;
    var s' := LoopStep(input, s, a);
    forall t | 0 <= t < |s'.tasks| && s'.tasks[t].exit.ReplySent? ensures Replied(s'.log, t) {
      if s'.log != s.log {
        RepliedStays(s.log, s'.log[|s.log|], t);
      }
    }
  }

  lemma AnsweredTask(s: State, a: Action)
    requires Answered(s) && TaskEnabled(s, a)
    ensures Answered(TaskStep(s, a))
  {
    hide ReplyBytes, EndpointFree, PcAfter, ClosureAfter, Plausible, BuildReply, Replied;
    var s', k := TaskStep(s, a), s.tasks[a.t];
    forall t | 0 <= t < |s'.tasks| && s'.tasks[t].exit.ReplySent? ensures Replied(s'.log, t) {
      if Completes(k, a) {
        RepliedStays(s.log, FromTask(a.t, k.pc.reply), t);
      }
    }
  }

  // ----- what the replies say -----

  /** The task's transfer returned, and the reply conveys what it returned. */
  predicate Conveyed(k: Task, r: Reply) {
    && k.cmd.Submit? && k.closure.Returned? && k.closure.result.Some?
    && Conveys(k.cmd, k.closure.result.value, r)
  }

  predicate TaskConveys(k: Task) {
    && (k.pc.Transferred? ==> k.closure == Returned(Some(k.pc.result)))
    && (k.pc.Ready? || k.pc.Writing? ==> Conveyed(k, k.pc.reply))
  }

  predicate LogConveys(s: State) {
    forall i | 0 <= i < |s.log| && s.log[i].FromTask? ::
      s.log[i].t < |s.tasks| && Conveyed(s.tasks[s.log[i].t], s.log[i].reply)
  }

  /** From the closure's result to the log nothing is made up or lost. */
  predicate Results(s: State) {
    (forall t | 0 <= t < |s.tasks| :: TaskConveys(s.tasks[t])) && LogConveys(s)
  }

  lemma ResultsLoop(input: seq<Command>, s: State, a: Action)
    requires Results(s) && LoopEnabled(input, s, a)
    ensures Results(LoopStep(input, s, a))
  {
    LoopFrame(input, s, a);
    hide ReplyBytes, TasksAfter, InflightAfter, EndpointFree, LoopAfter, LoopEnabled, TaskConveys, Conveyed;
    var s' := LoopStep(input, s, a);
    forall t | 0 <= t < |s'.tasks| ensures TaskConveys(s'.tasks[t]) {
      if t < |s.tasks| {
        SameProgressConveys(s.tasks[t], s'.tasks[t]);
      } else {
        NewConveys(s'.tasks[t]);
      }
    }
    forall i | 0 <= i < |s'.log| && s'.log[i].FromTask?
      ensures s'.log[i].t < |s'.tasks| && Conveyed(s'.tasks[s'.log[i].t], s'.log[i].reply)
    {
      ConveyedStays(s.tasks[s.log[i].t], s'.tasks[s.log[i].t], s.log[i].reply);
    }
  }

  lemma SameProgressConveys(k: Task, k': Task)
    requires TaskConveys(k) && k'.cmd == k.cmd && k'.pc == k.pc && k'.closure == k.closure
    ensures TaskConveys(k')
  {
    hide Conveys;
  }

  lemma NewConveys(k: Task)
    requires k.pc.Transferring?
    ensures TaskConveys(k)
  {
  }

  lemma TaskConveysAfter(k: Task, a: Action)
    requires TaskOk(k) && TaskConveys(k) && TaskCan(k, a) && TaskAction(a)
    ensures TaskConveys(TaskAfter(k, a))
    ensures k.closure.Returned? ==> TaskAfter(k, a).closure == k.closure
  {
    if a.Check? {
      PayloadLengthIs(k.cmd.header, k.cmd.cmd);
      BuildReplyConveys(k.cmd, k.pc.result);
    }
    hide ReplyBytes, Plausible, BuildReply, Conveys;
  }

  lemma ConveyedStays(k: Task, k': Task, r: Reply)
    requires k'.cmd == k.cmd && (k.closure.Returned? ==> k'.closure == k.closure)
    ensures Conveyed(k, r) ==> Conveyed(k', r)
  {
  }

  lemma ResultsTask(input: seq<Command>, s: State, a: Action)
    requires Structure(input, s) && Results(s) && TaskEnabled(s, a)
    ensures Results(TaskStep(s, a))
  {
    hide ReplyBytes, EndpointFree, LoopOk, TaskOk, TaskAfter, TaskCan, Releases, Conveyed, TaskConveys;
    var s', k := TaskStep(s, a), s.tasks[a.t];
    assert TaskOk(k) && TaskConveys(k);
    TaskFrame(k, a);
    TaskConveysAfter(k, a);
    WritingConveys(k);
    forall i | 0 <= i < |s'.log| && s'.log[i].FromTask?
      ensures s'.log[i].t < |s'.tasks| && Conveyed(s'.tasks[s'.log[i].t], s'.log[i].reply)
    {
      var r := s'.log[i].reply;
      ConveyedStays(k, TaskAfter(k, a), r);
    }
  }

  lemma WritingConveys(k: Task)
    requires TaskConveys(k)
    ensures k.pc.Writing? ==> Conveyed(k, k.pc.reply)
  {
  }

  // ----- the bytes on the socket -----

  function Replies(log: seq<Entry>): (r: seq<Reply>)
    ensures |r| == |log| && forall i | 0 <= i < |r| :: r[i] == log[i].reply
  {
    seq(|log|, i requires 0 <= i < |log| => log[i].reply)
  }

  /** What has gone out of the reply that is being written. */
  function Partial(s: State): seq<byte> {
    if s.loop.UnlinkWriting? && s.loop.sent <= HEADER_SIZE then
      ReplyBytes(RetUnlink(s.loop.seqnum, 0))[..s.loop.sent]
    else if s.writer.ByTask? && s.writer.t < |s.tasks| && s.tasks[s.writer.t].pc.Writing?
            && s.tasks[s.writer.t].pc.sent <= |ReplyBytes(s.tasks[s.writer.t].pc.reply)| then
      ReplyBytes(s.tasks[s.writer.t].pc.reply)[..s.tasks[s.writer.t].pc.sent]
    else []
  }

  /** Unless a reply was cut, the socket holds the logged replies and the one in progress; if one was, it holds more. */
  predicate Wire(s: State) {
    if s.torn then |s.out| > |WireBytes(Replies(s.log))| + |Partial(s)|
    else s.out == WireBytes(Replies(s.log)) + Partial(s)
  }

  lemma WireSnoc(log: seq<Entry>, e: Entry)
    ensures WireBytes(Replies(log + [e])) == WireBytes(Replies(log)) + ReplyBytes(e.reply)
  {
    hide ReplyBytes;
    assert Replies(log + [e])[..|log|] == Replies(log);
  }

  lemma Extend(base: seq<byte>, frame: seq<byte>, j: nat, k: nat)
    requires j <= k <= |frame|
    ensures (base + frame[..j]) + frame[j..k] == base + frame[..k]
    ensures k == |frame| ==> (base + frame[..j]) + frame[j..k] == base + frame
  {
    assert frame[..j] + frame[j..k] == frame[..k];
  }

  lemma WireUnlinkSend(input: seq<Command>, s: State, n: nat)
    requires s.loop.UnlinkWriting? && s.loop.sent < HEADER_SIZE && s.writer.ByLoop?
    requires Wire(s) && LoopEnabled(input, s, UnlinkSend(n))
    ensures Wire(LoopStep(input, s, UnlinkSend(n)))
  {
    hide ReplyBytes, WireBytes, TasksAfter, InflightAfter;
    var r, s' := RetUnlink(s.loop.seqnum, 0), LoopStep(input, s, UnlinkSend(n));
    assert s'.out == s.out + ReplyBytes(r)[s.loop.sent..s.loop.sent + n] && s'.torn == s.torn;
    assert Partial(s) == ReplyBytes(r)[..s.loop.sent];
    assert if s.loop.sent + n < HEADER_SIZE then s'.log == s.log && Partial(s') == ReplyBytes(r)[..s.loop.sent + n]
           else s'.log == s.log + [FromLoop(r)] && Partial(s') == [];
    hide LoopStep, Partial, LoopEnabled, Replies;
    Extend(WireBytes(Replies(s.log)), ReplyBytes(r), s.loop.sent, s.loop.sent + n);
    WireSnoc(s.log, FromLoop(r));
  }

  lemma WireQuiet(s: State, s': State)
    requires Wire(s) && !s.loop.UnlinkWriting? && !s'.loop.UnlinkWriting? && |s.tasks| <= |s'.tasks|
    requires s'.out == s.out && s'.log == s.log && s'.torn == s.torn && s'.writer == s.writer
    requires forall t | 0 <= t < |s.tasks| :: s'.tasks[t].pc == s.tasks[t].pc
    requires s.writer.ByTask? ==> s.writer.t < |s.tasks|
    ensures Wire(s')
  {
    hide ReplyBytes, WireBytes;
    assert Partial(s') == Partial(s);
  }

  lemma WireUnlinkEdge(input: seq<Command>, s: State, a: Action)
    requires Structure(input, s) && Locks(s) && Wire(s) && LoopEnabled(input, s, a) && (a.UnlinkFail? || a.UnlinkGrab?)
    ensures Wire(LoopStep(input, s, a))
  {
    hide ReplyBytes, TaskOk, WireBytes;
  }

  lemma WireLoop(input: seq<Command>, s: State, a: Action)
    requires Structure(input, s) && Locks(s) && Wire(s) && LoopEnabled(input, s, a)
    ensures Wire(LoopStep(input, s, a))
  {
    hide ReplyBytes, TaskOk, WireBytes, TasksAfter, InflightAfter, EndpointFree, LoopOk, EpAddr, Wire, Structure;
    if a.UnlinkSend? {
      WireUnlinkSend(input, s, a.n);
    } else if a.UnlinkFail? || a.UnlinkGrab? {
      WireUnlinkEdge(input, s, a);
    } else {
      LoopFrame(input, s, a);
      WireQuiet(s, LoopStep(input, s, a));
    }
  }

  lemma WireTask(input: seq<Command>, s: State, a: Action)
    requires Structure(input, s) && Locks(s) && Wire(s) && TaskEnabled(s, a)
    ensures Wire(TaskStep(s, a))
  {
    hide ReplyBytes, WireBytes, Plausible, ReplyFor, BuildReply;
    var s' := TaskStep(s, a);
    var k := s.tasks[a.t];
    if a.Send? {
      Extend(WireBytes(Replies(s.log)), ReplyBytes(k.pc.reply), k.pc.sent, k.pc.sent + a.n);
      WireSnoc(s.log, FromTask(a.t, k.pc.reply));
    } else if k.pc.Writing? || a.Grab? {
    } else {
      assert Partial(s') == Partial(s);
    }
  }

  // ----- arrival order -----

  function Submits(cs: seq<Command>): seq<Command> {
    if cs == [] then []
    else Submits(cs[..|cs| - 1]) + (if cs[|cs| - 1].Submit? then [cs[|cs| - 1]] else [])
  }

  function UnlinkSeqnums(cs: seq<Command>): seq<u32> {
    if cs == [] then []
    else UnlinkSeqnums(cs[..|cs| - 1]) + (if cs[|cs| - 1].Unlink? then [cs[|cs| - 1].header.seqnum] else [])
  }

  function UnlinkReplies(log: seq<Entry>): seq<u32> {
    if log == [] then []
    else UnlinkReplies(log[..|log| - 1]) + (if log[|log| - 1].FromLoop? then [log[|log| - 1].reply.seqnum] else [])
  }

  function TaskCommands(ts: seq<Task>): (r: seq<Command>)
    ensures |r| == |ts| && forall i | 0 <= i < |r| :: r[i] == ts[i].cmd
  {
    seq(|ts|, i requires 0 <= i < |ts| => ts[i].cmd)
  }

  function PendingSubmit(l: LoopPc): seq<Command> {
    if l.Acquiring? || l.Permitted? then [l.cmd] else []
  }

  function PendingUnlink(l: LoopPc): seq<u32> {
    if l.UnlinkPending? || MapLocked(l) || l.UnlinkReply? || l.UnlinkWriting? then [l.seqnum] else []
  }

  predicate DrainPc(l: LoopPc) {
    l.Draining? || l.DrainHit? || l.DrainFlagged? || l.Stopped?
  }

  /**
   * Task `t` is the t-th submit read. The RET_UNLINKs sent are those of the unlinks read, in order,
   * except the one being handled, or the last one if its reply could not be written.
   */
  predicate Arrival(input: seq<Command>, s: State) {
    && s.next <= |input|
    && TaskCommands(s.tasks) + PendingSubmit(s.loop) == Submits(input[..s.next])
    && var asked := UnlinkSeqnums(input[..s.next]);
       if s.lost then DrainPc(s.loop) && asked != [] && UnlinkReplies(s.log) == asked[..|asked| - 1]
       else UnlinkReplies(s.log) + PendingUnlink(s.loop) == asked
  }

  lemma ArrivalQuiet(input: seq<Command>, s: State, s': State)
    requires Arrival(input, s)
    requires s'.next == s.next && s'.log == s.log && s'.lost == s.lost && |s'.tasks| == |s.tasks|
    requires forall t | 0 <= t < |s.tasks| :: s'.tasks[t].cmd == s.tasks[t].cmd
    requires PendingSubmit(s'.loop) == PendingSubmit(s.loop) && PendingUnlink(s'.loop) == PendingUnlink(s.loop)
    requires DrainPc(s.loop) ==> DrainPc(s'.loop)
    ensures Arrival(input, s')
  {
    assert TaskCommands(s'.tasks) == TaskCommands(s.tasks);
  }

  lemma ArrivalRead(input: seq<Command>, s: State)
    requires Arrival(input, s) && LoopEnabled(input, s, ReadNext)
    ensures Arrival(input, LoopStep(input, s, ReadNext))
  {
    assert input[..s.next + 1][..s.next] == input[..s.next];
  }

  lemma ArrivalSpawn(input: seq<Command>, s: State)
    requires Arrival(input, s) && LoopEnabled(input, s, Spawn)
    ensures Arrival(input, LoopStep(input, s, Spawn))
  {
    assert TaskCommands(s.tasks + [NewTask(s.loop.cmd)]) == TaskCommands(s.tasks) + [s.loop.cmd];
  }

  lemma ArrivalUnlink(input: seq<Command>, s: State, a: Action)
    requires Arrival(input, s) && LoopEnabled(input, s, a) && (a.UnlinkSend? || a.UnlinkFail?)
    ensures Arrival(input, LoopStep(input, s, a))
  {
    var s' := LoopStep(input, s, a);
    assert LoopCompletes(s, a) ==> s'.log[..|s.log|] == s.log;
  }

  lemma ArrivalRest(input: seq<Command>, s: State, a: Action)
    requires Arrival(input, s) && LoopEnabled(input, s, a)
    requires !a.ReadNext? && !a.Spawn? && !a.UnlinkSend? && !a.UnlinkFail?
    ensures Arrival(input, LoopStep(input, s, a))
  {
    hide Arrival;
    LoopFrame(input, s, a);
    hide TasksAfter, InflightAfter, EndpointFree, ReplyBytes, EpAddr, IsDrainOf;
    ArrivalQuiet(input, s, LoopStep(input, s, a));
  }

  lemma ArrivalLoop(input: seq<Command>, s: State, a: Action)
    requires Arrival(input, s) && LoopEnabled(input, s, a)
    ensures Arrival(input, LoopStep(input, s, a))
  {
    hide Arrival, LoopStep, LoopEnabled;
    match a
    case ReadNext => ArrivalRead(input, s);
    case Spawn => ArrivalSpawn(input, s);
    case UnlinkSend(_) => ArrivalUnlink(input, s, a);
    case UnlinkFail => ArrivalUnlink(input, s, a);
    case _ => ArrivalRest(input, s, a);
  }

  lemma ArrivalSame(input: seq<Command>, s: State, s': State)
    requires Arrival(input, s) && s'.next == s.next && s'.lost == s.lost && s'.loop == s.loop
    requires TaskCommands(s'.tasks) == TaskCommands(s.tasks) && UnlinkReplies(s'.log) == UnlinkReplies(s.log)
    ensures Arrival(input, s')
  {
  }

  lemma TaskRepliesApart(log: seq<Entry>, t: nat, r: Reply)
    ensures UnlinkReplies(log + [FromTask(t, r)]) == UnlinkReplies(log)
  {
    assert (log + [FromTask(t, r)])[..|log|] == log;
  }

  lemma ArrivalTask(input: seq<Command>, s: State, a: Action)
    requires Arrival(input, s) && TaskEnabled(s, a)
    ensures Arrival(input, TaskStep(s, a))
  {
    hide Arrival, ReplyBytes, TaskAfter, TaskCan, Releases, EndpointFree, UnlinkReplies;
    var s', k := TaskStep(s, a), s.tasks[a.t];
    TaskFrame(k, a);
    assert TaskCommands(s'.tasks) == TaskCommands(s.tasks);
    if Completes(k, a) {
      TaskRepliesApart(s.log, a.t, k.pc.reply);
    }
    ArrivalSame(input, s, s');
  }

  // ----- the in-flight map -----

  /** The premise on clients: no two submits of a session share a seqnum. */
  predicate DistinctSeqnums(cs: seq<Command>) {
    forall i, j | 0 <= i < j < |cs| :: cs[i].header.seqnum != cs[j].header.seqnum
  }

  predicate Inserted(s: State, t: nat) {
    t < |s.tasks| && s.loop != Spawned(t)
  }

  /** Which inserted tasks have an entry: those nobody took and which are still to remove it, or came too early. */
  predicate HasEntry(k: Task) {
    !k.taken && (!Gone(k.pc) || k.early)
  }

  /** The map is exactly the inserted tasks that are due an entry, each under its own seqnum. */
  predicate InflightMap(s: State) {
    && (forall q | q in s.inflight ::
          var t := s.inflight[q];
          Inserted(s, t) && Seqnum(s.tasks[t]) == q && HasEntry(s.tasks[t]))
    && (forall t | 0 <= t < |s.tasks| && Inserted(s, t) && HasEntry(s.tasks[t]) ::
          Seqnum(s.tasks[t]) in s.inflight && s.inflight[Seqnum(s.tasks[t])] == t)
  }

  predicate DistinctTasks(s: State) {
    forall t, u | 0 <= t < u < |s.tasks| :: Seqnum(s.tasks[t]) != Seqnum(s.tasks[u])
  }

  lemma InflightInsert(input: seq<Command>, s: State)
    requires Structure(input, s) && DistinctTasks(s) && InflightMap(s) && LoopEnabled(input, s, Insert)
    ensures InflightMap(LoopStep(input, s, Insert))
  {
    hide TaskOk;
  }

  lemma InflightTake(input: seq<Command>, s: State)
    requires Structure(input, s) && InflightMap(s) && LoopEnabled(input, s, UnlinkTake)
    ensures InflightMap(LoopStep(input, s, UnlinkTake))
  {
    hide TaskOk;
  }

  lemma InflightDrain(input: seq<Command>, s: State, keys: seq<u32>)
    requires Structure(input, s) && InflightMap(s) && LoopEnabled(input, s, DrainTake(keys))
    ensures InflightMap(LoopStep(input, s, DrainTake(keys)))
  {
    hide TaskOk;
  }

  lemma InflightSpawn(input: seq<Command>, s: State)
    requires Structure(input, s) && InflightMap(s) && LoopEnabled(input, s, Spawn)
    ensures InflightMap(LoopStep(input, s, Spawn))
  {
    hide TaskOk;
  }

  /** Steps that leave the map and every task's claim to an entry alone. */
  lemma InflightQuiet(s: State, s': State)
    requires InflightMap(s)
    requires s'.inflight == s.inflight && |s'.tasks| == |s.tasks|
    requires !s.loop.Spawned? && !s'.loop.Spawned?
    requires forall t | 0 <= t < |s.tasks| ::
               Seqnum(s'.tasks[t]) == Seqnum(s.tasks[t]) && HasEntry(s'.tasks[t]) == HasEntry(s.tasks[t])
    ensures InflightMap(s')
  {
    hide HasEntry;
  }

  lemma InflightRest(input: seq<Command>, s: State, a: Action)
    requires InflightMap(s) && LoopEnabled(input, s, a)
    requires !a.Insert? && !a.UnlinkTake? && !a.DrainTake? && !a.Spawn?
    ensures InflightMap(LoopStep(input, s, a))
  {
    LoopFrame(input, s, a);
    hide TasksAfter, InflightMap, EndpointFree, ReplyBytes, EpAddr;
    InflightQuiet(s, LoopStep(input, s, a));
  }

  lemma InflightLoop(input: seq<Command>, s: State, a: Action)
    requires Structure(input, s) && DistinctTasks(s) && InflightMap(s) && LoopEnabled(input, s, a)
    ensures InflightMap(LoopStep(input, s, a))
  {
    hide InflightMap, Structure, DistinctTasks, LoopStep, LoopEnabled;
    match a
    case Insert => InflightInsert(input, s);
    case UnlinkTake => InflightTake(input, s);
    case DrainTake(keys) => InflightDrain(input, s, keys);
    case Spawn => InflightSpawn(input, s);
    case _ => InflightRest(input, s, a);
  }

  lemma InflightSelfRemove(input: seq<Command>, s: State, t: nat)
    requires Structure(input, s) && DistinctTasks(s) && InflightMap(s) && TaskEnabled(s, SelfRemove(t))
    ensures InflightMap(TaskStep(s, SelfRemove(t)))
  {
    hide LoopOk, Plausible, ReplyFor, ReplyBytes;
  }

  /** One task moves on without gaining or losing its claim. */
  lemma InflightOther(s: State, s': State, t: nat)
    requires InflightMap(s) && t < |s.tasks|
    requires s'.inflight == s.inflight && |s'.tasks| == |s.tasks| && s'.loop == s.loop
    requires s'.tasks == s.tasks[t := s'.tasks[t]]
    requires Seqnum(s'.tasks[t]) == Seqnum(s.tasks[t]) && HasEntry(s'.tasks[t]) == HasEntry(s.tasks[t])
    ensures InflightMap(s')
  {
    hide HasEntry;
  }

  lemma InflightTask(input: seq<Command>, s: State, a: Action)
    requires Structure(input, s) && DistinctTasks(s) && InflightMap(s) && TaskEnabled(s, a)
    ensures InflightMap(TaskStep(s, a))
  {
    if a.SelfRemove? {
      InflightSelfRemove(input, s, a.t);
    } else {
      TaskFrame(s.tasks[a.t], a);
      hide ReplyBytes, TaskAfter, TaskCan, Completes, Releases, InflightMap, Structure, DistinctTasks, EndpointFree;
      InflightOther(s, TaskStep(s, a), a.t);
    }
  }

  // ----- cancellation and drain -----

  /** The loop still has this task to flag or to abort. */
  predicate InHand(l: LoopPc, t: nat) {
    match l
    case UnlinkHit(_, u) => t == u
    case UnlinkFlagged(_, u) => t == u
    case UnlinkCancelled(_, u) => t == u
    case DrainHit(p) => t in p
    case DrainFlagged(u, p) => t == u || t in p
    case _ => false
  }

  /** Every task taken out of the map has been flagged and aborted, unless the loop is about to. */
  predicate Cancellation(s: State) {
    && (forall t | 0 <= t < |s.tasks| && s.tasks[t].taken :: s.tasks[t].abortRequested || InHand(s.loop, t))
    && (s.loop.DrainHit? || s.loop.DrainFlagged? || s.loop.Stopped? ==>
          && s.inflight == map[]
          && forall t | 0 <= t < |s.tasks| :: s.tasks[t].taken || Gone(s.tasks[t].pc))
  }

  /** Flags may be set, nothing is taken, and the loop keeps hold of what it had in hand. */
  lemma CancellationQuiet(s: State, s': State)
    requires Cancellation(s)
    requires (s'.loop.Reading? || s'.inflight.Keys <= s.inflight.Keys) && |s'.tasks| == |s.tasks|
    requires forall t | 0 <= t < |s.tasks| ::
               && s'.tasks[t].taken == s.tasks[t].taken
               && (Gone(s.tasks[t].pc) ==> Gone(s'.tasks[t].pc))
               && (s.tasks[t].abortRequested || InHand(s.loop, t) ==> s'.tasks[t].abortRequested || InHand(s'.loop, t))
    requires s'.loop.DrainHit? || s'.loop.DrainFlagged? || s'.loop.Stopped? ==>
               s.loop.DrainHit? || s.loop.DrainFlagged? || s.loop.Stopped?
    ensures Cancellation(s')
  {
    assert s'.inflight.Keys == {} ==> s'.inflight == map[];
  }

  lemma CancellationTake(input: seq<Command>, s: State)
    requires Structure(input, s) && Cancellation(s) && LoopEnabled(input, s, UnlinkTake)
    ensures Cancellation(LoopStep(input, s, UnlinkTake))
  {
    hide TaskOk;
  }

  lemma CancellationSpawn(input: seq<Command>, s: State)
    requires Cancellation(s) && LoopEnabled(input, s, Spawn)
    ensures Cancellation(LoopStep(input, s, Spawn))
  {
  }

  lemma OwedAreDrained(s: State, keys: seq<u32>, t: nat)
    requires InflightMap(s) && IsDrainOf(keys, s.inflight) && !s.loop.Spawned?
    requires t < |s.tasks| && !s.tasks[t].taken && !Gone(s.tasks[t].pc)
    ensures t in Drained(keys, s.inflight)
  {
    assert HasEntry(s.tasks[t]) && Inserted(s, t);
    DrainedHas(keys, s.inflight, Seqnum(s.tasks[t]));
  }

  /** The step that makes the drain complete: every entry goes to the pending list, and only those are owed. */
  lemma CancellationDrain(input: seq<Command>, s: State, keys: seq<u32>)
    requires InflightMap(s) && Cancellation(s) && LoopEnabled(input, s, DrainTake(keys))
    ensures Cancellation(LoopStep(input, s, DrainTake(keys)))
  {
    hide InflightMap;
    var s', order := LoopStep(input, s, DrainTake(keys)), Drained(keys, s.inflight);
    assert s'.tasks == MarkTaken(s.tasks, order) && s'.loop == DrainHit(order) && s'.inflight == map[];
    hide LoopStep, LoopEnabled, Drained, IsDrainOf;
    forall t | 0 <= t < |s.tasks|
      ensures s'.tasks[t].taken || Gone(s'.tasks[t].pc)
      ensures s'.tasks[t].taken ==> s'.tasks[t].abortRequested || InHand(s'.loop, t)
    {
      if !s.tasks[t].taken && !Gone(s.tasks[t].pc) {
        OwedAreDrained(s, keys, t);
      }
    }
  }

  lemma CancellationPending(input: seq<Command>, s: State, a: Action)
    requires Structure(input, s) && Cancellation(s) && LoopEnabled(input, s, a)
    requires a.DrainFlag? || a.DrainAbort? || a.UnlinkFlag? || a.UnlinkAbort?
    ensures Cancellation(LoopStep(input, s, a))
  {
    LoopFrame(input, s, a);
    hide Structure, Cancellation;
    CancellationQuiet(s, LoopStep(input, s, a));
  }

  lemma CancellationRest(input: seq<Command>, s: State, a: Action)
    requires Cancellation(s) && LoopEnabled(input, s, a)
    requires !a.UnlinkTake? && !a.Spawn? && !a.DrainTake?
    requires !a.DrainFlag? && !a.DrainAbort? && !a.UnlinkFlag? && !a.UnlinkAbort?
    ensures Cancellation(LoopStep(input, s, a))
  {
    LoopFrame(input, s, a);
    hide TasksAfter, Cancellation, EndpointFree, ReplyBytes, EpAddr;
    CancellationQuiet(s, LoopStep(input, s, a));
  }

  lemma CancellationLoop(input: seq<Command>, s: State, a: Action)
    requires Structure(input, s) && InflightMap(s) && Cancellation(s) && LoopEnabled(input, s, a)
    ensures Cancellation(LoopStep(input, s, a))
  {
    hide Cancellation, Structure, InflightMap, LoopStep, LoopEnabled;
    match a
    case UnlinkTake => CancellationTake(input, s);
    case Spawn => CancellationSpawn(input, s);
    case DrainTake(keys) => CancellationDrain(input, s, keys);
    case DrainFlag => CancellationPending(input, s, a);
    case DrainAbort => CancellationPending(input, s, a);
    case UnlinkFlag => CancellationPending(input, s, a);
    case UnlinkAbort => CancellationPending(input, s, a);
    case _ => CancellationRest(input, s, a);
  }

  lemma CancellationTask(input: seq<Command>, s: State, a: Action)
    requires Cancellation(s) && TaskEnabled(s, a)
    ensures Cancellation(TaskStep(s, a))
  {
    TaskFrame(s.tasks[a.t], a);
    hide ReplyBytes, TaskAfter, TaskCan, Completes, Releases, EndpointFree, Cancellation, InHand;
    CancellationQuiet(s, TaskStep(s, a));
  }
}
