/** Safety of URB sessions over every run: replies, cancellation, permits, the in-flight map, framing. */
module SessionSafety {
  import opened Bytes
  import opened Urb
  import opened Framing
  import opened Transfer
  import opened UrbSession
  import opened SessionInvariants

  /** The premise on the client: submits of one session carry distinct seqnums. */
  predicate DistinctInput(input: seq<Command>) {
    DistinctSeqnums(Submits(input))
  }

  predicate Inv(input: seq<Command>, s: State) {
    && Structure(input, s) && Locks(s) && Permits(s) && Log(s) && Answered(s) && Results(s) && Wire(s)
    && Arrival(input, s)
    && (DistinctInput(input) ==> InflightMap(s) && Cancellation(s))
  }

  lemma InvInit(input: seq<Command>)
    ensures Inv(input, Init())
  {
    assert input[..0] == [];
  }

  lemma {:induction false} SubmitsPrefix(cs: seq<Command>, n: nat)
    requires n <= |cs|
    ensures Submits(cs[..n]) <= Submits(cs)
  {
    if n == |cs| {
      assert cs[..n] == cs;
    } else {
      SubmitsPrefix(cs[..|cs| - 1], n);
      assert cs[..|cs| - 1][..n] == cs[..n];
    }
  }

  lemma TasksDistinct(input: seq<Command>, s: State)
    requires Arrival(input, s) && DistinctInput(input)
    ensures DistinctTasks(s)
  {
    SubmitsPrefix(input, s.next);
    var ss := Submits(input);
    forall t, u | 0 <= t < u < |s.tasks|
      ensures Seqnum(s.tasks[t]) != Seqnum(s.tasks[u])
    {
      assert TaskCommands(s.tasks)[t] == ss[t] && TaskCommands(s.tasks)[u] == ss[u];
    }
  }

  lemma InvLoop(input: seq<Command>, s: State, a: Action)
    requires GoodInput(input) && Inv(input, s) && LoopEnabled(input, s, a)
    ensures Inv(input, LoopStep(input, s, a))
  {
    hide Structure, Locks, Permits, Log, Answered, Results, Wire, Arrival, InflightMap, Cancellation, DistinctTasks,
      LoopEnabled, LoopStep;
    StructureLoop(input, s, a);
    LocksLoop(input, s, a);
    PermitsLoop(input, s, a);
    LogLoop(input, s, a);
    AnsweredLoop(input, s, a);
    ResultsLoop(input, s, a);
    WireLoop(input, s, a);
    ArrivalLoop(input, s, a);
    if DistinctInput(input) {
      TasksDistinct(input, s);
      InflightLoop(input, s, a);
      CancellationLoop(input, s, a);
    }
  }

  lemma InvTask(input: seq<Command>, s: State, a: Action)
    requires Inv(input, s) && TaskEnabled(s, a)
    ensures Inv(input, TaskStep(s, a))
  {
    hide Structure, Locks, Permits, Log, Answered, Results, Wire, Arrival, InflightMap, Cancellation, DistinctTasks,
      TaskEnabled, TaskStep;
    StructureTask(input, s, a);
    LocksTask(s, a);
    PermitsTask(input, s, a);
    LogTask(input, s, a);
    AnsweredTask(s, a);
    ResultsTask(input, s, a);
    WireTask(input, s, a);
    ArrivalTask(input, s, a);
    if DistinctInput(input) {
      TasksDistinct(input, s);
      InflightTask(input, s, a);
      CancellationTask(input, s, a);
    }
  }

  /** Every step keeps the invariant. */
  lemma InvStep(input: seq<Command>, s: State, a: Action)
    requires GoodInput(input) && Inv(input, s) && Enabled(input, s, a)
    ensures Inv(input, Step(input, s, a))
  {
    hide Inv, LoopEnabled, TaskEnabled, LoopStep, TaskStep;
    if LoopEnabled(input, s, a) {
      InvLoop(input, s, a);
    } else {
      InvTask(input, s, a);
    }
  }

  lemma {:induction false} InvRun(input: seq<Command>, s: State, acts: seq<Action>)
    requires GoodInput(input) && Inv(input, s) && ValidRun(input, s, acts)
    ensures Inv(input, Run(input, s, acts))
    decreases |acts|
  {
    hide Inv, Step, Enabled;
    if acts != [] {
      InvStep(input, s, acts[0]);
      InvRun(input, Step(input, s, acts[0]), acts[1..]);
    }
  }

  /** The invariant holds in every state any interleaving can reach. */
  lemma ReachableInv(input: seq<Command>, s: State)
    requires GoodInput(input) && Reachable(input, s)
    ensures Inv(input, s)
  {
    hide Inv, Init, ValidRun, Run;
    var acts :| ValidRun(input, Init(), acts) && Run(input, Init(), acts) == s;
    InvInit(input);
    InvRun(input, Init(), acts);
  }

  /** The commands the read loop recovers from any byte stream meet the premise on payloads. */
  lemma ReadInputIsGood(devid: u32, b: seq<byte>)
    ensures GoodInput(ReadSession(devid, b).commands)
  {
    ReadIsFaithful(devid, b);
    var cs := ReadSession(devid, b).commands;
    assert forall i | 0 <= i < |cs| :: cs[i] in cs;
  }

  // ----- permits -----

  /** No interleaving of completion, abort and drain loses or mints a permit; at most 256 submits are live. */
  lemma PermitConservation(input: seq<Command>, s: State)
    requires GoodInput(input) && Reachable(input, s)
    ensures 0 <= s.permits <= 256 && Held(s.tasks) <= 256
    ensures s.permits + Held(s.tasks) + (if s.loop.Permitted? then 1 else 0) == 256
  {
    ReachableInv(input, s);
  }

  // ----- replies -----

  /** RET_SUBMITs answer submits that were read, each at most once, whatever the interleaving. */
  lemma SubmitRepliesOnce(input: seq<Command>, s: State)
    requires GoodInput(input) && Reachable(input, s)
    ensures s.next <= |input|
    ensures forall i | 0 <= i < |s.log| && s.log[i].reply.RetSubmit? ::
              && s.log[i].FromTask? && s.log[i].t < |Submits(input[..s.next])|
              && var c := Submits(input[..s.next])[s.log[i].t];
                 c.Submit? && ReplyFor(c, s.log[i].reply)
    ensures forall i, j | 0 <= i < j < |s.log| && s.log[i].FromTask? && s.log[j].FromTask? :: s.log[i].t != s.log[j].t
    ensures DistinctInput(input) ==>
              forall i, j | 0 <= i < j < |s.log| && s.log[i].reply.RetSubmit? && s.log[j].reply.RetSubmit? ::
                s.log[i].reply.seqnum != s.log[j].reply.seqnum
  {
    ReachableInv(input, s);
    hide Reachable, Results, Wire, Permits, Locks, InflightMap, Cancellation, TaskOk, LoopOk;
    var ss := Submits(input[..s.next]);
    assert forall t | 0 <= t < |s.tasks| :: TaskCommands(s.tasks)[t] == ss[t];
    if DistinctInput(input) {
      TasksDistinct(input, s);
    }
  }

  /**
   * And they tell the truth: the transfer of a task whose reply is in the log returned, and status,
   * length and payload of the reply are what it returned, by the fields of the command.
   */
  lemma RepliesConveyResults(input: seq<Command>, s: State, i: nat)
    requires GoodInput(input) && Reachable(input, s) && i < |s.log| && s.log[i].FromTask?
    ensures s.log[i].t < |s.tasks|
    ensures var k := s.tasks[s.log[i].t];
            && k.cmd.Submit? && k.closure.Returned? && k.closure.result.Some?
            && Conveys(k.cmd, k.closure.result.value, s.log[i].reply)
  {
    ReachableInv(input, s);
    hide Reachable, Results, Wire, Log, Locks, Permits, Arrival, InflightMap, Cancellation, Structure;
  }

  /**
   * RET_UNLINKs go out in the order their CMD_UNLINKs arrived, each with its own seqnum and at most
   * once: all of them when the loop is back at reading, all but the last if its write failed.
   */
  lemma UnlinkRepliesInOrder(input: seq<Command>, s: State)
    requires GoodInput(input) && Reachable(input, s)
    ensures s.next <= |input|
    ensures var asked, sent := UnlinkSeqnums(input[..s.next]), UnlinkReplies(s.log);
            && sent <= asked && |asked| <= |sent| + 1
            && (s.loop.Reading? ==> sent == asked)
            && (s.loop.Stopped? ==> (sent == asked <==> !s.lost))
  {
    ReachableInv(input, s);
  }

  // ----- cancellation -----

  /** Flagged before its check, and nothing of its reply is out or on its way. */
  predicate Silenced(s: State, t: nat) {
    && t < |s.tasks| && s.tasks[t].cancelled && !s.tasks[t].exit.ReplySent?
    && !s.tasks[t].pc.Ready? && !s.tasks[t].pc.Writing?
  }

  lemma SilencedStep(input: seq<Command>, s: State, a: Action, t: nat)
    requires Silenced(s, t) && Enabled(input, s, a)
    ensures Silenced(Step(input, s, a), t)
  {
    hide ReplyBytes, BuildReply, Plausible, EndpointFree, EpAddr;
    if LoopEnabled(input, s, a) {
      LoopFrame(input, s, a);
      hide TasksAfter, InflightAfter, LoopAfter;
    } else if a.t == t {
      TaskFrame(s.tasks[t], a);
    }
  }

  /** A task whose flag was stored before its check never writes, in any continuation of any run. */
  lemma {:induction false} CancelledNeverWrites(input: seq<Command>, s: State, acts: seq<Action>, t: nat)
    requires Silenced(s, t) && ValidRun(input, s, acts)
    ensures Silenced(Run(input, s, acts), t)
    decreases |acts|
  {
    hide Step, Enabled, Silenced;
    if acts != [] {
      SilencedStep(input, s, acts[0], t);
      CancelledNeverWrites(input, Step(input, s, acts[0]), acts[1..], t);
    }
  }

  lemma LoopFinishesWrite(input: seq<Command>, s: State) returns (a: Action)
    requires Structure(input, s) && s.loop.UnlinkWriting?
    ensures LoopEnabled(input, s, a) && a.UnlinkSend?
    ensures var s' := LoopStep(input, s, a);
            s'.writer.Free? && s'.tasks == s.tasks && s'.log == s.log + [FromLoop(RetUnlink(s.loop.seqnum, 0))]
  {
    hide TaskOk, ReplyBytes;
    a := UnlinkSend(HEADER_SIZE - s.loop.sent);
  }

  lemma TaskFinishesWrite(input: seq<Command>, s: State, t: nat) returns (a: Action)
    requires Structure(input, s) && t < |s.tasks| && s.tasks[t].pc.Writing?
    ensures TaskEnabled(s, a) && !LoopEnabled(input, s, a) && a.Send?
    ensures var s' := TaskStep(s, a);
            && s'.writer.Free? && s'.loop == s.loop
            && s'.tasks == s.tasks[t := s'.tasks[t]] && s'.tasks[t].exit.ReplySent?
            && s'.log == s.log + [FromTask(t, s.tasks[t].pc.reply)]
  {
    assert TaskOk(s.tasks[t]);
    hide TaskOk, ReplyBytes;
    a := Send(t, |ReplyBytes(s.tasks[t].pc.reply)| - s.tasks[t].pc.sent);
  }

  /** Whoever holds the writer can finish, which leaves `t` as it is. */
  lemma WriterCanFinish(input: seq<Command>, s: State, t: nat) returns (acts: seq<Action>)
    requires GoodInput(input) && Inv(input, s) && t < |s.tasks| && s.tasks[t].pc.Ready? && !s.writer.Free?
    ensures ValidRun(input, s, acts)
    ensures var s' := Run(input, s, acts);
            Inv(input, s') && s'.writer.Free? && t < |s'.tasks| && s'.tasks[t] == s.tasks[t]
  {
    hide Structure, Permits, Log, Results, Wire, Arrival, InflightMap, Cancellation, ReplyBytes,
      LoopStep, TaskStep, TaskEnabled, LoopEnabled;
    var a;
    if s.writer.ByLoop? {
      a := LoopFinishesWrite(input, s);
    } else {
      var u := s.writer.t;
      a := TaskFinishesWrite(input, s, u);
    }
    InvStep(input, s, a);
    OneStep(input, s, a);
    acts := [a];
  }

  lemma ReadyCanGrab(input: seq<Command>, s: State, t: nat)
    requires t < |s.tasks| && s.tasks[t].pc.Ready? && s.writer.Free?
    ensures TaskEnabled(s, Grab(t)) && !LoopEnabled(input, s, Grab(t))
    ensures var s' := TaskStep(s, Grab(t));
            t < |s'.tasks| && s'.tasks[t].pc == Writing(s.tasks[t].pc.reply, 0) && s'.log == s.log
  {
  }

  lemma WritingCanFinish(input: seq<Command>, s: State, t: nat) returns (acts: seq<Action>)
    requires Inv(input, s) && t < |s.tasks| && s.tasks[t].pc.Writing?
    ensures ValidRun(input, s, acts)
    ensures var s' := Run(input, s, acts);
            t < |s'.tasks| && s'.tasks[t].exit.ReplySent? && s'.log == s.log + [FromTask(t, s.tasks[t].pc.reply)]
  {
    var a := TaskFinishesWrite(input, s, t);
    hide Inv, ReplyBytes, TaskStep, TaskEnabled;
    OneStep(input, s, a);
    acts := [a];
  }

  lemma ReadyCanWrite(input: seq<Command>, s: State, t: nat) returns (acts: seq<Action>)
    requires GoodInput(input) && Inv(input, s) && t < |s.tasks|
    requires s.tasks[t].pc.Writing? || (s.tasks[t].pc.Ready? && s.writer.Free?)
    ensures ValidRun(input, s, acts)
    ensures var s' := Run(input, s, acts);
            t < |s'.tasks| && s'.tasks[t].exit.ReplySent? && s'.log == s.log + [FromTask(t, s.tasks[t].pc.reply)]
  {
    hide Inv, LoopStep, TaskStep, TaskEnabled, LoopEnabled;
    if s.tasks[t].pc.Writing? {
      acts := WritingCanFinish(input, s, t);
    } else {
      ReadyCanGrab(input, s, t);
      InvStep(input, s, Grab(t));
      OneStep(input, s, Grab(t));
      var more := WritingCanFinish(input, Step(input, s, Grab(t)), t);
      RunConcat(input, s, [Grab(t)], more);
      acts := [Grab(t)] + more;
    }
  }

  /**
   * The unlink handler means the aborted task never to send a stale RET_SUBMIT. It can, and this is
   * exactly when: a flagged task can still get its reply out if and only if it is past its check.
   */
  lemma StaleReplyIff(input: seq<Command>, s: State, t: nat)
    requires GoodInput(input) && Reachable(input, s)
    requires t < |s.tasks| && s.tasks[t].cancelled && !s.tasks[t].exit.ReplySent?
    ensures (exists acts :: ValidRun(input, s, acts) && t < |Run(input, s, acts).tasks|
                            && Run(input, s, acts).tasks[t].exit.ReplySent?)
            <==> s.tasks[t].pc.Ready? || s.tasks[t].pc.Writing?
  {
    ReachableInv(input, s);
    hide Inv, Reachable, ValidRun, Run;
    if s.tasks[t].pc.Ready? && !s.writer.Free? {
      var first := WriterCanFinish(input, s, t);
      var second := ReadyCanWrite(input, Run(input, s, first), t);
      RunConcat(input, s, first, second);
      assert ValidRun(input, s, first + second);
    } else if s.tasks[t].pc.Ready? || s.tasks[t].pc.Writing? {
      var acts := ReadyCanWrite(input, s, t);
      assert ValidRun(input, s, acts);
    } else {
      forall acts | ValidRun(input, s, acts)
        ensures t < |Run(input, s, acts).tasks| && !Run(input, s, acts).tasks[t].exit.ReplySent?
      {
        CancelledNeverWrites(input, s, acts, t);
      }
    }
  }

  /** The unlink handler is at work on a task that is past its check, with the writer free. */
  predicate UnlinksReady(s: State, t: nat) {
    && s.writer.Free? && t < |s.tasks| && s.tasks[t].pc.Ready?
    && (MapLocked(s.loop) || s.loop.UnlinkReply?)
    && (MapLocked(s.loop) ==> s.loop.t == t)
  }

  function NextUnlinkAction(l: LoopPc): Action {
    if l.UnlinkHit? then UnlinkFlag else if l.UnlinkFlagged? then UnlinkCancel(None)
    else if l.UnlinkCancelled? then UnlinkAbort else UnlinkGrab
  }

  lemma UnlinkAdvances(input: seq<Command>, s: State, t: nat)
    requires UnlinksReady(s, t)
    ensures var a := NextUnlinkAction(s.loop);
            LoopEnabled(input, s, a) && var s' := LoopStep(input, s, a);
            && t < |s'.tasks| && s'.tasks[t].pc == s.tasks[t].pc && s'.log == s.log
            && s'.loop.seqnum == s.loop.seqnum
            && (if a.UnlinkGrab? then s'.loop.UnlinkWriting?
                else UnlinksReady(s', t) && UnlinkStage(s'.loop) < UnlinkStage(s.loop))
  {
    hide ReplyBytes, EndpointFree;
  }

  function UnlinkStage(l: LoopPc): nat {
    if l.UnlinkHit? then 3 else if l.UnlinkFlagged? then 2 else if l.UnlinkCancelled? then 1 else 0
  }

  lemma StaleReplyLast(input: seq<Command>, s: State, t: nat) returns (acts: seq<Action>)
    requires GoodInput(input) && Inv(input, s) && s.loop.UnlinkWriting? && t < |s.tasks| && s.tasks[t].pc.Ready?
    ensures ValidRun(input, s, acts)
    ensures Run(input, s, acts).log ==
            s.log + [FromLoop(RetUnlink(s.loop.seqnum, 0)), FromTask(t, s.tasks[t].pc.reply)]
  {
    hide Structure, Locks, Permits, Log, Answered, Results, Wire, Arrival, InflightMap, Cancellation, DistinctInput,
      LoopStep, TaskStep, TaskEnabled, LoopEnabled, ReplyBytes;
    var a := LoopFinishesWrite(input, s);
    InvStep(input, s, a);
    var rest := ReadyCanWrite(input, Step(input, s, a), t);
    RunCons(input, s, a, rest);
    acts := [a] + rest;
  }

  /** A run in which the aborted task's RET_SUBMIT follows the RET_UNLINK that was to preclude it. */
  lemma {:induction false} StaleReplyAfterUnlink(input: seq<Command>, s: State, t: nat) returns (acts: seq<Action>)
    requires GoodInput(input) && Inv(input, s) && UnlinksReady(s, t)
    ensures ValidRun(input, s, acts)
    ensures Run(input, s, acts).log ==
            s.log + [FromLoop(RetUnlink(s.loop.seqnum, 0)), FromTask(t, s.tasks[t].pc.reply)]
    decreases UnlinkStage(s.loop)
  {
    hide Inv, LoopStep, TaskStep, TaskEnabled, LoopEnabled, UnlinkStage, NextUnlinkAction;
    var a := NextUnlinkAction(s.loop);
    UnlinkAdvances(input, s, t);
    InvStep(input, s, a);
    var more;
    if a.UnlinkGrab? {
      more := StaleReplyLast(input, Step(input, s, a), t);
    } else {
      more := StaleReplyAfterUnlink(input, Step(input, s, a), t);
    }
    RunCons(input, s, a, more);
    acts := [a] + more;
  }

  // ----- the in-flight map and the drain -----

  /**
   * With distinct seqnums, between loop iterations: a task that is not done and not unlinked has its
   * own entry, and any other entry is left over from a task that was done before its insert.
   */
  lemma InflightExact(input: seq<Command>, s: State)
    requires GoodInput(input) && DistinctInput(input) && Reachable(input, s) && s.loop.Reading?
    ensures forall t | 0 <= t < |s.tasks| && !s.tasks[t].taken && !Gone(s.tasks[t].pc) ::
              Seqnum(s.tasks[t]) in s.inflight && s.inflight[Seqnum(s.tasks[t])] == t
    ensures forall q | q in s.inflight ::
              && s.inflight[q] < |s.tasks|
              && var k := s.tasks[s.inflight[q]];
                 Seqnum(k) == q && !k.taken && (Gone(k.pc) <==> k.early)
  {
    ReachableInv(input, s);
    hide Reachable, Results, Wire, Permits, Log, Locks, Arrival, Cancellation;
    assert forall t | 0 <= t < |s.tasks| :: Inserted(s, t) && TaskOk(s.tasks[t]);
  }

  function EntryOf(k: Task): nat {
    if HasEntry(k) then 1 else 0
  }

  /** An entry that nothing but an unlink, a reuse of its seqnum or the drain will remove. */
  function LeftoverOf(k: Task): nat {
    if k.early && !k.taken then 1 else 0
  }

  function EntryKeys(ts: seq<Task>): set<u32> {
    if ts == [] then {}
    else EntryKeys(ts[..|ts| - 1]) + (if HasEntry(ts[|ts| - 1]) then {Seqnum(ts[|ts| - 1])} else {})
  }

  lemma {:induction false} EntryKeysHas(ts: seq<Task>, t: nat)
    requires t < |ts| && HasEntry(ts[t])
    ensures Seqnum(ts[t]) in EntryKeys(ts)
  {
    if t < |ts| - 1 {
      EntryKeysHas(ts[..|ts| - 1], t);
    }
  }

  lemma {:induction false} EntryKeysCount(ts: seq<Task>)
    requires forall t | 0 <= t < |ts| :: TaskOk(ts[t])
    ensures |EntryKeys(ts)| <= Sum(ts, EntryOf) <= Held(ts) + Sum(ts, LeftoverOf)
  {
    hide Plausible, ReplyFor, Framed, ReplyBytes;
    if ts != [] {
      EntryKeysCount(ts[..|ts| - 1]);
      assert TaskOk(ts[|ts| - 1]);
    }
  }

  /** The map holds at most 256 entries of live tasks, and beyond those only leftovers. */
  lemma InflightBound(input: seq<Command>, s: State)
    requires GoodInput(input) && DistinctInput(input) && Reachable(input, s)
    ensures |s.inflight| <= 256 + Sum(s.tasks, LeftoverOf)
  {
    ReachableInv(input, s);
    hide Reachable, Results, Wire, Log, Locks, Arrival, Cancellation, TaskOk, LoopOk;
    EntryKeysCount(s.tasks);
    forall q | q in s.inflight ensures q in EntryKeys(s.tasks) {
      EntryKeysHas(s.tasks, s.inflight[q]);
    }
    KeysWithin(s.inflight, EntryKeys(s.tasks));
  }

  lemma KeysWithin(m: map<u32, nat>, keys: set<u32>)
    requires forall q | q in m :: q in keys
    ensures |m| <= |keys|
  {
    SubsetSize(m.Keys, keys);
    assert |m| == |m.Keys|;
  }

  lemma {:induction false} SubsetSize(a: set<u32>, b: set<u32>)
    requires a <= b
    ensures |a| <= |b|
  {
    if a != {} {
      var x :| x in a;
      SubsetSize(a - {x}, b - {x});
    }
  }

  /** When the session has drained, the map is empty and every task is done or flagged and aborted. */
  lemma DrainComplete(input: seq<Command>, s: State)
    requires GoodInput(input) && DistinctInput(input) && Reachable(input, s) && s.loop.Stopped?
    ensures s.inflight == map[]
    ensures forall t | 0 <= t < |s.tasks| ::
              Gone(s.tasks[t].pc) || (s.tasks[t].cancelled && s.tasks[t].abortRequested)
  {
    ReachableInv(input, s);
    hide Reachable, Results, Wire, Permits, Log, Locks, Arrival, InflightMap;
    assert forall t | 0 <= t < |s.tasks| :: TaskOk(s.tasks[t]);
  }

  // ----- framing -----

  function DirectionsOf(ss: seq<Command>): Directions {
    if ss == [] then map[]
    else DirectionsOf(ss[..|ss| - 1])[ss[|ss| - 1].header.seqnum := ss[|ss| - 1].header.direction == 1]
  }

  lemma {:induction false} DirectionOf(ss: seq<Command>, i: nat)
    requires DistinctSeqnums(ss) && i < |ss|
    ensures ss[i].header.seqnum in DirectionsOf(ss)
    ensures DirectionsOf(ss)[ss[i].header.seqnum] == (ss[i].header.direction == 1)
  {
    if i < |ss| - 1 {
      DirectionOf(ss[..|ss| - 1], i);
    }
  }

  lemma ReplyFits(input: seq<Command>, s: State, t: nat, r: Reply)
    requires Arrival(input, s) && DistinctInput(input) && t < |s.tasks|
    requires s.tasks[t].cmd.Submit? && ReplyFor(s.tasks[t].cmd, r)
    ensures Fits(DirectionsOf(Submits(input)), r)
  {
    SubmitsPrefix(input, s.next);
    assert TaskCommands(s.tasks)[t] == Submits(input)[t];
    DirectionOf(Submits(input), t);
  }

  lemma LoggedFit(input: seq<Command>, s: State)
    requires Log(s) && Arrival(input, s) && DistinctInput(input)
    ensures forall r | r in Replies(s.log) :: Fits(DirectionsOf(Submits(input)), r)
  {
    forall i | 0 <= i < |s.log|
      ensures Fits(DirectionsOf(Submits(input)), s.log[i].reply)
    {
      hide Arrival, DistinctInput, Fits;
      if s.log[i].FromTask? {
        ReplyFits(input, s, s.log[i].t, s.log[i].reply);
      } else {
        UnlinkFits(DirectionsOf(Submits(input)), s.log[i].reply);
      }
    }
  }

  lemma UnlinkFits(dirs: Directions, r: Reply)
    requires r.RetUnlink?
    ensures Fits(dirs, r)
  {
  }

  /** The reply in progress, if any; otherwise one of which nothing has been sent. */
  lemma InProgress(input: seq<Command>, s: State) returns (r: Reply, k: nat)
    requires Structure(input, s) && Locks(s) && Arrival(input, s) && DistinctInput(input)
    ensures Fits(DirectionsOf(Submits(input)), r)
    ensures k < |ReplyBytes(r)| && Partial(s) == ReplyBytes(r)[..k]
  {
    hide ReplyBytes, Fits, Arrival, DistinctInput;
    if s.loop.UnlinkWriting? {
      r, k := RetUnlink(s.loop.seqnum, 0), s.loop.sent;
      UnlinkFits(DirectionsOf(Submits(input)), r);
    } else if s.writer.ByTask? {
      var t := s.writer.t;
      assert TaskOk(s.tasks[t]);
      r, k := s.tasks[t].pc.reply, s.tasks[t].pc.sent;
      ReplyFits(input, s, t, r);
    } else {
      r, k := RetUnlink(0, 0), 0;
      UnlinkFits(DirectionsOf(Submits(input)), r);
    }
  }

  /**
   * Output framing: a client that remembers the direction of its submits parses the socket, at any
   * moment of any run, into the server's log and the reply in progress exactly if no write was cut.
   */
  lemma OutputFraming(input: seq<Command>, s: State)
    requires GoodInput(input) && DistinctInput(input) && Reachable(input, s)
    ensures ReadReplies(DirectionsOf(Submits(input)), s.out) == (Replies(s.log), Partial(s)) <==> !s.torn
  {
    ReachableInv(input, s);
    hide Reachable, Structure, Locks, Log, Arrival, DistinctInput, Permits, InflightMap, Cancellation;
    var dirs := DirectionsOf(Submits(input));
    if s.torn {
      ReadKeepsLength(dirs, s.out);
    } else {
      LoggedFit(input, s);
      var r, k := InProgress(input, s);
      OutputRoundTrip(dirs, Replies(s.log), r, k);
    }
  }
}
