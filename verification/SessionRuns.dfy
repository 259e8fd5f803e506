/** Runs that show what a URB session can do: stale and cut replies, leftover entries, a blocked unlink. */
module SessionRuns {
  import opened Bytes
  import opened Urb
  import opened Framing
  import opened Transfer
  import opened UrbSession
  import opened SessionInvariants
  import opened SessionSafety

  ghost predicate Leads(input: seq<Command>, s: State, s': State) {
    exists acts :: ValidRun(input, s, acts) && Run(input, s, acts) == s'
  }

  lemma LeadsBy(input: seq<Command>, s: State, a: Action, s': State)
    requires Leads(input, s, s') && Enabled(input, s', a)
    ensures Leads(input, s, Step(input, s', a))
  {
    hide Step, Enabled;
    var acts :| ValidRun(input, s, acts) && Run(input, s, acts) == s';
    OneStep(input, s', a);
    RunConcat(input, s, acts, [a]);
  }

  lemma LeadsReachable(input: seq<Command>, s: State)
    ensures Leads(input, Init(), s) <==> Reachable(input, s)
  {
  }

  function SetTask(s: State, t: nat, k: Task): (s': State)
    requires t < |s.tasks|
    ensures |s'.tasks| == |s.tasks| && s'.tasks[t] == k
  {
    s.(tasks := s.tasks[t := k])
  }

  /** Steps of task `t` that only move the task on. */
  lemma TaskMoves(input: seq<Command>, s: State, s': State, a: Action)
    requires Leads(input, s, s') && TaskEnabled(s', a)
    requires a.ClosureStart? || a.ClosureGrab? || a.ClosureReturn? || a.Resume? || a.Check?
    ensures Leads(input, s, SetTask(s', a.t, TaskAfter(s'.tasks[a.t], a)))
  {
    hide ReplyBytes, Plausible, BuildReply, EndpointFree, PcAfter, ClosureAfter, ExitAfter;
    LeadsBy(input, s, a, s');
  }

  function Failed(c: Command): Task
    requires c.Submit?
  {
    NewTask(c).(closure := Returned(Some(HostFailed)), pc := Ready(RetSubmit(c.header.seqnum, EPIPE, 0, [])))
  }

  /** A fresh task whose transfer fails at once gets past its check. */
  lemma TransferFails(input: seq<Command>, s: State, s': State, t: nat)
    requires Leads(input, s, s') && t < |s'.tasks| && s'.tasks[t] == NewTask(s'.tasks[t].cmd) && s'.tasks[t].cmd.Submit?
    ensures Leads(input, s, SetTask(s', t, Failed(s'.tasks[t].cmd)))
  {
    hide ReplyBytes, EndpointFree;
    var k := s'.tasks[t];
    var k1 := k.(closure := Returned(Some(HostFailed)));
    var k2 := k1.(pc := Transferred(HostFailed));
    TaskMoves(input, s, s', ClosureReturn(t, Some(HostFailed)));
    TaskMoves(input, s, SetTask(s', t, k1), Resume(t));
    assert SetTask(SetTask(s', t, k1), t, k2) == SetTask(s', t, k2);
    TaskMoves(input, s, SetTask(s', t, k2), Check(t));
    assert SetTask(SetTask(s', t, k2), t, Failed(k.cmd)) == SetTask(s', t, Failed(k.cmd));
  }

  /** A task past its check takes the free writer and gets the first `n` bytes out. */
  lemma ReplyStarts(input: seq<Command>, s: State, s': State, t: nat, n: nat)
    requires Leads(input, s, s') && s'.writer.Free? && t < |s'.tasks| && s'.tasks[t].pc.Ready?
    requires 1 <= n < |ReplyBytes(s'.tasks[t].pc.reply)|
    ensures var r := s'.tasks[t].pc.reply;
            Leads(input, s, SetTask(s', t, s'.tasks[t].(pc := Writing(r, n))).(
              writer := ByTask(t), out := s'.out + ReplyBytes(r)[..n]))
  {
    hide ReplyBytes, EndpointFree;
    var k, r := s'.tasks[t], s'.tasks[t].pc.reply;
    var s1 := SetTask(s', t, k.(pc := Writing(r, 0))).(writer := ByTask(t));
    var s2 := SetTask(s', t, k.(pc := Writing(r, n))).(writer := ByTask(t), out := s'.out + ReplyBytes(r)[..n]);
    ReplyGrabs(input, s, s', t);
    LeadsBy(input, s, Send(t, n), s1);
    assert ReplyBytes(r)[0..n] == ReplyBytes(r)[..n];
    assert Step(input, s1, Send(t, n)) == s2;
  }

  lemma ReplyGrabs(input: seq<Command>, s: State, s': State, t: nat)
    requires Leads(input, s, s') && s'.writer.Free? && t < |s'.tasks| && s'.tasks[t].pc.Ready?
    ensures Leads(input, s, SetTask(s', t, s'.tasks[t].(pc := Writing(s'.tasks[t].pc.reply, 0))).(writer := ByTask(t)))
  {
    hide ReplyBytes, EndpointFree;
    LeadsBy(input, s, Grab(t), s');
  }

  // ----- the loop's side -----

  /** The loop reads a submit and spawns its task; the insert is still to come. */
  lemma SubmitSpawned(input: seq<Command>, s: State, s': State)
    requires Leads(input, s, s') && s'.loop.Reading? && s'.permits > 0
    requires s'.next < |input| && input[s'.next].Submit?
    ensures Leads(input, s, s'.(next := s'.next + 1, loop := Spawned(|s'.tasks|), permits := s'.permits - 1,
                                tasks := s'.tasks + [NewTask(input[s'.next])]))
  {
    hide ReplyBytes, Drained, EndpointFree;
    var c := input[s'.next];
    var s1 := s'.(next := s'.next + 1, loop := Acquiring(c));
    var s2 := s1.(loop := Permitted(c), permits := s'.permits - 1);
    LeadsBy(input, s, ReadNext, s');
    LeadsBy(input, s, Acquire, s1);
    LeadsBy(input, s, Spawn, s2);
  }

  lemma TaskInserted(input: seq<Command>, s: State, s': State, t: nat)
    requires Leads(input, s, s') && s'.loop == Spawned(t) && t < |s'.tasks|
    ensures var k := s'.tasks[t];
            Leads(input, s, SetTask(s', t, k.(early := Gone(k.pc))).(
              loop := Reading, inflight := s'.inflight[Seqnum(k) := t]))
  {
    hide ReplyBytes, Drained, EndpointFree;
    LeadsBy(input, s, Insert, s');
  }

  function OneTask(next: nat, loop: LoopPc, k: Task, inflight: map<u32, nat>): State {
    State(next, loop, [k], inflight, MAX_INFLIGHT_URBS - 1, Free, [], [], false, false)
  }

  lemma SubmitTaken(input: seq<Command>)
    requires |input| > 0 && input[0].Submit?
    ensures Leads(input, Init(), OneTask(1, Reading, NewTask(input[0]), map[input[0].header.seqnum := 0]))
  {
    var k, q := NewTask(input[0]), input[0].header.seqnum;
    assert ValidRun(input, Init(), []);
    hide Leads, ReplyBytes;
    SubmitSpawned(input, Init(), Init());
    assert [] + [k] == [k];
    TaskInserted(input, Init(), OneTask(1, Spawned(0), k, map[]), 0);
    assert [k][0 := k] == [k] && map[][q := 0] == map[q := 0];
  }

  /** The loop reads an unlink of the one task there is, takes its entry and flags it. */
  lemma UnlinkTaken(input: seq<Command>, s: State, s': State)
    requires Leads(input, s, s') && s'.loop.Reading? && s'.next == 1 && |s'.tasks| == 1
    requires |input| > 1 && input[1].Unlink? && s'.inflight == map[input[1].unlink.unlinkSeqnum := 0]
    ensures Leads(input, s, SetTask(s', 0, s'.tasks[0].(taken := true)).(
                    next := 2, loop := UnlinkHit(input[1].header.seqnum, 0), inflight := map[]))
  {
    hide ReplyBytes, Drained;
    var target := input[1].unlink.unlinkSeqnum;
    LeadsBy(input, s, ReadNext, s');
    assert s'.inflight - {target} == map[];
    LeadsBy(input, s, UnlinkTake, s'.(next := 2, loop := UnlinkPending(input[1].header.seqnum, target)));
  }

  lemma UnlinkFlags(input: seq<Command>, s: State, s': State, q: u32)
    requires Leads(input, s, s') && s'.loop == UnlinkHit(q, 0) && |s'.tasks| == 1
    ensures Leads(input, s, SetTask(s', 0, s'.tasks[0].(cancelled := true)).(loop := UnlinkFlagged(q, 0)))
  {
    LeadsBy(input, s, UnlinkFlag, s');
  }

  /** The unlink goes on to its reply, whatever the task it aborted is doing. */
  lemma UnlinkAborts(input: seq<Command>, s: State, s': State, q: u32)
    requires Leads(input, s, s') && s'.loop == UnlinkFlagged(q, 0) && |s'.tasks| == 1
    ensures Leads(input, s, SetTask(s', 0, s'.tasks[0].(abortRequested := true)).(loop := UnlinkReply(q)))
  {
    hide EndpointFree;
    LeadsBy(input, s, UnlinkCancel(None), s');
    LeadsBy(input, s, UnlinkAbort, s'.(loop := UnlinkCancelled(q, 0)));
  }

  lemma UnlinkGoesOut(input: seq<Command>, s: State, s': State, q: u32)
    requires Leads(input, s, s') && s'.loop == UnlinkReply(q) && s'.writer.Free?
    ensures var r := RetUnlink(q, 0);
            Leads(input, s, s'.(loop := Reading, out := s'.out + ReplyBytes(r), log := s'.log + [FromLoop(r)]))
  {
    hide ReplyBytes;
    var r := RetUnlink(q, 0);
    LeadsBy(input, s, UnlinkGrab, s');
    assert ReplyBytes(r)[0..HEADER_SIZE] == ReplyBytes(r);
    LeadsBy(input, s, UnlinkSend(HEADER_SIZE), s'.(loop := UnlinkWriting(q, 0), writer := ByLoop));
  }

  // ----- a stale reply -----

  /** For any submit and an unlink of it there is a run in which the RET_SUBMIT follows the RET_UNLINK. */
  lemma StaleReplyHappens(c: Command, u: Command) returns (acts: seq<Action>)
    requires c.Submit? && Framed(c) && u.Unlink? && u.unlink.unlinkSeqnum == c.header.seqnum
    ensures ValidRun([c, u], Init(), acts)
    ensures Run([c, u], Init(), acts).log ==
            [FromLoop(RetUnlink(u.header.seqnum, 0)), FromTask(0, RetSubmit(c.header.seqnum, EPIPE, 0, []))]
  {
    hide ReplyBytes, Inv, Step, Enabled;
    var input, m := [c, u], map[c.header.seqnum := 0];
    SubmitTaken(input);
    TransferFails(input, Init(), OneTask(1, Reading, NewTask(c), m), 0);
    assert [NewTask(c)][0 := Failed(c)] == [Failed(c)];
    UnlinkTaken(input, Init(), OneTask(1, Reading, Failed(c), m));
    var s := OneTask(2, UnlinkHit(u.header.seqnum, 0), Failed(c).(taken := true), map[]);
    LeadsReachable(input, s);
    ReachableInv(input, s);
    var first :| ValidRun(input, Init(), first) && Run(input, Init(), first) == s;
    var second := StaleReplyAfterUnlink(input, s, 0);
    acts := first + second;
    RunConcat(input, Init(), first, second);
  }

  // ----- a cut reply -----

  lemma AbortCuts(input: seq<Command>, s: State, s': State, t: nat)
    requires Leads(input, s, s') && t < |s'.tasks|
    requires s'.tasks[t].abortRequested && s'.tasks[t].pc.Writing? && s'.tasks[t].pc.sent > 0
    ensures Leads(input, s, SetTask(s', t, s'.tasks[t].(pc := Aborted)).(
                    permits := s'.permits + 1, writer := Free, torn := true))
  {
    hide ReplyBytes, EndpointFree;
    LeadsBy(input, s, AbortLands(t), s');
  }

  /**
   * For any submit, any unlink of it and any proper part of the submit's reply there is a run in which
   * the RET_UNLINK follows that part on the socket, so the client cannot parse what it receives.
   */
  lemma CutReplyHappens(c: Command, u: Command, n: nat) returns (s: State)
    requires c.Submit? && Framed(c) && u.Unlink? && u.unlink.unlinkSeqnum == c.header.seqnum
    requires 1 <= n < |ReplyBytes(RetSubmit(c.header.seqnum, EPIPE, 0, []))|
    ensures Reachable([c, u], s) && s.torn && s.log == [FromLoop(RetUnlink(u.header.seqnum, 0))]
    ensures s.out ==
            ReplyBytes(RetSubmit(c.header.seqnum, EPIPE, 0, []))[..n] + ReplyBytes(RetUnlink(u.header.seqnum, 0))
    ensures ReadReplies(DirectionsOf(Submits([c, u])), s.out) != (Replies(s.log), Partial(s))
  {
    hide ReplyBytes, Inv, Step, Enabled, Leads;
    var input, q, m := [c, u], u.header.seqnum, map[c.header.seqnum := 0];
    var r := RetSubmit(c.header.seqnum, EPIPE, 0, []);
    SubmitTaken(input);
    TransferFails(input, Init(), OneTask(1, Reading, NewTask(c), m), 0);
    assert [NewTask(c)][0 := Failed(c)] == [Failed(c)];
    s := OneTask(1, Reading, Failed(c), m);
    ReplyStarts(input, Init(), s, 0, n);
    s := SetTask(s, 0, Failed(c).(pc := Writing(r, n))).(writer := ByTask(0), out := s.out + ReplyBytes(r)[..n]);
    UnlinkTaken(input, Init(), s);
    s := SetTask(s, 0, s.tasks[0].(taken := true)).(next := 2, loop := UnlinkHit(q, 0), inflight := map[]);
    UnlinkFlags(input, Init(), s, q);
    s := SetTask(s, 0, s.tasks[0].(cancelled := true)).(loop := UnlinkFlagged(q, 0));
    UnlinkAborts(input, Init(), s, q);
    s := SetTask(s, 0, s.tasks[0].(abortRequested := true)).(loop := UnlinkReply(q));
    AbortCuts(input, Init(), s, 0);
    s := SetTask(s, 0, s.tasks[0].(pc := Aborted)).(permits := s.permits + 1, writer := Free, torn := true);
    UnlinkGoesOut(input, Init(), s, q);
    s := s.(loop := Reading, out := s.out + ReplyBytes(RetUnlink(q, 0)), log := s.log + [FromLoop(RetUnlink(q, 0))]);
    LeadsReachable(input, s);
    OneSubmit(c, u);
    OutputFraming(input, s);
  }

  lemma OneSubmit(c: Command, u: Command)
    requires c.Submit? && u.Unlink?
    ensures Submits([c, u]) == [c] && DistinctInput([c, u])
  {
    assert [c, u][..1] == [c] && [c][..0] == [];
    assert Submits([c]) == [c];
  }

  // ----- leftover entries -----

  lemma ReplyGoesOut(input: seq<Command>, s: State, s': State, t: nat)
    requires Leads(input, s, s') && s'.writer.Free? && t < |s'.tasks| && s'.tasks[t].pc.Ready?
    ensures var r := s'.tasks[t].pc.reply;
            Leads(input, s, SetTask(s', t, s'.tasks[t].(pc := Leaving, exit := ReplySent)).(
                    out := s'.out + ReplyBytes(r), log := s'.log + [FromTask(t, r)]))
  {
    hide ReplyBytes, EndpointFree;
    var k, r := s'.tasks[t], s'.tasks[t].pc.reply;
    var s1 := SetTask(s', t, k.(pc := Writing(r, 0))).(writer := ByTask(t));
    ReplyGrabs(input, s, s', t);
    assert ReplyBytes(r)[0..|ReplyBytes(r)|] == ReplyBytes(r);
    LeadsBy(input, s, Send(t, |ReplyBytes(r)|), s1);
    assert Step(input, s1, Send(t, |ReplyBytes(r)|)) ==
           SetTask(s', t, k.(pc := Leaving, exit := ReplySent)).(
             out := s'.out + ReplyBytes(r), log := s'.log + [FromTask(t, r)]);
  }

  lemma TaskRemoves(input: seq<Command>, s: State, s': State, t: nat)
    requires Leads(input, s, s') && t < |s'.tasks| && s'.tasks[t].pc.Leaving? && !MapLocked(s'.loop)
    requires Seqnum(s'.tasks[t]) !in s'.inflight
    ensures Leads(input, s, SetTask(s', t, s'.tasks[t].(pc := Removed)))
  {
    hide ReplyBytes, EndpointFree;
    LeadsBy(input, s, SelfRemove(t), s');
    assert s'.inflight - {Seqnum(s'.tasks[t])} == s'.inflight;
  }

  lemma TaskFinishes(input: seq<Command>, s: State, s': State, t: nat)
    requires Leads(input, s, s') && t < |s'.tasks| && s'.tasks[t].pc.Removed?
    ensures Leads(input, s, SetTask(s', t, s'.tasks[t].(pc := Finished)).(permits := s'.permits + 1))
  {
    hide ReplyBytes, EndpointFree;
    LeadsBy(input, s, Finish(t), s');
  }

  /** What is left in the table of a task that was done before its insert. */
  function EarlyTask(c: Command): Task {
    Task(c, Finished, Returned(Some(HostFailed)), false, false, false, true, ReplySent)
  }

  /** A submit whose task is done before the loop inserts it leaves an entry and gives its permit back. */
  lemma OneLeftover(input: seq<Command>, s: State, s': State) returns (s'': State)
    requires Leads(input, s, s') && s'.loop.Reading? && s'.permits > 0 && s'.writer.Free?
    requires s'.next < |input| && input[s'.next].Submit? && input[s'.next].header.seqnum !in s'.inflight
    ensures Leads(input, s, s'') && s''.loop.Reading? && s''.permits == s'.permits && s''.writer.Free?
    ensures s''.next == s'.next + 1 && s''.inflight == s'.inflight[input[s'.next].header.seqnum := |s'.tasks|]
    ensures s''.tasks == s'.tasks + [EarlyTask(input[s'.next])]
  {
    hide Leads, ReplyBytes;
    var c, t := input[s'.next], |s'.tasks|;
    SubmitSpawned(input, s, s');
    s'' := s'.(next := s'.next + 1, loop := Spawned(t), permits := s'.permits - 1, tasks := s'.tasks + [NewTask(c)]);
    TransferFails(input, s, s'', t);
    s'' := SetTask(s'', t, Failed(c));
    ReplyGoesOut(input, s, s'', t);
    var r := s''.tasks[t].pc.reply;
    s'' := SetTask(s'', t, s''.tasks[t].(pc := Leaving, exit := ReplySent)).(
      out := s''.out + ReplyBytes(r), log := s''.log + [FromTask(t, r)]);
    TaskRemoves(input, s, s'', t);
    s'' := SetTask(s'', t, s''.tasks[t].(pc := Removed));
    TaskFinishes(input, s, s'', t);
    s'' := SetTask(s'', t, s''.tasks[t].(pc := Finished)).(permits := s''.permits + 1);
    TaskInserted(input, s, s'', t);
    s'' := SetTask(s'', t, s''.tasks[t].(early := true)).(
      loop := Reading, inflight := s''.inflight[Seqnum(s''.tasks[t]) := t]);
  }

  /** Nothing but distinct seqnums bounds the in-flight map: any list of submits can leave an entry each. */
  lemma {:induction false} LeftoversPileUp(input: seq<Command>, n: nat) returns (s: State)
    requires n <= |input| && DistinctSeqnums(input) && forall i | 0 <= i < |input| :: input[i].Submit?
    ensures Leads(input, Init(), s) && s.loop.Reading? && s.writer.Free? && s.permits == MAX_INFLIGHT_URBS
    ensures s.next == |s.tasks| == |s.inflight| == n
    ensures forall q | q in s.inflight :: exists i | 0 <= i < n :: input[i].header.seqnum == q
  {
    if n == 0 {
      s := Init();
      assert ValidRun(input, s, []);
    } else {
      var s0 := LeftoversPileUp(input, n - 1);
      s := OneLeftover(input, Init(), s0);
    }
  }

  /** So for every n that seqnums allow, some session has n entries and no live task. */
  lemma InflightUnbounded(n: nat) returns (input: seq<Command>, s: State)
    requires n <= 0x1_0000_0000
    ensures GoodInput(input) && DistinctInput(input) && Reachable(input, s) && |s.inflight| == n
  {
    input := seq(n, i requires 0 <= i < n =>
      Submit(UrbHeader(CMD_SUBMIT, i, 0, 0, 0), CmdSubmit(0, 0, 0, 0, 0, Zeros(8)), []));
    AllSubmits(input);
    s := LeftoversPileUp(input, n);
    LeadsReachable(input, s);
  }

  lemma {:induction false} AllSubmits(cs: seq<Command>)
    requires forall i | 0 <= i < |cs| :: cs[i].Submit?
    ensures Submits(cs) == cs
  {
    if cs != [] {
      AllSubmits(cs[..|cs| - 1]);
      assert cs == cs[..|cs| - 1] + [cs[|cs| - 1]];
    }
  }

  // ----- a blocked unlink -----

  /** For any submit to an endpoint and any unlink of it there is a run to an unlink that waits for the transfer. */
  lemma BlockedUnlinkHappens(c: Command, u: Command, obj: nat) returns (s: State)
    requires c.Submit? && EpAddr(c.header) != 0 && u.Unlink? && u.unlink.unlinkSeqnum == c.header.seqnum
    ensures Reachable([c, u], s) && s.loop == UnlinkFlagged(u.header.seqnum, 0)
    ensures |s.tasks| == 1 && s.tasks[0].cmd == c && s.tasks[0].closure == Holding(obj)
  {
    hide Leads, ReplyBytes, Plausible, BuildReply;
    var input, q, m, k := [c, u], u.header.seqnum, map[c.header.seqnum := 0], NewTask(c);
    SubmitTaken(input);
    s := OneTask(1, Reading, k, m);
    TaskMoves(input, Init(), s, ClosureStart(0, obj));
    s := SetTask(s, 0, k.(closure := Waiting(obj)));
    TaskMoves(input, Init(), s, ClosureGrab(0));
    s := SetTask(s, 0, k.(closure := Holding(obj)));
    UnlinkTaken(input, Init(), s);
    s := SetTask(s, 0, s.tasks[0].(taken := true)).(next := 2, loop := UnlinkHit(q, 0), inflight := map[]);
    UnlinkFlags(input, Init(), s, q);
    s := SetTask(s, 0, s.tasks[0].(cancelled := true)).(loop := UnlinkFlagged(q, 0));
    LeadsReachable(input, s);
  }
}
