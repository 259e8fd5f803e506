/** The heap table of `Inflight` does to its entries what the steps of `UrbSession` do to the map and the tasks. */
module InflightRefines {
  import opened Bytes
  import opened Urb
  import opened Framing
  import opened UrbSession
  import opened SessionInvariants
  import opened SessionRuns
  import Inflight

  function Flags(handles: seq<Inflight.Entry>): set<Inflight.Flag> {
    (set t | 0 <= t < |handles| :: handles[t].cancelled) + (set t | 0 <= t < |handles| :: handles[t].abort)
  }

  /** Every task has a flag and an abort handle of its own. */
  predicate Separate(handles: seq<Inflight.Entry>) {
    forall t, u | 0 <= t < |handles| && 0 <= u < |handles| ::
      && handles[t].cancelled != handles[u].abort
      && (t != u ==> handles[t].cancelled != handles[u].cancelled && handles[t].abort != handles[u].abort)
  }

  /** Flag and abort handle of each task are up as the session has them. */
  ghost predicate FlagsMatch(handles: seq<Inflight.Entry>, tasks: seq<Task>)
    reads Flags(handles)
  {
    && |handles| == |tasks|
    && forall t | 0 <= t < |handles| ::
         && handles[t].epAddr == EpAddr(tasks[t].cmd.header)
         && handles[t].cancelled.raised == tasks[t].cancelled && handles[t].abort.raised == tasks[t].abortRequested
  }

  /** The table maps each seqnum to the handle of the task that the session's map names. */
  ghost predicate EntriesMatch(entries: map<u32, Inflight.Entry>, handles: seq<Inflight.Entry>, m: map<u32, nat>) {
    && entries.Keys == m.Keys
    && forall q | q in m :: m[q] < |handles| && entries[q] == handles[m[q]]
  }

  ghost predicate Represents(table: Inflight.Table, handles: seq<Inflight.Entry>, s: State)
    reads table, Flags(handles)
  {
    Separate(handles) && FlagsMatch(handles, s.tasks) && EntriesMatch(table.entries, handles, s.inflight)
  }

  // ----- insert -----

  method Insert(
    table: Inflight.Table, handles: seq<Inflight.Entry>, ghost input: seq<Command>, ghost s: State, t: nat, q: u32)
    requires Represents(table, handles, s) && s.loop == Spawned(t) && t < |s.tasks| && q == Seqnum(s.tasks[t])
    modifies table
    ensures LoopEnabled(input, s, UrbSession.Insert)
    ensures Represents(table, handles, LoopStep(input, s, UrbSession.Insert))
  {
    table.Insert(q, handles[t]);
  }

  // ----- unlink -----

  function Cancelled(k: Task): Task {
    k.(taken := true, cancelled := true, abortRequested := true)
  }

  /** The session once the unlink handler has let go of the map. */
  function AfterUnlink(s: State): State
    requires s.loop.UnlinkPending?
    requires s.loop.target in s.inflight ==> s.inflight[s.loop.target] < |s.tasks|
  {
    var q := s.loop.target;
    if q !in s.inflight then s.(loop := UnlinkReply(s.loop.seqnum), inflight := s.inflight - {q})
    else
      SetTask(s, s.inflight[q], Cancelled(s.tasks[s.inflight[q]])).(
        loop := UnlinkReply(s.loop.seqnum), inflight := s.inflight - {q})
  }

  /** The steps of the handler lead there. */
  lemma UnlinkLeads(input: seq<Command>, s: State, s': State)
    requires Leads(input, s, s') && s'.loop.UnlinkPending?
    requires s'.loop.target in s'.inflight ==> s'.inflight[s'.loop.target] < |s'.tasks|
    ensures Leads(input, s, AfterUnlink(s'))
  {
    hide ReplyBytes, Drained, EndpointFree;
    var q, target := s'.loop.seqnum, s'.loop.target;
    LeadsBy(input, s, UnlinkTake, s');
    if target in s'.inflight {
      var t := s'.inflight[target];
      var k := s'.tasks[t];
      var s1 := SetTask(s', t, k.(taken := true)).(loop := UnlinkHit(q, t), inflight := s'.inflight - {target});
      HitLeads(input, s, s1, q, t);
      assert SetTask(s1, t, Cancelled(k)).tasks == SetTask(s', t, Cancelled(k)).tasks;
    }
  }

  lemma HitLeads(input: seq<Command>, s: State, s': State, q: u32, t: nat)
    requires Leads(input, s, s') && s'.loop == UnlinkHit(q, t) && t < |s'.tasks| && s'.tasks[t].taken
    ensures Leads(input, s, SetTask(s', t, Cancelled(s'.tasks[t])).(loop := UnlinkReply(q)))
  {
    hide ReplyBytes, Drained, EndpointFree, Leads;
    var k := s'.tasks[t];
    var s1 := SetTask(s', t, k.(cancelled := true)).(loop := UnlinkFlagged(q, t));
    LeadsBy(input, s, UnlinkFlag, s');
    FlaggedLeads(input, s, s1, q, t);
    assert s'.tasks[t := k.(cancelled := true)][t := Cancelled(k)] == s'.tasks[t := Cancelled(k)];
  }

  lemma FlaggedLeads(input: seq<Command>, s: State, s': State, q: u32, t: nat)
    requires Leads(input, s, s') && s'.loop == UnlinkFlagged(q, t) && t < |s'.tasks|
    ensures Leads(input, s, SetTask(s', t, s'.tasks[t].(abortRequested := true)).(loop := UnlinkReply(q)))
  {
    hide ReplyBytes, Drained, EndpointFree, Leads;
    LeadsBy(input, s, UnlinkCancel(None), s');
    LeadsBy(input, s, UnlinkAbort, s'.(loop := UnlinkCancelled(q, t)));
  }

  method Unlink(table: Inflight.Table, handles: seq<Inflight.Entry>, ghost s: State, target: u32)
    returns (cancel: Option<byte>)
    requires Represents(table, handles, s) && s.loop.UnlinkPending? && s.loop.target == target
    modifies table, Flags(handles)
    ensures target in s.inflight ==> s.inflight[target] < |s.tasks|
    ensures Represents(table, handles, AfterUnlink(s))
    ensures cancel.Some? ==> target in s.inflight && EpAddr(s.tasks[s.inflight[target]].cmd.header) == cancel.value != 0
    ensures cancel.None? && target in s.inflight ==> EpAddr(s.tasks[s.inflight[target]].cmd.header) == 0
  {
    assert |handles| == |s.tasks|;
    hide EpAddr, Separate, AfterUnlink, FlagsMatch;
    UnlinkFields(s);
    EntriesWithout(table.entries, handles, s.inflight, target);
    if target in s.inflight {
      SeparateAt(handles, s.inflight[target]);
    }
    assert FlagsMatch(handles, s.tasks);
    cancel := RaiseFlags(table, handles, s.tasks, s.inflight, target);
  }

  lemma UnlinkFields(s: State)
    requires s.loop.UnlinkPending? && (s.loop.target in s.inflight ==> s.inflight[s.loop.target] < |s.tasks|)
    ensures AfterUnlink(s).inflight == s.inflight - {s.loop.target}
    ensures AfterUnlink(s).tasks == TasksUnlinked(s.tasks, s.inflight, s.loop.target)
  {
  }

  function TasksUnlinked(tasks: seq<Task>, m: map<u32, nat>, q: u32): seq<Task>
    requires q in m ==> m[q] < |tasks|
  {
    if q in m then tasks[m[q] := Cancelled(tasks[m[q]])] else tasks
  }

  lemma EntriesWithout(entries: map<u32, Inflight.Entry>, handles: seq<Inflight.Entry>, m: map<u32, nat>, q: u32)
    requires EntriesMatch(entries, handles, m)
    ensures EntriesMatch(entries - {q}, handles, m - {q})
  {
  }

  method RaiseFlags(
    table: Inflight.Table, handles: seq<Inflight.Entry>, ghost tasks: seq<Task>, ghost m: map<u32, nat>, target: u32)
    returns (cancel: Option<byte>)
    requires Separate(handles) && FlagsMatch(handles, tasks) && EntriesMatch(table.entries, handles, m)
    modifies table, Flags(handles)
    ensures table.entries == old(table.entries) - {target}
    ensures target in m ==> m[target] < |tasks|
    ensures FlagsMatch(handles, TasksUnlinked(tasks, m, target))
    ensures cancel == if target in m && EpAddr(tasks[m[target]].cmd.header) != 0
                      then Some(EpAddr(tasks[m[target]].cmd.header)) else None
  {
    hide EpAddr, Separate;
    if target in m {
      SeparateAt(handles, m[target]);
    }
    cancel := table.Unlink(target);
  }

  lemma SeparateAt(handles: seq<Inflight.Entry>, t: nat)
    requires Separate(handles) && t < |handles|
    ensures forall u | 0 <= u < |handles| && u != t ::
              && handles[u].cancelled !in {handles[t].cancelled, handles[t].abort}
              && handles[u].abort !in {handles[t].cancelled, handles[t].abort}
    ensures handles[t].cancelled != handles[t].abort
  {
  }

  // ----- drain -----

  /** Every task of the list, wherever it is in it, flagged and aborted. */
  function FlagAll(tasks: seq<Task>, pending: seq<nat>): (r: seq<Task>)
    requires forall i | 0 <= i < |pending| :: pending[i] < |tasks|
    ensures |r| == |tasks|
    ensures forall t | 0 <= t < |r| ::
              r[t] == if t in pending then tasks[t].(cancelled := true, abortRequested := true) else tasks[t]
    decreases |pending|
  {
    if pending == [] then tasks
    else
      var t := pending[0];
      FlagAll(tasks[t := tasks[t].(cancelled := true, abortRequested := true)], pending[1..])
  }

  lemma {:induction false} PendingLeads(input: seq<Command>, s: State, s': State, pending: seq<nat>)
    requires Leads(input, s, s') && s'.loop == DrainHit(pending)
    requires forall i | 0 <= i < |pending| :: pending[i] < |s'.tasks|
    ensures Leads(input, s, s'.(loop := DrainHit([]), tasks := FlagAll(s'.tasks, pending)))
    decreases |pending|
  {
    hide Leads, ReplyBytes;
    if pending == [] {
      assert s'.(loop := DrainHit([]), tasks := FlagAll(s'.tasks, pending)) == s';
    } else {
      var t := pending[0];
      var k := s'.tasks[t].(cancelled := true, abortRequested := true);
      var s1 := SetTask(s', t, k).(loop := DrainHit(pending[1..]));
      OnePendingLeads(input, s, s', pending);
      PendingLeads(input, s, s1, pending[1..]);
    }
  }

  lemma OnePendingLeads(input: seq<Command>, s: State, s': State, pending: seq<nat>)
    requires Leads(input, s, s') && s'.loop == DrainHit(pending) && pending != [] && pending[0] < |s'.tasks|
    ensures var t := pending[0];
            Leads(input, s, SetTask(s', t, s'.tasks[t].(cancelled := true, abortRequested := true)).(
                    loop := DrainHit(pending[1..])))
  {
    hide Leads, ReplyBytes;
    var t := pending[0];
    var k := s'.tasks[t].(cancelled := true);
    LeadsBy(input, s, DrainFlag, s');
    LeadsBy(input, s, DrainAbort, SetTask(s', t, k).(loop := DrainFlagged(t, pending[1..])));
    assert s'.tasks[t := k][t := k.(abortRequested := true)] == s'.tasks[t := k.(abortRequested := true)];
  }

  function DrainedTasks(tasks: seq<Task>, m: map<u32, nat>): (r: seq<Task>)
    ensures |r| == |tasks|
    ensures forall t | 0 <= t < |r| :: r[t] == if t in m.Values then Cancelled(tasks[t]) else tasks[t]
  {
    seq(|tasks|, t requires 0 <= t < |tasks| => if t in m.Values then Cancelled(tasks[t]) else tasks[t])
  }

  /** The session once everything in the map has been flagged and aborted. */
  function AfterDrain(s: State): State {
    s.(loop := DrainHit([]), inflight := map[], tasks := DrainedTasks(s.tasks, s.inflight))
  }

  lemma TakenThenFlagged(tasks: seq<Task>, m: map<u32, nat>, keys: seq<u32>)
    requires IsDrainOf(keys, m) && forall q | q in m :: m[q] < |tasks|
    ensures var order := Drained(keys, m);
            && (forall i | 0 <= i < |order| :: order[i] < |tasks|)
            && FlagAll(MarkTaken(tasks, order), order) == DrainedTasks(tasks, m)
  {
    var order := Drained(keys, m);
    forall i | 0 <= i < |order| ensures order[i] < |tasks| {
      assert order[i] == m[keys[i]];
    }
    var a, b := FlagAll(MarkTaken(tasks, order), order), DrainedTasks(tasks, m);
    forall t | 0 <= t < |tasks| ensures a[t] == b[t] {
      DrainedAre(keys, m, t);
    }
  }

  /** The steps of the drain lead there, in whatever order the map is drained. */
  lemma DrainLeads(input: seq<Command>, s: State, s': State, keys: seq<u32>)
    requires Leads(input, s, s') && s'.loop.Draining? && IsDrainOf(keys, s'.inflight)
    requires forall q | q in s'.inflight :: s'.inflight[q] < |s'.tasks|
    ensures Leads(input, s, AfterDrain(s'))
  {
    hide Leads, ReplyBytes, IsDrainOf, FlagAll, MarkTaken, DrainedTasks, Drained;
    var order := Drained(keys, s'.inflight);
    var s1 := s'.(loop := DrainHit(order), inflight := map[], tasks := MarkTaken(s'.tasks, order));
    LeadsBy(input, s, DrainTake(keys), s');
    TakenThenFlagged(s'.tasks, s'.inflight, keys);
    PendingLeads(input, s, s1, order);
  }

  lemma DrainedAre(keys: seq<u32>, m: map<u32, nat>, t: nat)
    requires IsDrainOf(keys, m)
    ensures t in Drained(keys, m) <==> t in m.Values
  {
    if t in m.Values {
      var q :| q in m && m[q] == t;
      DrainedHas(keys, m, q);
    }
  }

  /** By separation, a task's flags are in the table exactly if the map names the task. */
  lemma FlagInTable(entries: map<u32, Inflight.Entry>, handles: seq<Inflight.Entry>, m: map<u32, nat>, t: nat)
    requires Separate(handles) && EntriesMatch(entries, handles, m) && t < |handles|
    ensures handles[t].cancelled in Inflight.EntryFlags(entries) <==> t in m.Values
    ensures handles[t].abort in Inflight.EntryFlags(entries) <==> t in m.Values
  {
    if t in m.Values {
      var q :| q in m && m[q] == t;
      assert entries[q] == handles[t];
    }
  }

  lemma FlagsWithin(entries: map<u32, Inflight.Entry>, handles: seq<Inflight.Entry>, m: map<u32, nat>)
    requires EntriesMatch(entries, handles, m)
    ensures Inflight.EntryFlags(entries) <= Flags(handles)
  {
  }

  method Drain(table: Inflight.Table, handles: seq<Inflight.Entry>, ghost s: State)
    requires Represents(table, handles, s)
    modifies table, Flags(handles)
    ensures Represents(table, handles, AfterDrain(s))
  {
    hide EpAddr, Inflight.EntryFlags, EntriesMatch, Separate, DrainedTasks;
    FlagsWithin(table.entries, handles, s.inflight);
    ghost var gone := Inflight.EntryFlags(table.entries);
    table.Drain();
    NoEntries(handles);
    ghost var ts := DrainedTasks(s.tasks, s.inflight);
    forall t | 0 <= t < |handles|
      ensures handles[t].cancelled.raised == ts[t].cancelled && handles[t].abort.raised == ts[t].abortRequested
      ensures handles[t].epAddr == EpAddr(ts[t].cmd.header)
    {
      FlagInTable(old(table.entries), handles, s.inflight, t);
      assert handles[t].cancelled !in gone ==> handles[t].cancelled.raised == old(handles[t].cancelled.raised);
      assert handles[t].abort !in gone ==> handles[t].abort.raised == old(handles[t].abort.raised);
    }
  }

  lemma NoEntries(handles: seq<Inflight.Entry>)
    ensures EntriesMatch(map[], handles, map[])
  {
  }
}
