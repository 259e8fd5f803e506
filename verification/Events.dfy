/** The fan-out hub: event lines, the snapshot, and subscribers joining at any moment. */
module Events {
  import opened Bytes
  import opened Replay

  datatype AddedDevice = AddedDevice(
    busid: string, vendorId: string, productId: string,
    manufacturer: Option<string>, product: Option<string>, serial: Option<string>,
    devClass: byte, subclass: byte, protocol: byte, speed: u32)

  datatype RemovedDevice = RemovedDevice(busid: string, vendorId: string, productId: string)

  datatype EventLine = Added(added: AddedDevice) | Removed(removed: RemovedDevice)

  function ToRemoved(d: AddedDevice): RemovedDevice {
    RemovedDevice(d.busid, d.vendorId, d.productId)
  }

  /** What a line does to a map keyed by busid, in the hub and in a consumer alike. */
  function LineOp(e: EventLine): Op<string, AddedDevice> {
    match e
    case Added(d) => Put(d.busid, d)
    case Removed(d) => Del(d.busid)
  }

  function LineOps(es: seq<EventLine>): (ops: seq<Op<string, AddedDevice>>)
    ensures |ops| == |es| && forall i | 0 <= i < |es| :: ops[i] == LineOp(es[i])
  {
    seq(|es|, i requires 0 <= i < |es| => LineOp(es[i]))
  }

  type Devices = map<string, AddedDevice>

  /** A consumer that applies the lines it reads to an empty map. */
  function Consume(lines: seq<EventLine>): Devices {
    if lines == [] then map[]
    else Apply(Consume(lines[..|lines| - 1]), LineOp(lines[|lines| - 1]))
  }

  /** `lines` is the device set as `added` events, in any order. */
  predicate IsListing(lines: seq<EventLine>, m: Devices) {
    && (forall i | 0 <= i < |lines| ::
          lines[i].Added? && lines[i].added.busid in m && m[lines[i].added.busid] == lines[i].added)
    && (forall b | b in m :: Added(m[b]) in lines)
  }

  predicate Keyed(m: Devices) {
    forall b | b in m :: m[b].busid == b
  }

  // ----- the hub on the heap -----

  class Hub {
    var snapshot: Devices
    var sent: seq<EventLine>    // the broadcast log

    ghost predicate Valid()
      reads this
    {
      Keyed(snapshot)
    }

    constructor ()
      ensures Valid() && snapshot == map[] && sent == []
    {
      snapshot, sent := map[], [];
    }

    method PublishAdded(dev: AddedDevice)
      requires Valid()
      modifies this
      ensures Valid() && snapshot == Apply(old(snapshot), LineOp(Added(dev))) && sent == old(sent) + [Added(dev)]
    {
      snapshot := snapshot[dev.busid := dev];
      sent := sent + [Added(dev)];
    }

    method PublishRemoved(dev: RemovedDevice)
      requires Valid()
      modifies this
      ensures Valid() && snapshot == Apply(old(snapshot), LineOp(Removed(dev))) && sent == old(sent) + [Removed(dev)]
    {
      snapshot := snapshot - {dev.busid};
      sent := sent + [Removed(dev)];
    }

    /** Current device set as `added` events; order is unspecified. */
    method SnapshotAdded() returns (lines: seq<EventLine>)
      requires Valid()
      ensures IsListing(lines, snapshot)
    {
      lines := [];
      var left := snapshot.Keys;
      while left != {}
        invariant left <= snapshot.Keys
        invariant forall i | 0 <= i < |lines| ::
                    && lines[i].Added? && lines[i].added.busid in snapshot
                    && snapshot[lines[i].added.busid] == lines[i].added
        invariant forall b | b in snapshot && b !in left :: Added(snapshot[b]) in lines
        decreases left
      {
        var b :| b in left;
        left := left - {b};
        lines := lines + [Added(snapshot[b])];
      }
    }

    method Subscribe() returns (from: nat)
      ensures from == |sent|
    {
      from := |sent|;
    }
  }

  lemma {:induction false} ConsumeListing(lines: seq<EventLine>, m: Devices, b: string)
    requires forall i | 0 <= i < |lines| ::
               lines[i].Added? && lines[i].added.busid in m && m[lines[i].added.busid] == lines[i].added
    ensures b in Consume(lines) <==> (exists i | 0 <= i < |lines| :: lines[i].added.busid == b)
    ensures b in Consume(lines) ==> b in m && Consume(lines)[b] == m[b]
  {
    if lines != [] {
      ConsumeListing(lines[..|lines| - 1], m, b);
    }
  }

  /** A listing replays to the map it lists, whatever the order. */
  lemma ListingReplays(lines: seq<EventLine>, m: Devices)
    requires Keyed(m) && IsListing(lines, m)
    ensures Consume(lines) == m
  {
    forall b | b in Consume(lines) || b in m
      ensures Get(Consume(lines), b) == Get(m, b)
    {
      ConsumeListing(lines, m, b);
      if b in m {
        var i :| 0 <= i < |lines| && lines[i] == Added(m[b]);
      }
    }
    SameMap(Consume(lines), m);
  }

  // ----- publisher and subscribers, interleaved -----

  /** The broadcast channel keeps this many lines; a reader further behind skips ahead. */
  const CAPACITY: nat := 256

  /** `snap` is the number of lines in the snapshot once it has been read; `lines` is what was written to the socket. */
  datatype Subscriber = Subscriber(from: nat, snap: Option<nat>, cursor: nat, lost: set<nat>, lines: seq<EventLine>)

  /** The publisher applies a line to the snapshot, then sends it: two steps, so `sent <= applied <= sent + 1`. */
  datatype HubState = HubState(applied: nat, sent: nat, snapshot: Devices, subs: seq<Subscriber>)

  datatype HubAction =
    | Update
    | Send
    | Subscribe
    | Snapshot(i: nat, listing: seq<EventLine>)
    | Deliver(i: nat)
    | Lag(i: nat)

  function Range(a: nat, b: nat): (r: set<nat>)
    ensures forall n :: n in r <==> a <= n < b
    decreases b
  {
    if a < b then Range(a, b - 1) + {b - 1} else {}
  }

  predicate HubEnabled(script: seq<EventLine>, s: HubState, a: HubAction) {
    match a
    case Update => s.applied == s.sent < |script|
    case Send => s.applied == s.sent + 1
    case Subscribe => true
    case Snapshot(i, listing) => i < |s.subs| && s.subs[i].snap.None? && IsListing(listing, s.snapshot)
    case Deliver(i) =>
      && i < |s.subs| && s.subs[i].snap.Some? && s.sent <= |script|
      && s.subs[i].cursor < s.sent <= s.subs[i].cursor + CAPACITY
    case Lag(i) => i < |s.subs| && s.subs[i].snap.Some? && s.subs[i].cursor + CAPACITY < s.sent
  }

  function HubStep(script: seq<EventLine>, s: HubState, a: HubAction): HubState
    requires HubEnabled(script, s, a)
  {
    match a
    case Update => s.(applied := s.applied + 1, snapshot := Apply(s.snapshot, LineOp(script[s.applied])))
    case Send => s.(sent := s.sent + 1)
    case Subscribe => s.(subs := s.subs + [Subscriber(s.sent, None, s.sent, {}, [])])
    case Snapshot(i, listing) =>
      s.(subs := s.subs[i := s.subs[i].(snap := Some(s.applied), lines := listing)])
    case Deliver(i) =>
      var u := s.subs[i];
      s.(subs := s.subs[i := u.(cursor := u.cursor + 1, lines := u.lines + [script[u.cursor]])])
    case Lag(i) =>
      var u := s.subs[i];
      s.(subs := s.subs[i := u.(cursor := s.sent - CAPACITY,
                                lost := u.lost + Range(u.cursor, s.sent - CAPACITY))])
  }

  /** A subscriber gets every line unless it falls more than 256 behind; then it resumes 256 back. */
  lemma LagIff(script: seq<EventLine>, s: HubState, i: nat)
    requires i < |s.subs| && s.subs[i].snap.Some? && s.subs[i].cursor <= s.sent <= |script|
    ensures var behind := s.sent - s.subs[i].cursor;
            && (HubEnabled(script, s, Deliver(i)) <==> 1 <= behind <= 256)
            && (HubEnabled(script, s, Lag(i)) <==> behind > 256)
            && (behind > 256 ==> HubStep(script, s, Lag(i)).subs[i].cursor == s.sent - 256)
  {
  }

  predicate HubRun(script: seq<EventLine>, s: HubState, acts: seq<HubAction>)
    decreases |acts|
  {
    acts == [] || (HubEnabled(script, s, acts[0]) && HubRun(script, HubStep(script, s, acts[0]), acts[1..]))
  }

  function HubAfter(script: seq<EventLine>, s: HubState, acts: seq<HubAction>): HubState
    requires HubRun(script, s, acts)
    decreases |acts|
  {
    if acts == [] then s else HubAfter(script, HubStep(script, s, acts[0]), acts[1..])
  }

  /** The hub's device set after the first `n` lines of the script. */
  function HubAt(script: seq<EventLine>, n: nat): Devices
    requires n <= |script|
  {
    StateAt(map[], LineOps(script), n)
  }

  predicate SubscriberOk(script: seq<EventLine>, s: HubState, u: Subscriber) {
    && s.sent <= |script| && s.applied <= |script|
    && u.from <= u.cursor <= s.sent
    && (u.snap.None? ==> u.cursor == u.from && u.lost == {})
    && (forall n | n in u.lost :: u.from <= n < u.cursor)
    && (u.snap.Some? ==>
          && u.from <= u.snap.value <= s.applied
          && Consume(u.lines) == ViewAt(map[], LineOps(script), u.from, u.snap.value, u.lost, u.cursor))
  }

  predicate HubInv(script: seq<EventLine>, s: HubState) {
    && s.sent <= s.applied <= s.sent + 1 && s.applied <= |script|
    && s.snapshot == HubAt(script, s.applied)
    && (forall i | 0 <= i < |s.subs| :: SubscriberOk(script, s, s.subs[i]))
  }

  lemma {:induction false} HubKeyed(script: seq<EventLine>, n: nat)
    requires n <= |script|
    ensures Keyed(HubAt(script, n))
  {
    if n > 0 {
      HubKeyed(script, n - 1);
    }
  }

  /** Losing a range is skipping its operations. */
  lemma {:induction false} ViewSkips(
    ops: seq<Op<string, AddedDevice>>, from: nat, snap: nat, lost: set<nat>, i: nat, n: nat)
    requires from <= i <= n <= |ops| && snap <= |ops|
    ensures var more := lost + Range(i, n);
            ViewAt(map[], ops, from, snap, more, n) == ViewAt(map[], ops, from, snap, more, i)
    decreases n
  {
    if i < n {
      var less, more := lost + Range(i, n - 1), lost + Range(i, n);
      ViewSkips(ops, from, snap, lost, i, n - 1);
      LostLater(ops, from, snap, less, more, n - 1);
      LostLater(ops, from, snap, less, more, i);
    }
  }

  lemma {:induction false} LostLater(
    ops: seq<Op<string, AddedDevice>>, from: nat, snap: nat, less: set<nat>, more: set<nat>, n: nat)
    requires from <= n <= |ops| && snap <= |ops|
    requires forall o | o < n :: o in less <==> o in more
    ensures ViewAt(map[], ops, from, snap, less, n) == ViewAt(map[], ops, from, snap, more, n)
    decreases n
  {
    if from < n {
      LostLater(ops, from, snap, less, more, n - 1);
    }
  }

  lemma SubscriberLag(script: seq<EventLine>, s: HubState, i: nat)
    requires HubInv(script, s) && HubEnabled(script, s, Lag(i))
    ensures var s' := HubStep(script, s, Lag(i)); SubscriberOk(script, s', s'.subs[i])
  {
    var u := s.subs[i];
    var end := s.sent - CAPACITY;
    var more := u.lost + Range(u.cursor, end);
    LostLater(LineOps(script), u.from, u.snap.value, u.lost, more, u.cursor);
    ViewSkips(LineOps(script), u.from, u.snap.value, u.lost, u.cursor, end);
  }

  lemma SubscriberDeliver(script: seq<EventLine>, s: HubState, i: nat)
    requires HubInv(script, s) && HubEnabled(script, s, Deliver(i))
    ensures var s' := HubStep(script, s, Deliver(i)); SubscriberOk(script, s', s'.subs[i])
  {
    var u := s.subs[i];
    assert (u.lines + [script[u.cursor]])[..|u.lines|] == u.lines;
  }

  lemma SubscriberSnapshot(script: seq<EventLine>, s: HubState, i: nat, listing: seq<EventLine>)
    requires HubInv(script, s) && HubEnabled(script, s, Snapshot(i, listing))
    ensures var s' := HubStep(script, s, Snapshot(i, listing)); SubscriberOk(script, s', s'.subs[i])
  {
    HubKeyed(script, s.applied);
    ListingReplays(listing, s.snapshot);
  }

  lemma HubInvStep(script: seq<EventLine>, s: HubState, a: HubAction)
    requires HubInv(script, s) && HubEnabled(script, s, a)
    ensures HubInv(script, HubStep(script, s, a))
  {
    if a.Snapshot? {
      SubscriberSnapshot(script, s, a.i, a.listing);
    } else if a.Deliver? {
      SubscriberDeliver(script, s, a.i);
    } else if a.Lag? {
      SubscriberLag(script, s, a.i);
    }
    hide Consume, ViewAt, IsListing;
  }

  lemma {:induction false} HubInvRun(script: seq<EventLine>, s: HubState, acts: seq<HubAction>)
    requires HubInv(script, s) && HubRun(script, s, acts)
    ensures HubInv(script, HubAfter(script, s, acts))
    decreases |acts|
  {
    hide HubInv, HubStep, HubEnabled;
    if acts != [] {
      HubInvStep(script, s, acts[0]);
      HubInvRun(script, HubStep(script, s, acts[0]), acts[1..]);
    }
  }

  function HubInit(): HubState {
    HubState(0, 0, map[], [])
  }

  /**
   * Subscriber convergence, over every interleaving of the publisher with any number of subscribers
   * joining at any moment: one that has not lagged and has read at least up to its snapshot point
   * holds, after replaying its initial lines and its live events, exactly the hub's state there.
   */
  lemma SubscriberConverges(script: seq<EventLine>, acts: seq<HubAction>, i: nat)
    requires HubRun(script, HubInit(), acts)
    requires var s := HubAfter(script, HubInit(), acts);
             i < |s.subs| && s.subs[i].snap.Some? && s.subs[i].lost == {} && s.subs[i].cursor >= s.subs[i].snap.value
    ensures var u := HubAfter(script, HubInit(), acts).subs[i];
            u.cursor <= |script| && Consume(u.lines) == HubAt(script, u.cursor)
  {
    hide HubRun, HubAfter;
    HubInvRun(script, HubInit(), acts);
    var s := HubAfter(script, HubInit(), acts);
    var u := s.subs[i];
    assert SubscriberOk(script, s, u);
    ReplayConverges(map[], LineOps(script), u.from, u.snap.value, u.cursor);
  }

  /** A lagged subscriber is still right about every busid whose latest line it did not lose. */
  lemma LaggedSubscriberAgrees(script: seq<EventLine>, acts: seq<HubAction>, i: nat, b: string)
    requires HubRun(script, HubInit(), acts)
    requires var s := HubAfter(script, HubInit(), acts);
             && i < |s.subs| && s.subs[i].snap.Some?
             && s.subs[i].cursor <= |script| && s.subs[i].cursor >= s.subs[i].snap.value
             && forall n | s.subs[i].from <= n < s.subs[i].cursor
                           && LastTouch(LineOps(script), b, n, s.subs[i].cursor) ::
                  n !in s.subs[i].lost
    ensures var u := HubAfter(script, HubInit(), acts).subs[i];
            Get(Consume(u.lines), b) == Get(HubAt(script, u.cursor), b)
  {
    hide HubRun, HubAfter;
    HubInvRun(script, HubInit(), acts);
    var s := HubAfter(script, HubInit(), acts);
    var u := s.subs[i];
    assert SubscriberOk(script, s, u);
    ViewAgrees(map[], LineOps(script), u.from, u.snap.value, u.lost, b, u.cursor);
  }

  lemma HubCons(script: seq<EventLine>, s: HubState, a: HubAction, rest: seq<HubAction>)
    requires HubEnabled(script, s, a) && HubRun(script, HubStep(script, s, a), rest)
    ensures HubRun(script, s, [a] + rest)
    ensures HubAfter(script, s, [a] + rest) == HubAfter(script, HubStep(script, s, a), rest)
  {
    assert ([a] + rest)[1..] == rest;
  }

  /** The publisher never gets stuck: it can send the rest of the script, whatever the subscribers do. */
  lemma {:induction false} PublisherFinishes(script: seq<EventLine>, s: HubState) returns (acts: seq<HubAction>)
    requires HubInv(script, s)
    ensures HubRun(script, s, acts)
    ensures var s' := HubAfter(script, s, acts); s'.sent == s'.applied == |script| && s'.subs == s.subs
    decreases |script| - s.sent, |script| - s.applied
  {
    if s.sent == |script| {
      acts := [];
    } else {
      var a := if s.applied == s.sent then Update else Send;
      HubInvStep(script, s, a);
      hide HubInv;
      var more := PublisherFinishes(script, HubStep(script, s, a));
      HubCons(script, s, a, more);
      acts := [a] + more;
    }
  }

  /** And a subscriber that is within the channel's capacity can read on to the end without losing anything. */
  lemma {:induction false} SubscriberCatchesUp(script: seq<EventLine>, s: HubState, i: nat)
    returns (acts: seq<HubAction>)
    requires HubInv(script, s) && i < |s.subs| && s.subs[i].snap.Some? && s.sent <= s.subs[i].cursor + 256
    ensures HubRun(script, s, acts)
    ensures var s' := HubAfter(script, s, acts);
            && s'.sent == s.sent && i < |s'.subs| && s'.subs[i].cursor == s.sent
            && s'.subs[i].lost == s.subs[i].lost && s'.subs[i].snap == s.subs[i].snap
    decreases s.sent - s.subs[i].cursor
  {
    assert SubscriberOk(script, s, s.subs[i]);
    if s.subs[i].cursor == s.sent {
      acts := [];
    } else {
      HubInvStep(script, s, Deliver(i));
      hide HubInv;
      var more := SubscriberCatchesUp(script, HubStep(script, s, Deliver(i)), i);
      HubCons(script, s, Deliver(i), more);
      acts := [Deliver(i)] + more;
    }
  }
}
