/** The hotplug publisher: device ids to busids, with the watch started before the device list is taken. */
module Hotplug {
  import opened Bytes
  import opened Replay
  import opened Events

  type DeviceId = nat

  datatype HotplugEvent = Connected(id: DeviceId, dev: AddedDevice) | Disconnected(id: DeviceId)

  type Live = map<DeviceId, AddedDevice>

  function WorldOp(e: HotplugEvent): Op<DeviceId, AddedDevice> {
    match e
    case Connected(id, d) => Put(id, d)
    case Disconnected(id) => Del(id)
  }

  function WorldOps(es: seq<HotplugEvent>): (ops: seq<Op<DeviceId, AddedDevice>>)
    ensures |ops| == |es| && forall i | 0 <= i < |es| :: ops[i] == WorldOp(es[i])
  {
    seq(|es|, i requires 0 <= i < |es| => WorldOp(es[i]))
  }

  // ----- the publisher -----

  class IdMap {
    var byId: map<DeviceId, RemovedDevice>

    constructor ()
      ensures byId == map[]
    {
      byId := map[];
    }

    method NoteAdded(id: DeviceId, dev: RemovedDevice)
      modifies this
      ensures byId == old(byId)[id := dev]
    {
      byId := byId[id := dev];
    }

    /** Look up and forget; None for an id never seen. */
    method NoteRemoved(id: DeviceId) returns (dev: Option<RemovedDevice>)
      modifies this
      ensures dev == Get(old(byId), id) && byId == old(byId) - {id}
    {
      dev := if id in byId then Some(byId[id]) else None;
      byId := byId - {id};
    }
  }

  /** What the publisher remembers by id, and the lines it has published. */
  datatype Published = Published(ids: map<DeviceId, RemovedDevice>, lines: seq<EventLine>)

  function OnEvent(p: Published, e: HotplugEvent): Published {
    match e
    case Connected(id, dev) => Published(p.ids[id := ToRemoved(dev)], p.lines + [Added(dev)])
    case Disconnected(id) =>
      if id in p.ids then Published(p.ids - {id}, p.lines + [Removed(p.ids[id])]) else p
  }

  function Seeded(list: seq<(DeviceId, AddedDevice)>, n: nat): Published
    requires n <= |list|
  {
    if n == 0 then Published(map[], []) else OnEvent(Seeded(list, n - 1), Connected(list[n - 1].0, list[n - 1].1))
  }

  /** After seeding from `list` and processing the watched events `w..j`. */
  function PublishedAt(events: seq<HotplugEvent>, w: nat, list: seq<(DeviceId, AddedDevice)>, j: nat): Published
    requires w <= j <= |events|
    decreases j
  {
    if j == w then Seeded(list, |list|) else OnEvent(PublishedAt(events, w, list, j - 1), events[j - 1])
  }

  lemma ConsumeSnoc(lines: seq<EventLine>, e: EventLine)
    ensures Consume(lines + [e]) == Apply(Consume(lines), LineOp(e))
  {
    assert (lines + [e])[..|lines|] == lines;
  }

  lemma ConsumeNone()
    ensures Consume([]) == map[]
  {
  }

  /** Unplugging a device publishes the busid, vendor and product it was announced with, in that order. */
  lemma UnplugLine(p: Published, id: DeviceId, d: AddedDevice)
    ensures var q := OnEvent(OnEvent(p, Connected(id, d)), Disconnected(id));
            && q.lines == p.lines + [Added(d)] + [Removed(RemovedDevice(d.busid, d.vendorId, d.productId))]
            && q.ids == p.ids - {id}
  {
    assert p.ids[id := ToRemoved(d)] - {id} == p.ids - {id};
  }

  /** An id never seen, or forgotten, publishes nothing when it goes. */
  lemma UnknownIsSilent(p: Published, id: DeviceId)
    ensures id !in p.ids ==> OnEvent(p, Disconnected(id)) == p
  {
  }

  /** Among the first `n` lines is an `added` line with these three fields. */
  ghost predicate Announced(lines: seq<EventLine>, n: nat, r: RemovedDevice) {
    exists m | 0 <= m < n && m < |lines| ::
      && lines[m].Added? && lines[m].added.busid == r.busid
      && lines[m].added.vendorId == r.vendorId && lines[m].added.productId == r.productId
  }

  ghost predicate AllAnnounced(p: Published) {
    && (forall id | id in p.ids :: Announced(p.lines, |p.lines|, p.ids[id]))
    && (forall n | 0 <= n < |p.lines| && p.lines[n].Removed? :: Announced(p.lines, n, p.lines[n].removed))
  }

  lemma AnnouncedStays(lines: seq<EventLine>, e: EventLine, n: nat, k: nat, r: RemovedDevice)
    requires Announced(lines, n, r) && n <= k
    ensures Announced(lines + [e], k, r)
  {
    var m :| 0 <= m < n && m < |lines| && lines[m].Added? && lines[m].added.busid == r.busid
      && lines[m].added.vendorId == r.vendorId && lines[m].added.productId == r.productId;
    assert (lines + [e])[m] == lines[m];
  }

  lemma AnnouncedStep(p: Published, e: HotplugEvent)
    requires AllAnnounced(p)
    ensures AllAnnounced(OnEvent(p, e))
  {
    var q, n := OnEvent(p, e), |p.lines|;
    if q.lines != p.lines {
      var l := q.lines[n];
      assert q.lines == p.lines + [l];
      assert l.Added? ==> Announced(q.lines, n + 1, ToRemoved(l.added)) by {
        assert q.lines[n] == l;
      }
      hide Announced;
      forall id | id in q.ids ensures Announced(q.lines, |q.lines|, q.ids[id]) {
        if id in p.ids && q.ids[id] == p.ids[id] {
          AnnouncedStays(p.lines, l, n, n + 1, p.ids[id]);
        }
      }
      forall k | 0 <= k < |q.lines| && q.lines[k].Removed? ensures Announced(q.lines, k, q.lines[k].removed) {
        if k < n {
          AnnouncedStays(p.lines, l, k, k, q.lines[k].removed);
        } else {
          AnnouncedStays(p.lines, l, n, n, l.removed);
        }
      }
    }
  }

  lemma {:induction false} SeedAnnounced(list: seq<(DeviceId, AddedDevice)>, n: nat)
    requires n <= |list|
    ensures AllAnnounced(Seeded(list, n))
  {
    if n > 0 {
      SeedAnnounced(list, n - 1);
      AnnouncedStep(Seeded(list, n - 1), Connected(list[n - 1].0, list[n - 1].1));
    }
  }

  /** Every `removed` line repeats busid, vendor and product of an earlier `added` line. */
  lemma {:induction false} RemovalsAnnounced(
    events: seq<HotplugEvent>, w: nat, list: seq<(DeviceId, AddedDevice)>, j: nat)
    requires w <= j <= |events|
    ensures AllAnnounced(PublishedAt(events, w, list, j))
    decreases j
  {
    hide AllAnnounced, OnEvent;
    if j == w {
      SeedAnnounced(list, |list|);
    } else {
      RemovalsAnnounced(events, w, list, j - 1);
      AnnouncedStep(PublishedAt(events, w, list, j - 1), events[j - 1]);
    }
  }

  /** One turn of the publisher loop of `run_async`. */
  method HandleEvent(idmap: IdMap, hub: Hub, e: HotplugEvent)
    requires hub.Valid() && hub.snapshot == Consume(hub.sent)
    modifies idmap, hub
    ensures hub.Valid() && hub.snapshot == Consume(hub.sent)
    ensures Published(idmap.byId, hub.sent) == OnEvent(Published(old(idmap.byId), old(hub.sent)), e)
  {
    match e {
      case Connected(id, added) =>
        ConsumeSnoc(hub.sent, Added(added));
        idmap.NoteAdded(id, ToRemoved(added));
        hub.PublishAdded(added);
      case Disconnected(id) =>
        ghost var before := idmap.byId;
        var removed := idmap.NoteRemoved(id);
        if removed.Some? {
          ConsumeSnoc(hub.sent, Removed(removed.value));
          hub.PublishRemoved(removed.value);
        } else {
          assert before - {id} == before;
        }
    }
  }

  /** The seeding loop and the publisher loop of `run_async`: the watch began at event `w`. */
  method RunPublisher(events: seq<HotplugEvent>, w: nat, list: seq<(DeviceId, AddedDevice)>, k: nat)
    returns (idmap: IdMap, hub: Hub)
    requires w <= k <= |events|
    ensures Published(idmap.byId, hub.sent) == PublishedAt(events, w, list, k)
    ensures hub.snapshot == Consume(hub.sent)
  {
    hide OnEvent, Consume;
    hub := new Hub();
    idmap := new IdMap();
    ConsumeNone();
    for n := 0 to |list|
      invariant hub.Valid() && fresh(hub) && fresh(idmap) && hub.snapshot == Consume(hub.sent)
      invariant Published(idmap.byId, hub.sent) == Seeded(list, n)
    {
      var (id, added) := list[n];
      HandleEvent(idmap, hub, Connected(id, added));
    }
    for j := w to k
      invariant hub.Valid() && fresh(hub) && fresh(idmap) && hub.snapshot == Consume(hub.sent)
      invariant Published(idmap.byId, hub.sent) == PublishedAt(events, w, list, j)
    {
      HandleEvent(idmap, hub, events[j]);
    }
  }

  // ----- the world -----

  datatype World = World(initial: Live, events: seq<HotplugEvent>)

  function LiveAt(world: World, n: nat): Live
    requires n <= |world.events|
  {
    StateAt(world.initial, WorldOps(world.events), n)
  }

  /** At most one live device per busid. */
  predicate OnePerBusid(m: Live) {
    forall x, y | x in m && y in m && m[x].busid == m[y].busid :: x == y
  }

  /** As one port holds one device, at every moment. */
  predicate OneEach(world: World) {
    forall n | 0 <= n <= |world.events| :: OnePerBusid(LiveAt(world, n))
  }

  /** The event reports an id again that is still live, under another busid. */
  predicate Moves(world: World, n: nat)
    requires n < |world.events|
  {
    var e, m := world.events[n], LiveAt(world, n);
    e.Connected? && e.id in m && m[e.id].busid != e.dev.busid
  }

  predicate WorldOk(world: World) {
    OneEach(world) && forall n | 0 <= n < |world.events| :: !Moves(world, n)
  }

  lemma LiveStep(world: World, n: nat)
    requires n < |world.events|
    ensures LiveAt(world, n + 1) == Apply(LiveAt(world, n), WorldOp(world.events[n]))
  {
  }

  lemma OneAt(world: World, n: nat)
    requires WorldOk(world) && n <= |world.events|
    ensures OnePerBusid(LiveAt(world, n))
  {
    hide OnePerBusid;
  }

  lemma BusidsDiffer(m: Live, x: DeviceId, y: DeviceId)
    requires OnePerBusid(m) && x in m && y in m && x != y
    ensures m[x].busid != m[y].busid
  {
  }

  predicate Among(list: seq<(DeviceId, AddedDevice)>, m: Live) {
    forall i | 0 <= i < |list| :: list[i].0 in m && m[list[i].0] == list[i].1
  }

  /** `list` enumerates `m`, in any order. */
  predicate Lists(list: seq<(DeviceId, AddedDevice)>, m: Live) {
    && Among(list, m)
    && (forall id | id in m :: (id, m[id]) in list)
  }

  function RemovedMap(m: Live): map<DeviceId, RemovedDevice> {
    map id | id in m :: ToRemoved(m[id])
  }

  ghost predicate Holds(m: Live, d: AddedDevice) {
    exists x :: x in m && m[x] == d
  }

  /** `hub` holds exactly the devices of `m`, each under its busid. */
  ghost predicate Indexes(hub: Devices, m: Live) {
    && (forall id | id in m :: m[id].busid in hub && hub[m[id].busid] == m[id])
    && (forall b | b in hub :: hub[b].busid == b && Holds(m, hub[b]))
  }

  // ----- level 1: ids -----

  /** The ids the publisher tracks are those of an observer of the world that joined at `w` and listed at `l`. */
  function Tracked(world: World, w: nat, l: nat, j: nat): Live
    requires w <= j <= |world.events| && l <= |world.events|
  {
    ViewAt(world.initial, WorldOps(world.events), w, l, {}, j)
  }

  lemma {:induction false} SeedIds(list: seq<(DeviceId, AddedDevice)>, m: Live, n: nat)
    requires n <= |list| && Among(list, m)
    ensures forall id | id in Seeded(list, n).ids :: id in m && Seeded(list, n).ids[id] == ToRemoved(m[id])
    ensures forall i | 0 <= i < n :: list[i].0 in Seeded(list, n).ids
  {
    if n > 0 {
      SeedIds(list, m, n - 1);
    }
  }

  lemma SeedIdsAll(list: seq<(DeviceId, AddedDevice)>, m: Live)
    requires Lists(list, m)
    ensures Seeded(list, |list|).ids == RemovedMap(m)
  {
    SeedIds(list, m, |list|);
    forall id | id in m
      ensures id in Seeded(list, |list|).ids
    {
      var i :| 0 <= i < |list| && list[i] == (id, m[id]);
    }
  }

  lemma {:induction false} IdsTracked(world: World, w: nat, l: nat, list: seq<(DeviceId, AddedDevice)>, j: nat)
    requires w <= j <= |world.events| && l <= |world.events| && Lists(list, LiveAt(world, l))
    ensures PublishedAt(world.events, w, list, j).ids == RemovedMap(Tracked(world, w, l, j))
    decreases j
  {
    if j == w {
      SeedIdsAll(list, LiveAt(world, l));
    } else {
      IdsTracked(world, w, l, list, j - 1);
      var before, after := Tracked(world, w, l, j - 1), Tracked(world, w, l, j);
      assert after == Apply(before, WorldOp(world.events[j - 1]));
      assert RemovedMap(after).Keys == after.Keys && RemovedMap(before).Keys == before.Keys;
    }
  }

  // ----- level 2: busids, while replaying events the list already reflects -----

  function HubState(world: World, w: nat, list: seq<(DeviceId, AddedDevice)>, j: nat): Devices
    requires w <= j <= |world.events|
  {
    Consume(PublishedAt(world.events, w, list, j).lines)
  }

  /** Every device live at the list is in the hub, or one of its own events is still to be replayed. */
  ghost predicate Covers(world: World, l: nat, hub: Devices, j: nat)
    requires j <= l <= |world.events|
  {
    var m := LiveAt(world, l);
    forall x | x in m :: Get(hub, m[x].busid) == Some(m[x]) || Touched(WorldOps(world.events), x, j, l)
  }

  /** Every device in the hub is tracked by id, or is one that is live at the list. */
  ghost predicate Backed(world: World, w: nat, l: nat, hub: Devices, j: nat)
    requires w <= j <= |world.events| && l <= |world.events|
  {
    forall b | b in hub ::
      && hub[b].busid == b
      && (Holds(Tracked(world, w, l, j), hub[b]) || Holds(LiveAt(world, l), hub[b]))
  }

  /** What one event does to the hub, given the devices tracked by id. */
  function HubApply(hub: Devices, ids: Live, e: HotplugEvent): Devices {
    match e
    case Connected(_, d) => hub[d.busid := d]
    case Disconnected(y) => if y in ids then hub - {ids[y].busid} else hub
  }

  lemma HubStepIs(world: World, w: nat, l: nat, list: seq<(DeviceId, AddedDevice)>, j: nat)
    requires w <= j < |world.events| && l <= |world.events| && Lists(list, LiveAt(world, l))
    ensures HubState(world, w, list, j + 1) ==
            HubApply(HubState(world, w, list, j), Tracked(world, w, l, j), world.events[j])
  {
    IdsTracked(world, w, l, list, j);
    var p := PublishedAt(world.events, w, list, j);
    match world.events[j]
    case Connected(_, d) => ConsumeSnoc(p.lines, Added(d));
    case Disconnected(y) => if y in p.ids { ConsumeSnoc(p.lines, Removed(p.ids[y])); }
  }

  /** A device of the list that no later event touches is live, as listed, from then on. */
  lemma SettledIsLive(world: World, l: nat, x: DeviceId, j: nat)
    requires j <= l <= |world.events| && x in LiveAt(world, l) && !Touched(WorldOps(world.events), x, j, l)
    ensures Get(LiveAt(world, j), x) == Some(LiveAt(world, l)[x])
  {
    Untouched(world.initial, WorldOps(world.events), x, j, l);
  }

  /** No event takes away the busid of a device that no later event would restore. */
  lemma SettledKeepsBusid(world: World, w: nat, l: nat, x: DeviceId, y: DeviceId, j: nat)
    requires WorldOk(world) && w <= j <= l <= |world.events|
    requires x in LiveAt(world, l) && !Touched(WorldOps(world.events), x, j, l)
    requires y in Tracked(world, w, l, j) && y != x
    ensures Tracked(world, w, l, j)[y].busid != LiveAt(world, l)[x].busid
  {
    hide WorldOk, OnePerBusid, Touched;
    OneAt(world, j);
    OneAt(world, l);
    SettledIsLive(world, l, x, j);
    ViewCases(world.initial, WorldOps(world.events), w, l, y, j);
    if y in LiveAt(world, j) {
      BusidsDiffer(LiveAt(world, j), x, y);
    }
    if y in LiveAt(world, l) {
      BusidsDiffer(LiveAt(world, l), x, y);
    }
  }

  /** Its own last event puts a device back under its busid. */
  lemma OwnEventCovers(world: World, l: nat, x: DeviceId, j: nat)
    requires j < l <= |world.events| && world.events[j].id == x
    requires x in LiveAt(world, l) && !Touched(WorldOps(world.events), x, j + 1, l)
    ensures world.events[j] == Connected(x, LiveAt(world, l)[x])
  {
    SettledIsLive(world, l, x, j + 1);
    LiveStep(world, j);
    hide LiveAt, Touched;
  }

  /** A device that connects does not take the busid of a settled one. */
  lemma ConnectKeepsBusid(world: World, l: nat, x: DeviceId, j: nat)
    requires WorldOk(world) && j < l <= |world.events| && world.events[j].Connected? && world.events[j].id != x
    requires x in LiveAt(world, l) && !Touched(WorldOps(world.events), x, j + 1, l)
    ensures world.events[j].dev.busid != LiveAt(world, l)[x].busid
  {
    hide WorldOk, OnePerBusid, Touched, LiveAt;
    OneAt(world, j + 1);
    SettledIsLive(world, l, x, j + 1);
    LiveStep(world, j);
    BusidsDiffer(LiveAt(world, j + 1), x, world.events[j].id);
  }

  /** One settled device through one event. */
  lemma CoversOne(world: World, w: nat, l: nat, hub: Devices, x: DeviceId, j: nat)
    requires WorldOk(world) && w <= j < l <= |world.events|
    requires x in LiveAt(world, l) && !Touched(WorldOps(world.events), x, j + 1, l)
    requires var d := LiveAt(world, l)[x];
             Get(hub, d.busid) == Some(d) || Touched(WorldOps(world.events), x, j, l)
    ensures var d := LiveAt(world, l)[x];
            Get(HubApply(hub, Tracked(world, w, l, j), world.events[j]), d.busid) == Some(d)
  {
    hide WorldOk, LiveAt, Tracked, Touched;
    var e, d := world.events[j], LiveAt(world, l)[x];
    TouchedStep(WorldOps(world.events), x, j, l);
    if e.id == x {
      OwnEventCovers(world, l, x, j);
    } else {
      if e.Connected? {
        ConnectKeepsBusid(world, l, x, j);
      } else if e.id in Tracked(world, w, l, j) {
        SettledKeepsBusid(world, w, l, x, e.id, j);
      }
      ApplyKeeps(hub, Tracked(world, w, l, j), e, d);
    }
  }

  lemma TouchedStep(ops: seq<Op<DeviceId, AddedDevice>>, x: DeviceId, j: nat, l: nat)
    requires j < l <= |ops| && !Touched(ops, x, j + 1, l)
    ensures ops[j].key != x ==> !Touched(ops, x, j, l)
  {
  }

  lemma ApplyKeeps(hub: Devices, ids: Live, e: HotplugEvent, d: AddedDevice)
    requires Get(hub, d.busid) == Some(d)
    requires e.Connected? ==> e.dev.busid != d.busid
    requires e.Disconnected? && e.id in ids ==> ids[e.id].busid != d.busid
    ensures Get(HubApply(hub, ids, e), d.busid) == Some(d)
  {
  }

  lemma CoversStep(world: World, w: nat, l: nat, list: seq<(DeviceId, AddedDevice)>, j: nat)
    requires WorldOk(world) && w <= j < l <= |world.events| && Lists(list, LiveAt(world, l))
    requires Covers(world, l, HubState(world, w, list, j), j)
    ensures Covers(world, l, HubState(world, w, list, j + 1), j + 1)
  {
    HubStepIs(world, w, l, list, j);
    hide WorldOk, Lists, HubApply, HubState, Touched, Tracked;
    var m := LiveAt(world, l);
    forall x | x in m && !Touched(WorldOps(world.events), x, j + 1, l)
      ensures Get(HubState(world, w, list, j + 1), m[x].busid) == Some(m[x])
    {
      CoversOne(world, w, l, HubState(world, w, list, j), x, j);
    }
  }

  /** A device in the hub through an event that does not concern its busid. */
  lemma BackedOne(world: World, w: nat, l: nat, y: DeviceId, j: nat)
    requires WorldOk(world) && w <= j < |world.events| && l <= |world.events| && y in Tracked(world, w, l, j)
    requires var e := world.events[j];
             e.id == y ==> e.Connected? && e.dev.busid != Tracked(world, w, l, j)[y].busid
    ensures var d := Tracked(world, w, l, j)[y];
            Get(Tracked(world, w, l, j + 1), y) == Some(d) || Get(LiveAt(world, l), y) == Some(d)
  {
    if world.events[j].id == y {
      assert !Moves(world, j);
      ViewCases(world.initial, WorldOps(world.events), w, l, y, j);
      hide Touched, OnePerBusid, Tracked;
    }
  }

  lemma BackedDevice(world: World, w: nat, l: nat, d: AddedDevice, j: nat)
    requires WorldOk(world) && w <= j < |world.events| && l <= |world.events|
    requires Holds(Tracked(world, w, l, j), d)
    requires match world.events[j]
             case Connected(_, other) => d.busid != other.busid
             case Disconnected(y) => Get(Tracked(world, w, l, j), y) != Some(d)
    ensures Holds(Tracked(world, w, l, j + 1), d) || Holds(LiveAt(world, l), d)
  {
    var y :| y in Tracked(world, w, l, j) && Tracked(world, w, l, j)[y] == d;
    hide WorldOk, Tracked, LiveAt;
    BackedOne(world, w, l, y, j);
  }

  lemma BackedStep(world: World, w: nat, l: nat, list: seq<(DeviceId, AddedDevice)>, j: nat)
    requires WorldOk(world) && w <= j < l <= |world.events| && Lists(list, LiveAt(world, l))
    requires Backed(world, w, l, HubState(world, w, list, j), j)
    ensures Backed(world, w, l, HubState(world, w, list, j + 1), j + 1)
  {
    var e, ids, ids' := world.events[j], Tracked(world, w, l, j), Tracked(world, w, l, j + 1);
    assert ids' == Apply(ids, WorldOp(e));
    HubStepIs(world, w, l, list, j);
    assert e.Connected? ==> Holds(ids', e.dev) by { if e.Connected? { assert ids'[e.id] == e.dev; } }
    hide WorldOk, Lists, HubState, Tracked, LiveAt, Holds;
    var hub, hub' := HubState(world, w, list, j), HubState(world, w, list, j + 1);
    forall b | b in hub'
      ensures hub'[b].busid == b && (Holds(ids', hub'[b]) || Holds(LiveAt(world, l), hub'[b]))
    {
      if !(e.Connected? && b == e.dev.busid) && Holds(ids, hub[b]) {
        BackedDevice(world, w, l, hub[b], j);
      }
    }
  }

  /** The hub holds the first `n` listed devices and nothing that is not listed. */
  ghost predicate HubOfList(hub: Devices, list: seq<(DeviceId, AddedDevice)>, m: Live, n: nat)
    requires n <= |list|
  {
    && (forall i | 0 <= i < n :: Get(hub, list[i].1.busid) == Some(list[i].1))
    && (forall b | b in hub :: hub[b].busid == b && Holds(m, hub[b]))
  }

  lemma HubOfListNext(hub: Devices, list: seq<(DeviceId, AddedDevice)>, m: Live, n: nat)
    requires n < |list| && OnePerBusid(m) && Among(list, m) && HubOfList(hub, list, m, n)
    ensures HubOfList(hub[list[n].1.busid := list[n].1], list, m, n + 1)
  {
    hide OnePerBusid;
    var id, d := list[n].0, list[n].1;
    var hub' := hub[d.busid := d];
    forall i | 0 <= i < n + 1
      ensures Get(hub', list[i].1.busid) == Some(list[i].1)
    {
      if list[i].0 != id {
        BusidsDiffer(m, list[i].0, id);
      }
    }
    assert m[id] == hub'[d.busid];
  }

  lemma SeedNext(list: seq<(DeviceId, AddedDevice)>, n: nat)
    requires n < |list|
    ensures Seeded(list, n + 1).lines == Seeded(list, n).lines + [Added(list[n].1)]
    ensures Consume(Seeded(list, n + 1).lines) == Consume(Seeded(list, n).lines)[list[n].1.busid := list[n].1]
  {
    hide Consume;
    ConsumeSnoc(Seeded(list, n).lines, Added(list[n].1));
  }

  lemma SeedNone(list: seq<(DeviceId, AddedDevice)>, m: Live)
    ensures HubOfList(Consume(Seeded(list, 0).lines), list, m, 0)
  {
  }

  lemma {:induction false} SeedHub(list: seq<(DeviceId, AddedDevice)>, m: Live, n: nat)
    requires n <= |list| && OnePerBusid(m) && Among(list, m)
    ensures HubOfList(Consume(Seeded(list, n).lines), list, m, n)
  {
    hide OnePerBusid, Among, HubOfList, Consume, Seeded;
    if n == 0 {
      SeedNone(list, m);
    } else {
      SeedHub(list, m, n - 1);
      SeedNext(list, n - 1);
      HubOfListNext(Consume(Seeded(list, n - 1).lines), list, m, n - 1);
    }
  }

  lemma ReplayStart(world: World, w: nat, l: nat, list: seq<(DeviceId, AddedDevice)>)
    requires WorldOk(world) && w <= l <= |world.events| && Lists(list, LiveAt(world, l))
    ensures Covers(world, l, HubState(world, w, list, w), w)
    ensures Backed(world, w, l, HubState(world, w, list, w), w)
  {
    var m := LiveAt(world, l);
    OneAt(world, l);
    SeedHub(list, m, |list|);
    var hub := Consume(Seeded(list, |list|).lines);
    assert HubState(world, w, list, w) == hub;
    hide HubState, Consume, Seeded, LiveAt, WorldOk;
    forall x | x in m
      ensures Get(hub, m[x].busid) == Some(m[x])
    {
      var i :| 0 <= i < |list| && list[i] == (x, m[x]);
    }
  }

  /** Replaying events already reflected in the list: right again once they are all replayed. */
  lemma {:induction false} ReplayPhase(world: World, w: nat, l: nat, list: seq<(DeviceId, AddedDevice)>, j: nat)
    requires WorldOk(world) && w <= j <= l <= |world.events| && Lists(list, LiveAt(world, l))
    ensures Covers(world, l, HubState(world, w, list, j), j)
    ensures Backed(world, w, l, HubState(world, w, list, j), j)
    decreases j
  {
    hide Covers, Backed, HubState, WorldOk, Lists, LiveAt;
    if j == w {
      ReplayStart(world, w, l, list);
    } else {
      ReplayPhase(world, w, l, list, j - 1);
      CoversStep(world, w, l, list, j - 1);
      BackedStep(world, w, l, list, j - 1);
    }
  }

  lemma CaughtUp(world: World, w: nat, l: nat, list: seq<(DeviceId, AddedDevice)>)
    requires WorldOk(world) && w <= l <= |world.events| && Lists(list, LiveAt(world, l))
    ensures Indexes(HubState(world, w, list, l), LiveAt(world, l))
  {
    ReplayPhase(world, w, l, list, l);
    ReplayConverges(world.initial, WorldOps(world.events), w, l, l);
  }

  lemma IndexConnect(hub: Devices, m: Live, id: DeviceId, d: AddedDevice)
    requires Indexes(hub, m) && OnePerBusid(m[id := d]) && (id in m ==> m[id].busid == d.busid)
    ensures Indexes(hub[d.busid := d], m[id := d])
  {
    var m', hub' := m[id := d], hub[d.busid := d];
    assert m'[id] == d;
    forall b | b in hub'
      ensures Holds(m', hub'[b])
    {
      if b == d.busid {
        assert m'[id] == hub'[b];
      } else {
        var x :| x in m && m[x] == hub[b];
        assert x in m' && m'[x] == hub'[b];
      }
    }
  }

  lemma IndexDisconnect(hub: Devices, m: Live, id: DeviceId)
    requires Indexes(hub, m) && OnePerBusid(m) && id in m
    ensures Indexes(hub - {m[id].busid}, m - {id})
  {
    var m', hub' := m - {id}, hub - {m[id].busid};
    forall b | b in hub'
      ensures Holds(m', hub'[b])
    {
      var x :| x in m && m[x] == hub[b];
      assert x in m' && m'[x] == hub'[b];
    }
  }

  lemma IndexApply(hub: Devices, m: Live, e: HotplugEvent)
    requires Indexes(hub, m) && OnePerBusid(m) && OnePerBusid(Apply(m, WorldOp(e)))
    requires e.Connected? && e.id in m ==> m[e.id].busid == e.dev.busid
    ensures Indexes(HubApply(hub, m, e), Apply(m, WorldOp(e)))
  {
    hide Indexes, OnePerBusid;
    match e
    case Connected(id, d) => IndexConnect(hub, m, id, d);
    case Disconnected(id) =>
      if id in m {
        IndexDisconnect(hub, m, id);
      } else {
        assert m - {id} == m;
      }
  }

  /** From then on each event keeps the hub the index of the live devices. */
  lemma IndexStep(world: World, w: nat, l: nat, list: seq<(DeviceId, AddedDevice)>, j: nat)
    requires WorldOk(world) && w <= l <= j < |world.events| && Lists(list, LiveAt(world, l))
    requires Indexes(HubState(world, w, list, j), LiveAt(world, j))
    ensures Indexes(HubState(world, w, list, j + 1), LiveAt(world, j + 1))
  {
    hide Indexes, OnePerBusid, HubApply, HubState, Lists;
    HubStepIs(world, w, l, list, j);
    ReplayConverges(world.initial, WorldOps(world.events), w, l, j);
    OneAt(world, j);
    OneAt(world, j + 1);
    LiveStep(world, j);
    assert !Moves(world, j);
    IndexApply(HubState(world, w, list, j), LiveAt(world, j), world.events[j]);
  }

  lemma {:induction false} HubConverges(world: World, w: nat, l: nat, list: seq<(DeviceId, AddedDevice)>, k: nat)
    requires WorldOk(world) && w <= l <= k <= |world.events| && Lists(list, LiveAt(world, l))
    ensures Indexes(HubState(world, w, list, k), LiveAt(world, k))
    decreases k
  {
    hide Indexes, HubState, WorldOk, Lists, LiveAt;
    if k == l {
      CaughtUp(world, w, l, list);
    } else {
      HubConverges(world, w, l, list, k - 1);
      IndexStep(world, w, l, list, k - 1);
    }
  }

  /**
   * Hotplug convergence: with the watch started at or before the list, after any event at or past the
   * list the id map is the live ids and the hub the live busids, despite replays and unknown removals.
   */
  lemma HotplugConverges(world: World, w: nat, l: nat, list: seq<(DeviceId, AddedDevice)>, k: nat)
    requires WorldOk(world) && w <= l <= k <= |world.events| && Lists(list, LiveAt(world, l))
    ensures var p := PublishedAt(world.events, w, list, k);
            p.ids == RemovedMap(LiveAt(world, k)) && Indexes(Consume(p.lines), LiveAt(world, k))
  {
    IdsTracked(world, w, l, list, k);
    ReplayConverges(world.initial, WorldOps(world.events), w, l, k);
    HubConverges(world, w, l, list, k);
  }

  /** Field by field: the id map knows exactly the live ids, each with its device's busid, vendor and product. */
  lemma IdsAreLive(world: World, w: nat, l: nat, list: seq<(DeviceId, AddedDevice)>, k: nat, id: DeviceId)
    requires w <= l <= k <= |world.events| && Lists(list, LiveAt(world, l))
    ensures var ids, live := PublishedAt(world.events, w, list, k).ids, LiveAt(world, k);
            && (id in ids <==> id in live)
            && (id in ids ==>
                  && ids[id].busid == live[id].busid
                  && ids[id].vendorId == live[id].vendorId && ids[id].productId == live[id].productId)
  {
    IdsTracked(world, w, l, list, k);
    ReplayConverges(world.initial, WorldOps(world.events), w, l, k);
  }

  /** A live id that moves leaves its old busid behind in the hub. */
  lemma MoveLeavesStale(hub: Devices, m: Live, id: DeviceId, d: AddedDevice)
    requires Indexes(hub, m) && OnePerBusid(m) && id in m && m[id].busid != d.busid
    ensures !Indexes(hub[d.busid := d], m[id := d])
  {
    var m', hub', b := m[id := d], hub[d.busid := d], m[id].busid;
    assert b in hub' && hub'[b] == m[id];
    forall x | x in m' ensures m'[x] != hub'[b] {
      if x != id {
        BusidsDiffer(m, x, id);
      }
    }
  }

  lemma MoveBreaks(world: World, w: nat, l: nat, list: seq<(DeviceId, AddedDevice)>, n: nat)
    requires OneEach(world) && w <= l <= n < |world.events| && Lists(list, LiveAt(world, l)) && Moves(world, n)
    requires Indexes(HubState(world, w, list, n), LiveAt(world, n))
    ensures !Indexes(HubState(world, w, list, n + 1), LiveAt(world, n + 1))
  {
    hide Indexes, OnePerBusid, HubState, Lists;
    HubStepIs(world, w, l, list, n);
    LiveStep(world, n);
    assert OnePerBusid(LiveAt(world, n));
    MoveLeavesStale(HubState(world, w, list, n), LiveAt(world, n), world.events[n].id, world.events[n].dev);
  }

  /** The world up to an event, and no further. */
  function Before(world: World, n: nat): World
    requires n <= |world.events|
  {
    World(world.initial, world.events[..n])
  }

  lemma {:induction false} BeforeLive(world: World, n: nat, k: nat)
    requires k <= n <= |world.events|
    ensures LiveAt(Before(world, n), k) == LiveAt(world, k)
    decreases k
  {
    if k > 0 {
      BeforeLive(world, n, k - 1);
      LiveStep(world, k - 1);
      LiveStep(Before(world, n), k - 1);
    }
  }

  lemma {:induction false} BeforePublished(world: World, w: nat, list: seq<(DeviceId, AddedDevice)>, n: nat, k: nat)
    requires w <= k <= n <= |world.events|
    ensures PublishedAt(Before(world, n).events, w, list, k) == PublishedAt(world.events, w, list, k)
    decreases k
  {
    hide OnEvent;
    if k > w {
      BeforePublished(world, w, list, n, k - 1);
    }
  }

  /** Convergence needs no more of the world than what has happened so far. */
  lemma HubConvergesSoFar(world: World, w: nat, l: nat, list: seq<(DeviceId, AddedDevice)>, k: nat)
    requires OneEach(world) && w <= l <= k <= |world.events| && Lists(list, LiveAt(world, l))
    requires forall n | 0 <= n < k :: !Moves(world, n)
    ensures Indexes(HubState(world, w, list, k), LiveAt(world, k))
  {
    hide Indexes, OnePerBusid, Lists, LiveAt, PublishedAt;
    var past := Before(world, k);
    forall n | 0 <= n <= k ensures LiveAt(past, n) == LiveAt(world, n) {
      BeforeLive(world, k, n);
    }
    forall n | 0 <= n < k ensures !Moves(past, n) {
      assert !Moves(world, n);
    }
    BeforePublished(world, w, list, k, k);
    HubConverges(past, w, l, list, k);
  }

  /**
   * The exact condition from the list on: the hub is the index of the live devices after every event
   * if and only if no event reports a live id again under another busid.
   */
  lemma ConvergesIff(world: World, w: nat, l: nat, list: seq<(DeviceId, AddedDevice)>)
    requires OneEach(world) && w <= l <= |world.events| && Lists(list, LiveAt(world, l))
    requires forall n | 0 <= n < l :: !Moves(world, n)
    ensures (forall k | l <= k <= |world.events| :: Indexes(HubState(world, w, list, k), LiveAt(world, k)))
            <==> (forall n | l <= n < |world.events| :: !Moves(world, n))
  {
    hide Indexes, OneEach, HubState, Lists, LiveAt, Moves;
    if forall n | l <= n < |world.events| :: !Moves(world, n) {
      forall k | l <= k <= |world.events| ensures Indexes(HubState(world, w, list, k), LiveAt(world, k)) {
        HubConvergesSoFar(world, w, l, list, k);
      }
    } else {
      var n :| l <= n < |world.events| && Moves(world, n);
      if Indexes(HubState(world, w, list, n), LiveAt(world, n)) {
        MoveBreaks(world, w, l, list, n);
      }
    }
  }

  /** Two events suffice: an id connects under one busid and is reported again under another. */
  lemma MovedIdStaysTwice(d: AddedDevice, d': AddedDevice)
    requires d.busid != d'.busid
    ensures var world := World(map[], [Connected(1, d), Connected(1, d')]);
            && OneEach(world) && Lists([], LiveAt(world, 0))
            && LiveAt(world, 2) == map[1 := d'] && d.busid in HubState(world, 0, [], 2)
  {
    var world := World(map[], [Connected(1, d), Connected(1, d')]);
    LiveStep(world, 0);
    LiveStep(world, 1);
    assert LiveAt(world, 0) == map[] && LiveAt(world, 1) == map[1 := d] && LiveAt(world, 2) == map[1 := d'];
    HubStepIs(world, 0, 0, [], 0);
    HubStepIs(world, 0, 0, [], 1);
  }

  /** The order matters: a watch that starts after the list can miss a removal for good. */
  lemma WatchAfterListMisses(d: AddedDevice)
    ensures var world := World(map[1 := d], [Disconnected(1)]);
            && WorldOk(world) && Lists([(1, d)], LiveAt(world, 0))
            && !Indexes(HubState(world, 1, [(1, d)], 1), LiveAt(world, 1))
  {
    var world, list := World(map[1 := d], [Disconnected(1)]), [(1, d)];
    assert LiveAt(world, 0) == map[1 := d] && LiveAt(world, 1) == map[];
    SeedNext(list, 0);
    assert d.busid in HubState(world, 1, list, 1);
  }

  /** The hub's state after its first n lines is what a consumer of those lines holds. */
  lemma {:induction false} HubIsConsume(script: seq<EventLine>, n: nat)
    requires n <= |script|
    ensures HubAt(script, n) == Consume(script[..n])
  {
    if n > 0 {
      HubIsConsume(script, n - 1);
      assert script[..n][..n - 1] == script[..n - 1];
    }
  }

  /**
   * End to end: a subscriber that joined at any moment of any run, has not lagged and has read all the
   * publisher sent, holds exactly the devices that are live after the last event processed.
   */
  lemma SubscriberSeesWorld(
    world: World, w: nat, l: nat, list: seq<(DeviceId, AddedDevice)>, k: nat, acts: seq<HubAction>, i: nat)
    requires WorldOk(world) && w <= l <= k <= |world.events| && Lists(list, LiveAt(world, l))
    requires var script := PublishedAt(world.events, w, list, k).lines;
             && HubRun(script, HubInit(), acts)
             && var s := HubAfter(script, HubInit(), acts);
                && i < |s.subs| && s.subs[i].snap.Some? && s.subs[i].lost == {}
                && s.subs[i].cursor == |script|
    ensures var script := PublishedAt(world.events, w, list, k).lines;
            Indexes(Consume(HubAfter(script, HubInit(), acts).subs[i].lines), LiveAt(world, k))
  {
    var script := PublishedAt(world.events, w, list, k).lines;
    HotplugConverges(world, w, l, list, k);
    HubInvRun(script, HubInit(), acts);
    var s := HubAfter(script, HubInit(), acts);
    assert SubscriberOk(script, s, s.subs[i]);
    SubscriberConverges(script, acts, i);
    HubIsConsume(script, |script|);
    assert script[..|script|] == script;
  }
}
