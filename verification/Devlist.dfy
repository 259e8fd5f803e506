/** The access policy, the device list it filters, and the import decision and reply. */
module Devlist {
  import opened Bytes
  import opened Op
  import opened Identity

  const HUB_CLASS: byte := 0x09

  // "/usbipd-darwin/"
  const PATH_PREFIX: seq<byte> :=
    [0x2F, 0x75, 0x73, 0x62, 0x69, 0x70, 0x64, 0x2D, 0x64, 0x61, 0x72, 0x77, 0x69, 0x6E, 0x2F]

  datatype UsbInterface = UsbInterface(cls: byte, subclass: byte, protocol: byte)

  datatype UsbDevice = UsbDevice(
    busid: seq<byte>, busnum: u32, devnum: u32, speed: u32, vendor: u16, product: u16, bcd: u16,
    cls: byte, subclass: byte, protocol: byte, configuration: byte, configurations: byte,
    interfaces: seq<UsbInterface>)

  function ToExported(d: UsbDevice): (e: ExportedDevice)
    ensures e.busid == d.busid
    ensures |e.interfaces| == |d.interfaces|
  {
    ExportedDevice(PATH_PREFIX + d.busid, d.busid, d.busnum, d.devnum, d.speed, d.vendor, d.product, d.bcd,
                   d.cls, d.subclass, d.protocol, d.configuration, d.configurations,
                   seq(|d.interfaces|, i requires 0 <= i < |d.interfaces| =>
                     ExportedInterface(d.interfaces[i].cls, d.interfaces[i].subclass, d.interfaces[i].protocol)))
  }

  /** The host's view of a record: everything but the synthesized path. */
  function FromExported(e: ExportedDevice): UsbDevice {
    UsbDevice(e.busid, e.busnum, e.devnum, e.speed, e.vendor, e.product, e.bcd,
              e.cls, e.subclass, e.protocol, e.configuration, e.configurations,
              seq(|e.interfaces|, i requires 0 <= i < |e.interfaces| =>
                UsbInterface(e.interfaces[i].cls, e.interfaces[i].subclass, e.interfaces[i].protocol)))
  }

  lemma ExportedFaithful(d: UsbDevice)
    ensures FromExported(ToExported(d)) == d
  {
    assert FromExported(ToExported(d)).interfaces == d.interfaces;
  }

  function Code(c: char): byte {
    if c as int < 0x80 then c as int else 0
  }

  function Ascii(s: string): seq<byte> {
    seq(|s|, i requires 0 <= i < |s| => Code(s[i]))
  }

  /** Each field of the record, and the synthesized path. */
  lemma ExportedFields(d: UsbDevice)
    ensures var e := ToExported(d);
            && e.path == Ascii("/usbipd-darwin/") + d.busid && e.busid == d.busid
            && e.busnum == d.busnum && e.devnum == d.devnum && e.speed == d.speed
            && e.vendor == d.vendor && e.product == d.product && e.bcd == d.bcd
            && e.cls == d.cls && e.subclass == d.subclass && e.protocol == d.protocol
            && e.configuration == d.configuration && e.configurations == d.configurations
    ensures forall i | 0 <= i < |d.interfaces| ::
              ToExported(d).interfaces[i] ==
              ExportedInterface(d.interfaces[i].cls, d.interfaces[i].subclass, d.interfaces[i].protocol)
  {
    assert Ascii("/usbipd-darwin/") == PATH_PREFIX;
  }

  /** What a device must be for its record to survive the wire. */
  predicate Sendable(d: UsbDevice) {
    |d.busid| <= BUSID_SIZE && 0 !in d.busid && |d.interfaces| <= 0xFF
  }

  lemma SendableFits(d: UsbDevice)
    ensures Fits(ToExported(d)) <==> Sendable(d)
  {
  }

  // ----- policy -----

  datatype AccessPolicy = DenyAll | AllowAll | AllowList(pairs: set<(u16, u16)>)

  predicate Permits(p: AccessPolicy, d: UsbDevice) {
    match p
    case DenyAll => false
    case AllowAll => true
    case AllowList(pairs) => (d.vendor, d.product) in pairs
  }

  function Permitted(p: AccessPolicy, ds: seq<UsbDevice>): seq<UsbDevice> {
    if ds == [] then []
    else Permitted(p, ds[..|ds| - 1]) + if Permits(p, ds[|ds| - 1]) then [ds[|ds| - 1]] else []
  }

  function NonHubs(ds: seq<UsbDevice>): seq<UsbDevice> {
    if ds == [] then []
    else NonHubs(ds[..|ds| - 1]) + if ds[|ds| - 1].cls != HUB_CLASS then [ds[|ds| - 1]] else []
  }

  /** What the client is shown. */
  function Listed(p: AccessPolicy, ds: seq<UsbDevice>): seq<UsbDevice> {
    NonHubs(Permitted(p, ds))
  }

  method Filter(p: AccessPolicy, ds: seq<UsbDevice>) returns (r: seq<UsbDevice>)
    ensures r == Permitted(p, ds)
  {
    r := [];
    var n := 0;
    while n < |ds|
      invariant n <= |ds| && r == Permitted(p, ds[..n])
    {
      assert ds[..n + 1][..n] == ds[..n];
      if Permits(p, ds[n]) {
        r := r + [ds[n]];
      }
      n := n + 1;
    }
    assert ds[..n] == ds;
  }

  lemma {:induction false} PermittedMembers(p: AccessPolicy, ds: seq<UsbDevice>, d: UsbDevice)
    ensures d in Permitted(p, ds) <==> d in ds && Permits(p, d)
  {
    if ds != [] {
      PermittedMembers(p, ds[..|ds| - 1], d);
      assert ds == ds[..|ds| - 1] + [ds[|ds| - 1]];
    }
  }

  lemma {:induction false} NonHubMembers(ds: seq<UsbDevice>, d: UsbDevice)
    ensures d in NonHubs(ds) <==> d in ds && d.cls != HUB_CLASS
  {
    if ds != [] {
      NonHubMembers(ds[..|ds| - 1], d);
      assert ds == ds[..|ds| - 1] + [ds[|ds| - 1]];
    }
  }

  /** A device is listed exactly if it is there, permitted and not a hub. */
  lemma ListedMembers(p: AccessPolicy, ds: seq<UsbDevice>, d: UsbDevice)
    ensures d in Listed(p, ds) <==> d in ds && Permits(p, d) && d.cls != HUB_CLASS
  {
    PermittedMembers(p, ds, d);
    NonHubMembers(Permitted(p, ds), d);
  }

  /** Positions of the kept devices, in the order they are kept in. */
  ghost predicate Keeps(kept: seq<UsbDevice>, ds: seq<UsbDevice>, at: seq<nat>) {
    && |at| == |kept|
    && (forall i | 0 <= i < |at| :: at[i] < |ds| && kept[i] == ds[at[i]])
    && (forall i, j | 0 <= i < j < |at| :: at[i] < at[j])
  }

  lemma KeepsMore(kept: seq<UsbDevice>, ds: seq<UsbDevice>, at: seq<nat>)
    requires ds != [] && Keeps(kept, ds[..|ds| - 1], at)
    ensures Keeps(kept, ds, at) && Keeps(kept + [ds[|ds| - 1]], ds, at + [|ds| - 1])
  {
    var n := |ds| - 1;
    forall i | 0 <= i < |at| ensures at[i] < n && kept[i] == ds[at[i]] {
      assert ds[..n][at[i]] == ds[at[i]];
    }
  }

  lemma {:induction false} PermittedInOrder(p: AccessPolicy, ds: seq<UsbDevice>) returns (at: seq<nat>)
    ensures Keeps(Permitted(p, ds), ds, at)
    ensures forall n: nat | n < |ds| && Permits(p, ds[n]) :: n in at
  {
    hide Permits, Keeps;
    if ds == [] {
      at := [];
      NoneKept(ds);
    } else {
      var last := |ds| - 1;
      var init := PermittedInOrder(p, ds[..last]);
      KeepsMore(Permitted(p, ds[..last]), ds, init);
      at := if Permits(p, ds[last]) then init + [last] else init;
      assert Permitted(p, ds[..last]) + [] == Permitted(p, ds[..last]);
      forall n: nat | n < |ds| && Permits(p, ds[n]) ensures n in at {
        assert n < last ==> ds[..last][n] == ds[n];
      }
    }
  }

  lemma {:induction false} NonHubsInOrder(ds: seq<UsbDevice>) returns (at: seq<nat>)
    ensures Keeps(NonHubs(ds), ds, at)
    ensures forall n: nat | n < |ds| && ds[n].cls != HUB_CLASS :: n in at
  {
    hide Keeps;
    if ds == [] {
      at := [];
      NoneKept(ds);
    } else {
      var last := |ds| - 1;
      var init := NonHubsInOrder(ds[..last]);
      KeepsMore(NonHubs(ds[..last]), ds, init);
      at := if ds[last].cls != HUB_CLASS then init + [last] else init;
      assert NonHubs(ds[..last]) + [] == NonHubs(ds[..last]);
      forall n: nat | n < |ds| && ds[n].cls != HUB_CLASS ensures n in at {
        assert n < last ==> ds[..last][n] == ds[n];
      }
    }
  }

  lemma NoneKept(ds: seq<UsbDevice>)
    ensures Keeps([], ds, [])
  {
  }

  lemma KeepsCompose(
    a: seq<UsbDevice>, b: seq<UsbDevice>, c: seq<UsbDevice>, inner: seq<nat>, outer: seq<nat>, at: seq<nat>)
    requires Keeps(a, b, inner) && Keeps(b, c, outer)
    requires |at| == |inner| && forall i | 0 <= i < |at| :: inner[i] < |outer| && at[i] == outer[inner[i]]
    ensures Keeps(a, c, at)
  {
    forall i | 0 <= i < |at| ensures at[i] < |c| && a[i] == c[at[i]] {
      assert a[i] == b[inner[i]] && b[inner[i]] == c[outer[inner[i]]];
    }
    forall i, j | 0 <= i < j < |at| ensures at[i] < at[j] {
      assert inner[i] < inner[j];
    }
  }

  /** The list keeps the order of the host and every listed device as often as it is there. */
  lemma ListedInOrder(p: AccessPolicy, ds: seq<UsbDevice>) returns (at: seq<nat>)
    ensures Keeps(Listed(p, ds), ds, at)
    ensures forall n: nat | n < |ds| && Permits(p, ds[n]) && ds[n].cls != 9 :: n in at
  {
    var outer := PermittedInOrder(p, ds);
    var permitted := Permitted(p, ds);
    var inner := NonHubsInOrder(permitted);
    assert forall i | 0 <= i < |inner| :: inner[i] < |outer|;
    assert forall k | 0 <= k < |outer| :: permitted[k] == ds[outer[k]];
    hide Keeps, Permits, Permitted, NonHubs;
    at := seq(|inner|, i requires 0 <= i < |inner| => outer[inner[i]]);
    KeepsCompose(NonHubs(permitted), permitted, ds, inner, outer, at);
    forall n: nat | n < |ds| && Permits(p, ds[n]) && ds[n].cls != 9 ensures n in at {
      var k: nat :| k < |outer| && outer[k] == n;
      var i: nat :| i < |inner| && inner[i] == k;
      assert at[i] == n;
    }
  }

  /** What each policy lists: nothing, every device but hubs (class 9), or those of the listed pairs. */
  lemma ListedByPolicy(ds: seq<UsbDevice>, pairs: set<(u16, u16)>, d: UsbDevice)
    ensures d !in Listed(DenyAll, ds)
    ensures d in Listed(AllowAll, ds) <==> d in ds && d.cls != 9
    ensures d in Listed(AllowList(pairs), ds) <==> d in ds && d.cls != 9 && (d.vendor, d.product) in pairs
  {
    ListedMembers(DenyAll, ds, d);
    ListedMembers(AllowAll, ds, d);
    ListedMembers(AllowList(pairs), ds, d);
  }

  // ----- the reply -----

  function Records(ds: seq<UsbDevice>): seq<byte> {
    if ds == [] then [] else Record(ToExported(ds[0])) + Records(ds[1..])
  }

  function Count(n: nat): u32 {
    if n <= U32_MAX then n else U32_MAX
  }

  function DevlistReply(listed: seq<UsbDevice>): seq<byte> {
    OpBytes(OpHeader(USBIP_VERSION, OP_REP_DEVLIST, 0)) + Be32(Count(|listed|)) + Records(listed)
  }

  /** The reply begins with version 0x0111, code 5, status 0 and the number of devices. */
  lemma DevlistReplyHead(listed: seq<UsbDevice>)
    requires |listed| <= 0xFFFF_FFFF
    ensures DevlistReply(listed)[..8] == [0x01, 0x11, 0x00, 0x05, 0, 0, 0, 0]
    ensures At32(DevlistReply(listed), 8) == |listed|
  {
    var b := DevlistReply(listed);
    assert Be16(0x0111) == [0x01, 0x11] && Be16(5) == [0, 5] && Be32(0) == [0, 0, 0, 0];
    assert b[..8] == OpBytes(OpHeader(0x0111, 5, 0));
    assert b[8..12] == Be32(|listed|);
    AtSlice(b, 8, Be32(|listed|));
  }

  method KeepNonHubs(ds: seq<UsbDevice>) returns (r: seq<UsbDevice>)
    ensures r == NonHubs(ds)
  {
    r := [];
    var n := 0;
    while n < |ds|
      invariant n <= |ds| && r == NonHubs(ds[..n])
    {
      assert ds[..n + 1][..n] == ds[..n];
      if ds[n].cls != HUB_CLASS {
        r := r + [ds[n]];
      }
      n := n + 1;
    }
    assert ds[..n] == ds;
  }

  method EncodeRepDevlist(ds: seq<UsbDevice>) returns (out: ByteBuf)
    ensures out.bytes == DevlistReply(NonHubs(ds))
  {
    hide OpBytes, Be32, Record, ToExported, NonHubs;
    var exported := KeepNonHubs(ds);
    out := new ByteBuf();
    EncodeOp(OpHeader(USBIP_VERSION, OP_REP_DEVLIST, 0), out);
    out.Append(Be32(Count(|exported|)));
    var n := 0;
    assert exported[0..] == exported;
    while n < |exported|
      invariant n <= |exported| && out.bytes + Records(exported[n..]) == DevlistReply(exported)
    {
      assert exported[n..][1..] == exported[n + 1..];
      ghost var before := out.bytes;
      Encode(ToExported(exported[n]), out);
      ghost var rest := Records(exported[n + 1..]);
      assert before + (Record(ToExported(exported[n])) + rest) == out.bytes + rest;
      n := n + 1;
    }
    assert exported[n..] == [];
  }

  /** What `OP_REQ_DEVLIST` is answered with. */
  method HandleDevlist(p: AccessPolicy, ds: seq<UsbDevice>) returns (out: ByteBuf)
    ensures out.bytes == DevlistReply(Listed(p, ds))
  {
    var filtered := Filter(p, ds);
    out := EncodeRepDevlist(filtered);
  }

  // ----- the client's side -----

  /** Reads `n` records one after the other; gives them and what is left. */
  function DecodeRecords(b: seq<byte>, n: nat): Result<(seq<ExportedDevice>, seq<byte>), ProtoError>
    decreases n
  {
    if n == 0 then Ok(([], b))
    else
      match DecodeRecord(b)
      case Err(e) => Err(e)
      case Ok((d, size)) =>
        match DecodeRecords(b[size..], n - 1)
        case Err(e) => Err(e)
        case Ok((ds, rest)) => Ok(([d] + ds, rest))
  }

  /** The devices of a reply, if it is one and is read to its last byte. */
  function ReadDevlist(b: seq<byte>): Option<seq<ExportedDevice>> {
    if |b| < 12 || DecodeOp(b) != Ok(OpHeader(USBIP_VERSION, OP_REP_DEVLIST, 0)) then None
    else
      match DecodeRecords(b[12..], At32(b, 8))
      case Ok((ds, rest)) => if rest == [] then Some(ds) else None
      case Err(_) => None
  }

  function Exported(ds: seq<UsbDevice>): (r: seq<ExportedDevice>)
    ensures |r| == |ds| && forall i | 0 <= i < |ds| :: r[i] == ToExported(ds[i])
  {
    if ds == [] then [] else [ToExported(ds[0])] + Exported(ds[1..])
  }

  lemma {:induction false} RecordsRead(ds: seq<UsbDevice>)
    requires forall d | d in ds :: Sendable(d)
    ensures DecodeRecords(Records(ds), |ds|) == Ok((Exported(ds), []))
  {
    hide DecodeRecord, Record, ToExported;
    if ds != [] {
      RecordsRead(ds[1..]);
      SendableFits(ds[0]);
      var head := Record(ToExported(ds[0]));
      RecordRoundTrip(ToExported(ds[0]), Records(ds[1..]));
      assert Records(ds)[|head|..] == Records(ds[1..]);
    }
  }

  lemma {:induction false} DecodedFit(b: seq<byte>, n: nat)
    ensures DecodeRecords(b, n).Ok? ==> forall d | d in DecodeRecords(b, n).value.0 :: Fits(d)
    decreases n
  {
    hide Fits;
    if n > 0 && DecodeRecord(b).Ok? {
      DecodedFit(b[DecodeRecord(b).value.1..], n - 1);
    }
  }

  /**
   * The client reads the reply to its end and gets precisely the permitted non-hub devices, in
   * order, exactly if each of them survives the wire.
   */
  lemma DevlistRoundTrip(p: AccessPolicy, ds: seq<UsbDevice>)
    requires |Listed(p, ds)| <= U32_MAX
    ensures ReadDevlist(DevlistReply(Listed(p, ds))) == Some(Exported(Listed(p, ds)))
            <==> forall d | d in Listed(p, ds) :: Sendable(d)
  {
    hide OpBytes, Records, DecodeOp, DecodeRecords, Listed, ToExported, Fits;
    var listed := Listed(p, ds);
    var b := DevlistReply(listed);
    var h := OpHeader(USBIP_VERSION, OP_REP_DEVLIST, 0);
    assert b == OpBytes(h) + (Be32(|listed|) + Records(listed));
    OpRoundTrip(h, Be32(|listed|) + Records(listed));
    assert b[8..12] == Be32(|listed|) && b[12..] == Records(listed);
    AtSlice(b, 8, Be32(|listed|));
    if forall d | d in listed :: Sendable(d) {
      RecordsRead(listed);
    }
    if ReadDevlist(b) == Some(Exported(listed)) {
      DecodedFit(Records(listed), |listed|);
      forall d | d in listed ensures Sendable(d) {
        var i :| 0 <= i < |listed| && listed[i] == d;
        assert Exported(listed)[i] == ToExported(d);
        SendableFits(d);
      }
    }
  }

  /** So the n-th record a client reads stands for the n-th listed device, field by field. */
  lemma ClientSeesListed(p: AccessPolicy, ds: seq<UsbDevice>, n: nat)
    requires n < |Listed(p, ds)| <= U32_MAX && forall d | d in Listed(p, ds) :: Sendable(d)
    ensures var seen := ReadDevlist(DevlistReply(Listed(p, ds)));
            seen.Some? && |seen.value| == |Listed(p, ds)| && FromExported(seen.value[n]) == Listed(p, ds)[n]
  {
    hide ReadDevlist, DevlistReply, Listed, ToExported, FromExported;
    DevlistRoundTrip(p, ds);
    ExportedFaithful(Listed(p, ds)[n]);
  }

  // ----- import -----

  function FindBusid(ds: seq<UsbDevice>, busid: seq<byte>): Option<UsbDevice> {
    if ds == [] then None else if ds[0].busid == busid then Some(ds[0]) else FindBusid(ds[1..], busid)
  }

  /** The device an import request may go on to attach: the first with that busid, if permitted. */
  function ImportTarget(p: AccessPolicy, ds: seq<UsbDevice>, busid: seq<byte>): Option<UsbDevice> {
    match FindBusid(ds, busid)
    case Some(d) => if Permits(p, d) then Some(d) else None
    case None => None
  }

  /** What each policy lets an import go on with: nothing, any device found, or one of a listed pair. */
  lemma ImportByPolicy(ds: seq<UsbDevice>, pairs: set<(u16, u16)>, busid: seq<byte>)
    ensures ImportTarget(DenyAll, ds, busid) == None
    ensures ImportTarget(AllowAll, ds, busid) == FindBusid(ds, busid)
    ensures var found := FindBusid(ds, busid);
            ImportTarget(AllowList(pairs), ds, busid) ==
            if found.Some? && (found.value.vendor, found.value.product) in pairs then found else None
  {
  }

  /** The device found is the first with that busid, and none is found exactly if there is none. */
  lemma {:induction false} FoundIsFirst(ds: seq<UsbDevice>, busid: seq<byte>, n: nat)
    requires n < |ds| && ds[n].busid == busid && forall i | 0 <= i < n :: ds[i].busid != busid
    ensures FindBusid(ds, busid) == Some(ds[n])
  {
    if n > 0 {
      assert ds[1..][n - 1] == ds[n] && forall i | 0 <= i < n - 1 :: ds[1..][i] == ds[i + 1];
      FoundIsFirst(ds[1..], busid, n - 1);
    }
  }

  lemma {:induction false} NoneFound(ds: seq<UsbDevice>, busid: seq<byte>)
    ensures FindBusid(ds, busid).None? <==> forall i | 0 <= i < |ds| :: ds[i].busid != busid
  {
    if ds != [] {
      NoneFound(ds[1..], busid);
      assert forall i | 1 <= i < |ds| :: ds[i] == ds[1..][i - 1];
    }
  }

  /** The first two refusals of `handle_import`, in its own loop. */
  method CheckImport(p: AccessPolicy, ds: seq<UsbDevice>, body: seq<byte>)
    returns (r: Result<Option<UsbDevice>, ProtoError>)
    ensures r.Err? <==> DecodeReqImport(body).Err?
    ensures r.Err? ==> r.error == DecodeReqImport(body).error
    ensures r.Ok? ==> r.value == ImportTarget(p, ds, DecodeReqImport(body).value)
  {
    var busid := DecodeReqImport(body);
    if busid.Err? {
      return Err(busid.error);
    }
    var n := 0;
    assert ds[0..] == ds;
    while n < |ds|
      invariant n <= |ds| && FindBusid(ds, busid.value) == FindBusid(ds[n..], busid.value)
    {
      assert ds[n..][1..] == ds[n + 1..];
      if ds[n].busid == busid.value {
        return Ok(if Permits(p, ds[n]) then Some(ds[n]) else None);
      }
      n := n + 1;
    }
    return Ok(None);
  }

  predicate BusidsUnique(ds: seq<UsbDevice>) {
    forall i, j | 0 <= i < j < |ds| :: ds[i].busid != ds[j].busid
  }

  lemma {:induction false} FindUnique(ds: seq<UsbDevice>, i: nat)
    requires BusidsUnique(ds) && i < |ds|
    ensures FindBusid(ds, ds[i].busid) == Some(ds[i])
  {
    if i > 0 {
      assert ds[0].busid != ds[i].busid && ds[1..][i - 1] == ds[i];
      FindUnique(ds[1..], i - 1);
    }
  }

  lemma {:induction false} FoundIsThere(ds: seq<UsbDevice>, busid: seq<byte>)
    ensures FindBusid(ds, busid).Some? ==> FindBusid(ds, busid).value in ds && FindBusid(ds, busid).value.busid == busid
  {
    if ds != [] {
      FoundIsThere(ds[1..], busid);
    }
  }

  /**
   * Listing and importing agree: asking for the busid of a listed record gets that device past the
   * policy, and what gets past it is listed unless it is a hub, which import does not look at.
   */
  lemma ListedIsImportable(p: AccessPolicy, ds: seq<UsbDevice>, d: UsbDevice)
    requires BusidsUnique(ds) && Sendable(d)
    ensures var body := FixedStr(ToExported(d).busid, BUSID_SIZE);
            d in Listed(p, ds) <==>
            && DecodeReqImport(body).Ok? && d.cls != HUB_CLASS
            && ImportTarget(p, ds, DecodeReqImport(body).value) == Some(d)
  {
    hide FixedStr, ReadStr, Listed;
    var body := FixedStr(d.busid, BUSID_SIZE);
    assert body[0..32] == body;
    StrRoundTrip(d.busid, BUSID_SIZE);
    ListedMembers(p, ds, d);
    FoundIsThere(ds, d.busid);
    if d in ds {
      var i :| 0 <= i < |ds| && ds[i] == d;
      FindUnique(ds, i);
    }
  }

  // ----- devid -----

  /** The descriptor of an opened device, with the numbers taken out of its devid. */
  function Snapshot(d: UsbDevice, devid: u32): UsbDevice {
    d.(busnum := UpperHalf(devid), devnum := LowerHalf(devid))
  }

  /**
   * From the hash to the URB headers: whatever the bus id, port chain and address, a client that
   * reads the import reply and keeps 8 bits of each number puts the devid together that the URB
   * loop checks for.
   */
  lemma DevidEndToEnd(bus: Text, chain: Text, address: bv8, d: UsbDevice)
    ensures var devid := Devid(BusNumber(bus), DeviceNumber(chain, address));
            var snap := Snapshot(d, devid);
            var reply := ImportReply(Some(ToExported(snap)));
            && |reply| == OP_SIZE + RECORD_SIZE
            && snap.devnum < 0x1_0000
            && RebuiltDevid(At32(reply[8..], 288), At32(reply[8..], 292)) == Devid(snap.busnum, snap.devnum) == devid
  {
    hide ToExported, BusNumber, DeviceNumber, RebuiltDevid, Devid, UpperHalf, LowerHalf;
    var busnum, devnum := BusNumber(bus), DeviceNumber(chain, address);
    HalvesOfDevid(busnum, devnum);
    RebuiltExactly(busnum, devnum);
    var snap := Snapshot(d, Devid(busnum, devnum));
    ImportReplyRead(Some(ToExported(snap)));
    assert ToExported(snap).busnum == snap.busnum && ToExported(snap).devnum == snap.devnum by {
      ExportedNumbers(snap);
    }
  }

  lemma ExportedNumbers(d: UsbDevice)
    ensures ToExported(d).busnum == d.busnum && ToExported(d).devnum == d.devnum
  {
  }
}
