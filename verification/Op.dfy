/** Op-mode messages: the 8-byte header, device records, and the import request and reply. */
module Op {
  import opened Bytes

  const USBIP_VERSION: u16 := 0x0111
  const OP_REP_DEVLIST: u16 := 0x0005
  const OP_REP_IMPORT: u16 := 0x0003
  const OP_SIZE: nat := 8
  const PATH_SIZE: nat := 256
  const BUSID_SIZE: nat := 32
  const RECORD_SIZE: nat := 312

  datatype OpHeader = OpHeader(version: u16, code: u16, status: u32)

  datatype ExportedInterface = ExportedInterface(cls: byte, subclass: byte, protocol: byte)

  // Strings are their bytes.
  datatype ExportedDevice = ExportedDevice(
    path: seq<byte>, busid: seq<byte>,
    busnum: u32, devnum: u32, speed: u32,
    vendor: u16, product: u16, bcd: u16,
    cls: byte, subclass: byte, protocol: byte, configuration: byte, configurations: byte,
    interfaces: seq<ExportedInterface>)

  // ----- header -----

  function OpBytes(h: OpHeader): (b: seq<byte>)
    ensures |b| == OP_SIZE
  {
    Be16(h.version) + Be16(h.code) + Be32(h.status)
  }

  function DecodeOp(b: seq<byte>): Result<OpHeader, ProtoError> {
    if |b| < OP_SIZE then Err(ShortRead(OP_SIZE, |b|))
    else Ok(OpHeader(At16(b, 0), At16(b, 2), At32(b, 4)))
  }

  lemma OpRoundTrip(h: OpHeader, rest: seq<byte>)
    ensures DecodeOp(OpBytes(h) + rest) == Ok(h)
  {
    var b := OpBytes(h) + rest;
    AtSlice(b, 0, Be16(h.version));
    AtSlice(b, 2, Be16(h.code));
    AtSlice(b, 4, Be32(h.status));
  }

  // ----- fixed-width strings -----

  /** Cut to the width, or padded with NULs up to it. */
  function FixedStr(s: seq<byte>, width: nat): (b: seq<byte>)
    ensures |b| == width
  {
    if |s| < width then s + Zeros(width - |s|) else s[..width]
  }

  /** Up to the first NUL. */
  function ReadStr(b: seq<byte>): (s: seq<byte>)
    ensures 0 !in s && s <= b
  {
    if b == [] || b[0] == 0 then [] else [b[0]] + ReadStr(b[1..])
  }

  /** A long string keeps its beginning; a short one is followed by NULs. */
  lemma FixedStrIs(s: seq<byte>, width: nat, i: nat)
    requires i < width
    ensures FixedStr(s, width)[i] == if i < |s| then s[i] else 0
  {
  }

  /** A string survives exactly if it fits and has no NUL. */
  lemma StrRoundTrip(s: seq<byte>, width: nat)
    ensures ReadStr(FixedStr(s, width)) == s <==> |s| <= width && 0 !in s
  {
    if |s| <= width && 0 !in s {
      assert FixedStr(s, width) == s + Zeros(width - |s|);
      ReadPadded(s, width - |s|);
    }
  }

  lemma {:induction false} ReadPadded(s: seq<byte>, n: nat)
    requires 0 !in s
    ensures ReadStr(s + Zeros(n)) == s
  {
    var b := s + Zeros(n);
    if s != [] {
      assert b[0] == s[0] && b[1..] == s[1..] + Zeros(n);
      ReadPadded(s[1..], n);
    }
  }

  // ----- device records -----

  /** The interface count is capped, the interfaces written are not. */
  function InterfaceCount(d: ExportedDevice): byte {
    if |d.interfaces| <= 0xFF then |d.interfaces| else 0xFF
  }

  function NumberBytes(d: ExportedDevice): (b: seq<byte>)
    ensures |b| == 24
  {
    Be32(d.busnum) + Be32(d.devnum) + Be32(d.speed) + Be16(d.vendor) + Be16(d.product) + Be16(d.bcd)
    + [d.cls, d.subclass, d.protocol, d.configuration, d.configurations, InterfaceCount(d)]
  }

  function RecordHeader(d: ExportedDevice): (b: seq<byte>)
    ensures |b| == RECORD_SIZE
  {
    FixedStr(d.path, PATH_SIZE) + FixedStr(d.busid, BUSID_SIZE) + NumberBytes(d)
  }

  function InterfaceBytes(i: ExportedInterface): (b: seq<byte>)
    ensures |b| == 4
  {
    [i.cls, i.subclass, i.protocol, 0]
  }

  function InterfacesBytes(s: seq<ExportedInterface>): (b: seq<byte>)
    ensures |b| == 4 * |s|
  {
    if s == [] then [] else InterfacesBytes(s[..|s| - 1]) + InterfaceBytes(s[|s| - 1])
  }

  function Record(d: ExportedDevice): (b: seq<byte>)
    ensures |b| == RECORD_SIZE + 4 * |d.interfaces|
  {
    RecordHeader(d) + InterfacesBytes(d.interfaces)
  }

  function InterfaceAt(b: seq<byte>, o: nat): ExportedInterface
    requires o + 4 <= |b|
  {
    ExportedInterface(b[o], b[o + 1], b[o + 2])
  }

  function InterfacesAt(b: seq<byte>, o: nat, n: nat): (s: seq<ExportedInterface>)
    requires o + 4 * n <= |b|
    ensures |s| == n
  {
    if n == 0 then [] else InterfacesAt(b, o, n - 1) + [InterfaceAt(b, o + 4 * (n - 1))]
  }

  /** The device at the head of `b` and the size of its record. */
  function DecodeRecord(b: seq<byte>): (r: Result<(ExportedDevice, nat), ProtoError>)
    ensures r.Ok? ==> r.value.1 <= |b| && Fits(r.value.0)
  {
    if |b| < RECORD_SIZE then Err(ShortRead(RECORD_SIZE, |b|))
    else if |b| < RECORD_SIZE + 4 * b[311] as nat then Err(ShortRead(RECORD_SIZE + 4 * b[311] as nat, |b|))
    else
      Ok((ExportedDevice(ReadStr(b[0..256]), ReadStr(b[256..288]), At32(b, 288), At32(b, 292), At32(b, 296),
                         At16(b, 300), At16(b, 302), At16(b, 304), b[306], b[307], b[308], b[309], b[310],
                         InterfacesAt(b, RECORD_SIZE, b[311])),
          RECORD_SIZE + 4 * b[311] as nat))
  }

  predicate Fits(d: ExportedDevice) {
    |d.path| <= PATH_SIZE && 0 !in d.path && |d.busid| <= BUSID_SIZE && 0 !in d.busid && |d.interfaces| <= 0xFF
  }

  lemma NumberFields(d: ExportedDevice)
    ensures var n := NumberBytes(d);
            && At32(n, 0) == d.busnum && At32(n, 4) == d.devnum && At32(n, 8) == d.speed
            && At16(n, 12) == d.vendor && At16(n, 14) == d.product && At16(n, 16) == d.bcd
  {
    hide Be32, Be16;
    var n := NumberBytes(d);
    assert n[0..4] == Be32(d.busnum) && n[4..8] == Be32(d.devnum) && n[8..12] == Be32(d.speed);
    assert n[12..14] == Be16(d.vendor) && n[14..16] == Be16(d.product) && n[16..18] == Be16(d.bcd);
    AtSlice(n, 0, Be32(d.busnum));
    AtSlice(n, 4, Be32(d.devnum));
    AtSlice(n, 8, Be32(d.speed));
    AtSlice(n, 12, Be16(d.vendor));
    AtSlice(n, 14, Be16(d.product));
    AtSlice(n, 16, Be16(d.bcd));
  }

  lemma NumbersAt(d: ExportedDevice, b: seq<byte>)
    requires |b| >= RECORD_SIZE && b[288..312] == NumberBytes(d)
    ensures At32(b, 288) == d.busnum && At32(b, 292) == d.devnum && At32(b, 296) == d.speed
    ensures At16(b, 300) == d.vendor && At16(b, 302) == d.product && At16(b, 304) == d.bcd
    ensures b[306] == d.cls && b[307] == d.subclass && b[308] == d.protocol
    ensures b[309] == d.configuration && b[310] == d.configurations && b[311] == InterfaceCount(d)
  {
    hide Be32, Be16;
    var n := NumberBytes(d);
    assert forall k | 0 <= k < 24 :: b[288 + k] == n[k];
    NumberFields(d);
  }

  lemma {:induction false} InterfacesRead(s: seq<ExportedInterface>, b: seq<byte>, o: nat)
    requires o + 4 * |s| <= |b| && b[o..o + 4 * |s|] == InterfacesBytes(s)
    ensures InterfacesAt(b, o, |s|) == s
  {
    hide InterfacesBytes, InterfaceBytes;
    if s != [] {
      var n := |s| - 1;
      var part := b[o..o + 4 * |s|];
      InterfacesSplit(s, part);
      assert b[o..o + 4 * n] == part[..4 * n];
      InterfacesRead(s[..n], b, o);
      assert InterfaceAt(b, o + 4 * n) == InterfaceAt(part, 4 * n);
    }
  }

  lemma InterfacesSplit(s: seq<ExportedInterface>, part: seq<byte>)
    requires s != [] && part == InterfacesBytes(s)
    ensures var n := |s| - 1;
            part[..4 * n] == InterfacesBytes(s[..n]) && InterfaceAt(part, 4 * n) == s[n]
  {
  }

  /** Decoding what was encoded gives the device and the record's size back exactly if the device fits. */
  lemma RecordRoundTrip(d: ExportedDevice, rest: seq<byte>)
    ensures DecodeRecord(Record(d) + rest) == Ok((d, |Record(d)|)) <==> Fits(d)
  {
    hide FixedStr, ReadStr, NumberBytes, InterfacesBytes, InterfacesAt;
    var b := Record(d) + rest;
    assert b[0..256] == FixedStr(d.path, PATH_SIZE) && b[256..288] == FixedStr(d.busid, BUSID_SIZE);
    assert b[288..312] == NumberBytes(d);
    StrRoundTrip(d.path, PATH_SIZE);
    StrRoundTrip(d.busid, BUSID_SIZE);
    NumbersAt(d, b);
    if |d.interfaces| <= 0xFF {
      assert b[312..312 + 4 * |d.interfaces|] == InterfacesBytes(d.interfaces);
      InterfacesRead(d.interfaces, b, 312);
    }
  }

  /** With more than 255 interfaces the reader stops short, inside the interface list. */
  lemma LongRecordCutShort(d: ExportedDevice, rest: seq<byte>)
    requires |d.interfaces| > 0xFF
    ensures DecodeRecord(Record(d) + rest).Ok? && DecodeRecord(Record(d) + rest).value.1 < |Record(d)|
  {
    var b := Record(d) + rest;
    assert b[288..312] == NumberBytes(d);
    NumbersAt(d, b);
  }

  // ----- the encoders and the decoder -----

  method EncodeOp(h: OpHeader, out: ByteBuf)
    modifies out
    ensures out.bytes == old(out.bytes) + OpBytes(h)
  {
    out.Append(Be16(h.version));
    out.Append(Be16(h.code));
    out.Append(Be32(h.status));
  }

  /** The fixed part of a record, all that an import reply carries. */
  method EncodeHeaderOnly(d: ExportedDevice, out: ByteBuf)
    modifies out
    ensures out.bytes == old(out.bytes) + RecordHeader(d)
  {
    hide Be32, Be16, FixedStr;
    out.Append(FixedStr(d.path, PATH_SIZE));
    out.Append(FixedStr(d.busid, BUSID_SIZE));
    out.Append(Be32(d.busnum));
    out.Append(Be32(d.devnum));
    out.Append(Be32(d.speed));
    out.Append(Be16(d.vendor));
    out.Append(Be16(d.product));
    out.Append(Be16(d.bcd));
    out.Append([d.cls, d.subclass, d.protocol, d.configuration, d.configurations, InterfaceCount(d)]);
  }

  method Encode(d: ExportedDevice, out: ByteBuf)
    modifies out
    ensures out.bytes == old(out.bytes) + Record(d)
  {
    hide RecordHeader;
    EncodeHeaderOnly(d, out);
    var n := 0;
    while n < |d.interfaces|
      invariant n <= |d.interfaces|
      invariant out.bytes == old(out.bytes) + RecordHeader(d) + InterfacesBytes(d.interfaces[..n])
    {
      assert d.interfaces[..n + 1][..n] == d.interfaces[..n];
      out.Append(InterfaceBytes(d.interfaces[n]));
      n := n + 1;
    }
    assert d.interfaces[..n] == d.interfaces;
  }

  method Decode(b: seq<byte>) returns (r: Result<(ExportedDevice, nat), ProtoError>)
    ensures r == DecodeRecord(b)
  {
    if |b| < RECORD_SIZE {
      return Err(ShortRead(RECORD_SIZE, |b|));
    }
    var path, busid := ReadStr(b[0..256]), ReadStr(b[256..288]);
    var o := 288;
    var busnum := At32(b, o);
    var devnum := At32(b, o + 4);
    var speed := At32(b, o + 8);
    o := o + 12;
    var vendor := At16(b, o);
    var product := At16(b, o + 2);
    var bcd := At16(b, o + 4);
    o := o + 6;
    var count := b[o + 5] as nat;
    o := o + 6;
    if |b| < o + 4 * count {
      return Err(ShortRead(o + 4 * count, |b|));
    }
    var interfaces := [];
    var n := 0;
    while n < count
      invariant n <= count && o == RECORD_SIZE + 4 * n
      invariant interfaces == InterfacesAt(b, RECORD_SIZE, n)
    {
      interfaces := interfaces + [InterfaceAt(b, o)];
      o := o + 4;
      n := n + 1;
    }
    r := Ok((ExportedDevice(path, busid, busnum, devnum, speed, vendor, product, bcd,
                            b[306], b[307], b[308], b[309], b[310], interfaces), o));
  }

  // ----- import -----

  function DecodeReqImport(b: seq<byte>): Result<seq<byte>, ProtoError> {
    if |b| < BUSID_SIZE then Err(ShortRead(BUSID_SIZE, |b|)) else Ok(ReadStr(b[0..32]))
  }

  /** The reply to an accepted import, or the refusal. */
  function ImportReply(d: Option<ExportedDevice>): seq<byte> {
    match d
    case Some(d) => OpBytes(OpHeader(USBIP_VERSION, OP_REP_IMPORT, 0)) + RecordHeader(d)
    case None => OpBytes(OpHeader(USBIP_VERSION, OP_REP_IMPORT, 1))
  }

  method EncodeRepImport(d: Option<ExportedDevice>, out: ByteBuf)
    modifies out
    ensures out.bytes == old(out.bytes) + ImportReply(d)
  {
    hide RecordHeader, OpBytes;
    match d
    case Some(d) =>
      EncodeOp(OpHeader(USBIP_VERSION, OP_REP_IMPORT, 0), out);
      EncodeHeaderOnly(d, out);
    case None =>
      EncodeOp(OpHeader(USBIP_VERSION, OP_REP_IMPORT, 1), out);
  }

  /** What a client reads out of an import reply: refusal, or the busid and the two numbers. */
  lemma ImportReplyRead(d: Option<ExportedDevice>)
    ensures var b := ImportReply(d);
            && DecodeOp(b) == Ok(OpHeader(USBIP_VERSION, OP_REP_IMPORT, if d.Some? then 0 else 1))
            && |b| == (if d.Some? then OP_SIZE + RECORD_SIZE else OP_SIZE)
            && (d.Some? ==> At32(b[8..], 288) == d.value.busnum && At32(b[8..], 292) == d.value.devnum)
            && (d.Some? && |d.value.busid| <= BUSID_SIZE && 0 !in d.value.busid ==>
                  ReadStr(b[8..][256..288]) == d.value.busid)
  {
    hide OpBytes, FixedStr, ReadStr, NumberBytes;
    var b := ImportReply(d);
    var h := OpHeader(USBIP_VERSION, OP_REP_IMPORT, if d.Some? then 0 else 1);
    if d.Some? {
      OpRoundTrip(h, RecordHeader(d.value));
      assert b[8..] == RecordHeader(d.value);
      assert b[8..][288..312] == NumberBytes(d.value);
      NumbersAt(d.value, b[8..]);
      assert b[8..][256..288] == FixedStr(d.value.busid, BUSID_SIZE);
      StrRoundTrip(d.value.busid, BUSID_SIZE);
    } else {
      OpRoundTrip(h, []);
      assert b + [] == b;
    }
  }

  /** Version 0x0111, code 3, and status 1 for a refusal. */
  lemma ImportReplyHead(d: Option<ExportedDevice>)
    ensures |ImportReply(d)| >= 8 && ImportReply(d)[..8] == [0x01, 0x11, 0x00, 0x03, 0, 0, 0, if d.Some? then 0 else 1]
  {
    assert Be16(0x0111) == [0x01, 0x11] && Be16(3) == [0, 3] && Be32(0) == [0, 0, 0, 0] && Be32(1) == [0, 0, 0, 1];
    assert ImportReply(d)[..8] == OpBytes(OpHeader(0x0111, 3, if d.Some? then 0 else 1));
  }

  /** Where each interface is in a record, and that its fourth byte is padding. */
  lemma {:induction false} InterfaceLayout(s: seq<ExportedInterface>, k: nat)
    requires k < |s|
    ensures InterfacesBytes(s)[4 * k..4 * k + 4] == [s[k].cls, s[k].subclass, s[k].protocol, 0]
  {
    var n := |s| - 1;
    if k < n {
      InterfaceLayout(s[..n], k);
      assert InterfacesBytes(s)[4 * k..4 * k + 4] == InterfacesBytes(s[..n])[4 * k..4 * k + 4];
    }
  }

  /** Too few bytes are reported with what was needed and what there was. */
  lemma ShortReads(b: seq<byte>)
    ensures |b| < 8 ==> DecodeOp(b) == Err(ShortRead(8, |b|))
    ensures |b| < 32 <==> DecodeReqImport(b) == Err(ShortRead(32, |b|))
    ensures |b| < 312 ==> DecodeRecord(b) == Err(ShortRead(312, |b|))
    ensures |b| >= 312 && |b| < 312 + 4 * b[311] as nat ==>
              DecodeRecord(b) == Err(ShortRead(312 + 4 * b[311] as nat, |b|))
    ensures |b| >= 312 && |b| >= 312 + 4 * b[311] as nat ==> DecodeRecord(b).Ok?
  {
  }
}
