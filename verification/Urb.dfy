/** URB-mode messages: 48-byte headers, their tails, and the reply writers. */
module Urb {
  import opened Bytes

  const CMD_SUBMIT: u32 := 1
  const CMD_UNLINK: u32 := 2
  const RET_SUBMIT: u32 := 3
  const RET_UNLINK: u32 := 4
  const DIR_IN: u32 := 1
  const BASIC_SIZE: nat := 20
  const TAIL_SIZE: nat := 28
  const HEADER_SIZE: nat := 48

  type SetupBytes = s: seq<byte> | |s| == 8 witness Zeros(8)
  type UnlinkPad = s: seq<byte> | |s| == 24 witness Zeros(24)

  datatype UrbHeader = UrbHeader(command: u32, seqnum: u32, devid: u32, direction: u32, ep: u32)

  datatype CmdSubmit = CmdSubmit(
    flags: u32, length: i32, startFrame: i32, packets: i32, interval: i32, setup: SetupBytes)

  datatype CmdUnlink = CmdUnlink(unlinkSeqnum: u32, padding: UnlinkPad)

  // ----- wire images -----

  function HeaderBytes(h: UrbHeader): (b: seq<byte>)
    ensures |b| == BASIC_SIZE
  {
    Be32(h.command) + Be32(h.seqnum) + Be32(h.devid) + Be32(h.direction) + Be32(h.ep)
  }

  function SubmitBytes(c: CmdSubmit): (b: seq<byte>)
    ensures |b| == TAIL_SIZE
  {
    Be32(c.flags) + BeI32(c.length) + BeI32(c.startFrame) + BeI32(c.packets) + BeI32(c.interval) + c.setup
  }

  function UnlinkBytes(c: CmdUnlink): (b: seq<byte>)
    ensures |b| == TAIL_SIZE
  {
    Be32(c.unlinkSeqnum) + c.padding
  }

  // ----- decoders -----

  function DecodeHeader(b: seq<byte>): Result<UrbHeader, ProtoError> {
    if |b| < BASIC_SIZE then Err(ShortRead(BASIC_SIZE, |b|))
    else Ok(UrbHeader(At32(b, 0), At32(b, 4), At32(b, 8), At32(b, 12), At32(b, 16)))
  }

  function DecodeSubmit(b: seq<byte>): Result<CmdSubmit, ProtoError> {
    if |b| < TAIL_SIZE then Err(ShortRead(TAIL_SIZE, |b|))
    else Ok(CmdSubmit(At32(b, 0), AtI32(b, 4), AtI32(b, 8), AtI32(b, 12), AtI32(b, 16), b[20..28]))
  }

  function DecodeUnlink(b: seq<byte>): Result<CmdUnlink, ProtoError> {
    if |b| < TAIL_SIZE then Err(ShortRead(TAIL_SIZE, |b|))
    else Ok(CmdUnlink(At32(b, 0), b[4..28]))
  }

  /** Decoding undoes encoding, and encoding undoes decoding: the codec is a bijection on 20 bytes. */
  lemma HeaderRoundTrip(h: UrbHeader, b: seq<byte>)
    requires |b| == BASIC_SIZE
    ensures DecodeHeader(HeaderBytes(h)) == Ok(h)
    ensures HeaderBytes(DecodeHeader(b).value) == b
  {
    HeaderDecodes(h);
    hide Be32;
    Be32Onto(b, 0);
    Be32Onto(b, 4);
    Be32Onto(b, 8);
    Be32Onto(b, 12);
    Be32Onto(b, 16);
    assert b == b[0..4] + b[4..8] + b[8..12] + b[12..16] + b[16..20];
  }

  lemma HeaderDecodes(h: UrbHeader)
    ensures DecodeHeader(HeaderBytes(h)) == Ok(h)
  {
    hide Be32;
    var w := HeaderBytes(h);
    AtSlice(w, 0, Be32(h.command));
    AtSlice(w, 4, Be32(h.seqnum));
    AtSlice(w, 8, Be32(h.devid));
    AtSlice(w, 12, Be32(h.direction));
    AtSlice(w, 16, Be32(h.ep));
  }

  lemma SubmitRoundTrip(c: CmdSubmit, b: seq<byte>)
    requires |b| == TAIL_SIZE
    ensures DecodeSubmit(SubmitBytes(c)) == Ok(c)
    ensures SubmitBytes(DecodeSubmit(b).value) == b
  {
    SubmitDecodes(c);
    hide Be32, BeI32;
    Be32Onto(b, 0);
    Be32Onto(b, 4);
    Be32Onto(b, 8);
    Be32Onto(b, 12);
    Be32Onto(b, 16);
    assert b == b[0..4] + b[4..8] + b[8..12] + b[12..16] + b[16..20] + b[20..28];
  }

  lemma SubmitDecodes(c: CmdSubmit)
    ensures DecodeSubmit(SubmitBytes(c)) == Ok(c)
  {
    hide Be32, BeI32;
    var w := SubmitBytes(c);
    AtSlice(w, 0, Be32(c.flags));
    AtSlice(w, 4, BeI32(c.length));
    AtSlice(w, 8, BeI32(c.startFrame));
    AtSlice(w, 12, BeI32(c.packets));
    AtSlice(w, 16, BeI32(c.interval));
    assert w[20..28] == c.setup;
  }

  lemma UnlinkRoundTrip(c: CmdUnlink, b: seq<byte>)
    requires |b| == TAIL_SIZE
    ensures DecodeUnlink(UnlinkBytes(c)) == Ok(c)
    ensures UnlinkBytes(DecodeUnlink(b).value) == b
  {
    var w := UnlinkBytes(c);
    AtSlice(w, 0, Be32(c.unlinkSeqnum));
    assert w[4..28] == c.padding;
    Be32Onto(b, 0);
    assert b == b[0..4] + b[4..28];
  }

  /** Where each field is on the wire, in network byte order. */
  lemma CommandLayout(h: UrbHeader, c: CmdSubmit, u: CmdUnlink)
    ensures HeaderBytes(h)[0..4] == Be32(h.command) && HeaderBytes(h)[4..8] == Be32(h.seqnum)
    ensures HeaderBytes(h)[8..12] == Be32(h.devid) && HeaderBytes(h)[12..16] == Be32(h.direction)
    ensures HeaderBytes(h)[16..20] == Be32(h.ep)
    ensures SubmitBytes(c)[0..4] == Be32(c.flags) && SubmitBytes(c)[4..8] == BeI32(c.length)
    ensures SubmitBytes(c)[8..12] == BeI32(c.startFrame) && SubmitBytes(c)[12..16] == BeI32(c.packets)
    ensures SubmitBytes(c)[16..20] == BeI32(c.interval) && SubmitBytes(c)[20..28] == c.setup
    ensures UnlinkBytes(u)[0..4] == Be32(u.unlinkSeqnum) && UnlinkBytes(u)[4..28] == u.padding
  {
    hide Be32, BeI32;
  }

  lemma ShortReads(b: seq<byte>)
    ensures |b| < 20 <==> DecodeHeader(b) == Err(ShortRead(20, |b|))
    ensures |b| < 28 <==> DecodeSubmit(b) == Err(ShortRead(28, |b|))
    ensures |b| < 28 <==> DecodeUnlink(b) == Err(ShortRead(28, |b|))
  {
  }

  // ----- replies -----

  /** One reply as the server logs it. `start_frame`, `number_of_packets` and `error_count` are always 0. */
  datatype Reply =
    | RetSubmit(seqnum: u32, status: i32, actual: i32, payload: seq<byte>)
    | RetUnlink(seqnum: u32, status: i32)

  function ReplyHeader(command: u32, seqnum: u32): (b: seq<byte>)
    ensures |b| == BASIC_SIZE
  {
    HeaderBytes(UrbHeader(command, seqnum, 0, 0, 0))
  }

  function ReplyFixed(r: Reply): (b: seq<byte>)
    ensures |b| == HEADER_SIZE
  {
    match r
    case RetSubmit(q, st, n, _) => ReplyHeader(RET_SUBMIT, q) + (BeI32(st) + BeI32(n) + Zeros(20))
    case RetUnlink(q, st) => ReplyHeader(RET_UNLINK, q) + (BeI32(st) + Zeros(24))
  }

  function ReplyBytes(r: Reply): (b: seq<byte>)
    ensures |b| == HEADER_SIZE + (if r.RetSubmit? then |r.payload| else 0)
  {
    ReplyFixed(r) + (if r.RetSubmit? then r.payload else [])
  }

  /** A reply on the wire: command 3 or 4, the seqnum, status, and for a submit the length and the payload. */
  lemma ReplyLayout(r: Reply)
    ensures var b := ReplyBytes(r);
            && b[0..4] == [0, 0, 0, if r.RetSubmit? then 3 else 4] && b[4..8] == Be32(r.seqnum)
            && b[8..20] == Zeros(12) && b[20..24] == BeI32(r.status)
            && (r.RetSubmit? ==> b[24..28] == BeI32(r.actual) && b[28..48] == Zeros(20) && b[48..] == r.payload)
            && (r.RetUnlink? ==> b[24..] == Zeros(24))
  {
    var b, q, st := ReplyBytes(r), Be32(r.seqnum), BeI32(r.status);
    assert Be32(0) == Zeros(4) && Be32(3) == [0, 0, 0, 3] && Be32(4) == [0, 0, 0, 4];
    hide Be32, BeI32;
    assert b[8..20] == Be32(0) + Be32(0) + Be32(0);
  }

  /** `write_ret_submit`: header, tail field by field, payload. */
  method WriteRetSubmit(out: ByteBuf, seqnum: u32, status: i32, actual: i32, payload: seq<byte>)
    modifies out
    ensures out.bytes == old(out.bytes) + ReplyBytes(RetSubmit(seqnum, status, actual, payload))
  {
    ghost var before := out.bytes;
    out.Append(ReplyHeader(RET_SUBMIT, seqnum));
    out.Append(BeI32(status));
    out.Append(BeI32(actual));
    out.Append(BeI32(0) + BeI32(0) + BeI32(0));
    out.Append(Zeros(8));
    out.Append(payload);
    assert BeI32(0) + BeI32(0) + BeI32(0) + Zeros(8) == Zeros(20);
    assert out.bytes == before + (ReplyHeader(RET_SUBMIT, seqnum)
      + (BeI32(status) + BeI32(actual) + (BeI32(0) + BeI32(0) + BeI32(0) + Zeros(8))) + payload);
  }

  /** `write_ret_unlink`. */
  method WriteRetUnlink(out: ByteBuf, seqnum: u32, status: i32)
    modifies out
    ensures out.bytes == old(out.bytes) + ReplyBytes(RetUnlink(seqnum, status))
  {
    ghost var before := out.bytes;
    out.Append(ReplyHeader(RET_UNLINK, seqnum));
    out.Append(BeI32(status));
    out.Append(Zeros(24));
    assert out.bytes == before + (ReplyHeader(RET_UNLINK, seqnum) + (BeI32(status) + Zeros(24)) + []);
  }
}
