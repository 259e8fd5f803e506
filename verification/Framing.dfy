/** Whole-stream framing: the server's read loop over the client's bytes, and a client over the server's. */
module Framing {
  import opened Bytes
  import opened Urb

  datatype Command =
    | Submit(header: UrbHeader, cmd: CmdSubmit, payload: seq<byte>)
    | Unlink(header: UrbHeader, unlink: CmdUnlink)

  /** Any direction other than 1 is treated as OUT. */
  predicate DirIn(h: UrbHeader) {
    h.direction == DIR_IN
  }

  /** A negative buffer length counts as 0. */
  function BufferLength(c: CmdSubmit): nat {
    if c.length < 0 then 0 else c.length
  }

  function PayloadLength(h: UrbHeader, c: CmdSubmit): nat {
    if DirIn(h) then 0 else BufferLength(c)
  }

  /**
   * What a conforming client sends in a session for `devid`, by the fields on the wire: direction 1 is
   * IN and carries no payload, any other carries `length` bytes, none if that is negative.
   */
  predicate WellFormed(devid: u32, c: Command) {
    && c.header.devid == devid
    && match c
       case Submit(h, s, p) => h.command == 1 && |p| == if h.direction == 1 || s.length < 0 then 0 else s.length
       case Unlink(h, _) => h.command == 2
  }

  /** The payload the loop takes off the stream is the one the client sends. */
  lemma PayloadLengthIs(h: UrbHeader, c: CmdSubmit)
    ensures h.direction == 1 || c.length < 0 ==> PayloadLength(h, c) == 0
    ensures h.direction != 1 && c.length >= 0 ==> PayloadLength(h, c) == c.length
  {
  }

  function CommandBytes(c: Command): (b: seq<byte>)
    ensures |b| >= HEADER_SIZE
  {
    HeaderBytes(c.header) +
    match c
    case Submit(_, s, p) => SubmitBytes(s) + p
    case Unlink(_, u) => UnlinkBytes(u)
  }

  function StreamBytes(cs: seq<Command>): seq<byte> {
    if cs == [] then [] else CommandBytes(cs[0]) + StreamBytes(cs[1..])
  }

  // ----- server side -----

  /** Why the read loop stopped. End of stream inside a header is reported as a plain disconnect. */
  datatype Stop = Disconnected | DevidMismatch(got: u32) | UnknownCommand(code: u32) | PayloadCut

  datatype Transcript = Transcript(commands: seq<Command>, consumed: nat, stop: Stop)

  /** The next command of the stream and its length, or the reason there is none. */
  function NextCommand(devid: u32, b: seq<byte>): (r: Result<(Command, nat), Stop>)
    ensures r.Ok? ==> HEADER_SIZE <= r.value.1 <= |b|
  {
    if |b| < HEADER_SIZE then Err(Disconnected)
    else
      var h := DecodeHeader(b[..BASIC_SIZE]).value;
      var tail := b[BASIC_SIZE..HEADER_SIZE];
      if h.devid != devid then Err(DevidMismatch(h.devid))
      else if h.command == CMD_SUBMIT then
        var c := DecodeSubmit(tail).value;
        var end := HEADER_SIZE + PayloadLength(h, c);
        if |b| < end then Err(PayloadCut) else Ok((Submit(h, c, b[HEADER_SIZE..end]), end))
      else if h.command == CMD_UNLINK then Ok((Unlink(h, DecodeUnlink(tail).value), HEADER_SIZE))
      else Err(UnknownCommand(h.command))
  }

  /** Each outcome of a turn, by the bytes: too few, other devid, unknown command, payload too short, or a command. */
  lemma NextCommandIs(devid: u32, b: seq<byte>)
    ensures NextCommand(devid, b) == Err(Disconnected) <==> |b| < 48
    ensures |b| >= 48 && At32(b, 8) != devid ==> NextCommand(devid, b) == Err(DevidMismatch(At32(b, 8)))
    ensures |b| >= 48 && At32(b, 8) == devid && At32(b, 0) !in {1, 2} ==>
              NextCommand(devid, b) == Err(UnknownCommand(At32(b, 0)))
    ensures |b| >= 48 && At32(b, 8) == devid && At32(b, 0) == 1 ==>
              var n := if At32(b, 12) == 1 || AtI32(b, 24) < 0 then 0 else AtI32(b, 24);
              if |b| < 48 + n then NextCommand(devid, b) == Err(PayloadCut)
              else
                && NextCommand(devid, b).Ok? && NextCommand(devid, b).value.0.Submit?
                && NextCommand(devid, b).value.1 == 48 + n
    ensures |b| >= 48 && At32(b, 8) == devid && At32(b, 0) == 2 ==>
              NextCommand(devid, b).Ok? && NextCommand(devid, b).value.0.Unlink? && NextCommand(devid, b).value.1 == 48
  {
    if |b| >= 48 {
      var tail := b[20..48];
      assert forall i | 0 <= i < 20 :: b[..20][i] == b[i];
      assert forall i | 0 <= i < 28 :: tail[i] == b[20 + i];
    }
  }

  /** A session that reads `cs` from its first `n` bytes and then behaves as `rest`. */
  function After(cs: seq<Command>, n: nat, rest: Transcript): Transcript {
    Transcript(cs + rest.commands, n + rest.consumed, rest.stop)
  }

  lemma AfterAfter(cs: seq<Command>, n: nat, ds: seq<Command>, m: nat, rest: Transcript)
    ensures After(cs, n, After(ds, m, rest)) == After(cs + ds, n + m, rest)
  {
    assert cs + (ds + rest.commands) == (cs + ds) + rest.commands;
  }

  function ReadSession(devid: u32, b: seq<byte>): (r: Transcript)
    ensures r.consumed <= |b|
    decreases |b|
  {
    match NextCommand(devid, b)
    case Err(stop) => Transcript([], 0, stop)
    case Ok((c, n)) =>
      After([c], n, ReadSession(devid, b[n..]))
  }

  /** One turn of `urb_loop` up to the dispatch, with the payload read of `handle_cmd_submit`. */
  method ReadCommand(devid: u32, stream: seq<byte>, o: nat) returns (r: Result<(Command, nat), Stop>)
    requires o <= |stream|
    ensures r == NextCommand(devid, stream[o..])
  {
    if |stream| - o < HEADER_SIZE {
      return Err(Disconnected);
    }
    var header := stream[o..o + HEADER_SIZE];
    ghost var b := stream[o..];
    assert b[..BASIC_SIZE] == header[..BASIC_SIZE] && b[BASIC_SIZE..HEADER_SIZE] == header[BASIC_SIZE..];
    var basic := DecodeHeader(header[..BASIC_SIZE]).value;
    if basic.devid != devid {
      return Err(DevidMismatch(basic.devid));
    }
    if basic.command == CMD_SUBMIT {
      var cmd := DecodeSubmit(header[BASIC_SIZE..]).value;
      var payload := [];
      var at := o + HEADER_SIZE;
      if !DirIn(basic) && BufferLength(cmd) > 0 {
        if |stream| - at < BufferLength(cmd) {
          return Err(PayloadCut);
        }
        payload := stream[at..at + BufferLength(cmd)];
      }
      assert b[HEADER_SIZE..HEADER_SIZE + |payload|] == payload;
      return Ok((Submit(basic, cmd, payload), HEADER_SIZE + |payload|));
    } else if basic.command == CMD_UNLINK {
      return Ok((Unlink(basic, DecodeUnlink(header[BASIC_SIZE..]).value), HEADER_SIZE));
    }
    return Err(UnknownCommand(basic.command));
  }

  /** The read side of `urb_loop`: a cursor over the bytes received, until something stops it. */
  method UrbReadLoop(devid: u32, stream: seq<byte>) returns (commands: seq<Command>, o: nat, stop: Stop)
    ensures Transcript(commands, o, stop) == ReadSession(devid, stream)
  {
    hide NextCommand;
    commands, o, stop := [], 0, Disconnected;
    assert stream[0..] == stream;
    var open := true;
    while open
      invariant o <= |stream|
      invariant open ==> ReadSession(devid, stream) == After(commands, o, ReadSession(devid, stream[o..]))
      invariant !open ==> ReadSession(devid, stream) == Transcript(commands, o, stop)
      decreases |stream| - o, open
    {
      var next := ReadCommand(devid, stream, o);
      match next
      case Err(why) =>
        stop, open := why, false;
      case Ok((c, n)) =>
        assert stream[o..][n..] == stream[o + n..];
        AfterAfter(commands, o, [c], n, ReadSession(devid, stream[o + n..]));
        commands, o := commands + [c], o + n;
    }
  }

  lemma NextOfEncoded(devid: u32, c: Command, tail: seq<byte>)
    requires WellFormed(devid, c)
    ensures NextCommand(devid, CommandBytes(c) + tail) == Ok((c, |CommandBytes(c)|))
  {
    hide HeaderBytes, SubmitBytes, UnlinkBytes, DecodeHeader, DecodeSubmit, DecodeUnlink;
    var b := CommandBytes(c) + tail;
    assert b[..BASIC_SIZE] == HeaderBytes(c.header);
    HeaderRoundTrip(c.header, b[..BASIC_SIZE]);
    match c
    case Submit(h, s, p) =>
      assert b[BASIC_SIZE..HEADER_SIZE] == SubmitBytes(s);
      SubmitRoundTrip(s, SubmitBytes(s));
      assert b[HEADER_SIZE..HEADER_SIZE + |p|] == p;
    case Unlink(h, u) =>
      assert b[BASIC_SIZE..HEADER_SIZE] == UnlinkBytes(u);
      UnlinkRoundTrip(u, UnlinkBytes(u));
  }

  lemma EncodedOfNext(devid: u32, b: seq<byte>)
    requires NextCommand(devid, b).Ok?
    ensures var (c, n) := NextCommand(devid, b).value;
            WellFormed(devid, c) && CommandBytes(c) == b[..n]
  {
    var (c, n) := NextCommand(devid, b).value;
    var tail := b[BASIC_SIZE..HEADER_SIZE];
    HeaderRoundTrip(c.header, b[..BASIC_SIZE]);
    if c.Submit? {
      SubmitRoundTrip(c.cmd, tail);
      assert b[..n] == b[..BASIC_SIZE] + (tail + b[HEADER_SIZE..n]);
    } else {
      UnlinkRoundTrip(c.unlink, tail);
      assert b[..n] == b[..BASIC_SIZE] + tail;
    }
  }

  lemma ReadEncoded(devid: u32, c: Command, tail: seq<byte>)
    requires WellFormed(devid, c)
    ensures ReadSession(devid, CommandBytes(c) + tail) == After([c], |CommandBytes(c)|, ReadSession(devid, tail))
  {
    NextOfEncoded(devid, c, tail);
    hide NextCommand, CommandBytes, WellFormed;
    assert (CommandBytes(c) + tail)[|CommandBytes(c)|..] == tail;
  }

  /**
   * Input framing: whatever follows them, the concatenated encodings of any command list are read
   * back as exactly that list, byte for byte, and the loop goes on with what follows.
   */
  lemma {:induction false} InputRoundTrip(devid: u32, cs: seq<Command>, tail: seq<byte>)
    requires forall c | c in cs :: WellFormed(devid, c)
    ensures ReadSession(devid, StreamBytes(cs) + tail) == After(cs, |StreamBytes(cs)|, ReadSession(devid, tail))
  {
    hide ReadSession, CommandBytes, WellFormed;
    if cs == [] {
      assert StreamBytes(cs) + tail == tail;
    } else {
      var more := StreamBytes(cs[1..]) + tail;
      assert StreamBytes(cs) + tail == CommandBytes(cs[0]) + more;
      ReadEncoded(devid, cs[0], more);
      InputRoundTrip(devid, cs[1..], tail);
      AfterAfter([cs[0]], |CommandBytes(cs[0])|, cs[1..], |StreamBytes(cs[1..])|, ReadSession(devid, tail));
      assert cs == [cs[0]] + cs[1..];
    }
  }

  /** The whole stream is consumed and the session ends as a clean disconnect. */
  lemma InputExact(devid: u32, cs: seq<Command>)
    requires forall c | c in cs :: WellFormed(devid, c)
    ensures ReadSession(devid, StreamBytes(cs)) == Transcript(cs, |StreamBytes(cs)|, Disconnected)
  {
    InputRoundTrip(devid, cs, []);
    assert StreamBytes(cs) + [] == StreamBytes(cs);
  }

  /** Conversely, on any bytes at all, what was consumed is the encoding of what was recovered. */
  lemma {:induction false} ReadIsFaithful(devid: u32, b: seq<byte>)
    ensures var r := ReadSession(devid, b);
            && StreamBytes(r.commands) == b[..r.consumed]
            && forall c | c in r.commands :: WellFormed(devid, c)
    decreases |b|
  {
    hide NextCommand, CommandBytes, WellFormed;
    match NextCommand(devid, b)
    case Err(_) =>
    case Ok((c, n)) =>
      EncodedOfNext(devid, b);
      ReadIsFaithful(devid, b[n..]);
      var r, rest := ReadSession(devid, b), ReadSession(devid, b[n..]);
      assert r.commands[0] == c && r.commands[1..] == rest.commands;
      assert b[..r.consumed] == b[..n] + b[n..][..rest.consumed];
  }

  // ----- client side -----

  /** What the client remembers of its submits: seqnum to "direction is IN". */
  type Directions = map<u32, bool>

  function NextReply(dirs: Directions, b: seq<byte>): (r: Option<(Reply, nat)>)
    ensures r.Some? ==> HEADER_SIZE <= r.value.1 <= |b|
  {
    if |b| < HEADER_SIZE then None
    else
      var h := DecodeHeader(b[..BASIC_SIZE]).value;
      var status := AtI32(b, BASIC_SIZE);
      if h.command == RET_UNLINK then Some((RetUnlink(h.seqnum, status), HEADER_SIZE))
      else if h.command == RET_SUBMIT && h.seqnum in dirs then
        var actual := AtI32(b, BASIC_SIZE + 4);
        var n := if dirs[h.seqnum] && actual > 0 then actual else 0;
        if |b| < HEADER_SIZE + n then None
        else Some((RetSubmit(h.seqnum, status, actual, b[HEADER_SIZE..HEADER_SIZE + n]), HEADER_SIZE + n))
      else None
  }

  /** All complete replies at the front of the bytes received, and the bytes left over. */
  function ReadReplies(dirs: Directions, b: seq<byte>): (seq<Reply>, seq<byte>)
    decreases |b|
  {
    match NextReply(dirs, b)
    case None => ([], b)
    case Some((r, n)) =>
      var (rs, left) := ReadReplies(dirs, b[n..]);
      ([r] + rs, left)
  }

  /** The payload length is the one the client computes from the header and its own record. */
  predicate Fits(dirs: Directions, r: Reply) {
    r.RetSubmit? ==>
      && r.seqnum in dirs
      && (if dirs[r.seqnum] then |r.payload| == r.actual else r.payload == [])
  }

  function WireBytes(rs: seq<Reply>): seq<byte> {
    if rs == [] then [] else WireBytes(rs[..|rs| - 1]) + ReplyBytes(rs[|rs| - 1])
  }

  lemma ReplyFields(r: Reply, tail: seq<byte>)
    ensures var b := ReplyBytes(r) + tail;
            && DecodeHeader(b[..BASIC_SIZE]) ==
               Ok(UrbHeader(if r.RetSubmit? then RET_SUBMIT else RET_UNLINK, r.seqnum, 0, 0, 0))
            && AtI32(b, BASIC_SIZE) == r.status
            && (r.RetSubmit? ==> AtI32(b, BASIC_SIZE + 4) == r.actual)
  {
    var b := ReplyBytes(r) + tail;
    var h := UrbHeader(if r.RetSubmit? then RET_SUBMIT else RET_UNLINK, r.seqnum, 0, 0, 0);
    assert b[..BASIC_SIZE] == HeaderBytes(h);
    HeaderRoundTrip(h, HeaderBytes(h));
    assert b[20..24] == BeI32(r.status);
    AtSlice(b, 20, BeI32(r.status));
    if r.RetSubmit? {
      assert b[24..28] == BeI32(r.actual);
      AtSlice(b, 24, BeI32(r.actual));
    }
  }

  lemma NextReplyOfEncoded(dirs: Directions, r: Reply, tail: seq<byte>)
    requires Fits(dirs, r)
    ensures NextReply(dirs, ReplyBytes(r) + tail) == Some((r, |ReplyBytes(r)|))
  {
    ReplyFields(r, tail);
    if r.RetSubmit? {
      assert (ReplyBytes(r) + tail)[HEADER_SIZE..HEADER_SIZE + |r.payload|] == r.payload;
    }
  }

  /** A started but unfinished reply is not mistaken for a complete one. */
  lemma NextReplyOfPartial(dirs: Directions, r: Reply, k: nat)
    requires Fits(dirs, r) && k < |ReplyBytes(r)|
    ensures NextReply(dirs, ReplyBytes(r)[..k]).None?
  {
    if k >= HEADER_SIZE {
      var b, w := ReplyBytes(r)[..k], ReplyBytes(r);
      ReplyFields(r, []);
      assert w + [] == w && b[..BASIC_SIZE] == w[..BASIC_SIZE];
      assert forall i | 0 <= i < HEADER_SIZE :: b[i] == w[i];
    }
  }

  lemma {:induction false} WireCons(rs: seq<Reply>)
    requires rs != []
    ensures WireBytes(rs) == ReplyBytes(rs[0]) + WireBytes(rs[1..])
  {
    hide ReplyBytes;
    var n := |rs| - 1;
    if n == 0 {
      assert WireBytes(rs[..0]) == [] == WireBytes(rs[1..]);
    } else {
      WireCons(rs[..n]);
      var middle := WireBytes(rs[1..n]);
      assert rs[..n][1..] == rs[1..n] == rs[1..][..n - 1] && rs[1..][n - 1] == rs[n];
      assert (ReplyBytes(rs[0]) + middle) + ReplyBytes(rs[n]) == ReplyBytes(rs[0]) + (middle + ReplyBytes(rs[n]));
    }
  }

  /**
   * Output framing: for every reply list in every order, followed by any proper prefix of one more
   * reply, the client recovers the list and keeps exactly the prefix.
   */
  lemma {:induction false} OutputRoundTrip(dirs: Directions, rs: seq<Reply>, r: Reply, k: nat)
    requires forall x | x in rs :: Fits(dirs, x)
    requires Fits(dirs, r) && k < |ReplyBytes(r)|
    ensures ReadReplies(dirs, WireBytes(rs) + ReplyBytes(r)[..k]) == (rs, ReplyBytes(r)[..k])
  {
    hide NextReply, ReplyBytes;
    var part := ReplyBytes(r)[..k];
    if rs == [] {
      assert WireBytes(rs) + part == part;
      NextReplyOfPartial(dirs, r, k);
    } else {
      WireCons(rs);
      var more := WireBytes(rs[1..]) + part;
      assert WireBytes(rs) + part == ReplyBytes(rs[0]) + more;
      NextReplyOfEncoded(dirs, rs[0], more);
      assert (ReplyBytes(rs[0]) + more)[|ReplyBytes(rs[0])|..] == more;
      OutputRoundTrip(dirs, rs[1..], r, k);
      assert rs == [rs[0]] + rs[1..];
    }
  }

  lemma NextReplySize(dirs: Directions, b: seq<byte>)
    ensures NextReply(dirs, b).Some? ==> |ReplyBytes(NextReply(dirs, b).value.0)| == NextReply(dirs, b).value.1
  {
    hide ReplyBytes;
  }

  /** Whatever the bytes are, the client accounts for each of them exactly once. */
  lemma {:induction false} ReadKeepsLength(dirs: Directions, b: seq<byte>)
    ensures var (rs, left) := ReadReplies(dirs, b); |WireBytes(rs)| + |left| == |b|
    decreases |b|
  {
    hide NextReply, ReplyBytes;
    NextReplySize(dirs, b);
    match NextReply(dirs, b)
    case None =>
    case Some((r, n)) =>
      ReadKeepsLength(dirs, b[n..]);
      var rs := ReadReplies(dirs, b[n..]).0;
      WireCons([r] + rs);
      assert ([r] + rs)[1..] == rs;
  }
}
