/** The length bookkeeping of one URB: padding, truncation, and the reply built from the result. */
module Transfer {
  import opened Bytes
  import opened Urb
  import opened Framing

  const EPIPE: i32 := -32
  const EOVERFLOW: i32 := -75

  function Min(a: nat, b: nat): nat {
    if a < b then a else b
  }

  // ----- padding -----

  /** `usize::div_ceil`. */
  function DivCeil(n: nat, d: nat): nat
    requires d > 0
  {
    if n % d > 0 then n / d + 1 else n / d
  }

  /** The length asked of the backend for an IN transfer of `length` bytes. */
  function PaddedLength(dirIn: bool, mps: nat, length: nat): nat {
    if dirIn && mps > 0 then
      var packets := DivCeil(length, mps);
      (if packets < 1 then 1 else packets) * mps
    else length
  }

  lemma MulMono(a: nat, b: nat, m: nat)
    requires a <= b
    ensures a * m <= b * m
  {
    assert b * m == a * m + (b - a) * m;
  }

  /** The padded length is the least positive multiple of the packet size that covers the request. */
  lemma PaddedIsLeastCover(mps: nat, length: nat, k: nat)
    requires mps > 0
    ensures var p := PaddedLength(true, mps, length);
            && p > 0 && length <= p && p % mps == 0
            && (k >= 1 && length <= k * mps ==> p <= k * mps)
  {
    var p := PaddedLength(true, mps, length);
    var n := DivCeil(length, mps);
    var q := if n < 1 then 1 else n;
    assert length == length / mps * mps + length % mps;
    assert (length / mps + 1) * mps == length / mps * mps + mps;
    MulMono(1, q, mps);
    MulMono(n, q, mps);
    assert p == q * mps + 0 && p % mps == 0 by { MulMod(q, mps); }
    if k >= 1 && length <= k * mps {
      assert n > 0 ==> (n - 1) * mps < length;
      if k < n {
        MulMono(k, n - 1, mps);
      } else {
        MulMono(q, k, mps);
      }
    }
  }

  lemma MulMod(q: nat, m: nat)
    requires m > 0
    ensures q * m % m == 0
  {
    var p := q * m;
    assert p == p / m * m + p % m;
    assert (p / m + 1) * m == p / m * m + m;
    if p / m < q {
      MulMono(p / m + 1, q, m);
    } else {
      MulMono(q, p / m, m);
    }
  }

  /** Everything else is asked for as it is. */
  lemma UnpaddedLength(dirIn: bool, mps: nat, length: nat)
    requires !dirIn || mps == 0
    ensures PaddedLength(dirIn, mps, length) == length
  {
  }

  // ----- the transfer itself -----

  /** What the backend hands back: bytes moved, and the buffer unless the transfer failed. */
  datatype Completion = Completion(actual: nat, buffer: Option<seq<byte>>)

  /** A received buffer holds exactly the bytes received, and no more than was asked for. */
  predicate Honest(dirIn: bool, requested: nat, c: Completion) {
    c.actual <= requested && (dirIn && c.buffer.Some? ==> |c.buffer.value| == c.actual)
  }

  datatype HostResult = Moved(actual: nat, data: seq<byte>) | HostFailed

  /** `data_transfer` from the padding on: `complete` is what the endpoint returns for a given length. */
  method DataTransfer(dirIn: bool, mps: nat, length: nat, outData: seq<byte>, complete: nat -> Completion)
    returns (r: HostResult)
    requires forall n: nat :: Honest(dirIn, n, complete(n))
    ensures r.Moved? && dirIn ==> |r.data| == r.actual <= length
    ensures r.Moved? && !dirIn ==> r.data == [] && r.actual == complete(|outData|).actual <= |outData|
    ensures r.HostFailed? <==> complete(if dirIn then PaddedLength(true, mps, length) else |outData|).buffer.None?
    ensures r.Moved? && dirIn ==>
      var c := complete(PaddedLength(true, mps, length));
      r.data <= c.buffer.value && r.actual == Min(c.actual, length)
  {
    var padded := PaddedLength(dirIn, mps, length);
    var completion := complete(if dirIn then padded else |outData|);
    var actual := completion.actual;
    if completion.buffer.None? {
      return HostFailed;
    }
    if dirIn {
      var usable := Min(actual, length);
      var v := completion.buffer.value;
      if usable < |v| {
        v := v[..usable];
      }
      r := Moved(usable, v);
    } else {
      r := Moved(actual, []);
    }
  }

  /** The most a control request can return: wLength for device-to-host requests, nothing otherwise. */
  function ControlLimit(setup: SetupBytes): nat {
    if setup[0] >= 0x80 then (setup[7] as int) * 0x100 + setup[6] else 0
  }

  /** The results the blocking closure of `run_submit` can produce for `c`. */
  predicate Plausible(c: Command, r: HostResult)
    requires c.Submit?
  {
    r.Moved? ==>
      var dirIn := DirIn(c.header);
      if c.header.ep == 0 then
        |r.data| <= ControlLimit(c.cmd.setup) && r.actual == (if dirIn then |r.data| else |c.payload|)
      else if dirIn then |r.data| == r.actual <= BufferLength(c.cmd)
      else r.data == [] && r.actual <= |c.payload|
  }

  /** The endpoint address of a data transfer: the low four bits of `ep`, and bit 7 for IN. */
  function TransferAddress(h: UrbHeader): byte {
    h.ep % 16 + (if DirIn(h) then 0x80 else 0)
  }

  /**
   * The blocking closure. A control transfer hands its data on and reports by direction; a data
   * transfer goes to the endpoint of the header, and what comes back is cut to the buffer.
   */
  method RunTransfer(c: Command, mps: nat, control: Option<seq<byte>>, complete: (byte, nat) -> Completion)
    returns (r: HostResult)
    requires c.Submit?
    requires control.Some? ==> |control.value| <= ControlLimit(c.cmd.setup)
    requires forall a: byte, n: nat :: Honest(DirIn(c.header), n, complete(a, n))
    ensures Plausible(c, r)
    ensures c.header.ep == 0 ==>
              r == match control
                   case None => HostFailed
                   case Some(data) => Moved(if c.header.direction == 1 then |data| else |c.payload|, data)
    ensures c.header.ep != 0 && c.header.direction == 1 ==>
              var length := if c.cmd.length < 0 then 0 else c.cmd.length;
              var done := complete(c.header.ep % 16 + 0x80, PaddedLength(true, mps, length));
              if done.buffer.None? then r == HostFailed
              else r.Moved? && r.actual == |r.data| == Min(done.actual, length) && r.data <= done.buffer.value
    ensures c.header.ep != 0 && c.header.direction != 1 ==>
              var done := complete(c.header.ep % 16, |c.payload|);
              r == if done.buffer.None? then HostFailed else Moved(done.actual, [])
  {
    var dirIn := DirIn(c.header);
    if c.header.ep == 0 {
      match control
      case None => r := HostFailed;
      case Some(data) => r := Moved(if dirIn then |data| else |c.payload|, data);
    } else {
      var address := TransferAddress(c.header);
      assert Honest(dirIn, PaddedLength(true, mps, BufferLength(c.cmd)),
                    complete(address, PaddedLength(true, mps, BufferLength(c.cmd))));
      r := DataTransfer(dirIn, mps, BufferLength(c.cmd), c.payload, (n: nat) => complete(address, n));
    }
  }

  // ----- the reply -----

  /** `i32::try_from(actual).unwrap_or(i32::MAX)`. */
  function ClampI32(n: nat): i32 {
    if n <= I32_MAX then n else I32_MAX
  }

  /** The RET_SUBMIT `run_submit` builds once it has decided to answer. */
  function BuildReply(c: Command, r: HostResult): Reply
    requires c.Submit?
  {
    var q := c.header.seqnum;
    match r
    case HostFailed => RetSubmit(q, EPIPE, 0, [])
    case Moved(actual, data) =>
      if !DirIn(c.header) then RetSubmit(q, 0, ClampI32(actual), [])
      else if |data| > BufferLength(c.cmd) then RetSubmit(q, EOVERFLOW, 0, [])
      else RetSubmit(q, 0, ClampI32(actual), data)
  }

  /**
   * The length chain. An IN reply carries exactly `actual` bytes and never more than the client
   * asked for; an OUT reply carries none; the clamp to `i32::MAX` is never used; and EOVERFLOW is
   * sent exactly for a control IN whose data outgrew the buffer, which needs wLength above it.
   */
  lemma ReplyLengths(c: Command, r: HostResult)
    requires c.Submit? && Plausible(c, r) && |c.payload| == PayloadLength(c.header, c.cmd)
    ensures var reply := BuildReply(c, r);
            && reply.RetSubmit? && reply.seqnum == c.header.seqnum
            && 0 <= reply.actual <= BufferLength(c.cmd)
            && (DirIn(c.header) ==> |reply.payload| == reply.actual)
            && (!DirIn(c.header) ==> reply.payload == [])
            && (reply.status == 0 ==> reply.actual == r.actual)
            && (reply.status == EPIPE <==> r.HostFailed?)
            && (reply.status == EOVERFLOW <==>
                  c.header.ep == 0 && DirIn(c.header) && r.Moved? && |r.data| > BufferLength(c.cmd))
            && (reply.status == EOVERFLOW ==> ControlLimit(c.cmd.setup) > BufferLength(c.cmd))
  {
    assert BufferLength(c.cmd) <= I32_MAX;
  }

  /**
   * A reply that conveys a result, by the fields of the command: failure is -32; data that outgrew an
   * IN buffer is -75; otherwise success, with the bytes moved and, for IN, the very bytes received.
   */
  predicate Conveys(c: Command, res: HostResult, r: Reply)
    requires c.Submit?
  {
    && r.RetSubmit? && r.seqnum == c.header.seqnum
    && match res
       case HostFailed => r.status == -32 && r.actual == 0 && r.payload == []
       case Moved(actual, data) =>
         if c.header.direction == 1 && |data| > 0 && |data| > c.cmd.length then
           r.status == -75 && r.actual == 0 && r.payload == []
         else
           r.status == 0 && r.actual == actual && r.payload == if c.header.direction == 1 then data else []
  }

  lemma BuildReplyConveys(c: Command, r: HostResult)
    requires c.Submit? && Plausible(c, r) && |c.payload| == PayloadLength(c.header, c.cmd)
    ensures Conveys(c, r, BuildReply(c, r))
  {
    ReplyLengths(c, r);
  }
}
