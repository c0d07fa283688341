/**
 * Bounded control-record framing: a four-byte big-endian length, then that many
 * record bytes. Models crates/bitty-ai-control/src/framing.rs.
 */
module Framing {
  import opened Bytes
  import opened Results
  import opened Streams

  const PREFIX_BYTES := 4

  /**
   * The bounds the shared contract crate fixes. A reader needs the record-kind bytes
   * inside the header, and the contract's byte budget holds one maximal frame.
   */
  datatype LimitsShape = Limits(frameMax: nat, headerBytes: nat, smallMax: nat, queueMax: nat, inflightMax: nat)
  type Limits = l: LimitsShape |
      && 8 <= l.headerBytes
      && l.frameMax <= U32_MAX
      && 1 <= l.queueMax
      && PREFIX_BYTES + l.frameMax <= l.inflightMax
    witness LimitsShape.Limits(8, 8, 8, 1, 12)

  /** The record codec, which lives in the shared contract crate: any partial functions. */
  datatype Codec<!R> = Codec(
    encode: R -> Option<seq<Byte>>,
    decode: seq<Byte> -> Option<R>,
    mayBeLarge: nat -> bool)  // kind codes of payload records, and unknown codes

  datatype FrameError =
    | Closed
    | TruncatedPrefix(received: nat)
    | TruncatedBody(expected: nat, received: nat)
    | ZeroLength
    | FrameTooLarge
    | FrameShorterThanHeader(actual: nat)
    | SmallRecordTooLarge(actual: nat)
    | BadRecord
    | AllocationFailed(requested: nat)
    | Io
    | WriteZero
    | QueueFull(limit: nat)
    | ByteBudgetExceeded(limit: nat)

  // ---------------------------------------------------------------- reading

  datatype Filled = Full | Short(received: nat) | Broken

  predicate SmallEnough<R>(limits: Limits, codec: Codec<R>, frame: seq<Byte>)
    requires |frame| >= 8
  {
    |frame| <= limits.smallMax || codec.mayBeLarge(FromBigEndian(frame[6..8]))
  }

  /** Decode one complete frame body. */
  function DecodeFrame<R>(limits: Limits, codec: Codec<R>, frame: seq<Byte>): Result<R, FrameError>
    requires |frame| >= 8
  {
    if !SmallEnough(limits, codec, frame) then Err(SmallRecordTooLarge(|frame|))
    else match codec.decode(frame)
      case Some(record) => Ok(record)
      case None => Err(BadRecord)
  }

  /**
   * What one read returns and leaves, as a function of the bytes alone: no chunk
   * sizes, no interrupts. `allocates` says whether the body buffer can be reserved.
   */
  function ReadFlat<R>(limits: Limits, codec: Codec<R>, allocates: bool, s: seq<Byte>)
    : (Result<R, FrameError>, seq<Byte>)
  {
    if s == [] then (Err(Closed), s)
    else if |s| < PREFIX_BYTES then (Err(TruncatedPrefix(|s|)), [])
    else
      var length := FromBigEndian(s[..PREFIX_BYTES]);
      var rest := s[PREFIX_BYTES..];
      if length == 0 then (Err(ZeroLength), rest)
      else if length > limits.frameMax then (Err(FrameTooLarge), rest)
      else if length < limits.headerBytes then (Err(FrameShorterThanHeader(length)), rest)
      else if !allocates then (Err(AllocationFailed(length)), rest)
      else if |rest| < length then (Err(TruncatedBody(length, |rest|)), [])
      else (DecodeFrame(limits, codec, rest[..length]), rest[length..])
  }

  /** A record is read exactly when a whole frame within every bound stands at the front and decodes. */
  lemma {:induction false} ReadsExactly<R>(limits: Limits, codec: Codec<R>, allocates: bool, s: seq<Byte>, record: R)
    ensures ReadFlat(limits, codec, allocates, s).0 == Ok(record) <==>
      && |s| >= 4
      && var n := FromBigEndian(s[..4]);
         && 0 < n && limits.headerBytes <= n <= limits.frameMax && allocates && |s| >= 4 + n
         && var frame := s[4..4 + n];
            && (n <= limits.smallMax || codec.mayBeLarge(FromBigEndian(frame[6..8])))
            && codec.decode(frame) == Some(record)
  {
    hide FromBigEndian;
    if |s| >= 4 && |s| >= 4 + FromBigEndian(s[..4]) {
      assert s[4..][..FromBigEndian(s[..4])] == s[4..4 + FromBigEndian(s[..4])];
    }
  }

  lemma {:induction false} DropTwice(s: seq<Byte>, m: nat, n: nat)
    requires m + n <= |s|
    ensures s[m..][n..] == s[m + n..]
  {
    assert |s[m..][n..]| == |s[m + n..]|;
    assert forall i :: 0 <= i < |s| - m - n ==> s[m..][n..][i] == s[m + n..][i];
  }

  /** The record kind is bytes six and seven of the frame. */
  lemma {:induction false} KindStands(s: seq<Byte>, n: nat)
    requires 8 <= n && 4 + n <= |s|
    ensures s[4..4 + n][6..8] == s[10..12]
  {
    var frame := s[4..4 + n];
    assert frame[6] == s[10] && frame[7] == s[11];
    assert frame[6..8] == [frame[6], frame[7]] && s[10..12] == [s[10], s[11]];
  }

  /** Which error, and what is left: the first of these that applies. */
  lemma {:induction false} ReadRefusals<R>(limits: Limits, codec: Codec<R>, allocates: bool, s: seq<Byte>)
    ensures var (r, left) := ReadFlat(limits, codec, allocates, s);
      && (|s| == 0 ==> r == Err(Closed) && left == [])
      && (0 < |s| < 4 ==> r == Err(TruncatedPrefix(|s|)) && left == [])
      && (|s| >= 4 ==>
            var n := FromBigEndian(s[..4]);
            var bounded := limits.headerBytes <= n <= limits.frameMax;
            && (n == 0 ==> r == Err(ZeroLength) && left == s[4..])
            && (n > limits.frameMax ==> r == Err(FrameTooLarge) && left == s[4..])
            && (0 < n < limits.headerBytes && n <= limits.frameMax ==> r == Err(FrameShorterThanHeader(n)) && left == s[4..])
            && (bounded && !allocates ==> r == Err(AllocationFailed(n)) && left == s[4..])
            && (bounded && allocates && |s| < 4 + n ==> r == Err(TruncatedBody(n, |s| - 4)) && left == [])
            && (bounded && allocates && |s| >= 4 + n ==>
                  && left == s[4 + n..]
                  && (n > limits.smallMax && !codec.mayBeLarge(FromBigEndian(s[10..12])) ==> r == Err(SmallRecordTooLarge(n)))
                  && (n <= limits.smallMax || codec.mayBeLarge(FromBigEndian(s[10..12])) ==>
                        (codec.decode(s[4..4 + n]).None? ==> r == Err(BadRecord)))))
  {
    hide FromBigEndian;
    if |s| >= 4 && |s| >= 4 + FromBigEndian(s[..4]) {
      var n := FromBigEndian(s[..4]);
      DropTwice(s, 4, n);
      assert s[4..][..n] == s[4..4 + n];
      if n >= 8 {
        KindStands(s, n);
      }
    }
  }

  /** A frame on the wire: its length in four bytes, most significant first, then its bytes. */
  lemma {:induction false} WireIsPrefixed(frame: seq<Byte>)
    requires |frame| <= U32_MAX
    ensures var n := |frame|;
      FrameWire(frame) == [n / 16777216, n / 65536 % 256, n / 256 % 256, n % 256] + frame
  {
    FourBytes(|frame|);
  }

  /** The read loop shared by the prefix and the body. */
  method FillBuffer(stream: ByteStream, buffer: array<Byte>) returns (r: Filled)
    modifies stream`inbound, stream`readPlan, buffer
    ensures r.Full? ==>
              && buffer.Length <= |old(stream.inbound)|
              && buffer[..] == old(stream.inbound)[..buffer.Length]
              && stream.inbound == old(stream.inbound)[buffer.Length..]
    ensures r.Short? ==> r.received == |old(stream.inbound)| < buffer.Length && stream.inbound == []
    ensures r.Broken? ==> ReadFails in old(stream.readPlan)
    ensures forall c :: c in stream.readPlan ==> c in old(stream.readPlan)
  {
    var filled := 0;
    ghost var s := stream.inbound;
    while filled < buffer.Length
      invariant 0 <= filled <= buffer.Length
      invariant filled <= |s| && stream.inbound == s[filled..]
      invariant buffer[..filled] == s[..filled]
      invariant forall c :: c in stream.readPlan ==> c in old(stream.readPlan)
      decreases |stream.inbound| + |stream.readPlan|
    {
      var r0 := stream.Read(buffer, filled);
      match r0 {
        case Moved(n) =>
          if n == 0 { return Short(filled); }
          assert buffer[..filled + n] == s[..filled + n];
          filled := filled + n;
        case Interrupted =>
        case Failed => return Broken;
      }
    }
    r := Full;
  }

  /**
   * Read exactly one frame. Whatever the chunking and the interrupts, the outcome and
   * the bytes left are those of `ReadFlat`; only a failing read can break that.
   */
  method ReadRecord<R>(limits: Limits, codec: Codec<R>, allocates: bool, stream: ByteStream)
    returns (r: Result<R, FrameError>)
    modifies stream`inbound, stream`readPlan
    ensures r == Err(Io) || (r, stream.inbound) == ReadFlat(limits, codec, allocates, old(stream.inbound))
    ensures ReadFails !in old(stream.readPlan) ==> r != Err(Io)
  {
    ghost var s := stream.inbound;
    var prefix := new Byte[PREFIX_BYTES];
    var got := FillBuffer(stream, prefix);
    match got {
      case Short(0) => return Err(Closed);
      case Short(received) => return Err(TruncatedPrefix(received));
      case Broken => return Err(Io);
      case Full =>
    }
    var length := FromBigEndian(prefix[..]);
    if length == 0 { return Err(ZeroLength); }
    if length > limits.frameMax { return Err(FrameTooLarge); }
    if length < limits.headerBytes { return Err(FrameShorterThanHeader(length)); }
    if !allocates { return Err(AllocationFailed(length)); }
    var frame := new Byte[length];
    got := FillBuffer(stream, frame);
    match got {
      case Short(received) => return Err(TruncatedBody(length, received));
      case Broken => return Err(Io);
      case Full =>
    }
    r := DecodeFrame(limits, codec, frame[..]);
  }

  // ---------------------------------------------------------------- writing

  function FrameWire(frame: seq<Byte>): seq<Byte> {
    BigEndian(|frame|, PREFIX_BYTES) + frame
  }

  function WireForm(frames: seq<seq<Byte>>): seq<Byte> {
    if frames == [] then [] else FrameWire(frames[0]) + WireForm(frames[1..])
  }

  function WireBytes(frames: seq<seq<Byte>>): nat {
    if frames == [] then 0 else PREFIX_BYTES + |frames[0]| + WireBytes(frames[1..])
  }

  lemma {:induction false} WireBytesIsLength(frames: seq<seq<Byte>>)
    ensures WireBytes(frames) == |WireForm(frames)|
  {
    if frames != [] { WireBytesIsLength(frames[1..]); }
  }

  lemma {:induction false} WireFormAppend(frames: seq<seq<Byte>>, more: seq<seq<Byte>>)
    ensures WireForm(frames + more) == WireForm(frames) + WireForm(more)
    ensures WireBytes(frames + more) == WireBytes(frames) + WireBytes(more)
  {
    if frames == [] {
      assert frames + more == more;
    } else {
      assert (frames + more)[1..] == frames[1..] + more;
      WireFormAppend(frames[1..], more);
    }
  }

  function SaturatingSub(a: nat, b: nat): nat {
    if a < b then 0 else a - b
  }

  /** The synchronous writer's write loop. On failure a strict prefix was written. */
  method WriteAll(stream: ByteStream, bytes: seq<Byte>) returns (r: Result<(), FrameError>)
    modifies stream`outbound, stream`writePlan
    ensures r.Ok? ==> stream.outbound == old(stream.outbound) + bytes
    ensures r.Err? ==> r.error in {FrameError.Io, FrameError.WriteZero}
    ensures r.Err? ==> exists k :: 0 <= k < |bytes| && stream.outbound == old(stream.outbound) + bytes[..k]
    ensures old(stream.Willing()) ==> stream.Willing() && r.Ok?
  {
    var done := 0;
    while done < |bytes|
      invariant 0 <= done <= |bytes|
      invariant old(stream.Willing()) ==> stream.Willing()
      invariant stream.outbound == old(stream.outbound) + bytes[..done]
      decreases |bytes| - done + |stream.writePlan|
    {
      var w := stream.Write(bytes[done..]);
      match w {
        case Moved(n) =>
          assert bytes[..done] + bytes[done..][..n] == bytes[..done + n];
          done := done + n;
          if n == 0 { return Err(WriteZero); }
        case Interrupted =>
        case Failed => return Err(Io);
      }
    }
    r := Ok(());
  }

  class FrameWriter {
    const limits: Limits
    var pending: seq<seq<Byte>>
    var pendingBytes: nat

    /** The byte count is exactly what is queued, and every queued frame may be written. */
    ghost predicate Valid()
      reads this
    {
      && pendingBytes == WireBytes(pending) <= limits.inflightMax
      && |pending| <= limits.queueMax
      && forall f :: f in pending ==> 0 < |f| <= limits.frameMax
    }

    constructor (limits: Limits)
      ensures Valid() && pending == [] && this.limits == limits
    {
      this.limits := limits;
      pending, pendingBytes := [], 0;
    }

    method Clear()
      modifies this
      ensures Valid() && pending == []
    {
      pending, pendingBytes := [], 0;
    }

    /** Queue one encoded frame, or refuse it and leave the queue alone. */
    method EnqueueFrame(frame: seq<Byte>) returns (r: Result<(), FrameError>)
      requires Valid()
      modifies this
      ensures Valid()
      ensures r.Ok? <==>
                && |old(pending)| < limits.queueMax && 0 < |frame| <= limits.frameMax
                && WireBytes(old(pending)) + PREFIX_BYTES + |frame| <= limits.inflightMax
      ensures pending == if r.Ok? then old(pending) + [frame] else old(pending)
      ensures r.Err? ==>
                r.error == (
                  if |old(pending)| >= limits.queueMax then QueueFull(limits.queueMax)
                  else if frame == [] then FrameError.ZeroLength
                  else if |frame| > limits.frameMax then FrameError.FrameTooLarge
                  else ByteBudgetExceeded(limits.inflightMax))
    {
      if |pending| >= limits.queueMax { return Err(QueueFull(limits.queueMax)); }
      if frame == [] { return Err(FrameError.ZeroLength); }
      if |frame| > limits.frameMax { return Err(FrameError.FrameTooLarge); }
      var total := pendingBytes + PREFIX_BYTES + |frame|;
      if total > limits.inflightMax { return Err(ByteBudgetExceeded(limits.inflightMax)); }
      WireFormAppend(pending, [frame]);
      pending := pending + [frame];
      pendingBytes := total;
      r := Ok(());
    }

    /** Encode and queue one record. A refusal by the codec leaves the queue alone. */
    method Enqueue<R>(codec: Codec<R>, record: R) returns (r: Result<(), FrameError>)
      requires Valid()
      modifies this
      ensures Valid()
      ensures r.Ok? ==> codec.encode(record).Some? && pending == old(pending) + [codec.encode(record).value]
      ensures r.Err? ==> pending == old(pending)
      ensures r.Err? && old(pending) == [] ==> r.error in {BadRecord, ZeroLength, FrameTooLarge}
      ensures old(pending) == [] ==>
                (r.Ok? <==> codec.encode(record).Some? && 0 < |codec.encode(record).value| <= limits.frameMax)
    {
      if |pending| >= limits.queueMax { return Err(QueueFull(limits.queueMax)); }
      match codec.encode(record) {
        case None => return Err(BadRecord);
        case Some(frame) => r := EnqueueFrame(frame);
      }
    }

    /** Write one frame; the queue checks make both refusals here unreachable. */
    static method WriteFrame(limits: Limits, stream: ByteStream, frame: seq<Byte>) returns (r: Result<(), FrameError>)
      modifies stream`outbound, stream`writePlan
      ensures r.Ok? ==> stream.outbound == old(stream.outbound) + FrameWire(frame)
      ensures r.Err? && 0 < |frame| <= limits.frameMax ==> r.error in {FrameError.Io, FrameError.WriteZero}
      ensures r.Err? ==>
                exists k :: 0 <= k < |FrameWire(frame)| && stream.outbound == old(stream.outbound) + FrameWire(frame)[..k]
      ensures old(stream.Willing()) && 0 < |frame| <= limits.frameMax ==> stream.Willing() && r.Ok?
    {
      ghost var wire := FrameWire(frame);
      ghost var start := stream.outbound;
      assert start + wire[..0] == start;
      if frame == [] { return Err(FrameError.ZeroLength); }
      if |frame| > limits.frameMax { return Err(FrameError.FrameTooLarge); }
      var prefix := BigEndian(|frame|, PREFIX_BYTES);
      r := WriteAll(stream, prefix);
      if r.Err? {
        ghost var k :| 0 <= k < |prefix| && stream.outbound == start + prefix[..k];
        assert wire[..k] == prefix[..k];
        return;
      }
      r := WriteAll(stream, frame);
      if r.Err? {
        ghost var k :| 0 <= k < |frame| && stream.outbound == start + prefix + frame[..k];
        assert wire[..|prefix| + k] == prefix + frame[..k];
        assert start + prefix + frame[..k] == start + wire[..|prefix| + k];
      } else {
        assert start + prefix + frame == start + wire;
      }
    }

    /**
     * Write every queued frame in order. The byte count never clips at zero. A failed
     * flush leaves on the stream a prefix of the queued frames' wire form, and no frame
     * stays queued to be retried; only a failing final stream flush leaves all of it.
     */
    method Flush(stream: ByteStream) returns (r: Result<(), FrameError>)
      requires Valid()
      modifies this, stream`outbound, stream`writePlan, stream`flushPlan
      ensures Valid() && pending == []
      ensures r.Ok? ==> stream.outbound == old(stream.outbound) + WireForm(old(pending))
      ensures r.Err? ==> r.error in {FrameError.Io, FrameError.WriteZero}
      ensures old(stream.outbound) <= stream.outbound <= old(stream.outbound) + WireForm(old(pending))
      ensures old(stream.Willing()) ==> stream.Willing() && r.Ok?
    {
      hide ByteStream.Willing, WireForm, FrameWire;
      ghost var start := stream.outbound;
      ghost var end := stream.outbound + WireForm(pending);
      while pending != []
        invariant Valid() && (old(stream.Willing()) ==> stream.Willing())
        invariant start <= stream.outbound && stream.outbound + WireForm(pending) == end
        decreases |pending|
      {
        ghost var before := stream.outbound;
        var frame := pending[0];
        assert pending == [frame] + pending[1..];
        pending := pending[1..];
        pendingBytes := SaturatingSub(pendingBytes, PREFIX_BYTES + |frame|);
        var w := WriteFrame(limits, stream, frame);
        FirstFrameSplits(before, frame, pending);
        assert before + WireForm([frame] + pending) == end;
        if w.Err? {
          ghost var k :| 0 <= k < |FrameWire(frame)| && stream.outbound == before + FrameWire(frame)[..k];
          PartOfEnd(before, FrameWire(frame), k, WireForm(pending));
          Clear();
          return w;
        }
      }
      NothingOnTheWire();
      assert stream.outbound + [] == stream.outbound == end;
      var ok := stream.Flush();
      r := if ok then Ok(()) else Err(Io);
    }
  }

  lemma {:induction false} SingleFrame(frame: seq<Byte>)
    ensures WireForm([frame]) == FrameWire(frame)
  {
    assert WireForm([frame][1..]) == [];
  }

  lemma {:induction false} NothingOnTheWire()
    ensures WireForm([]) == []
  {
  }

  lemma {:induction false} PartOfEnd(before: seq<Byte>, wire: seq<Byte>, k: nat, rest: seq<Byte>)
    requires k < |wire|
    ensures before <= before + wire[..k] <= before + wire + rest
  {
  }

  lemma {:induction false} FirstFrameSplits(before: seq<Byte>, frame: seq<Byte>, rest: seq<seq<Byte>>)
    ensures before + WireForm([frame] + rest) == before + FrameWire(frame) + WireForm(rest)
  {
    assert ([frame] + rest)[1..] == rest;
    assert before + (FrameWire(frame) + WireForm(rest)) == before + FrameWire(frame) + WireForm(rest);
  }

  // ---------------------------------------------------------------- reading back what was written

  /** A frame the reader accepts, and the record it decodes to. */
  predicate Readable<R(==)>(limits: Limits, codec: Codec<R>, frame: seq<Byte>, record: R) {
    && limits.headerBytes <= |frame| <= limits.frameMax
    && SmallEnough(limits, codec, frame)
    && codec.decode(frame) == Some(record)
  }

  /** Read records until the first error. */
  function Drain<R>(limits: Limits, codec: Codec<R>, s: seq<Byte>): (seq<R>, FrameError)
    decreases |s|
  {
    var (r, rest) := ReadFlat(limits, codec, true, s);
    match r
    case Err(e) => ([], e)
    case Ok(record) =>
      var (more, e) := Drain(limits, codec, rest);
      ([record] + more, e)
  }

  lemma {:induction false} ReadFlatFrame<R>(limits: Limits, codec: Codec<R>, frame: seq<Byte>, record: R, rest: seq<Byte>)
    requires Readable(limits, codec, frame, record)
    ensures ReadFlat(limits, codec, true, FrameWire(frame) + rest) == (Ok(record), rest)
  {
    var s := FrameWire(frame) + rest;
    assert s[..PREFIX_BYTES] == BigEndian(|frame|, PREFIX_BYTES);
    Capacities();
    BigEndianRoundTrip(|frame|, PREFIX_BYTES);
    assert s[PREFIX_BYTES..] == frame + rest;
    assert (frame + rest)[..|frame|] == frame;
    assert (frame + rest)[|frame|..] == rest;
  }

  /** A stream cut inside a frame is reported as truncated, never as a record. */
  lemma {:induction false} ReadFlatCut<R>(limits: Limits, codec: Codec<R>, frame: seq<Byte>, k: nat)
    requires limits.headerBytes <= |frame| <= limits.frameMax
    requires 0 < k < |FrameWire(frame)|
    ensures ReadFlat(limits, codec, true, FrameWire(frame)[..k]).0 ==
              Err(if k < PREFIX_BYTES then TruncatedPrefix(k) else TruncatedBody(|frame|, k - PREFIX_BYTES))
  {
    var s := FrameWire(frame)[..k];
    if k >= PREFIX_BYTES {
      assert s[..PREFIX_BYTES] == BigEndian(|frame|, PREFIX_BYTES);
      Capacities();
      BigEndianRoundTrip(|frame|, PREFIX_BYTES);
    }
  }

  /**
   * Anything the writer flushes that is within the reader's bounds is read back in
   * order, then the stream is closed; if it stops inside a frame, truncated.
   */
  lemma {:induction false} ReadsBackInOrder<R>(
    limits: Limits, codec: Codec<R>, frames: seq<seq<Byte>>, records: seq<R>, next: seq<Byte>, k: nat)
    requires |frames| == |records|
    requires forall i :: 0 <= i < |frames| ==> Readable(limits, codec, frames[i], records[i])
    requires limits.headerBytes <= |next| <= limits.frameMax && k < |FrameWire(next)|
    ensures Drain(limits, codec, WireForm(frames) + FrameWire(next)[..k]) ==
            (records,
             if k == 0 then Closed
             else if k < PREFIX_BYTES then TruncatedPrefix(k)
             else TruncatedBody(|next|, k - PREFIX_BYTES))
  {
    hide FrameWire, Readable;
    var cut := FrameWire(next)[..k];
    if frames == [] {
      assert WireForm(frames) + cut == cut;
      if k > 0 { ReadFlatCut(limits, codec, next, k); }
    } else {
      var rest := WireForm(frames[1..]) + cut;
      assert WireForm(frames) + cut == FrameWire(frames[0]) + rest;
      ReadFlatFrame(limits, codec, frames[0], records[0], rest);
      ReadsBackInOrder(limits, codec, frames[1..], records[1..], next, k);
      assert records == [records[0]] + records[1..];
    }
  }
}
