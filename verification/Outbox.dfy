/**
 * The sending half of the helper: crates/bitty-ai-control/src/state.rs:1304-1328 over the
 * bounded writer. It owns the outgoing counter and, as ghost state, the session log.
 */
module Outbox {
  import opened Bytes
  import opened Results
  import opened Streams
  import opened Framing
  import opened ControlProtocol

  /** The frames on the wire are the encodings of the sent records, sequenced from one. */
  ghost predicate Encodes(codec: Codec<Record>, session: Id, bodies: seq<Body>, frames: seq<seq<Byte>>) {
    && |frames| == |bodies|
    && forall k :: 0 <= k < |frames| ==> EncodesAt(codec, session, bodies, frames, k)
  }

  predicate EncodesAt(codec: Codec<Record>, session: Id, bodies: seq<Body>, frames: seq<seq<Byte>>, k: nat)
    requires k < |frames| == |bodies|
  {
    codec.encode(Record(Helper, k + 1, session, bodies[k])) == Some(frames[k])
  }

  ghost predicate IsFrame(codec: Codec<Record>, frame: seq<Byte>) {
    exists r :: codec.encode(r) == Some(frame)
  }

  lemma {:induction false} EncodesExtends(
    codec: Codec<Record>, session: Id, bodies: seq<Body>, frames: seq<seq<Byte>>, body: Body, frame: seq<Byte>)
    requires Encodes(codec, session, bodies, frames)
    requires codec.encode(Record(Helper, |bodies| + 1, session, body)) == Some(frame)
    ensures Encodes(codec, session, bodies + [body], frames + [frame])
  {
    forall k | 0 <= k < |frames + [frame]| ensures EncodesAt(codec, session, bodies + [body], frames + [frame], k) {
      assert k < |frames| ==> EncodesAt(codec, session, bodies, frames, k);
    }
  }

  /** An acknowledgement names a publication of this session. */
  predicate OwnAck(session: Id, body: Body) {
    body.Ack? ==> body.tuple.publicationId.launchNonce == session
  }

  ghost predicate OwnAcks(session: Id, bodies: seq<Body>) {
    forall i :: 0 <= i < |bodies| ==> OwnAck(session, bodies[i])
  }

  datatype SendError = SequenceExhausted | Refused(error: FrameError)

  class Outbox {
    const limits: Limits
    const codec: Codec<Record>
    const session: Id
    const stream: ByteStream
    const writer: FrameWriter
    var sequence: nat

    ghost const base: seq<Byte>         // what the stream carried before
    ghost var log: seq<Event>
    ghost var mem: Memory               // what the log leaves behind
    ghost var bodies: seq<Body>         // the records wholly on the stream
    ghost var frames: seq<seq<Byte>>    // and their frames
    ghost var cut: seq<Byte>            // the frame a failed write stopped in
    ghost var torn: seq<Byte>           // the part of it that was written

    /** The stream carries exactly the logged records, then at most a piece of one more. */
    ghost predicate Valid()
      reads this, stream`outbound, writer
    {
      && writer.Valid() && writer.pending == [] && writer.limits == limits
      && stream.outbound == base + WireForm(frames) + torn
      && torn <= FrameWire(cut) && |torn| < |FrameWire(cut)| && (torn != [] ==> IsFrame(codec, cut))
      && Encodes(codec, session, bodies, frames)
      && Recorded(log, mem, bodies) && mem.sent == |bodies| && OwnAcks(session, bodies)
    }

    /** Nothing is torn, and the outgoing counter names the last record sent. */
    ghost predicate Clean()
      reads this
    {
      torn == [] && sequence == mem.sent && mem.stage != Ended
    }

    /** Record `n` can carry `body`: the codec and the frame bound allow it. */
    predicate Fits(n: nat, body: Body) {
      var frame := codec.encode(Record(Helper, n, session, body));
      frame.Some? && 0 < |frame.value| <= limits.frameMax
    }

    /** So can the records after `n`, one body each. */
    ghost predicate FitsFrom(n: nat, bodies: seq<Body>) {
      n + |bodies| <= U64_MAX && forall i :: 0 <= i < |bodies| ==> Fits(n + 1 + i, bodies[i])
    }

    /** The next records can carry these bodies: the counter, the codec, the frame bound and the stream allow it. */
    ghost predicate Carries(bodies: seq<Body>)
      reads this`sequence, stream`writePlan, stream`flushPlan
    {
      FitsFrom(sequence, bodies) && stream.Willing()
    }

    lemma {:induction false} FitsSplit(n: nat, first: seq<Body>, rest: seq<Body>)
      requires FitsFrom(n, first + rest)
      ensures FitsFrom(n, first) && FitsFrom(n + |first|, rest)
    {
      forall i | 0 <= i < |first| ensures Fits(n + 1 + i, first[i]) {
        assert (first + rest)[i] == first[i];
      }
      forall i | 0 <= i < |rest| ensures Fits(n + |first| + 1 + i, rest[i]) {
        assert (first + rest)[|first| + i] == rest[i];
      }
    }

    constructor (limits: Limits, codec: Codec<Record>, session: Id, stream: ByteStream)
      ensures Valid() && Clean() && fresh(writer) && this.stream == stream
      ensures sequence == 0 && log == [] && mem == START && base == stream.outbound
      ensures this.session == session && this.codec == codec && this.limits == limits
    {
      this.limits, this.codec, this.session, this.stream := limits, codec, session, stream;
      writer := new FrameWriter(limits);
      sequence := 0;
      base := stream.outbound;
      log, mem, bodies, frames, cut, torn := [], START, [], [], [], [];
      new;
      NothingRecorded();
    }

    lemma {:induction false} LogIsLawful()
      requires Valid()
      ensures Lawful(log) && mem == MemoryOf(log) && OwnAcks(session, SentBodies(log))
    {
    }

    lemma {:induction false} NothingSaid()
      requires Valid() && mem.stage != Ended
      ensures Said(log).None?
    {
      SaidAtTheEnd(log);
    }

    ghost method Note(e: Event)
      requires Valid() && May(mem, e) && !e.Sent?
      modifies this`log, this`mem
      ensures Valid() && log == old(log) + [e] && Then(old(mem), e, mem)
    {
      var m' := RecordedThen(log, mem, bodies, e);
      log, mem := log + [e], m';
    }

    method Clear()
      requires Valid()
      modifies writer
      ensures Valid()
    {
      writer.Clear();
    }

    /**
     * Send one record. A failure leaves the counter alone, is never for lack of queue
     * space or byte budget, and leaves the stream wholly or partly extended by the frame.
     */
    method Send(body: Body) returns (r: Result<(), SendError>)
      requires Valid() && Clean() && May(mem, Sent(sequence + 1, body)) && OwnAck(session, body)
      modifies this, stream, writer
      ensures Valid()
      ensures log == old(log) || log == old(log) + [Sent(old(sequence) + 1, body)]
      ensures if log == old(log) then mem == old(mem) else Then(old(mem), Sent(old(sequence) + 1, body), mem)
      ensures r.Ok? ==> torn == [] && sequence == old(sequence) + 1 && log != old(log)
      ensures r.Err? ==> sequence == old(sequence)
      ensures r.Err? && r.error.Refused? ==> r.error.error in {BadRecord, ZeroLength, FrameTooLarge, Io, WriteZero}
      ensures stream.inbound == old(stream.inbound)
      ensures old(Carries([body])) ==> r.Ok?
      ensures r.Ok? && old(stream.Willing()) ==> stream.Willing()
    {
      hide Recorded, Encodes, Then, May, WireForm, FrameWire, ByteStream.Willing;
      assert FitsFrom(sequence, [body]) ==> [body][0] == body && sequence < U64_MAX && Fits(sequence + 1, body);
      hide FitsFrom;
      if sequence == U64_MAX { return Err(SequenceExhausted); }
      var next := sequence + 1;
      var record := Record(Helper, next, session, body);
      var queued := writer.Enqueue(codec, record);
      if queued.Err? {
        return Err(Refused(queued.error));
      }
      ghost var frame := codec.encode(record).value;
      ghost var before := stream.outbound;
      assert writer.pending == [frame];
      SingleFrame(frame);
      var flushed := writer.Flush(stream);
      Settle(before, next, body, frame);
      if flushed.Err? { return Err(Refused(flushed.error)); }
      sequence := next;
      r := Ok(());
    }

    /** Account for what a flush left on the stream: the whole frame, or a piece of it. */
    ghost method Settle(before: seq<Byte>, next: nat, body: Body, frame: seq<Byte>)
      requires Recorded(log, mem, bodies) && Encodes(codec, session, bodies, frames)
      requires next == mem.sent + 1 == |bodies| + 1 && May(mem, Sent(next, body))
      requires codec.encode(Record(Helper, next, session, body)) == Some(frame)
      requires torn == [] && |torn| < |FrameWire(cut)| && OwnAcks(session, bodies) && OwnAck(session, body)
      requires before == base + WireForm(frames) && before <= stream.outbound <= before + FrameWire(frame)
      modifies this`log, this`mem, this`bodies, this`frames, this`cut, this`torn
      ensures Recorded(log, mem, bodies) && Encodes(codec, session, bodies, frames) && mem.sent == |bodies|
      ensures OwnAcks(session, bodies)
      ensures stream.outbound == base + WireForm(frames) + torn
      ensures torn <= FrameWire(cut) && |torn| < |FrameWire(cut)| && (torn != [] ==> IsFrame(codec, cut))
      ensures if stream.outbound == before + FrameWire(frame)
              then log == old(log) + [Sent(next, body)] && Then(old(mem), Sent(next, body), mem) && torn == []
              else log == old(log) && mem == old(mem)
    {
      if stream.outbound == before + FrameWire(frame) {
        NoteSent(next, body, frame);
        assert stream.outbound + [] == stream.outbound;
      } else {
        cut, torn := frame, stream.outbound[|before|..];
        PrefixOfTail(before, stream.outbound, FrameWire(frame));
        assert stream.outbound == before + torn;
      }
    }

    /** Record that a whole frame is on the stream. */
    ghost method NoteSent(next: nat, body: Body, frame: seq<Byte>)
      requires Recorded(log, mem, bodies) && Encodes(codec, session, bodies, frames)
      requires next == mem.sent + 1 == |bodies| + 1 && May(mem, Sent(next, body))
      requires codec.encode(Record(Helper, next, session, body)) == Some(frame)
      requires stream.outbound == base + WireForm(frames) + FrameWire(frame)
      modifies this`log, this`mem, this`bodies, this`frames
      ensures log == old(log) + [Sent(next, body)] && Then(old(mem), Sent(next, body), mem)
      ensures bodies == old(bodies) + [body] && mem.sent == |bodies|
      ensures Recorded(log, mem, bodies) && Encodes(codec, session, bodies, frames)
      ensures stream.outbound == base + WireForm(frames)
    {
      hide Recorded, Encodes, May, Then, WireForm, FrameWire;
      var m' := RecordedThen(log, mem, bodies, Sent(next, body));
      EncodesExtends(codec, session, bodies, frames, body, frame);
      WireFormAppend(frames, [frame]);
      SingleFrame(frame);
      assert base + WireForm(frames) + FrameWire(frame) == base + (WireForm(frames) + FrameWire(frame));
      log, mem := log + [Sent(next, body)], m';
      bodies, frames := bodies + [body], frames + [frame];
    }
  }

  lemma {:induction false} PrefixOfTail(before: seq<Byte>, after: seq<Byte>, more: seq<Byte>)
    requires before <= after <= before + more
    ensures after[|before|..] <= more
  {
    assert (before + more)[|before|..] == more;
  }
}
