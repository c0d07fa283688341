/**
 * The helper-side control state machine of crates/bitty-ai-control/src/state.rs.
 *
 * Everything outside the helper is arbitrary: the bytes the peer sends and how the
 * stream splits, delays or refuses them, and per call an `Oracle` with the answers of
 * the registry and the random generator. `Valid()` is kept by every public call under
 * every such behaviour, and it says that the session log is lawful.
 */
module HelperControl {
  import opened Bytes
  import opened Results
  import opened Streams
  import opened Framing
  import opened Establishment
  import opened ControlProtocol
  import opened O = Outbox
  import opened HelperState

  class Helper {
    const expectations: Echo
    const outbox: Outbox
    const session: Id
    const stream: ByteStream
    const writer: FrameWriter

    var phase: Phase
    var inSequence: nat
    var authority: Authority
    var lastVersion: nat
    var revocation: Option<RevocationReason>

    ghost var firstRevision: nat        // the revision the session started at
    ghost var mutations: nat            // successful registry mutations

    predicate Active()
      reads this
    {
      phase == Ready || phase == AwaitingBind
    }

    /** The outbox is sound and wired to this helper's stream. */
    ghost predicate Wired()
      reads this, outbox, stream`outbound, writer
    {
      && outbox.stream == stream && outbox.writer == writer && outbox.session == session && outbox.Valid()
      && inSequence <= U64_MAX
    }

    ghost predicate Live()
      reads this, outbox
    {
      && outbox.Clean() && revocation.None? && StartsAt(firstRevision, outbox.mem)
      && Agrees(phase, authority, lastVersion, firstRevision + mutations, outbox.mem)
    }

    ghost predicate Valid()
      reads this, outbox, stream`outbound, writer
    {
      && Wired()
      && match phase
         case AwaitingEstablish =>
           && outbox.Clean() && authority == NO_AUTHORITY && revocation.None? && mutations == 0 && lastVersion == 0
           && outbox.mem == START && outbox.log == []
         case Revoked => authority == NO_AUTHORITY && revocation.Some?
         case _ => Live()
    }

    /** What every public call keeps, spelled out field by field. */
    lemma {:induction false} StateInvariant()
      requires Valid()
      ensures phase == AwaitingBind <==> authority.pending.Some?
      ensures authority.pending.Some? ==> authority.receipt.None?
      ensures authority.pending.Some? ==> authority.pending.value.tuple.publicationId.version == lastVersion
      ensures authority.pending.Some? ==>
        authority.lifetime == Some(Announced(authority.pending.value.lifetime, authority.pending.value.revision))
      ensures authority.receipt.Some? ==> authority.receipt.value.tuple.publicationId.version == lastVersion
      ensures Active() ==> authority.lifetime.Some? && authority.lifetime.value.revision == firstRevision + mutations
      ensures phase == Revoked <==> revocation.Some?
      ensures !Active() ==> authority == NO_AUTHORITY
    {
    }

    /** A live session has a lifetime at the counted revision, and may still say why it ends. */
    lemma {:induction false} LiveIsClean()
      requires Valid() && Active()
      ensures Wired() && outbox.Clean() && outbox.mem.stage in {Idle, Acked}
      ensures authority.lifetime.Some? && authority.lifetime.value.revision == firstRevision + mutations
    {
    }

    /** A live session mints exactly the identifiers its last two lifetimes do not use. */
    lemma {:induction false} MintsTheUnused(oracle: Oracle, at: nat)
      requires Valid() && Active()
      ensures FreshLifetime(authority, oracle, at).Ok? <==> oracle.entropy.Some? && oracle.secret && Unused(outbox.mem, oracle.entropy.value)
      ensures FreshLifetime(authority, oracle, at).Ok? ==> FreshLifetime(authority, oracle, at).value == Announced(oracle.entropy.value, at)
    {
      FreshIsUnused(authority, oracle, firstRevision + mutations, at, outbox.mem);
    }

    /** In a live session the two counters are read off the log. */
    lemma {:induction false} CountersAreLogged()
      requires Valid() && Active()
      ensures Lifetimes(outbox.log) != [] && firstRevision == Lifetimes(outbox.log)[0].revision
      ensures mutations == OwnRotations(SentBodies(outbox.log))
      ensures authority.lifetime.value == Lifetimes(outbox.log)[|Lifetimes(outbox.log)| - 1]
    {
      LogIsCounted(outbox.log);
    }

    constructor (limits: Limits, codec: Codec<Record>, expectations: Echo, stream: ByteStream)
      ensures Valid() && phase == AwaitingEstablish && this.stream == stream && fresh(outbox) && fresh(writer)
      ensures inSequence == 0 && outbox.base == old(stream.outbound)
      ensures session == Id(expectations.launchNonce) && this.expectations == expectations
    {
      this.expectations, this.stream := expectations, stream;
      session := Id(expectations.launchNonce);
      var o := new Outbox(limits, codec, Id(expectations.launchNonce), stream);
      outbox, writer := o, o.writer;
      phase := AwaitingEstablish;
      inSequence, lastVersion := 0, 0;
      authority, revocation := NO_AUTHORITY, None;
      firstRevision, mutations := 0, 0;
    }

    twostate predicate Kept()
      reads this
    {
      && phase == old(phase) && inSequence == old(inSequence) && authority == old(authority)
      && lastVersion == old(lastVersion) && revocation == old(revocation)
      && firstRevision == old(firstRevision) && mutations == old(mutations)
    }

    /** The start of the revision count and the count itself are as before. */
    twostate predicate SameCount()
      reads this
    {
      firstRevision == old(firstRevision) && mutations == old(mutations)
    }

    // -------------------------------------------------------------- failing closed

    method ClearAuthority()
      requires Wired()
      modifies this`authority, writer
      ensures authority == NO_AUTHORITY && Wired()
    {
      authority := NO_AUTHORITY;
      outbox.Clear();
    }

    /** The session ended for this error: its reason, and the code the log closes with, if any. */
    ghost predicate Blamed(e: HelperError)
      reads this, outbox
    {
      phase == Revoked && revocation.Some? && Blames(e, revocation.value, Said(outbox.log))
    }

    /** Revoke first, then make one best-effort attempt to say why. */
    method Fail(fault: Fault) returns (error: HelperError)
      requires Wired() && phase != Revoked && outbox.mem.stage != Ended
      requires fault.code.Some? ==> outbox.Clean() && outbox.mem.stage in {Fresh, Idle, Acked, Withdrawn}
      modifies this, outbox, stream, writer
      ensures SameCount()
      ensures Valid() && phase == Revoked && error == fault.error && revocation == Some(fault.reason)
      ensures || outbox.log == old(outbox.log)
              || (fault.code.Some? && outbox.log == old(outbox.log) + [Sent(old(outbox.sequence) + 1, Error(fault.code.value))])
      ensures fault.code.Some? && old(outbox.Carries([Error(fault.code.value)])) ==> outbox.log != old(outbox.log)
      ensures Fair(fault) ==> Blamed(fault.error)
      ensures fault.code.None? ==>
                && stream.outbound == old(stream.outbound) && outbox.mem == old(outbox.mem) && outbox.log == old(outbox.log)
                && inSequence == old(inSequence)
    {
      hide Outbox.Valid, May, Then;
      outbox.NothingSaid();
      error := fault.error;
      phase := Revoked;
      revocation := Some(fault.reason);
      ClearAuthority();
      if fault.code.Some? {
        SendingError(outbox.mem, fault.code.value);
        var ignored := outbox.Send(Error(fault.code.value));
      }
    }

    /** So many records went out, over a stream as willing as before. */
    twostate predicate Went(n: nat)
      reads outbox`sequence, stream`writePlan, stream`flushPlan
    {
      outbox.sequence == old(outbox.sequence) + n && (old(stream.Willing()) ==> stream.Willing())
    }

    /** Send a protocol record; any failure to send revokes, and then no Error follows. */
    method Emit(body: Body, ghost after: Memory) returns (r: Result<(), HelperError>)
      requires Wired() && outbox.Clean() && Active() && !body.Error? && OwnAck(session, body)
      requires May(outbox.mem, Sent(outbox.sequence + 1, body)) && Then(outbox.mem, Sent(outbox.sequence + 1, body), after)
      modifies this, outbox, stream, writer
      ensures SameCount()
      ensures r.Ok? ==>
                && Wired() && outbox.Clean() && outbox.mem == after && outbox.sequence == old(outbox.sequence) + 1
                && outbox.log == old(outbox.log) + [Sent(outbox.sequence, body)]
                && Kept() && Went(1)
      ensures r.Err? ==> Valid() && phase == Revoked && Blamed(r.error) && SendTrouble(r.error)
      ensures old(outbox.Carries([body])) ==> r.Ok?
    {
      hide Outbox.Valid, May, Then, Fair, Blamed;
      ghost var m := outbox.mem;
      var sent := outbox.Send(body);
      if sent.Err? {
        if outbox.mem != m {
          Sending(m, outbox.sequence + 1, body, outbox.mem);
        }
        var e := Fail(SendFault(sent.error));
        return Err(e);
      }
      ThenIsUnique(m, Sent(outbox.sequence, body), outbox.mem, after);
      Sending(m, outbox.sequence, body, after);
      r := Ok(());
    }

    /** Send a record and the projection that follows it. */
    method EmitBoth(first: Body, next: Announced, projection: Payload, ghost m1: Memory, ghost m2: Memory)
      returns (r: Result<(), HelperError>)
      requires Wired() && outbox.Clean() && Active() && (first.Established? || first.Lifetime?)
      requires May(outbox.mem, Sent(outbox.sequence + 1, first)) && Then(outbox.mem, Sent(outbox.sequence + 1, first), m1)
      requires var second := Sent(outbox.sequence + 2, Projection(next.id, next.revision, projection));
        May(m1, second) && Then(m1, second, m2)
      modifies this, outbox, stream, writer
      ensures SameCount()
      ensures r.Ok? ==>
                && Wired() && outbox.Clean() && outbox.mem == m2 && Kept() && Went(2)
                && outbox.log == old(outbox.log)
                     + [Sent(old(outbox.sequence) + 1, first),
                        Sent(old(outbox.sequence) + 2, Projection(next.id, next.revision, projection))]
      ensures r.Err? ==> Valid() && phase == Revoked && Blamed(r.error) && SendTrouble(r.error)
      ensures old(outbox.Carries([first, Projection(next.id, next.revision, projection)])) ==> r.Ok?
    {
      hide Outbox.Valid, May, Then, Outbox.FitsFrom, Fair, Blamed;
      var second := Projection(next.id, next.revision, projection);
      assert [first] + [second] == [first, second];
      if outbox.Carries([first, second]) {
        outbox.FitsSplit(outbox.sequence, [first], [second]);
      }
      r := Emit(first, m1);
      if r.Err? { return; }
      r := Emit(second, m2);
    }

    /** The log ends with this step. */
    ghost predicate Reported(step: Step)
      reads this, outbox
    {
      outbox.log != [] && outbox.log[|outbox.log| - 1] == Did(step)
    }

    /** Log the step a public call is about to return. */
    ghost method Report(step: Step)
      requires Valid() && Active() && AllowedStep(outbox.mem, step) && !step.PredecessorCorrelated?
      modifies outbox`log, outbox`mem
      ensures Valid() && Reported(step) && outbox.mem.lifetimes == old(outbox.mem.lifetimes)
      ensures outbox.log == old(outbox.log) + [Did(step)]
    {
      hide Outbox.Valid, May, Then;
      Reporting(outbox.mem, step);
      outbox.Note(Did(step));
    }

    // -------------------------------------------------------------- receiving

    /** What the next read of the stream decodes to, if no read fails. */
    function Incoming(oracle: Oracle): Result<Record, FrameError>
      reads stream`inbound
    {
      ReadFlat(outbox.limits, outbox.codec, oracle.allocates, stream.inbound).0
    }

    /** The stream will treat writes as it would have before. */
    twostate predicate OutgoingKept()
      reads stream`writePlan, stream`flushPlan
    {
      stream.writePlan == old(stream.writePlan) && stream.flushPlan == old(stream.flushPlan)
    }

    method ReadIncoming(oracle: Oracle) returns (r: Result<Record, HelperError>)
      requires Valid() && phase != Revoked
      modifies this, outbox, stream, writer
      ensures SameCount()
      ensures Valid()
      ensures r.Ok? ==>
                && Kept() && outbox.mem == old(outbox.mem) && outbox.log == old(outbox.log)
                && (Ok(r.value), stream.inbound) == ReadFlat(outbox.limits, outbox.codec, oracle.allocates, old(stream.inbound))
                && outbox.sequence == old(outbox.sequence) && OutgoingKept()
      ensures r.Err? ==> phase == Revoked && Blamed(r.error)
      ensures ReadFails !in old(stream.readPlan) ==>
        r == (match old(Incoming(oracle)) case Ok(record) => Ok(record) case Err(e) => Err(FromFrameError(e)))
      ensures r.Err? ==> r.error.RecordRejected? || r.error.Frame?
    {
      hide Outbox.Valid, May, Then, Fair, Blamed;
      var got := ReadRecord(outbox.limits, outbox.codec, oracle.allocates, stream);
      match got {
        case Ok(record) => r := Ok(record);
        case Err(error) =>
          var e := Fail(ReadFault(error));
          r := Err(e);
      }
    }

    /** Accept a record from the Core, in this session, with exactly the next sequence. */
    method ValidateEnvelope(record: Record) returns (r: Result<(), HelperError>)
      requires Valid() && phase != Revoked
      modifies this, outbox, stream, writer
      ensures SameCount()
      ensures r.Ok? <==> record.sender == Core && record.session == session && ExactNext(old(inSequence), record.sequence)
      ensures r.Ok? ==>
                && Wired() && outbox.Clean() && inSequence == old(inSequence) + 1
                && outbox.log == old(outbox.log) + [Got(record.body)]
                && outbox.mem == old(outbox.mem).(length := old(outbox.mem).length + 1, last := Some(Got(record.body)))
                && phase == old(phase) && authority == old(authority) && lastVersion == old(lastVersion)
                && revocation == old(revocation) && outbox.sequence == old(outbox.sequence) && OutgoingKept()
      ensures r.Err? ==> Valid() && phase == Revoked && Blamed(r.error)
      ensures r.Err? ==>
        r.error == if record.sender != Core then UnexpectedSender(record.sender)
                   else if record.session != session then SessionMismatch else SequenceMismatch
    {
      hide Outbox.Valid, May, Then, Fair, Blamed;
      if record.sender != Core {
        var e := Fail(ProtocolFault(UnexpectedSender(record.sender)));
        return Err(e);
      }
      if record.session != session {
        var e := Fail(ProtocolFault(SessionMismatch));
        return Err(e);
      }
      if !ExactNext(inSequence, record.sequence) {
        var e := Fail(ProtocolFault(SequenceMismatch));
        return Err(e);
      }
      inSequence := record.sequence;
      Receiving(outbox.mem, record.body);
      outbox.Note(Got(record.body));
      r := Ok(());
    }

    // -------------------------------------------------------------- establishing

    /** The next record is the expected establishment, and nothing stands in the way of opening the session. */
    ghost predicate Establishable(oracle: Oracle)
      reads this, outbox`sequence, stream, outbox.stream`writePlan, outbox.stream`flushPlan
    {
      && Incoming(oracle).Ok?
      && (var record := Incoming(oracle).value;
          && record.sender == Core && record.session == session && ExactNext(inSequence, record.sequence)
          && record.body == Body.Establish(expectations))
      && oracle.snapshot.Ok? && FreshLifetime(authority, oracle, oracle.snapshot.value.revision).Ok?
      && outbox.Carries(Opens(expectations, FreshLifetime(authority, oracle, oracle.snapshot.value.revision).value,
                              oracle.snapshot.value.projection))
    }

    /**
     * Read one Establish, check the whole echo, then send Established and the first
     * Projection. Success happens only for an echo equal to the launch expectations.
     */
    method Establish(oracle: Oracle) returns (r: Result<(), HelperError>)
      requires Valid()
      modifies this, outbox, stream, writer
      ensures Valid()
      ensures old(phase) == Revoked ==> r == Err(AlreadyClosed) && Kept() && stream.outbound == old(stream.outbound)
      ensures old(Active()) ==> r == Err(AlreadyEstablished)
      ensures r.Err? ==> phase == Revoked
      ensures mutations == old(mutations) && (old(phase) != AwaitingEstablish ==> firstRevision == old(firstRevision))
      ensures old(phase) == AwaitingEstablish && ReadFails !in old(stream.readPlan) && old(Establishable(oracle)) ==> r.Ok?
      ensures r.Ok? ==>
                && old(phase) == AwaitingEstablish && phase == Ready && inSequence == old(inSequence) + 1
                && oracle.snapshot.Ok? && oracle.entropy.Some?
                && var id, snapshot := oracle.entropy.value, oracle.snapshot.value;
                   && authority.lifetime == Some(Announced(id, snapshot.revision))
                   && firstRevision == snapshot.revision && mutations == 0 && Went(2)
                   && outbox.mem.lifetimes == [Announced(id, snapshot.revision)]
                   && outbox.log == old(outbox.log) + [Got(Body.Establish(expectations))]
                        + [Sent(1, Established(expectations, id)), Sent(2, Projection(id, snapshot.revision, snapshot.projection))]
      ensures r.Err? && old(phase) != Revoked ==> Blamed(r.error)
      ensures r.Err? && old(phase) == AwaitingEstablish && ReadFails !in old(stream.readPlan) ==>
        RefusesEstablish(old(Incoming(oracle)), session, expectations, old(inSequence), oracle, r.error)
    {
      hide Outbox.Valid, May, Then, ReadFlat, Outbox.FitsFrom, Fair, Blamed;
      if phase == Revoked { return Err(AlreadyClosed); }
      if phase != AwaitingEstablish {
        var e := Fail(ProtocolFault(AlreadyEstablished));
        return Err(e);
      }
      var got := ReadIncoming(oracle);
      if got.Err? { return Err(got.error); }
      var envelope := ValidateEnvelope(got.value);
      if envelope.Err? { return Err(envelope.error); }
      var body := got.value.body;
      if !body.Establish? {
        var e := Fail(ProtocolFault(UnexpectedRecord(body)));
        return Err(e);
      }
      var mismatch := Mismatch(expectations, body.echo);
      if mismatch.Some? {
        var e := Fail(EstablishmentFault(mismatch.value));
        return Err(e);
      }
      if oracle.snapshot.Err? {
        var e := Fail(RegistryFault(oracle.snapshot.error));
        return Err(e);
      }
      var snapshot := oracle.snapshot.value;
      var minted := FreshLifetime(authority, oracle, snapshot.revision);
      if minted.Err? {
        var e := Fail(RandomFault(minted.error));
        return Err(e);
      }
      r := Announce(body.echo, minted.value, snapshot.projection);
    }

    /** The two records that open a session. */
    method Announce(echo: Echo, first: Announced, projection: Payload) returns (r: Result<(), HelperError>)
      requires Wired() && outbox.Clean() && phase == AwaitingEstablish && authority == NO_AUTHORITY && revocation.None?
      requires lastVersion == 0 && mutations == 0
      requires outbox.mem == START.(length := 1, last := Some(Got(Body.Establish(echo))))
      modifies this, outbox, stream, writer
      ensures mutations == old(mutations)
      ensures Valid()
      ensures r.Err? ==> phase == Revoked
      ensures old(outbox.Carries(Opens(echo, first, projection))) ==> r.Ok?
      ensures r.Ok? ==>
                && phase == Ready && authority.lifetime == Some(first) && inSequence == old(inSequence)
                && firstRevision == first.revision && mutations == 0 && Went(2) && outbox.mem.lifetimes == [first]
                && outbox.log == old(outbox.log)
                     + [Sent(1, Established(echo, first.id)), Sent(2, Projection(first.id, first.revision, projection))]
      ensures r.Err? ==> Blamed(r.error) && SendTrouble(r.error)
    {
      hide Outbox.Valid, May, Then, Outbox.FitsFrom, Fair, Blamed;
      authority := authority.(lifetime := Some(first));
      firstRevision := first.revision;
      phase := Ready;
      ghost var m1, m2 := Opening(outbox.mem, echo, first, projection);
      r := EmitBoth(Established(echo, first.id), first, projection, m1, m2);
    }

    // -------------------------------------------------------------- publish and bind

    /** Nothing stands in the way of acknowledging this publication. */
    ghost predicate Publishable(body: Body, oracle: Oracle)
      requires body.Publish?
      reads this, outbox`sequence, stream`writePlan, stream`flushPlan, outbox.stream`writePlan, outbox.stream`flushPlan
    {
      && PublishRefusal(body, session, authority, lastVersion).None? && oracle.entropy.Some? && LastReceiptOf(authority) != oracle.entropy
      && authority.retiredReceipt != oracle.entropy
      && outbox.Carries([Ack(body.lifetime, body.revision, body.tuple, oracle.entropy.value)])
    }

    /** Nothing stands in the way of issuing a receipt for this bind. */
    ghost predicate Bindable(body: Body, oracle: Oracle)
      reads this, outbox`sequence, stream`writePlan, stream`flushPlan, outbox.stream`writePlan, outbox.stream`flushPlan
    {
      && authority.pending.Some? && oracle.matches == Ok(true) && oracle.entropy.Some?
      && var p := authority.pending.value;
         && body == Bind(p.lifetime, p.revision, p.tuple, p.ackId)
         && oracle.entropy.value != p.ackId && authority.retiredReceipt != oracle.entropy
         && outbox.Carries([BoundFor(p, oracle.entropy.value)])
    }

    /** The record was answered, from the state before and with what the log gained. */
    twostate predicate Answered(body: Body, oracle: Oracle, step: Step)
      reads this, outbox
    {
      && Answers(body, session, old(authority), old(lastVersion), oracle, step, phase)
      && outbox.log == old(outbox.log) + Replies(body, old(authority), oracle, old(outbox.sequence)) + [Did(step)]
    }

    /** Retain the publication and acknowledge it with a fresh identifier. */
    method HandlePublish(body: Body, oracle: Oracle) returns (r: Result<Step, HelperError>)
      requires Valid() && Active() && body.Publish? && outbox.mem.last == Some(Got(body))
      modifies this, outbox, stream, writer
      ensures SameCount()
      ensures Valid()
      ensures r.Err? ==> phase == Revoked
      ensures r.Err? ==> Blamed(r.error) && Refuses(body, session, old(authority), old(lastVersion), oracle, r.error)
      ensures r.Ok? ==> Answered(body, oracle, r.value)
      ensures r.Ok? ==>
                && r.value == Published(body.tuple) && Active() && Reported(r.value) && oracle.entropy.Some?
                && authority == Acknowledged(old(authority), body, oracle.entropy.value)
                && lastVersion == body.tuple.publicationId.version > old(lastVersion)
                && inSequence == old(inSequence)
      ensures old(Publishable(body, oracle)) ==> r.Ok?
    {
      hide Outbox.Valid, Outbox.FitsFrom, Answers, Replies, Refuses, Fair, Blamed;
      var refusal := PublishRefusal(body, session, authority, lastVersion);
      if refusal.Some? {
        PublishRefusalsArePlain(body, session, authority, lastVersion);
        PublishIsRefused(body, session, authority, lastVersion, oracle, refusal.value);
        var e := Fail(ProtocolFault(refusal.value));
        return Err(e);
      }
      var collides :=
        oracle.entropy.None?
        || (authority.receipt.Some? && authority.receipt.value.receipt == oracle.entropy.value)
        || authority.retiredReceipt == oracle.entropy;
      if collides {
        PublishIsRefused(body, session, authority, lastVersion, oracle, RandomUnavailable);
        var e := Fail(RandomFault(RandomUnavailable));
        return Err(e);
      }
      PublishIsAnswered(body, session, authority, lastVersion, oracle, outbox.sequence);
      r := Acknowledge(body, oracle.entropy.value);
      if r.Err? {
        PublishIsRefused(body, session, old(authority), old(lastVersion), oracle, r.error);
      }
    }

    method Acknowledge(body: Body, ackId: Id) returns (r: Result<Step, HelperError>)
      requires Valid() && Active() && body.Publish? && outbox.mem.last == Some(Got(body))
      requires PublishRefusal(body, session, authority, lastVersion).None? && LastReceiptOf(authority) != Some(ackId)
      modifies this, outbox, stream, writer
      ensures SameCount()
      ensures Valid()
      ensures r.Err? ==> phase == Revoked
      ensures r.Ok? ==>
                && r.value == Published(body.tuple) && Active() && Reported(r.value)
                && authority == Acknowledged(old(authority), body, ackId)
                && lastVersion == body.tuple.publicationId.version
                && inSequence == old(inSequence)
      ensures old(outbox.Carries([Ack(body.lifetime, body.revision, body.tuple, ackId)])) ==> r.Ok?
      ensures r.Err? ==> Blamed(r.error) && SendTrouble(r.error)
      ensures r.Ok? ==>
        phase == AwaitingBind && outbox.log == old(outbox.log)
          + [Sent(old(outbox.sequence) + 1, Ack(body.lifetime, body.revision, body.tuple, ackId)), Did(r.value)]
    {
      hide Outbox.Valid, May, Then, Outbox.FitsFrom, Fair, Blamed;
      ghost var after := Acknowledging(outbox.mem, body, ackId);
      AgreesAfterAck(phase, authority, lastVersion, firstRevision + mutations, outbox.mem, body, ackId, after);
      authority := Acknowledged(authority, body, ackId);
      lastVersion := body.tuple.publicationId.version;
      phase := AwaitingBind;
      var sent := Emit(Ack(body.lifetime, body.revision, body.tuple, ackId), after);
      if sent.Err? { return Err(sent.error); }
      Report(Published(body.tuple));
      r := Ok(Published(body.tuple));
    }

    /**
     * Bind the pending acknowledgement: the bind must name it exactly, the registry must
     * agree to the retained bytes, and the receipt must be fresh. Anything else revokes.
     */
    method HandleBind(body: Body, oracle: Oracle) returns (r: Result<Step, HelperError>)
      requires Valid() && Active() && body.Bind? && outbox.mem.last == Some(Got(body))
      modifies this, outbox, stream, writer
      ensures SameCount()
      ensures Valid()
      ensures r.Err? ==> phase == Revoked
      ensures r.Ok? ==>
                && old(authority).pending.Some? && oracle.matches == Ok(true) && oracle.entropy.Some?
                && var p, receipt := old(authority).pending.value, oracle.entropy.value;
                   && body == Bind(p.lifetime, p.revision, p.tuple, p.ackId)
                   && receipt != p.ackId && Some(receipt) != LastReceiptOf(old(authority))
                   && r.value == NowBound(p.tuple, receipt) && Active() && Reported(r.value)
                   && authority == old(authority).(pending := None, receipt := Some(ActiveReceipt(p.tuple, receipt)))
                   && inSequence == old(inSequence)
      ensures old(Bindable(body, oracle)) ==> r.Ok?
      ensures r.Err? ==> Blamed(r.error) && Refuses(body, session, old(authority), old(lastVersion), oracle, r.error)
      ensures r.Ok? ==> Answered(body, oracle, r.value)
    {
      hide Outbox.Valid, May, Then, Answers, Replies, Refuses, Fair, Blamed, Valid;
      LiveIsClean();
      if authority.pending.None? {
        BindIsRefused(body, session, authority, lastVersion, oracle, NoPendingBind);
        var e := Fail(ProtocolFault(NoPendingBind));
        return Err(e);
      }
      var p := authority.pending.value;
      if body != Bind(p.lifetime, p.revision, p.tuple, p.ackId) {
        BindIsRefused(body, session, authority, lastVersion, oracle, BindMismatch);
        var e := Fail(ProtocolFault(BindMismatch));
        return Err(e);
      }
      if oracle.matches.Err? {
        BindIsRefused(body, session, authority, lastVersion, oracle, Registry(oracle.matches.error));
        var e := Fail(RegistryFault(oracle.matches.error));
        return Err(e);
      }
      Compare(oracle.matches.value);
      LiveIsClean();
      if !oracle.matches.value {
        BindIsRefused(body, session, authority, lastVersion, oracle, RetainedBytesMismatch);
        var e := Fail(RetainedFault());
        return Err(e);
      }
      r := IssueReceipt(oracle);
      if r.Err? {
        BindIsRefused(body, session, old(authority), old(lastVersion), oracle, r.error);
      } else {
        BindIsAnswered(body, session, old(authority), old(lastVersion), oracle, old(outbox.sequence));
      }
    }

    /** Log the registry's verdict on the retained bytes of the pending publication. */
    ghost method Compare(equal: bool)
      requires Valid() && Active() && authority.pending.Some?
      requires var p := authority.pending.value; outbox.mem.last == Some(Got(Bind(p.lifetime, p.revision, p.tuple, p.ackId)))
      modifies outbox`log, outbox`mem
      ensures var e := Compared(authority.pending.value.revision, authority.pending.value.retained, equal);
        Valid() && outbox.log == old(outbox.log) + [e] && outbox.mem.last == Some(e)
    {
      hide Outbox.Valid, May, Then;
      Comparing(outbox.mem, outbox.mem.lastSent.value, equal);
      outbox.Note(Compared(authority.pending.value.revision, authority.pending.value.retained, equal));
    }

    method IssueReceipt(oracle: Oracle) returns (r: Result<Step, HelperError>)
      requires Valid() && Active() && authority.pending.Some?
      requires outbox.mem.last == Some(Compared(authority.pending.value.revision, authority.pending.value.retained, true))
      modifies this, outbox, stream, writer
      ensures SameCount()
      ensures Valid()
      ensures r.Err? ==> phase == Revoked
      ensures r.Ok? ==>
                && oracle.entropy.Some?
                && var p, receipt := old(authority).pending.value, oracle.entropy.value;
                   && receipt != p.ackId && Some(receipt) != LastReceiptOf(old(authority))
                   && r.value == NowBound(p.tuple, receipt) && Active() && Reported(r.value)
                   && authority == old(authority).(pending := None, receipt := Some(ActiveReceipt(p.tuple, receipt)))
                   && inSequence == old(inSequence)
      ensures r.Ok? ==> oracle.entropy != old(authority).retiredReceipt
      ensures
        && oracle.entropy.Some? && oracle.entropy.value != old(authority).pending.value.ackId
        && old(authority).retiredReceipt != oracle.entropy
        && old(outbox.Carries([BoundFor(authority.pending.value, oracle.entropy.value)]))
        ==> r.Ok?
      ensures r.Err? ==>
        Blamed(r.error) && (
        if || oracle.entropy.None? || oracle.entropy == Some(old(authority).pending.value.ackId)
           || oracle.entropy == old(authority).retiredReceipt
        then r.error == RandomUnavailable else SendTrouble(r.error))
      ensures r.Ok? ==>
        phase == Ready && outbox.log == old(outbox.log)
          + [Sent(old(outbox.sequence) + 1, BoundFor(old(authority).pending.value, oracle.entropy.value)), Did(r.value)]
    {
      hide Outbox.Valid, May, Then, Outbox.FitsFrom, Fair, Blamed;
      var p := authority.pending.value;
      if oracle.entropy.None? || oracle.entropy.value == p.ackId || authority.retiredReceipt == oracle.entropy {
        var e := Fail(RandomFault(RandomUnavailable));
        return Err(e);
      }
      r := SendReceipt(oracle.entropy.value);
    }

    /** Bind the pending publication under a new receipt and send it. */
    method SendReceipt(receipt: Id) returns (r: Result<Step, HelperError>)
      requires Valid() && Active() && authority.pending.Some?
      requires outbox.mem.last == Some(Compared(authority.pending.value.revision, authority.pending.value.retained, true))
      requires receipt != authority.pending.value.ackId && Some(receipt) != authority.retiredReceipt
      modifies this, outbox, stream, writer
      ensures SameCount()
      ensures Valid()
      ensures r.Err? ==> phase == Revoked && Blamed(r.error) && SendTrouble(r.error)
      ensures r.Ok? ==>
                && var p := old(authority).pending.value;
                   && Some(receipt) != LastReceiptOf(old(authority))
                   && r.value == NowBound(p.tuple, receipt) && Active() && Reported(r.value)
                   && authority == old(authority).(pending := None, receipt := Some(ActiveReceipt(p.tuple, receipt)))
                   && inSequence == old(inSequence)
      ensures old(outbox.Carries([BoundFor(authority.pending.value, receipt)])) ==> r.Ok?
      ensures r.Ok? ==>
        phase == Ready && outbox.log == old(outbox.log)
          + [Sent(old(outbox.sequence) + 1, BoundFor(old(authority).pending.value, receipt)), Did(r.value)]
    {
      hide Outbox.Valid, May, Then, Outbox.FitsFrom, Fair, Blamed;
      var p := authority.pending.value;
      ghost var after := Binding(outbox.mem, outbox.mem.lastSent.value, receipt);
      AgreesAfterBind(phase, authority, lastVersion, firstRevision + mutations, outbox.mem, receipt, after);
      authority := authority.(pending := None, receipt := Some(ActiveReceipt(p.tuple, receipt)));
      phase := Ready;
      var sent := Emit(BoundFor(p, receipt), after);
      if sent.Err? { return Err(sent.error); }
      Report(NowBound(p.tuple, receipt));
      r := Ok(NowBound(p.tuple, receipt));
    }

    // -------------------------------------------------------------- rotating

    /** State and log agree on the current lifetime, and nothing is pending or bound. */
    ghost predicate Rotatable()
      reads this, outbox
    {
      && outbox.Clean() && revocation.None? && outbox.mem.stage in {Idle, Acked, Withdrawn}
      && StartsAt(firstRevision, outbox.mem) && Rotations(authority, firstRevision + mutations, outbox.mem)
      && authority.pending.None? && authority.receipt.None?
      && lastVersion == outbox.mem.version && outbox.mem.receipt == LastReceiptOf(authority)
    }

    /** A successor can be minted and both its records carried. */
    ghost predicate Renewable(snapshot: Snapshot, oracle: Oracle)
      reads this, outbox`sequence, outbox.stream`writePlan, outbox.stream`flushPlan
    {
      && FreshLifetime(authority, oracle, snapshot.revision).Ok?
      && outbox.Carries(Announces(FreshLifetime(authority, oracle, snapshot.revision).value, snapshot.projection))
    }

    /** Mint a successor at the snapshot's revision, retire the current lifetime, announce both. */
    method Renew(snapshot: Snapshot, reason: Reason, oracle: Oracle) returns (r: Result<Step, HelperError>)
      requires Wired() && Active() && Rotatable()
      requires snapshot.revision == firstRevision + mutations + (if OwnMutation(outbox.mem.lastSent) then 1 else 0)
      modifies this, outbox, stream, writer
      ensures firstRevision == old(firstRevision)
      ensures mutations == old(mutations) + (if r.Ok? && OwnMutation(old(outbox.mem.lastSent)) then 1 else 0)
      ensures Valid()
      ensures r.Err? ==> phase == Revoked
      ensures r.Ok? ==>
                && oracle.entropy.Some? && phase == Ready && Reported(r.value) && inSequence == old(inSequence)
                && var next := Announced(oracle.entropy.value, snapshot.revision);
                   && r.value == LifetimeRotated(old(authority).lifetime.value.id, next.id, next.revision, reason)
                   && authority == Succeeded(old(authority), next)
                   && outbox.mem.lifetimes == old(outbox.mem.lifetimes) + [next] && Went(2)
      ensures old(Renewable(snapshot, oracle)) ==> r.Ok?
      ensures r.Err? ==>
        Blamed(r.error) && (
        if BadLifetimeId(old(authority), oracle) then r.error == RandomUnavailable else SendTrouble(r.error))
      ensures r.Ok? ==>
        !BadLifetimeId(old(authority), oracle) && outbox.log == old(outbox.log)
          + [Sent(old(outbox.sequence) + 1, ControlProtocol.Lifetime(oracle.entropy.value, snapshot.revision)),
             Sent(old(outbox.sequence) + 2, Projection(oracle.entropy.value, snapshot.revision, snapshot.projection)), Did(r.value)]
    {
      hide Outbox.Valid, May, Then, Outbox.FitsFrom, Fair, Blamed;
      var minted := FreshLifetime(authority, oracle, snapshot.revision);
      if minted.Err? {
        var e := Fail(RandomFault(minted.error));
        return Err(e);
      }
      var next, previous := minted.value, authority.lifetime.value.id;
      FreshIsUnused(authority, oracle, firstRevision + mutations, snapshot.revision, outbox.mem);
      var sent := Succeed(next, snapshot.projection);
      if sent.Err? { return Err(sent.error); }
      var step := LifetimeRotated(previous, next.id, next.revision, reason);
      Report(step);
      r := Ok(step);
    }

    /** Replace the current lifetime by `next` and announce it. */
    method Succeed(next: Announced, projection: Payload) returns (r: Result<(), HelperError>)
      requires Wired() && Active() && Rotatable() && Unused(outbox.mem, next.id)
      requires next.revision == firstRevision + mutations + (if OwnMutation(outbox.mem.lastSent) then 1 else 0)
      modifies this, outbox, stream, writer
      ensures firstRevision == old(firstRevision)
      ensures mutations == old(mutations) + (if r.Ok? && OwnMutation(old(outbox.mem.lastSent)) then 1 else 0)
      ensures Valid()
      ensures r.Err? ==> phase == Revoked
      ensures r.Ok? ==>
                && phase == Ready && inSequence == old(inSequence) && authority == Succeeded(old(authority), next)
                && outbox.mem == Rotated(old(outbox.mem), next, projection) && Went(2)
      ensures old(outbox.Carries(Announces(next, projection))) ==> r.Ok?
      ensures r.Err? ==> Blamed(r.error) && SendTrouble(r.error)
      ensures r.Ok? ==>
        outbox.log == old(outbox.log)
          + [Sent(old(outbox.sequence) + 1, ControlProtocol.Lifetime(next.id, next.revision)),
             Sent(old(outbox.sequence) + 2, Projection(next.id, next.revision, projection))]
    {
      hide Outbox.Valid, May, Then, Publications, Outbox.FitsFrom, Fair, Blamed;
      AgreesAfterRotation(authority, lastVersion, firstRevision + mutations, outbox.mem, next, projection);
      ghost var m1, m2 := Rotating(outbox.mem, next, projection);
      ghost var own := OwnMutation(outbox.mem.lastSent);
      authority := Succeeded(authority, next);
      phase := Ready;
      r := EmitBoth(ControlProtocol.Lifetime(next.id, next.revision), next, projection, m1, m2);
      if r.Ok? && own {
        mutations := mutations + 1;
      }
    }

    /** Withdraw the current lifetime before anything replaces it. */
    method Withdraw(reason: Reason) returns (r: Result<(), HelperError>)
      requires Valid() && Active() && reason in {RegistryMutation, Reset}
      modifies this, outbox, stream, writer
      ensures SameCount()
      ensures r.Ok? ==>
                && Wired() && Active() && Rotatable() && phase == old(phase) && inSequence == old(inSequence)
                && authority == Retiring(old(authority)).(pending := None)
                && OwnMutation(outbox.mem.lastSent) == (reason == RegistryMutation)
                && outbox.mem.lifetimes == old(outbox.mem.lifetimes) && Went(1)
      ensures r.Err? ==> Valid() && phase == Revoked
      ensures old(outbox.Carries([Withdrawal(authority.lifetime.value, reason)])) ==> r.Ok?
      ensures r.Err? ==> Blamed(r.error) && SendTrouble(r.error)
      ensures r.Ok? ==>
        outbox.log == old(outbox.log)
          + [Sent(old(outbox.sequence) + 1, Withdrawal(old(authority).lifetime.value, reason))]
    {
      hide Outbox.Valid, May, Then, Outbox.FitsFrom, Fair, Blamed;
      var current := authority.lifetime.value;
      ghost var after := Withdrawing(outbox.mem, current, reason);
      authority := Retiring(authority).(pending := None);
      r := Emit(Invalidate(current.id, current.revision, reason), after);
    }

    /** A lifetime retired two rotations ago is neither current nor the open predecessor. */
    lemma {:induction false} RetiredTwiceIsGone()
      requires Valid() && Active()
      ensures var l := outbox.mem.lifetimes;
              |l| >= 3 ==> authority.lifetime.value.id != l[|l| - 3].id
                           && (authority.predecessor.Some? ==> authority.predecessor.value.id != l[|l| - 3].id)
      ensures authority.predecessor.Some? ==> authority.predecessor.value.id != authority.lifetime.value.id
    {
      var n := |outbox.mem.lifetimes|;
      if n >= 3 {
        ConsecutiveLifetimesDiffer(outbox.log, n - 3, n - 1);
        ConsecutiveLifetimesDiffer(outbox.log, n - 3, n - 2);
      }
      if n >= 2 {
        ConsecutiveLifetimesDiffer(outbox.log, n - 2, n - 1);
      }
    }

    /** An invalidation of the current lifetime or its open predecessor that nothing stands in the way of. */
    ghost predicate Invalidatable(body: Body, oracle: Oracle)
      requires body.Invalidate?
      reads this, outbox`sequence, outbox.stream`writePlan, outbox.stream`flushPlan
    {
      var named := Some(Announced(body.lifetime, body.revision));
      && body.reason != RegistryMutation
      && (if authority.lifetime == named then Withdraws(body.reason) || Replaceable(body.revision, oracle)
          else authority.predecessor == named)
    }

    /** The registry is still at this revision, and a successor can be announced at it. */
    ghost predicate Replaceable(revision: nat, oracle: Oracle)
      reads this, outbox`sequence, outbox.stream`writePlan, outbox.stream`flushPlan
    {
      oracle.snapshot.Ok? && oracle.snapshot.value.revision == revision && Renewable(oracle.snapshot.value, oracle)
    }

    /**
     * A Core invalidation: of the current lifetime, it rotates or closes; of the just
     * retired one, it is correlated once; of anything older, or for the helper's own
     * reason, it revokes.
     */
    method HandleInvalidate(body: Body, oracle: Oracle) returns (r: Result<Step, HelperError>)
      requires Valid() && Active() && body.Invalidate? && outbox.mem.last == Some(Got(body))
      modifies this, outbox, stream, writer
      ensures SameCount()
      ensures Valid()
      ensures r.Err? ==> phase == Revoked
      ensures r.Ok? ==>
                && Reported(r.value) && inSequence == old(inSequence)
                && (phase == Revoked <==> Terminal(r.value)) && !r.value.PeerError?
      ensures old(Invalidatable(body, oracle)) ==> r.Ok?
      ensures body.reason == RegistryMutation ==> r == Err(CoreRegistryMutation)
      ensures var l := old(outbox.mem).lifetimes; |l| >= 3 && body.lifetime == l[|l| - 3].id ==> r.Err?
      ensures r == Ok(PredecessorCorrelated) <==>
                && old(authority).predecessor == Some(Announced(body.lifetime, body.revision))
                && body.reason != RegistryMutation && !Withdraws(body.reason)
      ensures r.Ok? && r.value.AuthorityClosed? ==>
                r.value == AuthorityClosed(body.reason) && Withdraws(body.reason) && revocation == Some(PeerWithdrewAuthority)
      ensures r.Ok? && r.value.LifetimeRotated? ==>
                && old(authority).lifetime == Some(Announced(body.lifetime, body.revision))
                && r.value.previous == body.lifetime && r.value.revision == body.revision && r.value.reason == body.reason
      ensures r.Err? ==> Blamed(r.error) && Refuses(body, session, old(authority), old(lastVersion), oracle, r.error)
      ensures r.Ok? ==> Answered(body, oracle, r.value)
    {
      hide Outbox.Valid, May, Then, Answers, Replies, Fair, Blamed, Valid;
      LiveIsClean();
      RetiredTwiceIsGone();
      if body.reason == RegistryMutation {
        var e := Fail(ProtocolFault(CoreRegistryMutation));
        return Err(e);
      }
      var named := Some(Announced(body.lifetime, body.revision));
      if authority.lifetime == named {
        r := InvalidateCurrent(body, oracle);
      } else if authority.predecessor == named {
        InvalidationIsAnswered(body, session, authority, lastVersion, oracle, outbox.sequence, phase);
        r := CorrelatePredecessor(body);
      } else {
        var e := Fail(ProtocolFault(StaleAuthority));
        r := Err(e);
      }
    }

    /** Nothing pending and no active receipt, so that the lifetime can be replaced. */
    method Retire()
      requires Valid() && Active()
      modifies this`authority
      ensures Wired() && Rotatable() && !OwnMutation(outbox.mem.lastSent)
      ensures authority == Retiring(old(authority)).(pending := None)
      ensures authority.lifetime.value.revision == firstRevision + mutations
    {
      hide Outbox.Valid;
      authority := Retiring(authority).(pending := None);
    }

    /** The Core invalidates the current lifetime: close, or rotate at the same revision. */
    method InvalidateCurrent(body: Body, oracle: Oracle) returns (r: Result<Step, HelperError>)
      requires Valid() && Active() && body.Invalidate? && body.reason != RegistryMutation
      requires authority.lifetime == Some(Announced(body.lifetime, body.revision))
      modifies this, outbox, stream, writer
      ensures SameCount()
      ensures Valid()
      ensures r.Err? ==> phase == Revoked
      ensures r.Ok? ==> Reported(r.value) && inSequence == old(inSequence)
      ensures r.Ok? ==>
                if Withdraws(body.reason) then
                  r.value == AuthorityClosed(body.reason) && phase == Revoked && revocation == Some(PeerWithdrewAuthority)
                else
                  && phase == Ready && r.value.LifetimeRotated? && r.value.previous == body.lifetime
                  && r.value.revision == body.revision && r.value.reason == body.reason
      ensures old(Withdraws(body.reason) || Replaceable(body.revision, oracle)) ==> r.Ok?
      ensures if r.Err? then Blamed(r.error) && Refuses(body, session, old(authority), old(lastVersion), oracle, r.error)
              else Answered(body, oracle, r.value)
    {
      hide Outbox.Valid, May, Then, Outbox.FitsFrom, Answers, Replies, Refuses, Fair, Blamed, Valid, Rotations, StartsAt;
      ghost var a := authority;
      Retire();
      if Withdraws(body.reason) {
        InvalidationIsAnswered(body, session, a, lastVersion, oracle, outbox.sequence, phase);
        r := CloseByPeer(body.reason);
      } else if oracle.snapshot.Err? {
        var e := Fail(RegistryFault(oracle.snapshot.error));
        r := Err(e);
      } else if oracle.snapshot.value.revision != body.revision {
        var e := Fail(ProtocolFault(StaleAuthority));
        r := Err(e);
      } else {
        if !BadLifetimeId(a, oracle) {
          RotationIsAnswered(body, session, a, lastVersion, oracle, outbox.sequence);
        }
        r := Renew(oracle.snapshot.value, body.reason, oracle);
      }
      if r.Err? {
        RotationIsRefused(body, session, a, old(lastVersion), oracle, r.error);
      }
    }

    /** A crossed invalidation of the just-retired lifetime: accepted once, then the window is shut. */
    method CorrelatePredecessor(body: Body) returns (r: Result<Step, HelperError>)
      requires Valid() && Active() && body.Invalidate? && outbox.mem.last == Some(Got(body))
      requires authority.predecessor == Some(Announced(body.lifetime, body.revision))
      modifies this, outbox, stream, writer
      ensures SameCount()
      ensures Valid() && inSequence == old(inSequence)
      ensures r == Ok(if Withdraws(body.reason) then AuthorityClosed(body.reason) else PredecessorCorrelated) && Reported(r.value)
      ensures Withdraws(body.reason) ==> phase == Revoked && revocation == Some(PeerWithdrewAuthority)
      ensures !Withdraws(body.reason) ==> phase == old(phase) && authority == old(authority).(predecessor := None)
      ensures outbox.log == old(outbox.log) + [Did(r.value)]
    {
      hide Outbox.Valid, May, Then;
      authority := authority.(predecessor := None);
      if Withdraws(body.reason) {
        r := CloseByPeer(body.reason);
      } else {
        Reporting(outbox.mem, PredecessorCorrelated);
        outbox.Note(Did(PredecessorCorrelated));
        r := Ok(PredecessorCorrelated);
      }
    }

    method CloseByPeer(reason: Reason) returns (r: Result<Step, HelperError>)
      requires Wired() && outbox.Clean() && Active()
      modifies this, outbox, stream, writer
      ensures SameCount()
      ensures Valid() && phase == Revoked && revocation == Some(PeerWithdrewAuthority)
      ensures r == Ok(AuthorityClosed(reason)) && Reported(r.value)
      ensures inSequence == old(inSequence) && stream.outbound == old(stream.outbound)
      ensures outbox.log == old(outbox.log) + [Did(r.value)]
    {
      hide Outbox.Valid, May, Then;
      phase := Revoked;
      revocation := Some(PeerWithdrewAuthority);
      ClearAuthority();
      Reporting(outbox.mem, AuthorityClosed(reason));
      outbox.Note(Did(AuthorityClosed(reason)));
      r := Ok(AuthorityClosed(reason));
    }

    // -------------------------------------------------------------- public calls after establishment

    /** Why a call needing a live session is refused before it does anything. */
    function Inactive(): Option<HelperError>
      reads this
    {
      match phase
      case Revoked => Some(AlreadyClosed)
      case AwaitingEstablish => Some(NotEstablished)
      case _ => None
    }

    /** A record that nothing stands in the way of handling. */
    ghost predicate Acceptable(body: Body, oracle: Oracle)
      reads this, outbox`sequence, stream`writePlan, stream`flushPlan, outbox.stream`writePlan, outbox.stream`flushPlan
    {
      match body
      case Publish(_, _, _, _) => Publishable(body, oracle)
      case Bind(_, _, _, _) => Bindable(body, oracle)
      case Invalidate(_, _, _) => Invalidatable(body, oracle)
      case Error(_) => true
      case _ => false
    }

    /** The next record on the stream is in order and acceptable. */
    ghost predicate Answerable(oracle: Oracle)
      reads this, outbox`sequence, stream, outbox.stream`writePlan, outbox.stream`flushPlan
    {
      && Incoming(oracle).Ok?
      && var record := Incoming(oracle).value;
         && record.sender == Core && record.session == session && ExactNext(inSequence, record.sequence)
         && Acceptable(record.body, oracle)
    }

    /**
     * Process exactly one Core record. Every error but the pre-establishment refusal
     * leaves the session revoked; every other success leaves it live unless the step is
     * terminal, and consumes exactly one incoming sequence number.
     */
    method Step(oracle: Oracle) returns (r: Result<ControlProtocol.Step, HelperError>)
      requires Valid()
      modifies this, outbox, stream, writer
      ensures SameCount()
      ensures Valid()
      ensures old(Inactive()).Some? ==> r == Err(old(Inactive()).value) && Kept() && stream.outbound == old(stream.outbound)
      ensures r.Err? && old(Inactive()).None? ==> phase == Revoked
      ensures r.Ok? ==>
                && Reported(r.value) && inSequence == old(inSequence) + 1
                && (phase == Revoked <==> Terminal(r.value))
      ensures r.Ok? && Active() ==> authority.lifetime.value.revision == old(authority).lifetime.value.revision
      ensures r.Ok? && r.value.AuthorityClosed? ==> revocation == Some(PeerWithdrewAuthority)
      ensures r.Ok? && r.value.PeerError? ==> revocation == Some(PeerReported)
      ensures ReadFails !in old(stream.readPlan) && old(Active()) && old(Answerable(oracle)) ==> r.Ok?
      ensures r.Err? && old(Active()) ==> Blamed(r.error)
      ensures r.Err? && old(Active()) && ReadFails !in old(stream.readPlan) ==>
        RefusesStep(old(Incoming(oracle)), session, old(inSequence), old(authority), old(lastVersion), oracle, r.error)
      ensures r.Ok? ==>
        && old(Incoming(oracle)).Ok? && Addressed(old(Incoming(oracle)).value, session, old(inSequence))
        && var body := old(Incoming(oracle)).value.body;
           && Answers(body, session, old(authority), old(lastVersion), oracle, r.value, phase)
           && outbox.log == old(outbox.log) + [Got(body)]
                + Replies(body, old(authority), oracle, old(outbox.sequence)) + [Did(r.value)]
    {
      hide Outbox.Valid, May, Then, ReadFlat, Outbox.FitsFrom, Answers, Replies, Refuses, Fair, Blamed;
      var inactive := Inactive();
      if inactive.Some? { return Err(inactive.value); }
      var got := ReadIncoming(oracle);
      if got.Err? { return Err(got.error); }
      var envelope := ValidateEnvelope(got.value);
      if envelope.Err? { return Err(envelope.error); }
      r := Handle(got.value.body, oracle);
    }

    /** A terminal error from the peer revokes without an answer. */
    method HandleError(code: ErrorCode) returns (r: Result<ControlProtocol.Step, HelperError>)
      requires Valid() && Active()
      modifies this, outbox, stream, writer
      ensures SameCount()
      ensures Valid() && phase == Revoked && revocation == Some(PeerReported)
      ensures r == Ok(PeerError(code)) && Reported(r.value)
      ensures inSequence == old(inSequence) && stream.outbound == old(stream.outbound)
      ensures outbox.log == old(outbox.log) + [Did(r.value)]
    {
      hide Outbox.Valid, May, Then;
      var e := Fail(Fault(PeerFailure(code), PeerReported, None));
      Reporting(outbox.mem, PeerError(code));
      outbox.Note(Did(PeerError(code)));
      r := Ok(PeerError(code));
    }

    /** Dispatch one accepted record. */
    method Handle(body: Body, oracle: Oracle) returns (r: Result<ControlProtocol.Step, HelperError>)
      requires Valid() && Active() && outbox.mem.last == Some(Got(body))
      modifies this, outbox, stream, writer
      ensures SameCount()
      ensures Valid()
      ensures r.Err? ==> phase == Revoked
      ensures r.Ok? ==>
                && Reported(r.value) && inSequence == old(inSequence)
                && (phase == Revoked <==> Terminal(r.value))
      ensures r.Ok? && r.value.AuthorityClosed? ==> revocation == Some(PeerWithdrewAuthority)
      ensures r.Ok? && r.value.PeerError? ==> revocation == Some(PeerReported)
      ensures old(Acceptable(body, oracle)) ==> r.Ok?
      ensures r.Err? ==> Blamed(r.error) && Refuses(body, session, old(authority), old(lastVersion), oracle, r.error)
      ensures r.Ok? ==> Answered(body, oracle, r.value)
    {
      hide Outbox.Valid, May, Then, Outbox.FitsFrom, Fair, Blamed, Valid, Answers, Replies, Refuses;
      match body {
        case Publish(_, _, _, _) => r := HandlePublish(body, oracle);
        case Bind(_, _, _, _) => r := HandleBind(body, oracle);
        case Invalidate(_, _, _) => r := HandleInvalidate(body, oracle);
        case Error(code) =>
          ErrorIsAnswered(body, session, authority, lastVersion, oracle, outbox.sequence);
          r := HandleError(code);
        case _ =>
          OthersAreRefused(body, session, authority, lastVersion, oracle);
          LiveIsClean();
          var e := Fail(ProtocolFault(UnexpectedRecord(body)));
          r := Err(e);
      }
    }

    /** The registry agrees before and after, and the three records of the change can be carried. */
    ghost predicate Mutable(oracle: Oracle)
      reads this, outbox`sequence, outbox.stream`writePlan, outbox.stream`flushPlan
    {
      && authority.lifetime.Some?
      && var current := authority.lifetime.value;
         && oracle.snapshot.Ok? && oracle.snapshot.value.revision == current.revision < U64_MAX
         && oracle.mutation.Ok? && oracle.mutated.Ok? && oracle.mutated.value.revision == current.revision + 1
         && var minted := FreshLifetime(authority, oracle, current.revision + 1);
            && minted.Ok?
            && outbox.Carries([Withdrawal(current, RegistryMutation)] + Announces(minted.value, oracle.mutated.value.projection))
    }

    /** The registry agrees, and the three records of the replacement can be carried. */
    ghost predicate Resettable(oracle: Oracle)
      reads this, outbox`sequence, outbox.stream`writePlan, outbox.stream`flushPlan
    {
      && authority.lifetime.Some?
      && var current := authority.lifetime.value;
         && oracle.snapshot.Ok? && oracle.snapshot.value.revision == current.revision
         && var minted := FreshLifetime(authority, oracle, current.revision);
            && minted.Ok?
            && outbox.Carries([Withdrawal(current, Reset)] + Announces(minted.value, oracle.snapshot.value.projection))
    }

    /** The lifetime was withdrawn and replaced: the step says so, and the log gains just that. */
    twostate predicate RotatedBy(
      previous: Announced, oracle: Oracle, snapshot: Result<Snapshot, RegistryError>, reason: Reason, step: Step)
      reads this, outbox
    {
      && oracle.entropy.Some? && snapshot.Ok?
      && var next, n := Announced(oracle.entropy.value, snapshot.value.revision), old(outbox.sequence);
         && step == LifetimeRotated(previous.id, next.id, next.revision, reason)
         && authority.lifetime == Some(next)
         && outbox.log == old(outbox.log)
              + [Sent(n + 1, Invalidate(previous.id, previous.revision, reason)),
                 Sent(n + 2, ControlProtocol.Lifetime(next.id, next.revision)),
                 Sent(n + 3, Projection(next.id, next.revision, snapshot.value.projection)), Did(step)]
    }

    /** Withdraw, and be able to announce the successor that could be announced with it. */
    method WithdrawFor(reason: Reason, ghost rest: seq<Body>) returns (r: Result<(), HelperError>)
      requires Valid() && Active() && reason in {RegistryMutation, Reset}
      modifies this, outbox, stream, writer
      ensures SameCount()
      ensures r.Ok? ==>
                && Wired() && Active() && Rotatable() && phase == old(phase) && inSequence == old(inSequence)
                && authority == Retiring(old(authority)).(pending := None)
                && OwnMutation(outbox.mem.lastSent) == (reason == RegistryMutation)
                && outbox.mem.lifetimes == old(outbox.mem.lifetimes) && Went(1)
      ensures r.Err? ==> Valid() && phase == Revoked
      ensures old(outbox.Carries([Withdrawal(authority.lifetime.value, reason)] + rest)) ==> r.Ok? && outbox.Carries(rest)
      ensures r.Err? ==> Blamed(r.error) && SendTrouble(r.error)
      ensures r.Ok? ==>
        outbox.log == old(outbox.log)
          + [Sent(old(outbox.sequence) + 1, Withdrawal(old(authority).lifetime.value, reason))]
    {
      hide Outbox.Valid, May, Then, Outbox.FitsFrom, Fair, Blamed;
      ghost var first := [Withdrawal(authority.lifetime.value, reason)];
      if outbox.Carries(first + rest) {
        outbox.FitsSplit(outbox.sequence, first, rest);
      }
      r := Withdraw(reason);
    }

    /**
     * Withdraw the lifetime, let the caller mutate the registry, and announce a successor
     * at exactly the next feed revision.
     */
    method RegistryMutated(oracle: Oracle) returns (r: Result<ControlProtocol.Step, HelperError>)
      requires Valid()
      modifies this, outbox, stream, writer
      ensures firstRevision == old(firstRevision) && mutations == old(mutations) + (if r.Ok? then 1 else 0)
      ensures Valid()
      ensures old(Inactive()).Some? ==> r == Err(old(Inactive()).value) && Kept() && stream.outbound == old(stream.outbound)
      ensures r.Err? && old(Inactive()).None? ==> phase == Revoked
      ensures r.Ok? ==>
                && phase == Ready && Reported(r.value) && inSequence == old(inSequence)
                && r.value.LifetimeRotated? && r.value.revision == old(authority).lifetime.value.revision + 1
                && authority.lifetime.value.revision == r.value.revision && Went(3)
                && outbox.mem.lifetimes == old(outbox.mem.lifetimes) + [authority.lifetime.value]
      ensures old(Active()) && old(Mutable(oracle)) ==> r.Ok?
      ensures r.Err? && old(Active()) ==> Blamed(r.error) && RefusesMutation(old(authority), oracle, r.error)
      ensures r.Ok? ==> RotatedBy(old(authority).lifetime.value, oracle, oracle.mutated, RegistryMutation, r.value)
    {
      hide Outbox.Valid, May, Then, Outbox.FitsFrom, Fair, Blamed, Valid, Rotations, StartsAt;
      var inactive := Inactive();
      if inactive.Some? { return Err(inactive.value); }
      LiveIsClean();
      var current := authority.lifetime.value;
      if current.revision >= U64_MAX {
        var e := Fail(VersionFault());
        return Err(e);
      }
      if oracle.snapshot.Err? {
        var e := Fail(RegistryFault(oracle.snapshot.error));
        return Err(e);
      }
      if oracle.snapshot.value.revision != current.revision {
        var e := Fail(ProtocolFault(StaleAuthority));
        return Err(e);
      }
      ghost var next := if oracle.mutated.Ok? && oracle.entropy.Some?
        then Announces(Announced(oracle.entropy.value, current.revision + 1), oracle.mutated.value.projection) else [];
      var sent := WithdrawFor(RegistryMutation, next);
      if sent.Err? { return Err(sent.error); }
      r := AnnounceMutated(oracle);
    }

    /** With the lifetime withdrawn: mutate, read the registry again and announce the successor. */
    method AnnounceMutated(oracle: Oracle) returns (r: Result<ControlProtocol.Step, HelperError>)
      requires Wired() && Active() && Rotatable() && OwnMutation(outbox.mem.lastSent) && authority.lifetime.Some?
      requires authority.lifetime.value.revision == firstRevision + mutations < U64_MAX
      modifies this, outbox, stream, writer
      ensures firstRevision == old(firstRevision) && mutations == old(mutations) + (if r.Ok? then 1 else 0)
      ensures Valid()
      ensures r.Err? ==>
        && phase == Revoked && Blamed(r.error)
        && (if oracle.mutation.Err? then r.error == Registry(oracle.mutation.error)
            else if !SnapshotAt(oracle.mutated, old(authority).lifetime.value.revision + 1) then
              BadSnapshot(oracle.mutated, old(authority).lifetime.value.revision + 1, Registry(InvalidRevision), r.error)
            else if BadLifetimeId(old(authority), oracle) then r.error == RandomUnavailable else SendTrouble(r.error))
      ensures r.Ok? ==>
        && phase == Ready && Reported(r.value) && inSequence == old(inSequence) && Went(2)
        && oracle.entropy.Some? && SnapshotAt(oracle.mutated, old(authority).lifetime.value.revision + 1)
        && var next := Announced(oracle.entropy.value, oracle.mutated.value.revision);
           && r.value == LifetimeRotated(old(authority).lifetime.value.id, next.id, next.revision, RegistryMutation)
           && authority.lifetime == Some(next) && outbox.mem.lifetimes == old(outbox.mem.lifetimes) + [next]
           && outbox.log == old(outbox.log)
                + [Sent(old(outbox.sequence) + 1, ControlProtocol.Lifetime(next.id, next.revision)),
                   Sent(old(outbox.sequence) + 2, Projection(next.id, next.revision, oracle.mutated.value.projection)), Did(r.value)]
      ensures
        && oracle.mutation.Ok? && SnapshotAt(oracle.mutated, old(authority).lifetime.value.revision + 1)
        && old(Renewable(oracle.mutated.value, oracle))
        ==> r.Ok?
    {
      hide Outbox.Valid, May, Then, Outbox.FitsFrom, Fair, Blamed, Valid, Rotations, StartsAt;
      if oracle.mutation.Err? {
        var e := Fail(RegistryFault(oracle.mutation.error));
        return Err(e);
      }
      if oracle.mutated.Err? {
        var e := Fail(RegistryFault(oracle.mutated.error));
        return Err(e);
      }
      if oracle.mutated.value.revision != authority.lifetime.value.revision + 1 {
        var e := Fail(RegistryFault(InvalidRevision));
        return Err(e);
      }
      r := Renew(oracle.mutated.value, RegistryMutation, oracle);
    }

    /** Replace the lifetime without changing the registry or its revision. */
    method ResetLifetime(oracle: Oracle) returns (r: Result<ControlProtocol.Step, HelperError>)
      requires Valid()
      modifies this, outbox, stream, writer
      ensures SameCount()
      ensures Valid()
      ensures old(Inactive()).Some? ==> r == Err(old(Inactive()).value) && Kept() && stream.outbound == old(stream.outbound)
      ensures r.Err? && old(Inactive()).None? ==> phase == Revoked
      ensures r.Ok? ==>
                && phase == Ready && Reported(r.value) && inSequence == old(inSequence)
                && r.value.LifetimeRotated? && r.value.revision == old(authority).lifetime.value.revision
                && authority.lifetime == Some(Announced(r.value.current, r.value.revision)) && Some(r.value.current) == oracle.entropy
                && outbox.mem.lifetimes == old(outbox.mem.lifetimes) + [authority.lifetime.value] && Went(3)
                && authority == Succeeded(old(authority), authority.lifetime.value)
      ensures old(Active()) && old(Resettable(oracle)) ==> r.Ok?
      ensures r.Err? && old(Active()) ==> Blamed(r.error) && RefusesReset(old(authority), oracle, r.error)
      ensures r.Ok? ==> RotatedBy(old(authority).lifetime.value, oracle, oracle.snapshot, Reset, r.value)
    {
      hide Outbox.Valid, May, Then, Outbox.FitsFrom, Fair, Blamed, Valid, Rotations, StartsAt;
      var inactive := Inactive();
      if inactive.Some? { return Err(inactive.value); }
      LiveIsClean();
      var current := authority.lifetime.value;
      ghost var next := if oracle.snapshot.Ok? && oracle.entropy.Some?
        then Announces(Announced(oracle.entropy.value, current.revision), oracle.snapshot.value.projection) else [];
      var sent := WithdrawFor(Reset, next);
      if sent.Err? { return Err(sent.error); }
      if oracle.snapshot.Err? {
        var e := Fail(RegistryFault(oracle.snapshot.error));
        return Err(e);
      }
      if oracle.snapshot.value.revision != current.revision {
        var e := Fail(ProtocolFault(StaleAuthority));
        return Err(e);
      }
      r := Renew(oracle.snapshot.value, Reset, oracle);
    }

    /** Close locally: terminal, and nothing more is written. */
    method Close()
      requires Valid()
      modifies this, writer
      ensures SameCount()
      ensures Valid() && phase == Revoked && outbox.log == old(outbox.log)
      ensures revocation == if old(phase) == Revoked then old(revocation) else Some(LocalClose)
    {
      if phase == Revoked { return; }
      phase := Revoked;
      revocation := Some(LocalClose);
      ClearAuthority();
    }
  }
}
