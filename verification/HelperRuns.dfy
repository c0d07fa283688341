/**
 * Whole runs of the helper: any sequence of public calls, against any peer, registry,
 * random source and stream, and the driver loop of crates/bitty-ai-control/src/entrypoint.rs.
 */
module HelperRuns {
  import opened Bytes
  import opened Results
  import opened Streams
  import opened Framing
  import opened ControlProtocol
  import opened O = Outbox
  import opened HelperControl
  import opened HelperState

  datatype Call =
    | CallEstablish(oracle: Oracle)
    | CallStep(oracle: Oracle)
    | CallMutate(oracle: Oracle)
    | CallReset(oracle: Oracle)
    | CallClose

  /** What the records of a run look like, whatever happened around them. */
  ghost predicate RunLaws(log: seq<Event>) {
    RecordLaws(log) && PublicationLaws(log) && LifetimeLaws(log)
  }

  /** The language of the records, their sequences, and their end. */
  ghost predicate RecordLaws(log: seq<Event>) {
    && (exists eras :: Parses(Word(log), MemoryOf(log).stage, eras))
    && (forall i :: 0 <= i < |log| && IsSent(log[i]) ==> log[i].sequence == |SentBodies(log[..i])| + 1)
    && (forall i :: 0 <= i < |log| && IsSent(log[i]) && log[i].body.Error? ==> i == |log| - 1)
  }

  /** What stands behind acknowledgements and receipts. */
  ghost predicate PublicationLaws(log: seq<Event>) {
    && (forall i :: 0 <= i < |log| && IsBound(log[i]) ==> BoundIsBacked(log, i))
    && (forall i, j :: 0 <= i < j < |log| && IsBound(log[i]) && IsBound(log[j]) ==> VersionsIncrease(log[i].body, log[j].body))
    && (forall i, j :: 0 <= i < j < |log| && IsAck(log[i]) && IsAck(log[j]) ==> VersionsIncrease(log[i].body, log[j].body))
    && (forall i, j :: 0 <= i < j < |log| && IsAck(log[i]) && IsAck(log[j]) ==>
          exists k :: i < k < j && (IsBound(log[k]) || IsRotation(log[k])))
    && (forall i, j :: 0 <= i < j < |log| && NextBound(log, i, j) ==> log[i].body.receipt != log[j].body.receipt)
    && (forall n :: 0 <= n <= |log| ==> AnswersPublication(log[..n], MemoryOf(log[..n])))
  }

  /** How lifetimes, their revisions and their correlation follow one another. */
  ghost predicate LifetimeLaws(log: seq<Event>) {
    && (forall i, j :: 0 <= i < j < |log| && IsCorrelation(log[i]) && IsCorrelation(log[j]) ==>
          exists k :: i < k < j && IsRotation(log[k]))
    && (forall i, j :: 0 <= i < j < |Lifetimes(log)| && j <= i + 2 ==> Lifetimes(log)[i].id != Lifetimes(log)[j].id)
    && (forall i :: 0 <= i < |log| && IsProjection(log[i]) ==> RevisionIsCounted(log, i))
  }

  ghost predicate BoundIsBacked(log: seq<Event>, i: nat)
    requires i < |log| && IsBound(log[i])
  {
    Backed(log, i) && Current(MemoryOf(log[..i]), log[i].body.lifetime, log[i].body.revision)
  }

  /** Two receipts with none between them. */
  ghost predicate NextBound(log: seq<Event>, i: nat, j: nat)
    requires i < j < |log|
  {
    IsBound(log[i]) && IsBound(log[j]) && forall k :: i < k < j ==> !IsBound(log[k])
  }

  ghost predicate RevisionIsCounted(log: seq<Event>, i: nat)
    requires i < |log| && IsProjection(log[i])
  {
    && Lifetimes(log) != []
    && log[i].body.revision == Lifetimes(log)[0].revision + OwnRotations(SentBodies(log[..i + 1]))
  }

  predicate VersionsIncrease(a: Body, b: Body)
    requires (a.Bound? || a.Ack?) && (b.Bound? || b.Ack?)
  {
    a.tuple.publicationId.version < b.tuple.publicationId.version
  }

  lemma {:induction false} RecordsAreLawful(log: seq<Event>)
    requires Lawful(log)
    ensures RecordLaws(log)
  {
    var eras := WordsOfRuns(log);
    forall i | 0 <= i < |log| && IsSent(log[i]) ensures log[i].sequence == |SentBodies(log[..i])| + 1 {
      SequencesAreConsecutive(log, i);
    }
    forall i | 0 <= i < |log| && IsSent(log[i]) && log[i].body.Error? ensures i == |log| - 1 {
      ErrorIsLast(log, i);
    }
  }

  lemma {:induction false} PublicationsAreLawful(log: seq<Event>)
    requires Lawful(log)
    ensures PublicationLaws(log)
  {
    hide Backed, AnswersPublication;
    forall i | 0 <= i < |log| && IsBound(log[i]) ensures BoundIsBacked(log, i) {
      EveryBoundIsBacked(log, i);
    }
    forall i, j | 0 <= i < j < |log| && IsBound(log[i]) && IsBound(log[j]) ensures VersionsIncrease(log[i].body, log[j].body) {
      BoundVersionsIncrease(log, i, j);
    }
    forall i, j | 0 <= i < j < |log| && IsAck(log[i]) && IsAck(log[j]) ensures VersionsIncrease(log[i].body, log[j].body) {
      AckVersionsIncrease(log, i, j);
    }
    forall i, j | 0 <= i < j < |log| && IsAck(log[i]) && IsAck(log[j])
      ensures exists k :: i < k < j && (IsBound(log[k]) || IsRotation(log[k]))
    {
      AcksAreSeparated(log, i, j);
    }
    forall i, j | 0 <= i < j < |log| && NextBound(log, i, j) ensures log[i].body.receipt != log[j].body.receipt {
      ReceiptsAreFresh(log, i, j);
    }
    forall n | 0 <= n <= |log| ensures AnswersPublication(log[..n], MemoryOf(log[..n])) {
      LawfulPrefix(log, n);
      RetainedIsPublished(log[..n]);
    }
  }

  lemma {:induction false} LifetimesAreLawful(log: seq<Event>)
    requires Lawful(log)
    ensures LifetimeLaws(log)
  {
    forall i, j | 0 <= i < j < |log| && IsCorrelation(log[i]) && IsCorrelation(log[j])
      ensures exists k :: i < k < j && IsRotation(log[k])
    {
      CorrelatedOncePerRotation(log, i, j);
    }
    forall i, j | 0 <= i < j < |Lifetimes(log)| && j <= i + 2 ensures Lifetimes(log)[i].id != Lifetimes(log)[j].id {
      ConsecutiveLifetimesDiffer(log, i, j);
    }
    forall i | 0 <= i < |log| && IsProjection(log[i]) ensures RevisionIsCounted(log, i) {
      RevisionsCountMutations(log, i);
    }
  }

  lemma {:induction false} LawfulRunsObeyRunLaws(log: seq<Event>)
    requires Lawful(log)
    ensures RunLaws(log)
  {
    hide RecordLaws, PublicationLaws, LifetimeLaws;
    RecordsAreLawful(log);
    PublicationsAreLawful(log);
    LifetimesAreLawful(log);
  }

  /** How many of the calls were registry mutations that succeeded. */
  function Mutations(calls: seq<Call>, done: seq<bool>): nat
    requires |calls| == |done|
  {
    if calls == [] then 0
    else
      var n := |calls| - 1;
      Mutations(calls[..n], done[..n]) + (if calls[n].CallMutate? && done[n] then 1 else 0)
  }

  method OneCall(helper: Helper, call: Call) returns (done: bool)
    requires helper.Valid()
    modifies helper, helper.outbox, helper.stream, helper.writer
    ensures helper.Valid()
    ensures helper.mutations == old(helper.mutations) + (if call.CallMutate? && done then 1 else 0)
    ensures old(helper.phase) != AwaitingEstablish ==> helper.firstRevision == old(helper.firstRevision)
    ensures old(helper.phase) != AwaitingEstablish ==> helper.phase != AwaitingEstablish
    ensures old(helper.phase) == Revoked ==> helper.phase == Revoked && helper.stream.outbound == old(helper.stream.outbound)
  {
    hide Outbox.Valid;
    match call {
      case CallEstablish(oracle) =>
        var r := helper.Establish(oracle);
        done := r.Ok?;
      case CallStep(oracle) =>
        var r := helper.Step(oracle);
        done := r.Ok?;
      case CallMutate(oracle) =>
        var r := helper.RegistryMutated(oracle);
        done := r.Ok?;
      case CallReset(oracle) =>
        var r := helper.ResetLifetime(oracle);
        done := r.Ok?;
      case CallClose =>
        helper.Close();
        done := true;
    }
  }

  // ---------------------------------------------------------------- a fourth lifetime like the first

  /** The answers of a world that draws `id` and whose registry stands at `snapshot`. */
  function Drawing(id: Id, snapshot: Snapshot): Oracle {
    Oracle(true, Ok(snapshot), Ok(()), Ok(snapshot), Ok(true), Some(id), true)
  }

  /** The three records that replace `from` by `to`. */
  function Replacement(from: Id, to: Id, snapshot: Snapshot): seq<Body> {
    [Withdrawal(Announced(from, snapshot.revision), Reset)] + Announces(Announced(to, snapshot.revision), snapshot.projection)
  }

  /** Reset to an identifier the last two lifetimes do not use. */
  method ResetTo(helper: Helper, id: Id, snapshot: Snapshot, ghost rest: seq<Body>)
    requires helper.Valid() && helper.Active() && Unused(helper.outbox.mem, id)
    requires var l := helper.outbox.mem.lifetimes;
      && l != [] && l[|l| - 1].revision == snapshot.revision
      && helper.outbox.Carries(Replacement(l[|l| - 1].id, id, snapshot) + rest)
    modifies helper, helper.outbox, helper.stream, helper.writer
    ensures helper.Valid() && helper.Active() && helper.outbox.Carries(rest)
    ensures helper.outbox.mem.lifetimes == old(helper.outbox.mem.lifetimes) + [Announced(id, snapshot.revision)]
  {
    hide Outbox.Valid, Outbox.FitsFrom, Publications;
    helper.MintsTheUnused(Drawing(id, snapshot), snapshot.revision);
    helper.outbox.FitsSplit(helper.outbox.sequence, Replacement(helper.authority.lifetime.value.id, id, snapshot), rest);
    var r := helper.ResetLifetime(Drawing(id, snapshot));
  }

  /**
   * A session established with `a` and then reset to `b`, to `c` and to `a` again announces all
   * four: the collision check looks back two lifetimes and no further.
   */
  method FourthLifetimeRepeats(helper: Helper, a: Id, b: Id, c: Id, snapshot: Snapshot)
    requires a != b && b != c && a != c
    requires helper.Valid() && helper.phase == AwaitingEstablish && helper.inSequence == 0
    requires ReadFails !in helper.stream.readPlan
    requires helper.Incoming(Drawing(a, snapshot)) == Ok(Record(Core, 1, helper.session, Establish(helper.expectations)))
    requires helper.outbox.Carries(
      Opens(helper.expectations, Announced(a, snapshot.revision), snapshot.projection)
      + (Replacement(a, b, snapshot) + (Replacement(b, c, snapshot) + (Replacement(c, a, snapshot) + []))))
    modifies helper, helper.outbox, helper.stream, helper.writer
    ensures helper.Valid() && helper.Active()
    ensures var at := snapshot.revision;
      Lifetimes(helper.outbox.log) == [Announced(a, at), Announced(b, at), Announced(c, at), Announced(a, at)]
  {
    hide Outbox.Valid, Outbox.FitsFrom, ReadFlat, Publications;
    ghost var third := Replacement(c, a, snapshot) + [];
    ghost var second := Replacement(b, c, snapshot) + third;
    ghost var first := Replacement(a, b, snapshot) + second;
    helper.outbox.FitsSplit(
      helper.outbox.sequence, Opens(helper.expectations, Announced(a, snapshot.revision), snapshot.projection), first);
    var r := helper.Establish(Drawing(a, snapshot));
    ResetTo(helper, b, snapshot, second);
    ResetTo(helper, c, snapshot, third);
    ResetTo(helper, a, snapshot, []);
    helper.outbox.LogIsLawful();
  }

  /**
   * Every run of public calls, however its environment answers, obeys the run laws; while the
   * session is live its revision is the first one announced plus the mutations that succeeded.
   */
  method AnyRun(helper: Helper, calls: seq<Call>) returns (done: seq<bool>)
    requires helper.Valid()
    modifies helper, helper.outbox, helper.stream, helper.writer
    ensures helper.Valid() && RunLaws(helper.outbox.log) && |done| == |calls|
    ensures OwnAcks(helper.session, SentBodies(helper.outbox.log))
    ensures helper.mutations == old(helper.mutations) + Mutations(calls, done)
    ensures old(helper.phase) != AwaitingEstablish ==> helper.firstRevision == old(helper.firstRevision)
    ensures helper.Active() ==>
      && Lifetimes(helper.outbox.log) != [] && helper.firstRevision == Lifetimes(helper.outbox.log)[0].revision
      && helper.authority.lifetime.Some?
      && helper.authority.lifetime.value.revision == helper.firstRevision + old(helper.mutations) + Mutations(calls, done)
    ensures old(helper.phase) == Revoked ==> helper.phase == Revoked && helper.stream.outbound == old(helper.stream.outbound)
  {
    hide Outbox.Valid, RunLaws;
    done := [];
    for i := 0 to |calls|
      invariant helper.Valid() && |done| == i
      invariant helper.mutations == old(helper.mutations) + Mutations(calls[..i], done)
      invariant old(helper.phase) != AwaitingEstablish ==> helper.phase != AwaitingEstablish
      invariant old(helper.phase) != AwaitingEstablish ==> helper.firstRevision == old(helper.firstRevision)
      invariant old(helper.phase) == Revoked ==> helper.phase == Revoked && helper.stream.outbound == old(helper.stream.outbound)
    {
      var ok := OneCall(helper, calls[i]);
      assert calls[..i + 1][..i] == calls[..i] && (done + [ok])[..i] == done;
      done := done + [ok];
    }
    assert calls[..|calls|] == calls;
    helper.outbox.LogIsLawful();
    LawfulRunsObeyRunLaws(helper.outbox.log);
    if helper.Active() {
      helper.StateInvariant();
      helper.CountersAreLogged();
    }
  }

  /** The records of a session as the peer should decode them. */
  function Records(session: Id, bodies: seq<Body>): seq<Record> {
    seq(|bodies|, k requires 0 <= k < |bodies| => Record(Helper, k + 1, session, bodies[k]))
  }

  /** Every frame the codec produces is one the reader accepts, and decodes back. */
  ghost predicate CodecReadsBack(limits: Limits, codec: Codec<Record>) {
    forall r :: codec.encode(r).Some? ==> Readable(limits, codec, codec.encode(r).value, r)
  }

  lemma {:induction false} FramesAreReadable(limits: Limits, codec: Codec<Record>, session: Id, bodies: seq<Body>, frames: seq<seq<Byte>>, i: nat)
    requires CodecReadsBack(limits, codec) && Encodes(codec, session, bodies, frames) && i < |frames|
    ensures Readable(limits, codec, frames[i], Records(session, bodies)[i])
  {
    assert EncodesAt(codec, session, bodies, frames, i);
    assert codec.encode(Record(Helper, i + 1, session, bodies[i])).Some?;
  }

  /**
   * A peer with the same codec and limits reads back exactly the records of the run, in
   * order, and then finds the stream closed or cut inside one frame.
   */
  lemma {:induction false} PeerReadsTheRun(outbox: Outbox)
    requires outbox.Valid() && CodecReadsBack(outbox.limits, outbox.codec)
    requires outbox.limits.headerBytes <= outbox.limits.frameMax
    ensures outbox.base <= outbox.stream.outbound
    ensures var (records, end) := Drain(outbox.limits, outbox.codec, outbox.stream.outbound[|outbox.base|..]);
            && records == Records(outbox.session, SentBodies(outbox.log))
            && (if outbox.torn == [] then end == Closed else end.TruncatedPrefix? || end.TruncatedBody?)
  {
    var written := WireForm(outbox.frames) + outbox.torn;
    assert outbox.stream.outbound == outbox.base + written;
    assert outbox.stream.outbound[|outbox.base|..] == written;
    WireReadsBack(outbox.limits, outbox.codec, outbox.session, outbox.bodies, outbox.frames, outbox.cut, outbox.torn);
  }

  lemma {:induction false} WireReadsBack(
    limits: Limits, codec: Codec<Record>, session: Id, bodies: seq<Body>, frames: seq<seq<Byte>>, cut: seq<Byte>, torn: seq<Byte>)
    requires CodecReadsBack(limits, codec) && Encodes(codec, session, bodies, frames)
    requires torn != [] ==> IsFrame(codec, cut)
    requires limits.headerBytes <= limits.frameMax && torn <= FrameWire(cut) && |torn| < |FrameWire(cut)|
    ensures var (records, end) := Drain(limits, codec, WireForm(frames) + torn);
            && records == Records(session, bodies)
            && (if torn == [] then end == Closed else end.TruncatedPrefix? || end.TruncatedBody?)
  {
    forall i | 0 <= i < |frames| ensures Readable(limits, codec, frames[i], Records(session, bodies)[i]) {
      FramesAreReadable(limits, codec, session, bodies, frames, i);
    }
    if torn != [] {
      var r :| codec.encode(r) == Some(cut);
      assert Readable(limits, codec, cut, r);
    }
    var next := if torn == [] then seq(limits.headerBytes, _ => 0) else cut;
    assert torn == FrameWire(next)[..|torn|];
    ReadsBackInOrder(limits, codec, frames, Records(session, bodies), next, |torn|);
  }

  // ---------------------------------------------------------------- the driver loop

  datatype HelperExit = ExitAuthorityClosed | ExitPeerClosed | ExitEstablish | ExitControl

  /**
   * Establish, then step until authority closes. The loop ends because every step that
   * does not end it consumes one of finitely many incoming sequence numbers, and the exit
   * tells why authority was revoked.
   */
  method Drive(helper: Helper, oracles: nat -> Oracle) returns (exit: HelperExit)
    requires helper.Valid() && helper.phase == AwaitingEstablish
    modifies helper, helper.outbox, helper.stream, helper.writer
    ensures helper.Valid() && helper.phase == Revoked
    ensures exit == ExitAuthorityClosed <==> helper.revocation == Some(PeerWithdrewAuthority)
    ensures exit == ExitPeerClosed <==> helper.revocation == Some(PeerReported)
  {
    hide Outbox.Valid;
    var established := helper.Establish(oracles(0));
    if established.Err? { return ExitEstablish; }
    var n := 1;
    while true
      invariant helper.Valid() && helper.Active()
      decreases U64_MAX - helper.inSequence
    {
      var stepped := helper.Step(oracles(n));
      n := n + 1;
      match stepped {
        case Ok(AuthorityClosed(_)) => return ExitAuthorityClosed;
        case Ok(PeerError(_)) => return ExitPeerClosed;
        case Ok(_) =>
        case Err(_) => return ExitControl;
      }
    }
  }
}
