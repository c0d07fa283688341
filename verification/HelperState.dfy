/**
 * What the helper of crates/bitty-ai-control/src/state.rs holds and hears, as values: its
 * authority, the answers of the outside world, what each record is answered or refused with, and
 * how the state agrees with the session log.
 */
module HelperState {
  import opened Bytes
  import opened Results
  import opened Framing
  import opened Establishment
  import opened ControlProtocol
  import opened O = Outbox

  datatype RegistryError = RegistryUnavailable | InvalidRevision

  datatype SnapshotShape = Snapshot(revision: nat, projection: Payload)

  /** A snapshot is only built with a non-zero revision. */
  type Snapshot = s: SnapshotShape | 0 < s.revision <= U64_MAX witness SnapshotShape.Snapshot(1, Payload([]))

  /** The answers the outside world gives during one public call. */
  datatype Oracle = Oracle(
    allocates: bool,                                // the record buffer can be reserved
    snapshot: Result<Snapshot, RegistryError>,      // the first registry read
    mutation: Result<(), RegistryError>,            // the caller's registry mutation
    mutated: Result<Snapshot, RegistryError>,       // the registry read after it
    matches: Result<bool, RegistryError>,           // the retained-bytes comparison
    entropy: Option<Id>,                            // the next random identifier
    secret: bool)                                   // the lifetime secret could be filled

  datatype Phase = AwaitingEstablish | Ready | AwaitingBind | Revoked

  datatype RevocationReason =
    | ControlTransport | ProtocolViolation | EstablishmentRefused | RegistryFailed | RetainedMismatch
    | LimitReached | RandomFailed | Exhausted | PeerReported | PeerWithdrewAuthority | LocalClose

  datatype HelperError =
    | Frame(error: FrameError) | RecordRejected
    | EstablishmentMismatch(field: string)
    | SessionMismatch | SequenceMismatch | UnexpectedRecord(body: Body) | UnexpectedSender(sender: Sender)
    | CoreRegistryMutation | StaleAuthority
    | PublicationAlreadyPending | PublicationIdentityMismatch | PublicationVersionNotIncreasing
    | NoPendingBind | BindMismatch | RetainedBytesMismatch
    | Registry(why: RegistryError)
    | RandomUnavailable | VersionExhausted
    | PeerFailure(code: ErrorCode)
    | NotEstablished | AlreadyEstablished | AlreadyClosed

  /** What a live session holds, and what a revoked one no longer holds. */
  datatype Authority = Authority(
    lifetime: Option<Announced>,
    predecessor: Option<Announced>,   // open to one crossed invalidation
    retiredLifetime: Option<Id>,      // identifiers kept for collision checks only
    retiredReceipt: Option<Id>,
    pending: Option<Pending>,
    receipt: Option<ActiveReceipt>)

  const NO_AUTHORITY := Authority(None, None, None, None, None, None)

  datatype Pending = Pending(lifetime: Id, revision: nat, tuple: Tuple, retained: seq<Byte>, ackId: Id)
  datatype ActiveReceipt = ActiveReceipt(tuple: Tuple, receipt: Id)
  datatype Fault = Fault(error: HelperError, reason: RevocationReason, code: Option<ErrorCode>)

  function ProtocolFault(error: HelperError): (f: Fault)
    ensures PlainError(error) ==> Fair(f)
  {
    Fault(error, ProtocolViolation, Some(InvalidControl))
  }
  function RegistryFault(why: RegistryError): (f: Fault)
    ensures Fair(f)
  {
    Fault(Registry(why), RegistryFailed, Some(ErrorCode.Unavailable))
  }
  function RetainedFault(): (f: Fault)
    ensures Fair(f)
  {
    Fault(RetainedBytesMismatch, RetainedMismatch, Some(InvalidControl))
  }
  function EstablishmentFault(field: string): (f: Fault)
    ensures Fair(f)
  {
    Fault(EstablishmentMismatch(field), EstablishmentRefused, Some(InvalidControl))
  }
  function VersionFault(): (f: Fault)
    ensures Fair(f)
  {
    Fault(VersionExhausted, Exhausted, Some(ResourceLimit))
  }
  function RandomFault(error: HelperError): (f: Fault)
    ensures error == RandomUnavailable ==> Fair(f)
  {
    Fault(error, RandomFailed, Some(ErrorCode.Unavailable))
  }

  function FromFrameError(error: FrameError): HelperError {
    if error.BadRecord? then RecordRejected else Frame(error)
  }

  function ReadFault(error: FrameError): (f: Fault)
    ensures Fair(f) && f.error == FromFrameError(error)
  {
    var e := FromFrameError(error);
    match error
    case Closed => Fault(e, ControlTransport, None)
    case TruncatedPrefix(_) => Fault(e, ControlTransport, None)
    case TruncatedBody(_, _) => Fault(e, ControlTransport, None)
    case Io => Fault(e, ControlTransport, None)
    case WriteZero => Fault(e, ControlTransport, None)
    case AllocationFailed(_) => Fault(e, LimitReached, Some(ResourceLimit))
    case QueueFull(_) => Fault(e, LimitReached, Some(ResourceLimit))
    case ByteBudgetExceeded(_) => Fault(e, LimitReached, Some(ResourceLimit))
    case _ => ProtocolFault(e)
  }

  function SendFault(error: SendError): (f: Fault)
    ensures error.Refused? && error.error in {BadRecord, ZeroLength, FrameTooLarge, Io, WriteZero} ==> Fair(f) && f.code.None?
    ensures error.SequenceExhausted? ==> Fair(f) && f.code.None?
    ensures SendTrouble(f.error)
  {
    match error
    case SequenceExhausted => Fault(VersionExhausted, Exhausted, None)
    case Refused(e) =>
      if e.AllocationFailed? || e.QueueFull? || e.ByteBudgetExceeded?
      then Fault(Frame(e), LimitReached, Some(ResourceLimit))
      else Fault(FromFrameError(e), ControlTransport, None)
  }

  /** Exact-next sequence check on 64-bit counters. */
  predicate ExactNext(last: nat, sequence: nat) {
    last < U64_MAX && sequence == last + 1
  }

  predicate Terminal(step: Step) {
    step.AuthorityClosed? || step.PeerError?
  }

  predicate Withdraws(reason: Reason) {
    reason in {GrantLoss, Shutdown}
  }

  // ---------------------------------------------------------------- what a record is answered with

  /**
   * The answer to a record from the Core: the step reported and the phase after it, given the
   * state before.
   */
  predicate Answers(body: Body, session: Id, a: Authority, lastVersion: nat, oracle: Oracle, step: Step, phase: Phase) {
    match body
    case Publish(lifetime, revision, tuple, _) =>
      && a.lifetime == Some(Announced(lifetime, revision)) && a.pending.None?
      && tuple.publicationId.launchNonce == session && tuple.publicationId.version > lastVersion
      && !BadReceiptId(a, oracle) && step == Published(tuple) && phase == AwaitingBind
    case Bind(lifetime, revision, tuple, ackId) =>
      && a.pending.Some? && a.pending.value == Pending(lifetime, revision, tuple, a.pending.value.retained, ackId)
      && oracle.matches == Ok(true) && oracle.entropy.Some? && oracle.entropy.value != ackId
      && oracle.entropy != a.retiredReceipt && step == NowBound(tuple, oracle.entropy.value) && phase == Ready
    case Invalidate(lifetime, revision, reason) =>
      var named := Some(Announced(lifetime, revision));
      && reason != RegistryMutation && (a.lifetime == named || a.predecessor == named)
      && (if reason in {GrantLoss, Shutdown} then step == AuthorityClosed(reason) && phase == Revoked
          else if a.lifetime == named then
            && !BadLifetimeId(a, oracle) && SnapshotAt(oracle.snapshot, revision)
            && step == LifetimeRotated(lifetime, oracle.entropy.value, revision, reason) && phase == Ready
          else step == PredecessorCorrelated && phase in {Ready, AwaitingBind})
    case Error(code) => step == PeerError(code) && phase == Revoked
    case _ => false
  }

  /** What the log gains between the record and the step: `n` records were sent before. */
  function Replies(body: Body, a: Authority, oracle: Oracle, n: nat): seq<Event> {
    var id := if oracle.entropy.Some? then oracle.entropy.value else Id([]);
    match body
    case Publish(lifetime, revision, tuple, _) => [Sent(n + 1, Ack(lifetime, revision, tuple, id))]
    case Bind(lifetime, revision, tuple, _) =>
      var retained := if a.pending.Some? then a.pending.value.retained else [];
      [Compared(revision, retained, true), Sent(n + 1, Bound(lifetime, revision, tuple, id))]
    case Invalidate(lifetime, revision, reason) =>
      if reason in {GrantLoss, Shutdown} || a.lifetime != Some(Announced(lifetime, revision)) || oracle.snapshot.Err? then []
      else
        [Sent(n + 1, ControlProtocol.Lifetime(id, revision)),
         Sent(n + 2, Projection(id, revision, oracle.snapshot.value.projection))]
    case _ => []
  }

  /** The random source failed, or its identifier is the last receipt's. */
  predicate BadReceiptId(a: Authority, oracle: Oracle) {
    oracle.entropy.None? || oracle.entropy == LastReceiptOf(a) || oracle.entropy == a.retiredReceipt
  }

  /** The random source failed, or its identifier is that of a lifetime still remembered. */
  predicate BadLifetimeId(a: Authority, oracle: Oracle) {
    || oracle.entropy.None? || !oracle.secret || oracle.entropy == a.retiredLifetime
    || (a.lifetime.Some? && oracle.entropy == Some(a.lifetime.value.id))
    || (a.predecessor.Some? && oracle.entropy == Some(a.predecessor.value.id))
  }

  /** What a failed send is reported as. */
  predicate SendTrouble(e: HelperError) { e.VersionExhausted? || e.RecordRejected? || e.Frame? }

  /** A registry read that failed, or that stands at another revision. */
  predicate BadSnapshot(snapshot: Result<Snapshot, RegistryError>, revision: nat, stale: HelperError, e: HelperError) {
    if snapshot.Err? then e == Registry(snapshot.error) else snapshot.value.revision != revision && e == stale
  }

  predicate SnapshotAt(snapshot: Result<Snapshot, RegistryError>, revision: nat) {
    snapshot.Ok? && snapshot.value.revision == revision
  }

  /** Why a record is refused: the first of these that applies. */
  predicate Refuses(body: Body, session: Id, a: Authority, lastVersion: nat, oracle: Oracle, e: HelperError) {
    match body
    case Publish(lifetime, revision, tuple, _) =>
      var current, id := a.lifetime == Some(Announced(lifetime, revision)), tuple.publicationId;
      && (e == StaleAuthority <==> !current)
      && (e == PublicationAlreadyPending <==> current && a.pending.Some?)
      && (e == PublicationIdentityMismatch <==> current && a.pending.None? && id.launchNonce != session)
      && (e == PublicationVersionNotIncreasing <==>
            current && a.pending.None? && id.launchNonce == session && id.version <= lastVersion)
      && (current && a.pending.None? && id.launchNonce == session && id.version > lastVersion ==>
            if BadReceiptId(a, oracle) then e == RandomUnavailable else SendTrouble(e))
    case Bind(lifetime, revision, tuple, ackId) =>
      if a.pending.None? then e == NoPendingBind
      else if a.pending.value != Pending(lifetime, revision, tuple, a.pending.value.retained, ackId) then e == BindMismatch
      else if oracle.matches.Err? then e == Registry(oracle.matches.error)
      else if !oracle.matches.value then e == RetainedBytesMismatch
      else if oracle.entropy == Some(ackId) || oracle.entropy.None? || oracle.entropy == a.retiredReceipt then e == RandomUnavailable
      else SendTrouble(e)
    case Invalidate(lifetime, revision, reason) =>
      var named := Some(Announced(lifetime, revision));
      if reason == RegistryMutation then e == CoreRegistryMutation
      else if a.lifetime != named then a.predecessor != named && e == StaleAuthority
      else
        && reason !in {GrantLoss, Shutdown}
        && (|| BadSnapshot(oracle.snapshot, revision, StaleAuthority, e)
            || (SnapshotAt(oracle.snapshot, revision)
                && if BadLifetimeId(a, oracle) then e == RandomUnavailable else SendTrouble(e)))
    case Error(_) => false
    case _ => e == UnexpectedRecord(body)
  }

  /** Why a publication is refused, checked in this order. */
  function PublishRefusal(body: Body, session: Id, a: Authority, lastVersion: nat): Option<HelperError>
    requires body.Publish?
  {
    if a.lifetime != Some(Announced(body.lifetime, body.revision)) then Some(StaleAuthority)
    else if a.pending.Some? then Some(PublicationAlreadyPending)
    else if body.tuple.publicationId.launchNonce != session then Some(PublicationIdentityMismatch)
    else if body.tuple.publicationId.version <= lastVersion then Some(PublicationVersionNotIncreasing)
    else None
  }

  lemma {:induction false} PublishIsRefused(body: Body, session: Id, a: Authority, lastVersion: nat, oracle: Oracle, e: HelperError)
    requires body.Publish?
    requires match PublishRefusal(body, session, a, lastVersion)
      case Some(why) => e == why
      case None => if BadReceiptId(a, oracle) then e == RandomUnavailable else SendTrouble(e)
    ensures Refuses(body, session, a, lastVersion, oracle, e)
  {
  }

  lemma {:induction false} PublishRefusalsArePlain(body: Body, session: Id, a: Authority, lastVersion: nat)
    requires body.Publish? && PublishRefusal(body, session, a, lastVersion).Some?
    ensures PlainError(PublishRefusal(body, session, a, lastVersion).value)
  {
  }

  lemma {:induction false} PublishIsAnswered(body: Body, session: Id, a: Authority, lastVersion: nat, oracle: Oracle, n: nat)
    requires body.Publish? && PublishRefusal(body, session, a, lastVersion).None? && !BadReceiptId(a, oracle)
    ensures Answers(body, session, a, lastVersion, oracle, Published(body.tuple), AwaitingBind)
    ensures Replies(body, a, oracle, n) == [Sent(n + 1, Ack(body.lifetime, body.revision, body.tuple, oracle.entropy.value))]
  {
  }

  lemma {:induction false} BindIsAnswered(body: Body, session: Id, a: Authority, lastVersion: nat, oracle: Oracle, n: nat)
    requires body.Bind? && a.pending.Some? && oracle.matches == Ok(true) && oracle.entropy.Some?
    requires var p := a.pending.value;
      && body == Bind(p.lifetime, p.revision, p.tuple, p.ackId)
      && oracle.entropy.value != p.ackId && oracle.entropy != a.retiredReceipt
    ensures Answers(body, session, a, lastVersion, oracle, NowBound(body.tuple, oracle.entropy.value), Ready)
    ensures Replies(body, a, oracle, n)
      == [Compared(body.revision, a.pending.value.retained, true)] + [Sent(n + 1, BoundFor(a.pending.value, oracle.entropy.value))]
  {
  }

  lemma {:induction false} InvalidationIsAnswered(
    body: Body, session: Id, a: Authority, lastVersion: nat, oracle: Oracle, n: nat, phase: Phase)
    requires body.Invalidate? && body.reason != RegistryMutation
    ensures var named := Some(Announced(body.lifetime, body.revision));
      (a.lifetime == named || a.predecessor == named) && body.reason in {GrantLoss, Shutdown} ==>
        && Answers(body, session, a, lastVersion, oracle, AuthorityClosed(body.reason), Revoked)
        && Replies(body, a, oracle, n) == []
    ensures var named := Some(Announced(body.lifetime, body.revision));
      a.lifetime != named && a.predecessor == named && body.reason !in {GrantLoss, Shutdown} && phase in {Ready, AwaitingBind} ==>
        && Answers(body, session, a, lastVersion, oracle, PredecessorCorrelated, phase)
        && Replies(body, a, oracle, n) == []
  {
  }

  lemma {:induction false} RotationIsAnswered(body: Body, session: Id, a: Authority, lastVersion: nat, oracle: Oracle, n: nat)
    requires body.Invalidate? && body.reason !in {RegistryMutation, GrantLoss, Shutdown}
    requires a.lifetime == Some(Announced(body.lifetime, body.revision))
    requires SnapshotAt(oracle.snapshot, body.revision) && !BadLifetimeId(a, oracle)
    ensures Answers(body, session, a, lastVersion, oracle,
                    LifetimeRotated(body.lifetime, oracle.entropy.value, body.revision, body.reason), Ready)
    ensures Replies(body, a, oracle, n)
      == [Sent(n + 1, ControlProtocol.Lifetime(oracle.entropy.value, body.revision)),
          Sent(n + 2, Projection(oracle.entropy.value, body.revision, oracle.snapshot.value.projection))]
  {
  }

  lemma {:induction false} RotationIsRefused(body: Body, session: Id, a: Authority, lastVersion: nat, oracle: Oracle, e: HelperError)
    requires body.Invalidate? && body.reason !in {RegistryMutation, GrantLoss, Shutdown}
    requires a.lifetime == Some(Announced(body.lifetime, body.revision))
    requires if oracle.snapshot.Err? then e == Registry(oracle.snapshot.error)
             else if oracle.snapshot.value.revision != body.revision then e == StaleAuthority
             else if BadLifetimeId(a, oracle) then e == RandomUnavailable else SendTrouble(e)
    ensures Refuses(body, session, a, lastVersion, oracle, e)
  {
  }

  lemma {:induction false} BindIsRefused(body: Body, session: Id, a: Authority, lastVersion: nat, oracle: Oracle, e: HelperError)
    requires body.Bind?
    requires if a.pending.None? then e == NoPendingBind
             else
               var p := a.pending.value;
               if body != Bind(p.lifetime, p.revision, p.tuple, p.ackId) then e == BindMismatch
               else if oracle.matches.Err? then e == Registry(oracle.matches.error)
               else if !oracle.matches.value then e == RetainedBytesMismatch
               else if oracle.entropy.None? || oracle.entropy == Some(p.ackId) || oracle.entropy == a.retiredReceipt
               then e == RandomUnavailable
               else SendTrouble(e)
    ensures Refuses(body, session, a, lastVersion, oracle, e)
  {
  }

  lemma {:induction false} ErrorIsAnswered(body: Body, session: Id, a: Authority, lastVersion: nat, oracle: Oracle, n: nat)
    requires body.Error?
    ensures Answers(body, session, a, lastVersion, oracle, PeerError(body.code), Revoked) && Replies(body, a, oracle, n) == []
  {
  }

  lemma {:induction false} OthersAreRefused(body: Body, session: Id, a: Authority, lastVersion: nat, oracle: Oracle)
    requires !body.Publish? && !body.Bind? && !body.Invalidate? && !body.Error?
    ensures Refuses(body, session, a, lastVersion, oracle, UnexpectedRecord(body))
  {
  }

  /** Why a record read off the stream is not even looked into. */
  predicate Misaddressed(record: Record, session: Id, inSequence: nat, e: HelperError) {
    if record.sender != Core then e == UnexpectedSender(record.sender)
    else if record.session != session then e == SessionMismatch
    else !(inSequence < U64_MAX && record.sequence == inSequence + 1) && e == SequenceMismatch
  }

  predicate Addressed(record: Record, session: Id, inSequence: nat) {
    record.sender == Core && record.session == session && inSequence < U64_MAX && record.sequence == inSequence + 1
  }

  /** Why a session is not established. */
  predicate RefusesEstablish(
    incoming: Result<Record, FrameError>, session: Id, expectations: Echo, inSequence: nat, oracle: Oracle, e: HelperError)
  {
    match incoming
    case Err(f) => e == FromFrameError(f)
    case Ok(record) =>
      if !Addressed(record, session, inSequence) then Misaddressed(record, session, inSequence, e)
      else if !record.body.Establish? then e == UnexpectedRecord(record.body)
      else if record.body.echo != expectations then e.EstablishmentMismatch?
      else if oracle.snapshot.Err? then e == Registry(oracle.snapshot.error)
      else if oracle.entropy.None? || !oracle.secret then e == RandomUnavailable
      else SendTrouble(e)
  }

  /** Why a step fails. */
  predicate RefusesStep(
    incoming: Result<Record, FrameError>, session: Id, inSequence: nat, a: Authority, lastVersion: nat, oracle: Oracle,
    e: HelperError)
  {
    match incoming
    case Err(f) => e == FromFrameError(f)
    case Ok(record) =>
      if !Addressed(record, session, inSequence) then Misaddressed(record, session, inSequence, e)
      else Refuses(record.body, session, a, lastVersion, oracle, e)
  }

  /** Why a registry mutation is refused. */
  predicate RefusesMutation(a: Authority, oracle: Oracle, e: HelperError)
    requires a.lifetime.Some?
  {
    var revision := a.lifetime.value.revision;
    if revision >= U64_MAX then e == VersionExhausted
    else if !SnapshotAt(oracle.snapshot, revision) then BadSnapshot(oracle.snapshot, revision, StaleAuthority, e)
    else
      || SendTrouble(e)
      || (if oracle.mutation.Err? then e == Registry(oracle.mutation.error)
          else if !SnapshotAt(oracle.mutated, revision + 1) then
            BadSnapshot(oracle.mutated, revision + 1, Registry(InvalidRevision), e)
          else BadLifetimeId(a, oracle) && e == RandomUnavailable)
  }

  /** Why a reset is refused. */
  predicate RefusesReset(a: Authority, oracle: Oracle, e: HelperError)
    requires a.lifetime.Some?
  {
    var revision := a.lifetime.value.revision;
    || SendTrouble(e)
    || (if !SnapshotAt(oracle.snapshot, revision) then BadSnapshot(oracle.snapshot, revision, StaleAuthority, e)
        else BadLifetimeId(a, oracle) && e == RandomUnavailable)
  }

  /** The reason a session is revoked for after an error, and the code it may then tell the peer. */
  predicate Blames(e: HelperError, reason: RevocationReason, said: Option<ErrorCode>) {
    match e
    case Frame(f) =>
      if f.Closed? || f.TruncatedPrefix? || f.TruncatedBody? || f.Io? || f.WriteZero? then reason == ControlTransport && said.None?
      else if f.AllocationFailed? || f.QueueFull? || f.ByteBudgetExceeded? then
        reason == LimitReached && (said.None? || said == Some(ResourceLimit))
      else BlamesFrame(f, reason, said)
    case RecordRejected => BlamesFrame(BadRecord, reason, said)
    case EstablishmentMismatch(_) => reason == EstablishmentRefused && (said.None? || said == Some(InvalidControl))
    case RetainedBytesMismatch => reason == RetainedMismatch && (said.None? || said == Some(InvalidControl))
    case Registry(_) => reason == RegistryFailed && (said.None? || said == Some(ErrorCode.Unavailable))
    case RandomUnavailable => reason == RandomFailed && (said.None? || said == Some(ErrorCode.Unavailable))
    case VersionExhausted => reason == Exhausted && (said.None? || said == Some(ResourceLimit))
    case _ => reason == ProtocolViolation && (said.None? || said == Some(InvalidControl))
  }

  /** An error that is nobody's but the peer's. */
  predicate PlainError(e: HelperError) {
    && !e.Frame? && !e.RecordRejected? && !e.EstablishmentMismatch? && !e.RetainedBytesMismatch? && !e.Registry?
    && !e.RandomUnavailable? && !e.VersionExhausted?
  }

  /** A fault whose reason and code are those of its error, said or not. */
  predicate Fair(f: Fault) {
    Blames(f.error, f.reason, f.code) && Blames(f.error, f.reason, None)
  }

  /** A frame the peer should not have sent is its fault; the same frame unsendable is the transport's. */
  predicate BlamesFrame(f: FrameError, reason: RevocationReason, said: Option<ErrorCode>) {
    || (reason == ProtocolViolation && (said.None? || said == Some(InvalidControl)))
    || (reason == ControlTransport && said.None? && f in {BadRecord, ZeroLength, FrameTooLarge})
  }

  // ---------------------------------------------------------------- state against log

  /** The lifetimes, as far as the state remembers them. */
  predicate Rotations(a: Authority, revision: nat, m: Memory) {
    var n := |m.lifetimes|;
    && n >= 1 && a.lifetime == Some(m.lifetimes[n - 1]) && m.lifetimes[n - 1].revision == revision
    && (a.predecessor == if n >= 2 && !m.correlated then Some(m.lifetimes[n - 2]) else None)
    && (a.retiredLifetime == if n >= 2 then Some(m.lifetimes[n - 2].id) else None)
  }

  /** The first lifetime announced was at this revision. */
  predicate StartsAt(revision: nat, m: Memory) { m.lifetimes != [] && m.lifetimes[0].revision == revision }

  /** The publication in flight and the last receipt, as far as the state remembers them. */
  predicate Publications(phase: Phase, a: Authority, lastVersion: nat, m: Memory) {
    && m.stage == (if a.pending.Some? then Acked else Idle)
    && phase == (if a.pending.Some? then AwaitingBind else Ready)
    && (a.pending.Some? ==> a.receipt.None? && PendingAgrees(a.pending.value, a.lifetime, lastVersion, m))
    && (a.receipt.Some? ==> a.receipt.value.tuple.publicationId.version == lastVersion)
    && lastVersion == m.version
    && m.receipt == LastReceiptOf(a)
    && !OwnMutation(m.lastSent)
  }

  predicate PendingAgrees(p: Pending, lifetime: Option<Announced>, lastVersion: nat, m: Memory) {
    && lifetime == Some(Announced(p.lifetime, p.revision))
    && p.tuple.publicationId.version == lastVersion
    && p.retained == m.retained
    && m.lastSent == Some(Ack(p.lifetime, p.revision, p.tuple, p.ackId))
  }

  /** The last receipt issued in this session, active or retired. */
  function LastReceiptOf(a: Authority): Option<Id> {
    if a.receipt.Some? then Some(a.receipt.value.receipt) else a.retiredReceipt
  }

  /** A live session's state says exactly what its log says. */
  predicate Agrees(phase: Phase, a: Authority, lastVersion: nat, revision: nat, m: Memory) {
    Rotations(a, revision, m) && Publications(phase, a, lastVersion, m)
  }

  /** The authority once its receipt, if any, is only remembered for collision checks. */
  function Retiring(a: Authority): Authority {
    a.(receipt := None, retiredReceipt := LastReceiptOf(a))
  }

  /** The authority after the current lifetime is retired in favour of `next`. */
  function Succeeded(a: Authority, next: Announced): Authority
    requires a.lifetime.Some?
  {
    Retiring(a).(pending := None, lifetime := Some(next), predecessor := a.lifetime, retiredLifetime := Some(a.lifetime.value.id))
  }

  /** A random identifier no live or just-retired lifetime uses; anything else is fatal. */
  function FreshLifetime(a: Authority, oracle: Oracle, revision: nat): Result<Announced, HelperError> {
    match oracle.entropy
    case None => Err(RandomUnavailable)
    case Some(id) =>
      if !oracle.secret then Err(RandomUnavailable)
      else if (a.lifetime.Some? && a.lifetime.value.id == id)
           || (a.predecessor.Some? && a.predecessor.value.id == id)
           || a.retiredLifetime == Some(id)
      then Err(RandomUnavailable)
      else Ok(Announced(id, revision))
  }

  /** A lifetime is minted exactly when the random identifier repeats neither of the last two. */
  lemma {:induction false} FreshIsUnused(a: Authority, oracle: Oracle, revision: nat, at: nat, m: Memory)
    requires Rotations(a, revision, m)
    ensures FreshLifetime(a, oracle, at).Ok? <==> oracle.entropy.Some? && oracle.secret && Unused(m, oracle.entropy.value)
    ensures FreshLifetime(a, oracle, at).Ok? ==> FreshLifetime(a, oracle, at).value == Announced(oracle.entropy.value, at)
  {
  }

  /** The authority a session holds after announcing `first`, `second` and `third` in turn. */
  function AfterThree(first: Announced, second: Announced, third: Announced): Authority {
    Succeeded(Succeeded(NO_AUTHORITY.(lifetime := Some(first)), second), third)
  }

  /** So the first lifetime's identifier, drawn again after the third, is minted again. */
  lemma {:induction false} FirstIdentifierIsMintedAgain(first: Announced, second: Announced, third: Announced, oracle: Oracle, at: nat)
    requires first.id != second.id && second.id != third.id && first.id != third.id
    requires oracle.entropy == Some(first.id) && oracle.secret
    ensures FreshLifetime(AfterThree(first, second, third), oracle, at) == Ok(Announced(first.id, at))
  {
    var m := START.(lifetimes := [first, second, third]);
    assert Rotations(AfterThree(first, second, third), third.revision, m);
    FreshIsUnused(AfterThree(first, second, third), oracle, third.revision, at, m);
  }

  /** Acknowledging keeps state and log in agreement. */
  lemma {:induction false} AgreesAfterAck(
    phase: Phase, a: Authority, lastVersion: nat, revision: nat, m: Memory, body: Body, ackId: Id, after: Memory)
    requires Agrees(phase, a, lastVersion, revision, m) && a.pending.None? && body.Publish?
    requires a.lifetime == Some(Announced(body.lifetime, body.revision))
    requires after == AfterRecord(m, m.sent + 1, Ack(body.lifetime, body.revision, body.tuple, ackId)).(
                        version := body.tuple.publicationId.version, retained := body.payload.canonical)
    ensures Agrees(AwaitingBind, Acknowledged(a, body, ackId), body.tuple.publicationId.version, revision, after)
  {
  }

  function Acknowledged(a: Authority, body: Body, ackId: Id): Authority
    requires body.Publish?
  {
    Retiring(a).(pending := Some(Pending(body.lifetime, body.revision, body.tuple, body.payload.canonical, ackId)))
  }

  /** Issuing a receipt keeps state and log in agreement. */
  lemma {:induction false} AgreesAfterBind(phase: Phase, a: Authority, lastVersion: nat, revision: nat, m: Memory, receipt: Id, after: Memory)
    requires Agrees(phase, a, lastVersion, revision, m) && a.pending.Some?
    requires after == AfterRecord(m, m.sent + 1, BoundFor(a.pending.value, receipt)).(receipt := Some(receipt))
    ensures Agrees(Ready, a.(pending := None, receipt := Some(ActiveReceipt(a.pending.value.tuple, receipt))), lastVersion, revision, after)
  {
  }

  function BoundFor(p: Pending, receipt: Id): Body {
    Bound(p.lifetime, p.revision, p.tuple, receipt)
  }

  /** Rotating keeps state and log in agreement, at the successor's revision. */
  lemma {:induction false} AgreesAfterRotation(
    a: Authority, lastVersion: nat, revision: nat, m: Memory, next: Announced, projection: Payload)
    requires Rotations(a, revision, m) && lastVersion == m.version && m.receipt == LastReceiptOf(a)
    ensures Agrees(Ready, Succeeded(a, next), lastVersion, next.revision, Rotated(m, next, projection))
  {
  }

  /** The two records that open a session. */
  function Opens(echo: Echo, first: Announced, projection: Payload): seq<Body> {
    [Established(echo, first.id), Projection(first.id, first.revision, projection)]
  }

  /** The two records that announce a successor. */
  function Announces(next: Announced, projection: Payload): seq<Body> {
    [ControlProtocol.Lifetime(next.id, next.revision), Projection(next.id, next.revision, projection)]
  }

  function Withdrawal(current: Announced, reason: Reason): Body { Invalidate(current.id, current.revision, reason) }
}
