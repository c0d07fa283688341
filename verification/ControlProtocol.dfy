/**
 * The provider-publication control protocol seen from the helper's side: its records,
 * the log of one control session, and the law every entry of a log obeys given the
 * entries before it. The theorems below say what a lawful log looks like as a whole.
 * `HelperControl` proves that every run writes a lawful log.
 */
module ControlProtocol {
  import opened Bytes
  import opened Results
  import opened Establishment

  // ---------------------------------------------------------------- records

  datatype Id = Id(bytes: seq<Byte>)

  datatype Sender = Core | Helper

  datatype Reason = SourceMutation | Reset | Supersession | GrantLoss | Shutdown | RegistryMutation

  datatype ErrorCode = InvalidControl | Unavailable | ResourceLimit | OtherCode(code: nat)

  datatype PublicationId = PublicationId(launchNonce: Id, version: nat)

  /** A publication's identity; `rest` stands for the fields the helper only compares. */
  datatype Tuple = Tuple(publicationId: PublicationId, rest: seq<Byte>)

  /** A canonical provider-routing projection, already validated by the record codec. */
  datatype Payload = Payload(canonical: seq<Byte>)

  datatype Body =
    | Establish(echo: Echo)
    | Established(echo: Echo, lifetime: Id)
    | Projection(lifetime: Id, revision: nat, payload: Payload)
    | Publish(lifetime: Id, revision: nat, tuple: Tuple, payload: Payload)
    | Ack(lifetime: Id, revision: nat, tuple: Tuple, ackId: Id)
    | Bind(lifetime: Id, revision: nat, tuple: Tuple, ackId: Id)
    | Bound(lifetime: Id, revision: nat, tuple: Tuple, receipt: Id)
    | Invalidate(lifetime: Id, revision: nat, reason: Reason)
    | Lifetime(lifetime: Id, revision: nat)
    | Admit(data: seq<Byte>)
    | Admitted(data: seq<Byte>)
    | Error(code: ErrorCode)

  datatype Record = Record(sender: Sender, sequence: nat, session: Id, body: Body)

  /** What one successful driver step reports. */
  datatype Step =
    | Published(tuple: Tuple)
    | NowBound(tuple: Tuple, receipt: Id)
    | LifetimeRotated(previous: Id, current: Id, revision: nat, reason: Reason)
    | PredecessorCorrelated
    | AuthorityClosed(why: Reason)
    | PeerError(code: ErrorCode)

  // ---------------------------------------------------------------- the log of a session

  datatype Event =
    | Got(body: Body)                                              // a record accepted from the Core
    | Compared(revision: nat, retained: seq<Byte>, equal: bool)    // a registry comparison and its answer
    | Sent(sequence: nat, body: Body)                              // a helper record wholly on the stream
    | Did(step: Step)                                              // a public call that returned a step

  datatype Stage =
    | Fresh       // nothing sent
    | Opened      // Established sent, its Projection not yet
    | Idle        // a lifetime is announced and nothing is pending
    | Acked       // an acknowledgement is waiting for its bind
    | Withdrawn   // the helper withdrew its own lifetime
    | Renewed     // a new lifetime is named, its Projection not yet
    | Ended       // an Error was sent

  datatype Announced = Announced(id: Id, revision: nat)

  /** What the law needs to remember of a log. */
  datatype Memory = Memory(
    length: nat,
    stage: Stage,
    sent: nat,
    lifetimes: seq<Announced>,
    lastSent: Option<Body>,
    sentAt: nat,
    last: Option<Event>,
    retained: seq<Byte>,
    version: nat,
    receipt: Option<Id>,
    correlated: bool)

  const START := Memory(0, Fresh, 0, [], None, 0, None, [], 0, None, false)

  function NextStage(stage: Stage, body: Body): Stage {
    match body
    case Established(_, _) => Opened
    case Projection(_, _, _) => Idle
    case Ack(_, _, _, _) => Acked
    case Bound(_, _, _, _) => Idle
    case Invalidate(_, _, _) => Withdrawn
    case Lifetime(_, _) => Renewed
    case Error(_) => Ended
    case _ => stage
  }

  function Remember(m: Memory, e: Event): Memory {
    var n := m.(length := m.length + 1, last := Some(e));
    match e
    case Got(_) => n
    case Compared(_, _, _) => n
    case Did(step) => n.(correlated := m.correlated || step.PredecessorCorrelated?)
    case Sent(_, body) =>
      var s := n.(stage := NextStage(m.stage, body), sent := m.sent + 1, lastSent := Some(body), sentAt := m.length);
      match body
      case Projection(id, revision, _) => s.(lifetimes := m.lifetimes + [Announced(id, revision)])
      case Lifetime(_, _) => s.(correlated := false)
      case Ack(_, _, tuple, _) => s.(version := tuple.publicationId.version, retained := RetainedBytes(m.last))
      case Bound(_, _, _, receipt) => s.(receipt := Some(receipt))
      case _ => s
  }

  /** The canonical bytes of the publication just received. */
  function RetainedBytes(last: Option<Event>): seq<Byte> {
    if last.Some? && last.value.Got? && last.value.body.Publish? then last.value.body.payload.canonical else []
  }

  function MemoryOf(log: seq<Event>): (m: Memory)
    ensures m.length == |log|
  {
    if log == [] then START else Remember(MemoryOf(log[..|log| - 1]), log[|log| - 1])
  }

  /** The lifetime announced last. */
  predicate Current(m: Memory, id: Id, revision: nat) {
    m.lifetimes != [] && m.lifetimes[|m.lifetimes| - 1] == Announced(id, revision)
  }

  /** An identifier used by neither of the two lifetimes announced last. */
  predicate Unused(m: Memory, id: Id) {
    forall i :: 0 <= i < |m.lifetimes| && |m.lifetimes| - 2 <= i ==> m.lifetimes[i].id != id
  }

  predicate OwnMutation(body: Option<Body>) {
    body.Some? && body.value.Invalidate? && body.value.reason == RegistryMutation
  }

  /** The law: what may come next after a log that left memory `m`. */
  predicate Allowed(m: Memory, e: Event) {
    m.stage != Ended && match e
    case Got(_) => true
    case Compared(revision, retained, _) =>
      && m.stage == Acked && m.lastSent.Some? && m.lastSent.value.Ack?
      && var ack := m.lastSent.value;
         && m.last == Some(Got(Bind(ack.lifetime, ack.revision, ack.tuple, ack.ackId)))
         && revision == ack.revision && retained == m.retained
    case Did(step) => AllowedStep(m, step)
    case Sent(sequence, body) => sequence == m.sent + 1 && AllowedRecord(m, body)
  }

  predicate AllowedStep(m: Memory, step: Step) {
    match step
    case PredecessorCorrelated =>
      && !m.correlated && |m.lifetimes| >= 2
      && m.last.Some? && m.last.value.Got? && m.last.value.body.Invalidate?
      && var got := m.last.value.body;
         m.lifetimes[|m.lifetimes| - 2] == Announced(got.lifetime, got.revision)
    case LifetimeRotated(previous, current, revision, _) =>
      && |m.lifetimes| >= 2 && Current(m, current, revision)
      && m.lifetimes[|m.lifetimes| - 2].id == previous
    case _ => true
  }

  predicate AllowedRecord(m: Memory, body: Body) {
    match body
    case Established(_, _) => m.stage == Fresh
    case Projection(id, revision, _) =>
      && Unused(m, id) && m.lastSent.Some?
      && (match m.lastSent.value
          case Established(_, first) => m.stage == Opened && first == id
          case Lifetime(renewed, at) => m.stage == Renewed && renewed == id && at == revision
          case _ => false)
    case Ack(id, revision, tuple, ackId) =>
      && m.stage == Idle && Current(m, id, revision)
      && m.last.Some? && m.last.value.Got? && m.last.value.body.Publish?
      && var got := m.last.value.body;
         && got == Publish(id, revision, tuple, got.payload)
         && m.version < tuple.publicationId.version
         && m.receipt != Some(ackId)
    case Bound(id, revision, tuple, receipt) =>
      && m.stage == Acked && Current(m, id, revision)
      && m.lastSent.Some? && m.lastSent.value.Ack?
      && m.lastSent.value == Ack(id, revision, tuple, m.lastSent.value.ackId)
      && receipt != m.lastSent.value.ackId && m.receipt != Some(receipt)
      && m.last == Some(Compared(revision, m.retained, true))
    case Invalidate(id, revision, reason) =>
      m.stage in {Idle, Acked} && Current(m, id, revision) && reason in {RegistryMutation, Reset}
    case Lifetime(id, revision) =>
      && m.stage in {Idle, Acked, Withdrawn} && Unused(m, id) && m.lifetimes != []
      && revision == m.lifetimes[|m.lifetimes| - 1].revision + (if OwnMutation(m.lastSent) then 1 else 0)
    case Error(_) => m.stage in {Fresh, Idle, Acked, Withdrawn}
    case _ => false
  }

  /** Entry `k` is allowed after the entries before it. */
  predicate LawfulAt(log: seq<Event>, k: nat)
    requires k < |log|
  {
    Allowed(MemoryOf(log[..k]), log[k])
  }

  ghost predicate Lawful(log: seq<Event>) {
    forall k :: 0 <= k < |log| ==> LawfulAt(log, k)
  }

  lemma {:induction false} MemoryExtends(log: seq<Event>, e: Event)
    ensures MemoryOf(log + [e]) == Remember(MemoryOf(log), e)
  {
    assert (log + [e])[..|log|] == log;
  }

  lemma {:induction false} LawfulExtends(log: seq<Event>, e: Event)
    requires Lawful(log) && Allowed(MemoryOf(log), e)
    ensures Lawful(log + [e])
  {
    forall k | 0 <= k < |log + [e]| ensures LawfulAt(log + [e], k) {
      assert k < |log| ==> LawfulAt(log, k);
      assert (log + [e])[..k] == log[..k];
      assert log[..|log|] == log;
    }
  }

  lemma {:induction false} LawfulPrefix(log: seq<Event>, n: nat)
    requires Lawful(log) && n <= |log|
    ensures Lawful(log[..n])
  {
    forall k | 0 <= k < n ensures LawfulAt(log[..n], k) {
      assert LawfulAt(log, k);
      assert log[..n][..k] == log[..k];
    }
  }

  /** The records wholly sent, oldest first. */
  function SentBodies(log: seq<Event>): seq<Body> {
    if log == [] then []
    else SentBodies(log[..|log| - 1]) + (if log[|log| - 1].Sent? then [log[|log| - 1].body] else [])
  }

  /** A lawful log with what it leaves behind. */
  ghost predicate Recorded(log: seq<Event>, m: Memory, bodies: seq<Body>) {
    Lawful(log) && m == MemoryOf(log) && bodies == SentBodies(log) && m.sent == |bodies|
  }

  lemma {:induction false} NothingRecorded()
    ensures Recorded([], START, [])
  {
  }

  lemma {:induction false} RecordedExtends(log: seq<Event>, m: Memory, bodies: seq<Body>, e: Event)
    requires Recorded(log, m, bodies) && Allowed(m, e)
    ensures Recorded(log + [e], Remember(m, e), if e.Sent? then bodies + [e.body] else bodies)
  {
    MemoryExtends(log, e);
    LawfulExtends(log, e);
    assert (log + [e])[..|log|] == log;
    assert e.Sent? || bodies + [] == bodies;
  }

  /** The error code a log ends with. */
  function Said(log: seq<Event>): Option<ErrorCode> {
    if log != [] && log[|log| - 1].Sent? && log[|log| - 1].body.Error? then Some(log[|log| - 1].body.code) else None
  }

  lemma {:induction false} SaidAtTheEnd(log: seq<Event>)
    ensures Said(log).Some? ==> MemoryOf(log).stage == Ended
  {
  }

  // ---------------------------------------------------------------- one step at a time

  /** `Allowed`, for code that only needs to carry the fact: the lemmas below give its meaning. */
  ghost predicate May(m: Memory, e: Event) {
    Allowed(m, e)
  }

  /** `m'` is the memory after `e`; see the lemmas below for what that changes. */
  ghost predicate Then(m: Memory, e: Event, m': Memory) {
    m' == Remember(m, e)
  }

  lemma {:induction false} ThenIsUnique(m: Memory, e: Event, a: Memory, b: Memory)
    requires Then(m, e, a) && Then(m, e, b)
    ensures a == b
  {
    assert a == Remember(m, e) == b;
  }

  lemma {:induction false} RecordedThen(log: seq<Event>, m: Memory, bodies: seq<Body>, e: Event) returns (m': Memory)
    requires Recorded(log, m, bodies) && May(m, e)
    ensures Then(m, e, m') && Recorded(log + [e], m', if e.Sent? then bodies + [e.body] else bodies)
    ensures m'.sent == m.sent + (if e.Sent? then 1 else 0)
  {
    assert Allowed(m, e);
    m' := Remember(m, e);
    RecordedExtends(log, m, bodies, e);
  }

  /** Receiving is always allowed before the end, and changes nothing but the last event. */
  lemma {:induction false} Receiving(m: Memory, body: Body)
    ensures m.stage != Ended ==> May(m, Got(body))
    ensures forall m' :: Then(m, Got(body), m') ==> m' == m.(length := m.length + 1, last := Some(Got(body)))
  {
    assert m.stage != Ended ==> Allowed(m, Got(body));
    forall m' | Then(m, Got(body), m') ensures m' == m.(length := m.length + 1, last := Some(Got(body))) {
      assert m' == Remember(m, Got(body));
    }
  }

  /** A bind of the waiting acknowledgement lets the registry be asked about its bytes. */
  lemma {:induction false} Comparing(m: Memory, ack: Body, equal: bool)
    requires m.stage == Acked && ack.Ack? && m.lastSent == Some(ack)
    requires m.last == Some(Got(Bind(ack.lifetime, ack.revision, ack.tuple, ack.ackId)))
    ensures var e := Compared(ack.revision, m.retained, equal);
            May(m, e) && forall m' :: Then(m, e, m') ==> m' == m.(length := m.length + 1, last := Some(e))
  {
    var e := Compared(ack.revision, m.retained, equal);
    assert Allowed(m, e);
    forall m' | Then(m, e, m') ensures m' == m.(length := m.length + 1, last := Some(e)) {
      assert m' == Remember(m, e);
    }
  }

  /** Reporting a step changes nothing but the last event and the correlation window. */
  lemma {:induction false} Reporting(m: Memory, step: Step)
    requires m.stage != Ended
    ensures AllowedStep(m, step) ==> May(m, Did(step))
    ensures forall m' :: Then(m, Did(step), m') ==>
              m' == m.(length := m.length + 1, last := Some(Did(step)), correlated := m.correlated || step.PredecessorCorrelated?)
  {
    assert AllowedStep(m, step) ==> Allowed(m, Did(step));
    forall m' | Then(m, Did(step), m')
      ensures m' == m.(length := m.length + 1, last := Some(Did(step)), correlated := m.correlated || step.PredecessorCorrelated?)
    {
      assert m' == Remember(m, Did(step));
    }
  }

  /** Memory after a record that only moves the stage. */
  function AfterRecord(m: Memory, sequence: nat, body: Body): Memory {
    m.(length := m.length + 1, last := Some(Sent(sequence, body)), stage := NextStage(m.stage, body),
       sent := m.sent + 1, lastSent := Some(body), sentAt := m.length)
  }

  /** Sending any record but an Error keeps the session open. */
  lemma {:induction false} Sending(m: Memory, sequence: nat, body: Body, m': Memory)
    requires May(m, Sent(sequence, body)) && Then(m, Sent(sequence, body), m')
    ensures m'.sent == m.sent + 1 && (m'.stage == Ended <==> body.Error?)
  {
    assert Allowed(m, Sent(sequence, body));
    assert m' == Remember(m, Sent(sequence, body));
  }

  lemma {:induction false} SendingError(m: Memory, code: ErrorCode)
    requires m.stage in {Fresh, Idle, Acked, Withdrawn}
    ensures May(m, Sent(m.sent + 1, Error(code)))
  {
    assert Allowed(m, Sent(m.sent + 1, Error(code)));
  }

  /** The two records that open a session. */
  lemma {:induction false} Opening(m: Memory, echo: Echo, first: Announced, projection: Payload) returns (m1: Memory, m2: Memory)
    requires m.stage == Fresh && m.lifetimes == []
    ensures var e1 := Sent(m.sent + 1, Established(echo, first.id));
            var e2 := Sent(m.sent + 2, Projection(first.id, first.revision, projection));
            && May(m, e1) && Then(m, e1, m1) && May(m1, e2) && Then(m1, e2, m2)
            && m2 == AfterRecord(AfterRecord(m, e1.sequence, e1.body), e2.sequence, e2.body).(lifetimes := [first])
  {
    var e1 := Sent(m.sent + 1, Established(echo, first.id));
    var e2 := Sent(m.sent + 2, Projection(first.id, first.revision, projection));
    m1 := Remember(m, e1);
    m2 := Remember(m1, e2);
    assert Allowed(m, e1) && Allowed(m1, e2);
  }

  /** Memory after a successor lifetime is named and announced. */
  function Rotated(m: Memory, next: Announced, projection: Payload): Memory {
    AfterRecord(AfterRecord(m, m.sent + 1, Lifetime(next.id, next.revision)),
                m.sent + 2, Projection(next.id, next.revision, projection)).(
      lifetimes := m.lifetimes + [next], correlated := false)
  }

  /** The two records that announce a successor lifetime. */
  lemma {:induction false} Rotating(m: Memory, next: Announced, projection: Payload) returns (m1: Memory, m2: Memory)
    requires m.stage in {Idle, Acked, Withdrawn} && Unused(m, next.id) && m.lifetimes != []
    requires next.revision == m.lifetimes[|m.lifetimes| - 1].revision + (if OwnMutation(m.lastSent) then 1 else 0)
    ensures var e1 := Sent(m.sent + 1, Lifetime(next.id, next.revision));
            var e2 := Sent(m.sent + 2, Projection(next.id, next.revision, projection));
            && May(m, e1) && Then(m, e1, m1) && May(m1, e2) && Then(m1, e2, m2)
            && m2 == Rotated(m, next, projection)
  {
    var e1 := Sent(m.sent + 1, Lifetime(next.id, next.revision));
    var e2 := Sent(m.sent + 2, Projection(next.id, next.revision, projection));
    hide Unused;
    m1 := Remember(m, e1);
    m2 := Remember(m1, e2);
    assert Allowed(m, e1) && Allowed(m1, e2);
  }

  /** Withdrawing the current lifetime. */
  lemma {:induction false} Withdrawing(m: Memory, current: Announced, reason: Reason) returns (m': Memory)
    requires m.stage in {Idle, Acked} && Current(m, current.id, current.revision) && reason in {RegistryMutation, Reset}
    ensures var e := Sent(m.sent + 1, Invalidate(current.id, current.revision, reason));
            May(m, e) && Then(m, e, m') && m' == AfterRecord(m, e.sequence, e.body)
  {
    var e := Sent(m.sent + 1, Invalidate(current.id, current.revision, reason));
    m' := Remember(m, e);
    assert Allowed(m, e);
  }

  /** Acknowledging the publication just received. */
  lemma {:induction false} Acknowledging(m: Memory, publish: Body, ackId: Id) returns (m': Memory)
    requires publish.Publish? && m.last == Some(Got(publish))
    requires m.stage == Idle && Current(m, publish.lifetime, publish.revision)
    requires m.version < publish.tuple.publicationId.version && m.receipt != Some(ackId)
    ensures var e := Sent(m.sent + 1, Ack(publish.lifetime, publish.revision, publish.tuple, ackId));
            && May(m, e) && Then(m, e, m')
            && m' == AfterRecord(m, e.sequence, e.body).(
                       version := publish.tuple.publicationId.version, retained := publish.payload.canonical)
  {
    var e := Sent(m.sent + 1, Ack(publish.lifetime, publish.revision, publish.tuple, ackId));
    m' := Remember(m, e);
    assert Allowed(m, e);
  }

  /** Issuing a receipt for the bind the registry just agreed to. */
  lemma {:induction false} Binding(m: Memory, ack: Body, receipt: Id) returns (m': Memory)
    requires ack.Ack? && m.lastSent == Some(ack) && m.stage == Acked && Current(m, ack.lifetime, ack.revision)
    requires receipt != ack.ackId && m.receipt != Some(receipt)
    requires m.last == Some(Compared(ack.revision, m.retained, true))
    ensures var e := Sent(m.sent + 1, Bound(ack.lifetime, ack.revision, ack.tuple, receipt));
            && May(m, e) && Then(m, e, m')
            && m' == AfterRecord(m, e.sequence, e.body).(receipt := Some(receipt))
  {
    var e := Sent(m.sent + 1, Bound(ack.lifetime, ack.revision, ack.tuple, receipt));
    m' := Remember(m, e);
    assert Allowed(m, e);
  }

  // ---------------------------------------------------------------- theorems about whole runs

  predicate IsSent(e: Event) { e.Sent? }
  predicate IsAck(e: Event) { e.Sent? && e.body.Ack? }
  predicate IsBound(e: Event) { e.Sent? && e.body.Bound? }
  predicate IsRotation(e: Event) { e.Sent? && e.body.Lifetime? }
  predicate IsCorrelation(e: Event) { e == Did(PredecessorCorrelated) }

  lemma {:induction false} SentCount(log: seq<Event>)
    ensures MemoryOf(log).sent == |SentBodies(log)|
  {
    if log != [] { SentCount(log[..|log| - 1]); }
  }

  /** Helper records carry the sequences 1, 2, 3, … with no gap and no repeat. */
  lemma {:induction false} SequencesAreConsecutive(log: seq<Event>, i: nat)
    requires Lawful(log) && i < |log| && IsSent(log[i])
    ensures log[i].sequence == |SentBodies(log[..i])| + 1
  {
    assert LawfulAt(log, i);
    SentCount(log[..i]);
  }

  /** The remembered record is the last one sent, at the remembered position. */
  lemma {:induction false} LastSentPosition(log: seq<Event>)
    ensures var m := MemoryOf(log);
            m.lastSent.Some? ==>
              && m.sentAt < |log| && IsSent(log[m.sentAt]) && log[m.sentAt].body == m.lastSent.value
              && forall k :: m.sentAt < k < |log| ==> !IsSent(log[k])
  {
    if log != [] { LastSentPosition(log[..|log| - 1]); }
  }

  lemma {:induction false} LastEvent(log: seq<Event>)
    ensures MemoryOf(log).last == if log == [] then None else Some(log[|log| - 1])
  {
  }

  /** One step either sends the acknowledgement or leaves the remembered one as it was. */
  lemma {:induction false} RetainedStep(m: Memory, e: Event)
    requires Allowed(m, e) && Remember(m, e).lastSent.Some? && Remember(m, e).lastSent.value.Ack?
    ensures var m', ack := Remember(m, e), Remember(m, e).lastSent.value;
            || (m.lastSent == m'.lastSent && m.sentAt == m'.sentAt && m.retained == m'.retained)
            || (&& m'.sentAt == m.length
                && m.last == Some(Got(Publish(ack.lifetime, ack.revision, ack.tuple, Payload(m'.retained)))))
  {
  }

  /** While an acknowledgement waits, the retained bytes are those of the publication it answers. */
  lemma {:induction false} RetainedIsPublished(log: seq<Event>)
    requires Lawful(log)
    ensures AnswersPublication(log, MemoryOf(log))
  {
    if log != [] {
      var n := |log| - 1;
      var before := log[..n];
      LawfulPrefix(log, n);
      assert LawfulAt(log, n);
      RetainedIsPublished(before);
      LastEvent(before);
      var m, m' := MemoryOf(before), MemoryOf(log);
      assert m' == Remember(m, log[n]);
      if m'.lastSent.Some? && m'.lastSent.value.Ack? {
        RetainedStep(m, log[n]);
      }
    }
  }

  predicate AnswersPublication(log: seq<Event>, m: Memory) {
    m.lastSent.Some? && m.lastSent.value.Ack? ==>
      && 0 < m.sentAt < |log|
      && var ack := m.lastSent.value;
         log[m.sentAt - 1] == Got(Publish(ack.lifetime, ack.revision, ack.tuple, Payload(m.retained)))
  }

  /** Everything that stands behind one Bound at position `i`. */
  ghost predicate Backed(log: seq<Event>, i: nat)
    requires i < |log| && IsBound(log[i])
  {
    var b := log[i].body;
    exists j, payload :: BackedBy(log, i, b, j, payload)
  }

  ghost predicate BackedBy(log: seq<Event>, i: nat, b: Body, j: int, payload: Payload)
    requires i < |log| && b.Bound?
  {
    && 0 < j < i && 2 <= i
    // the helper record immediately before is the acknowledgement of the same publication
    && log[j].Sent? && log[j].body.Ack? && (forall k :: j < k < i ==> !IsSent(log[k]))
    && log[j].body == Ack(b.lifetime, b.revision, b.tuple, log[j].body.ackId)
    // it answered that very publication
    && log[j - 1] == Got(Publish(b.lifetime, b.revision, b.tuple, payload))
    // the Core bound exactly that acknowledgement, and the registry then agreed to its bytes
    && log[i - 2] == Got(Bind(b.lifetime, b.revision, b.tuple, log[j].body.ackId))
    && log[i - 1] == Compared(b.revision, payload.canonical, true)
    && b.receipt != log[j].body.ackId
  }

  /** A registry comparison answers the bind of the acknowledgement sent last. */
  lemma {:induction false} ComparisonAnswersBind(log: seq<Event>, c: nat)
    requires Lawful(log) && c < |log| && log[c].Compared?
    ensures var m := MemoryOf(log[..c + 1]);
            && m.lastSent.Some? && m.lastSent.value.Ack? && 0 < c
            && var ack := m.lastSent.value;
               log[c - 1] == Got(Bind(ack.lifetime, ack.revision, ack.tuple, ack.ackId))
  {
    assert log[..c + 1][..c] == log[..c];
    assert MemoryOf(log[..c + 1]) == Remember(MemoryOf(log[..c]), log[c]);
    assert LawfulAt(log, c);
    LastEvent(log[..c]);
  }

  /** No receipt without its publication, acknowledgement, bind and registry agreement. */
  lemma {:induction false} EveryBoundIsBacked(log: seq<Event>, i: nat)
    requires Lawful(log) && i < |log| && IsBound(log[i])
    ensures Backed(log, i)
    ensures Current(MemoryOf(log[..i]), log[i].body.lifetime, log[i].body.revision)
  {
    var m, b := MemoryOf(log[..i]), log[i].body;
    assert LawfulAt(log, i);
    LastEvent(log[..i]);
    hide Lawful, MemoryOf;
    assert log[i - 1] == Compared(b.revision, m.retained, true);
    ComparisonAnswersBind(log, i - 1);
    LawfulPrefix(log, i);
    LastSentPosition(log[..i]);
    RetainedIsPublished(log[..i]);
    var j := m.sentAt;
    assert log[..i][j] == log[j] && log[..i][j - 1] == log[j - 1];
    forall k | j < k < i ensures !IsSent(log[k]) { assert log[..i][k] == log[k]; }
    assert BackedBy(log, i, b, j, Payload(m.retained));
  }

  lemma {:induction false} AckVersionsBelowMemory(log: seq<Event>, i: nat)
    requires Lawful(log) && i < |log| && IsAck(log[i])
    ensures log[i].body.tuple.publicationId.version <= MemoryOf(log).version
  {
    var n := |log| - 1;
    assert log[..n] == log[..|log| - 1];
    if i < n {
      LawfulPrefix(log, n);
      AckVersionsBelowMemory(log[..n], i);
      assert LawfulAt(log, n);
    }
  }

  lemma {:induction false} AckVersionsIncrease(log: seq<Event>, i: nat, j: nat)
    requires Lawful(log) && i < j < |log| && IsAck(log[i]) && IsAck(log[j])
    ensures log[i].body.tuple.publicationId.version < log[j].body.tuple.publicationId.version
  {
    LawfulPrefix(log, j);
    AckVersionsBelowMemory(log[..j], i);
    assert LawfulAt(log, j);
  }

  /** Bound versions strictly increase over the whole session, across every rotation. */
  lemma {:induction false} BoundVersionsIncrease(log: seq<Event>, i: nat, j: nat)
    requires Lawful(log) && i < j < |log| && IsBound(log[i]) && IsBound(log[j])
    ensures log[i].body.tuple.publicationId.version < log[j].body.tuple.publicationId.version
  {
    EveryBoundIsBacked(log, i);
    EveryBoundIsBacked(log, j);
    var a, p :| BackedBy(log, i, log[i].body, a, p);
    var b, q :| BackedBy(log, j, log[j].body, b, q);
    assert b >= i by {
      if b < i { assert IsSent(log[i]); }
    }
    assert b != i;
    AckVersionsIncrease(log, a, b);
  }

  lemma {:induction false} LastReceipt(log: seq<Event>, i: nat)
    requires i < |log| && IsBound(log[i])
    requires forall k :: i < k < |log| ==> !IsBound(log[k])
    ensures MemoryOf(log).receipt == Some(log[i].body.receipt)
  {
    var n := |log| - 1;
    assert log[..n] == log[..|log| - 1];
    if i < n {
      assert !IsBound(log[n]);
      LastReceipt(log[..n], i);
    }
  }

  /** A receipt is never the one issued just before it, whatever happened in between. */
  lemma {:induction false} ReceiptsAreFresh(log: seq<Event>, i: nat, j: nat)
    requires Lawful(log) && i < j < |log| && IsBound(log[i]) && IsBound(log[j])
    requires forall k :: i < k < j ==> !IsBound(log[k])
    ensures log[i].body.receipt != log[j].body.receipt
  {
    LastReceipt(log[..j], i);
    assert LawfulAt(log, j);
  }

  lemma {:induction false} AckedSince(log: seq<Event>, i: nat)
    requires Lawful(log) && i < |log| && IsAck(log[i])
    requires forall k :: i < k < |log| ==> !IsBound(log[k]) && !IsRotation(log[k])
    ensures MemoryOf(log).stage in {Acked, Withdrawn, Ended}
  {
    var n := |log| - 1;
    assert log[..n] == log[..|log| - 1];
    if i < n {
      LawfulPrefix(log, n);
      AckedSince(log[..n], i);
      assert LawfulAt(log, n);
      assert !IsBound(log[n]) && !IsRotation(log[n]);
    }
  }

  /** Two acknowledgements always have a Bound or a new Lifetime between them. */
  lemma {:induction false} AcksAreSeparated(log: seq<Event>, i: nat, j: nat)
    requires Lawful(log) && i < j < |log| && IsAck(log[i]) && IsAck(log[j])
    ensures exists k :: i < k < j && (IsBound(log[k]) || IsRotation(log[k]))
  {
    assert LawfulAt(log, j);
    LawfulPrefix(log, j);
    if forall k :: i < k < j ==> !IsBound(log[k]) && !IsRotation(log[k]) {
      AckedSince(log[..j], i);
      assert false;
    }
  }

  lemma {:induction false} EndedStays(log: seq<Event>, i: nat)
    requires Lawful(log) && i < |log| && IsSent(log[i]) && log[i].body.Error?
    ensures i == |log| - 1 && MemoryOf(log).stage == Ended
  {
    var n := |log| - 1;
    assert log[..n] == log[..|log| - 1];
    if i < n {
      LawfulPrefix(log, n);
      assert LawfulAt(log, n);
      EndedStays(log[..n], i);
      assert false;
    }
  }

  /** Nothing at all follows an Error. */
  lemma {:induction false} ErrorIsLast(log: seq<Event>, i: nat)
    requires Lawful(log) && i < |log| && IsSent(log[i]) && log[i].body.Error?
    ensures i == |log| - 1
  {
    EndedStays(log, i);
  }

  /** The lifetimes announced so far, oldest first. */
  function Lifetimes(log: seq<Event>): seq<Announced> {
    MemoryOf(log).lifetimes
  }

  /** Any three consecutive lifetimes are pairwise distinct. */
  lemma {:induction false} ConsecutiveLifetimesDiffer(log: seq<Event>, i: nat, j: nat)
    requires Lawful(log) && i < j < |Lifetimes(log)| && j <= i + 2
    ensures Lifetimes(log)[i].id != Lifetimes(log)[j].id
  {
    var n := |log| - 1;
    assert log[..n] == log[..|log| - 1];
    LawfulPrefix(log, n);
    var before := Lifetimes(log[..n]);
    assert LawfulAt(log, n);
    if j < |before| {
      ConsecutiveLifetimesDiffer(log[..n], i, j);
    }
  }

  /** A lawful log may go on with a successor lifetime that repeats neither of the last two. */
  lemma {:induction false} LogRotates(log: seq<Event>, next: Announced, projection: Payload) returns (more: seq<Event>)
    requires Lawful(log) && MemoryOf(log).stage == Idle && !OwnMutation(MemoryOf(log).lastSent)
    requires Unused(MemoryOf(log), next.id) && Lifetimes(log) != []
    requires next.revision == Lifetimes(log)[|Lifetimes(log)| - 1].revision
    ensures Lawful(more) && MemoryOf(more) == Rotated(MemoryOf(log), next, projection)
  {
    hide Lawful, MemoryOf, Allowed, Remember;
    var m := MemoryOf(log);
    var e1 := Sent(m.sent + 1, Lifetime(next.id, next.revision));
    var e2 := Sent(m.sent + 2, Projection(next.id, next.revision, projection));
    var _, _ := Rotating(m, next, projection);
    LawfulExtends(log, e1);
    MemoryExtends(log, e1);
    LawfulExtends(log + [e1], e2);
    MemoryExtends(log + [e1], e2);
    more := log + [e1] + [e2];
  }

  /** A lawful log may open with any lifetime. */
  lemma {:induction false} LogOpens(a: Id, revision: nat, echo: Echo, projection: Payload) returns (log: seq<Event>)
    ensures Lawful(log) && MemoryOf(log).stage == Idle && Lifetimes(log) == [Announced(a, revision)]
    ensures MemoryOf(log).lastSent == Some(Projection(a, revision, projection))
  {
    var e1, e2 := Sent(1, Established(echo, a)), Sent(2, Projection(a, revision, projection));
    LawfulExtends([], e1);
    MemoryExtends([], e1);
    LawfulExtends([] + [e1], e2);
    MemoryExtends([] + [e1], e2);
    log := [] + [e1] + [e2];
  }

  /**
   * The retained history is two lifetimes deep: there is a lawful log whose fourth lifetime
   * repeats the first.
   */
  lemma {:induction false} FourthLifetimeMayRepeat(a: Id, b: Id, c: Id, revision: nat, echo: Echo, projection: Payload)
    returns (log: seq<Event>)
    requires a != b && b != c && a != c
    ensures Lawful(log) && |Lifetimes(log)| == 4
    ensures Lifetimes(log)[0] == Lifetimes(log)[3] == Announced(a, revision)
    ensures Lifetimes(log)[1] == Announced(b, revision) && Lifetimes(log)[2] == Announced(c, revision)
  {
    hide Lawful, MemoryOf, Allowed, Remember;
    log := LogOpens(a, revision, echo, projection);
    log := LogRotates(log, Announced(b, revision), projection);
    log := LogRotates(log, Announced(c, revision), projection);
    log := LogRotates(log, Announced(a, revision), projection);
  }

  // ---------------------------------------------------------------- revisions

  /** How often a Lifetime and its Projection directly follow the helper's own mutation notice. */
  function OwnRotations(bodies: seq<Body>): nat {
    if bodies == [] then 0
    else
      var n := |bodies| - 1;
      OwnRotations(bodies[..n])
      + (if n >= 2 && bodies[n].Projection? && bodies[n - 1].Lifetime? && OwnMutation(Some(bodies[n - 2])) then 1 else 0)
  }

  /** The revision reached is the first one plus the mutations announced. */
  ghost predicate Counted(m: Memory, bodies: seq<Body>) {
    && m.lastSent == (if bodies == [] then None else Some(bodies[|bodies| - 1]))
    && (m.stage == Fresh ==> bodies == []) && (m.stage == Opened ==> |bodies| == 1)
    && (m.stage in {Fresh, Opened} ==> m.lifetimes == []) && (m.lifetimes != [] ==> bodies != [])
    && (m.lifetimes != [] ==> m.lifetimes[|m.lifetimes| - 1].revision == m.lifetimes[0].revision + OwnRotations(bodies))
    && (m.stage == Renewed ==>
        && m.lifetimes != [] && |bodies| >= 2 && bodies[|bodies| - 1].Lifetime?
        && bodies[|bodies| - 1].revision
           == m.lifetimes[|m.lifetimes| - 1].revision + (if OwnMutation(Some(bodies[|bodies| - 2])) then 1 else 0))
  }

  lemma {:induction false} CountedStep(m: Memory, bodies: seq<Body>, e: Event)
    requires Counted(m, bodies) && Allowed(m, e)
    ensures Counted(Remember(m, e), if e.Sent? then bodies + [e.body] else bodies)
  {
    hide OwnRotations;
    if e.Sent? {
      OneMoreRecord(bodies, e.body);
      if e.body.Projection? && m.stage == Opened {
        OneRecord(bodies);
      }
    }
  }

  lemma {:induction false} OneMoreRecord(bodies: seq<Body>, b: Body)
    ensures var n := |bodies|;
      OwnRotations(bodies + [b]) == OwnRotations(bodies)
        + (if n >= 2 && b.Projection? && bodies[n - 1].Lifetime? && OwnMutation(Some(bodies[n - 2])) then 1 else 0)
  {
    assert (bodies + [b])[..|bodies|] == bodies;
  }

  lemma {:induction false} OneRecord(bodies: seq<Body>)
    requires |bodies| == 1
    ensures OwnRotations(bodies) == 0
  {
    assert bodies[..0] == [];
  }

  lemma {:induction false} LogIsCounted(log: seq<Event>)
    requires Lawful(log)
    ensures Counted(MemoryOf(log), SentBodies(log))
  {
    if log != [] {
      var n := |log| - 1;
      assert log[..n] == log[..|log| - 1];
      LawfulPrefix(log, n);
      LogIsCounted(log[..n]);
      assert LawfulAt(log, n);
      CountedStep(MemoryOf(log[..n]), SentBodies(log[..n]), log[n]);
      assert SentBodies(log[..n]) + [] == SentBodies(log[..n]);
    }
  }

  lemma {:induction false} LifetimesGrow(log: seq<Event>, n: nat)
    requires n <= |log|
    ensures Lifetimes(log[..n]) <= Lifetimes(log)
  {
    if n == |log| {
      assert log[..n] == log;
    } else {
      LifetimesGrow(log[..|log| - 1], n);
      assert log[..|log| - 1][..n] == log[..n];
    }
  }

  predicate IsProjection(e: Event) { e.Sent? && e.body.Projection? }

  lemma {:induction false} LastProjection(log: seq<Event>)
    requires Lawful(log) && log != [] && IsProjection(log[|log| - 1])
    ensures Lifetimes(log) != []
    ensures Lifetimes(log)[|Lifetimes(log)| - 1].revision == log[|log| - 1].body.revision
  {
    assert LawfulAt(log, |log| - 1);
  }

  /** Every announced revision is the first one plus the own mutations announced up to it. */
  lemma {:induction false} RevisionsCountMutations(log: seq<Event>, i: nat)
    requires Lawful(log) && i < |log| && IsProjection(log[i])
    ensures Lifetimes(log) != []
    ensures log[i].body.revision == Lifetimes(log)[0].revision + OwnRotations(SentBodies(log[..i + 1]))
  {
    hide Lawful, MemoryOf, SentBodies, OwnRotations;
    var upTo := log[..i + 1];
    LawfulPrefix(log, i + 1);
    LogIsCounted(upTo);
    LastProjection(upTo);
    LifetimesGrow(log, i + 1);
  }

  lemma {:induction false} CorrelatedSince(log: seq<Event>, i: nat)
    requires i < |log| && IsCorrelation(log[i])
    requires forall k :: i < k < |log| ==> !IsRotation(log[k])
    ensures MemoryOf(log).correlated
  {
    var n := |log| - 1;
    assert log[..n] == log[..|log| - 1];
    if i < n {
      assert !IsRotation(log[n]);
      CorrelatedSince(log[..n], i);
    }
  }

  /** A retired lifetime is correlated at most once before the next rotation. */
  lemma {:induction false} CorrelatedOncePerRotation(log: seq<Event>, i: nat, j: nat)
    requires Lawful(log) && i < j < |log| && IsCorrelation(log[i]) && IsCorrelation(log[j])
    ensures exists k :: i < k < j && IsRotation(log[k])
  {
    assert LawfulAt(log, j);
    if forall k :: i < k < j ==> !IsRotation(log[k]) {
      CorrelatedSince(log[..j], i);
      assert false;
    }
  }

  // ---------------------------------------------------------------- the language of sent records

  datatype Kind = KEstablished | KProjection | KAck | KBound | KInvalidate | KLifetime | KError | KOther

  function KindOf(b: Body): Kind {
    match b
    case Established(_, _) => KEstablished
    case Projection(_, _, _) => KProjection
    case Ack(_, _, _, _) => KAck
    case Bound(_, _, _, _) => KBound
    case Invalidate(_, _, _) => KInvalidate
    case Lifetime(_, _) => KLifetime
    case Error(_) => KError
    case _ => KOther
  }

  function Word(log: seq<Event>): seq<Kind> {
    if log == [] then []
    else Word(log[..|log| - 1]) + (if log[|log| - 1].Sent? then [KindOf(log[|log| - 1].body)] else [])
  }

  /**
   * One lifetime as the peer sees it: how it opens, how many publications it binds, and
   * whether one more acknowledgement is left waiting when it ends.
   */
  datatype Era = Era(withdrawn: bool, bounds: nat, waiting: bool)

  function Binds(n: nat): seq<Kind> {
    if n == 0 then [] else Binds(n - 1) + [KAck, KBound]
  }

  function EraWord(first: bool, e: Era): seq<Kind> {
    (if first then [KEstablished, KProjection]
     else (if e.withdrawn then [KInvalidate] else []) + [KLifetime, KProjection])
    + Binds(e.bounds) + (if e.waiting then [KAck] else [])
  }

  /** Established Projection (Ack Bound)* Ack? (Invalidate? Lifetime Projection (Ack Bound)* Ack?)* */
  function EraWords(eras: seq<Era>): seq<Kind> {
    if eras == [] then []
    else EraWords(eras[..|eras| - 1]) + EraWord(|eras| == 1, eras[|eras| - 1])
  }

  /** How the word of a log that stopped in `stage` is built from complete eras. */
  predicate Parses(word: seq<Kind>, stage: Stage, eras: seq<Era>) {
    match stage
    case Fresh => word == [] && eras == []
    case Opened => word == [KEstablished] && eras == []
    case Idle => eras != [] && !eras[|eras| - 1].waiting && word == EraWords(eras)
    case Acked => eras != [] && eras[|eras| - 1].waiting && word == EraWords(eras)
    case Withdrawn => eras != [] && word == EraWords(eras) + [KInvalidate]
    case Renewed => eras != [] && (word == EraWords(eras) + [KLifetime] || word == EraWords(eras) + [KInvalidate, KLifetime])
    case Ended => word == EraWords(eras) + [KError] || (eras != [] && word == EraWords(eras) + [KInvalidate, KError])
  }

  /**
   * The records of every run form a word of that language cut at any point, with at most
   * one closing Error; and the Error never follows a bare Established or Lifetime.
   */
  lemma {:induction false} WordsOfRuns(log: seq<Event>) returns (eras: seq<Era>)
    requires Lawful(log)
    ensures Parses(Word(log), MemoryOf(log).stage, eras)
  {
    if log == [] {
      eras := [];
      return;
    }
    var n := |log| - 1;
    assert log[..n] == log[..|log| - 1];
    LawfulPrefix(log, n);
    var before := WordsOfRuns(log[..n]);
    var m := MemoryOf(log[..n]);
    assert LawfulAt(log, n);
    eras := ExtendParse(Word(log[..n]), m, before, log[n]);
  }

  lemma {:induction false} EraWordsAppend(eras: seq<Era>, e: Era)
    ensures EraWords(eras + [e]) == EraWords(eras) + EraWord(eras == [], e)
  {
    assert (eras + [e])[..|eras|] == eras;
  }

  /** Replacing the last era by one whose word is longer by `more`. */
  lemma {:induction false} LastEraGrows(eras: seq<Era>, e: Era, more: seq<Kind>)
    requires eras != []
    requires forall first :: EraWord(first, e) == EraWord(first, eras[|eras| - 1]) + more
    ensures EraWords(eras[..|eras| - 1] + [e]) == EraWords(eras) + more
  {
    var init, last := eras[..|eras| - 1], eras[|eras| - 1];
    EraWordsAppend(init, e);
    assert EraWords(init) + (EraWord(init == [], last) + more) == EraWords(init) + EraWord(init == [], last) + more;
  }

  lemma {:induction false} ExtendParse(word: seq<Kind>, m: Memory, before: seq<Era>, e: Event) returns (eras: seq<Era>)
    requires Parses(word, m.stage, before) && Allowed(m, e)
    ensures Parses(word + (if e.Sent? then [KindOf(e.body)] else []), Remember(m, e).stage, eras)
  {
    hide EraWord;
    eras := before;
    if !e.Sent? {
      assert word + [] == word;
      return;
    }
    match e.body
    case Projection(_, _, _) => eras := ParseProjection(word, m.stage, before);
    case Ack(_, _, _, _) => eras := ParseAck(word, before);
    case Bound(_, _, _, _) => eras := ParseBound(word, before);
    case _ =>
  }

  lemma {:induction false} ParseProjection(word: seq<Kind>, stage: Stage, before: seq<Era>) returns (eras: seq<Era>)
    requires Parses(word, stage, before) && stage in {Opened, Renewed}
    ensures Parses(word + [KProjection], Idle, eras)
  {
    var era := Era(stage == Renewed && word == EraWords(before) + [KInvalidate, KLifetime], 0, false);
    eras := before + [era];
    EraWordsAppend(before, era);
  }

  lemma {:induction false} ParseAck(word: seq<Kind>, before: seq<Era>) returns (eras: seq<Era>)
    requires Parses(word, Idle, before)
    ensures Parses(word + [KAck], Acked, eras)
  {
    var next := before[|before| - 1].(waiting := true);
    eras := before[..|before| - 1] + [next];
    LastEraGrows(before, next, [KAck]);
  }

  lemma {:induction false} ParseBound(word: seq<Kind>, before: seq<Era>) returns (eras: seq<Era>)
    requires Parses(word, Acked, before)
    ensures Parses(word + [KBound], Idle, eras)
  {
    var last := before[|before| - 1];
    var next := last.(bounds := last.bounds + 1, waiting := false);
    eras := before[..|before| - 1] + [next];
    LastEraGrows(before, next, [KBound]);
  }
}
