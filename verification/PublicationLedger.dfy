/**
 * All publication states of a process as plain values: the lifetime counter, the cells minted
 * from it, who holds which cell, and the log of what was issued, published, reset and checked
 * (crates/bitty-ai-endpoint/src/metadata_publication.rs:115-251, 351-489). The laws of whole
 * runs are proved here; `PublicationWorld` proves that the heap objects follow these values.
 */
module PublicationLedger {
  import opened Bytes
  import opened Results
  import opened ProviderProjection
  import opened ProviderPublication
  import opened ProviderRegistry
  import opened PublicationState

  /** The parser's depth bound and the digest, the same for every state. */
  datatype Setting = Setting(max: nat, hash: string -> string)

  datatype Cell = Cell(sequence: nat, revoked: bool)

  /** One state: the cell it holds, by mint order, and its slots. */
  datatype Holder = Holder(cell: nat, slots: Slots)

  datatype World = World(next: nat, cells: seq<Cell>, holders: seq<Holder>)

  const START := World(1, [], [])

  /** One call on the `k`th state made so far. */
  datatype Call =
    | CallDefault
    | CallClone(k: nat)
    | CallReset(k: nat)
    | CallPublish(k: nat, frame: string)
    | CallAcknowledge(k: nat, frame: string)
    | CallBind(k: nat, ack: Ack, registry: Registry)
    | CallVerify(k: nat, proof: Binding, registry: Registry)

  /** What a call on state `k` leaves in the log; `cell` is the one it held at the time. */
  datatype Event =
    | Created(k: nat, cell: nat)
    | Cloned(k: nat, copy: nat)
    | Reset(k: nat, cell: nat, taken: nat)
    | Published(k: nat, ack: Ack)
    | Issued(k: nat, proof: Binding, cell: nat)
    | Checked(k: nat, proof: Binding, cell: nat, ok: bool)

  // ---------------------------------------------------------------- one call

  predicate InRange(w: World) {
    forall k :: 0 <= k < |w.holders| ==> w.holders[k].cell < |w.cells|
  }

  function CellOf(w: World, k: nat): Cell
    requires InRange(w) && k < |w.holders|
  {
    w.cells[w.holders[k].cell]
  }

  /** The next sequence, or the revoked sentinel once the counter is exhausted. */
  function Minted(w: World): World {
    if w.next == U64_MAX then w.(cells := w.cells + [Cell(EXHAUSTED_LIFETIME_SEQUENCE, true)])
    else w.(next := w.next + 1, cells := w.cells + [Cell(w.next, w.next == EXHAUSTED_LIFETIME_SEQUENCE)])
  }

  function Put(w: World, k: nat, slots: Slots): World
    requires k < |w.holders|
  {
    w.(holders := w.holders[k := w.holders[k].(slots := slots)])
  }

  function PublishedBy(w: World, u: Setting, k: nat, frame: string): Result<Ack, RoutingError>
    requires InRange(w) && k < |w.holders|
  {
    PublishVerdict(w.holders[k].slots, CellOf(w, k).revoked, frame, u.max, u.hash)
  }

  function AckedBy(w: World, u: Setting, k: nat, frame: string): Result<Ack, RoutingError>
    requires InRange(w) && k < |w.holders|
  {
    AckVerdict(w.holders[k].slots, CellOf(w, k).revoked, frame, u.max)
  }

  function BoundBy(w: World, u: Setting, k: nat, ack: Ack, registry: Registry): Result<Binding, RoutingError>
    requires InRange(w) && k < |w.holders|
  {
    BindVerdict(w.holders[k].slots, CellOf(w, k).revoked, CellOf(w, k).sequence, u.hash, ack, registry)
  }

  predicate Accepts(w: World, u: Setting, k: nat, b: Binding, registry: Registry)
    requires InRange(w) && k < |w.holders|
  {
    VerifyVerdict(w.holders[k].slots, CellOf(w, k).revoked, CellOf(w, k).sequence, u.hash, b, registry).None?
  }

  function ResetOf(w: World, k: nat): World
    requires InRange(w) && k < |w.holders|
  {
    var c := w.holders[k].cell;
    Minted(w.(cells := w.cells[c := w.cells[c].(revoked := true)])).(holders := w.holders[k := Holder(|w.cells|, EMPTY)])
  }

  lemma {:induction false} ResetMints(w: World, k: nat, next: nat, cell: Cell)
    requires InRange(w) && k < |w.holders| && Minted(w) == w.(next := next, cells := w.cells + [cell])
    ensures var c := w.holders[k].cell;
      ResetOf(w, k) == World(next, w.cells[c := w.cells[c].(revoked := true)] + [cell],
                             w.holders[k := Holder(|w.cells|, EMPTY)])
  {
    assert cell == (w.cells + [cell])[|w.cells|] == Minted(w).cells[|w.cells|];
  }

  function Step(w: World, u: Setting, call: Call): (r: World)
    requires InRange(w)
    ensures InRange(r)
  {
    if call.CallDefault? then Minted(w).(holders := w.holders + [Holder(|w.cells|, EMPTY)])
    else if call.k >= |w.holders| then w
    else
      var slots := w.holders[call.k].slots;
      match call
      case CallClone(k) => w.(holders := w.holders + [w.holders[k]])
      case CallReset(k) => ResetOf(w, k)
      case CallPublish(k, frame) =>
        var r := PublishedBy(w, u, k, frame);
        if r.Ok? then Put(w, k, AfterPublish(slots, r.value)) else w
      case CallAcknowledge(k, frame) => if AckedBy(w, u, k, frame).Ok? then Put(w, k, AfterAck(slots)) else w
      case CallBind(k, ack, registry) => Put(w, k, AfterBind(slots, BoundBy(w, u, k, ack, registry)))
      case CallVerify(_, _, _) => w
  }

  function EventsOf(w: World, u: Setting, call: Call): seq<Event>
    requires InRange(w)
  {
    if call.CallDefault? then [Created(|w.holders|, |w.cells|)]
    else if call.k >= |w.holders| then []
    else
      var cell := w.holders[call.k].cell;
      match call
      case CallClone(k) => [Cloned(k, |w.holders|)]
      case CallReset(k) => [Reset(k, cell, |w.cells|)]
      case CallPublish(k, frame) =>
        var r := PublishedBy(w, u, k, frame);
        if r.Ok? then [Published(k, r.value)] else []
      case CallAcknowledge(_, _) => []
      case CallBind(k, ack, registry) =>
        var r := BoundBy(w, u, k, ack, registry);
        if r.Ok? then [Issued(k, r.value, cell)] else []
      case CallVerify(k, proof, registry) => [Checked(k, proof, cell, Accepts(w, u, k, proof, registry))]
  }

  // ---------------------------------------------------------------- whole runs

  function RunFrom(w: World, u: Setting, calls: seq<Call>): (r: World)
    requires InRange(w)
    ensures InRange(r)
  {
    if calls == [] then w else Step(RunFrom(w, u, calls[..|calls| - 1]), u, calls[|calls| - 1])
  }

  function LogOf(w: World, u: Setting, calls: seq<Call>): seq<Event>
    requires InRange(w)
  {
    if calls == [] then []
    else
      var before := calls[..|calls| - 1];
      LogOf(w, u, before) + EventsOf(RunFrom(w, u, before), u, calls[|calls| - 1])
  }

  /** Sequences identify cells, except that every exhausted cell carries zero and is revoked. */
  ghost predicate CellsOk(w: World) {
    && 1 <= w.next <= U64_MAX
    && (forall i :: 0 <= i < |w.cells| ==> w.cells[i].sequence < w.next)
    && (forall i :: 0 <= i < |w.cells| && w.cells[i].sequence == EXHAUSTED_LIFETIME_SEQUENCE ==> w.cells[i].revoked)
    && (forall i, j :: 0 <= i < j < |w.cells| && w.cells[i].sequence == w.cells[j].sequence ==>
          w.cells[i].sequence == EXHAUSTED_LIFETIME_SEQUENCE)
  }

  ghost predicate WorldOk(w: World, u: Setting) {
    InRange(w) && CellsOk(w) && forall k :: 0 <= k < |w.holders| ==> Sound(w.holders[k].slots, u.max, u.hash)
  }

  lemma {:induction false} StepKeepsCells(w: World, u: Setting, call: Call)
    requires InRange(w) && CellsOk(w)
    ensures CellsOk(Step(w, u, call))
  {
    hide PublishVerdict, AckVerdict, BindVerdict;
  }

  lemma {:induction false} StepKeepsSlots(w: World, u: Setting, call: Call, k: nat)
    requires WorldOk(w, u) && k < |Step(w, u, call).holders|
    ensures Sound(Step(w, u, call).holders[k].slots, u.max, u.hash)
  {
    hide CellsOk, ProviderPublication.Published, ParsePublication, ParseAck, RegistryText, Saturating;
    if call.CallPublish? && call.k < |w.holders| && PublishedBy(w, u, call.k, call.frame).Ok? {
      SoundAfterPublish(w.holders[call.k].slots, call.frame, u.max, u.hash);
    }
  }

  lemma {:induction false} StepKeepsWorld(w: World, u: Setting, call: Call)
    requires WorldOk(w, u)
    ensures WorldOk(Step(w, u, call), u)
  {
    StepKeepsCells(w, u, call);
    forall k | 0 <= k < |Step(w, u, call).holders| ensures Sound(Step(w, u, call).holders[k].slots, u.max, u.hash) {
      StepKeepsSlots(w, u, call, k);
    }
    hide Step;
  }

  /** Two live cells never share a token, exhaustion included. */
  lemma {:induction false} LiveTokensAreUnique(w: World, i: nat, j: nat)
    requires CellsOk(w) && i < |w.cells| && j < |w.cells|
    requires !w.cells[i].revoked && !w.cells[j].revoked && w.cells[i].sequence == w.cells[j].sequence
    ensures i == j
  {
  }

  // ---------------------------------------------------------------- how long a proof lives

  /** State `k` can never accept the proof again. */
  predicate Gone(w: World, k: nat, b: Binding)
    requires InRange(w) && k < |w.holders|
  {
    b.token < w.next && (CellOf(w, k).revoked || CellOf(w, k).sequence != b.token || b.epoch < w.holders[k].slots.epoch)
  }

  /** The two calls that end what state `k` accepts: a publication of its own, or a reset of any alias. */
  predicate Ends(w: World, u: Setting, call: Call, k: nat)
    requires InRange(w) && k < |w.holders|
  {
    || (call.CallPublish? && call.k == k && PublishedBy(w, u, k, call.frame).Ok?)
    || (call.CallReset? && call.k < |w.holders| && w.holders[call.k].cell == w.holders[k].cell)
  }

  lemma {:induction false} GoneIsRefused(w: World, u: Setting, k: nat, b: Binding, registry: Registry)
    requires InRange(w) && k < |w.holders| && Gone(w, k, b)
    ensures !Accepts(w, u, k, b, registry)
  {
    hide RegistryText;
  }

  lemma {:induction false} HoldersStay(w: World, u: Setting, call: Call)
    requires InRange(w)
    ensures |w.holders| <= |Step(w, u, call).holders|
  {
    hide PublishVerdict, AckVerdict, BindVerdict;
  }

  /** What a call does to the slots of state `k`: only its own call touches them. */
  lemma {:induction false} SlotsTold(w: World, u: Setting, call: Call, k: nat)
    requires InRange(w) && k < |w.holders|
    ensures k < |Step(w, u, call).holders|
    ensures var c, after := w.holders[k].slots, Step(w, u, call).holders[k].slots;
      if call.CallDefault? || call.k != k then after == c
      else
        match call
        case CallReset(_) => after == EMPTY
        case CallPublish(_, frame) =>
          after == if PublishedBy(w, u, k, frame).Ok? then AfterPublish(c, PublishedBy(w, u, k, frame).value) else c
        case CallAcknowledge(_, frame) => after == if AckedBy(w, u, k, frame).Ok? then AfterAck(c) else c
        case CallBind(_, ack, registry) => after == AfterBind(c, BoundBy(w, u, k, ack, registry))
        case _ => after == c
  {
    hide PublishedBy, AckedBy, BoundBy, AfterPublish, AfterAck, AfterBind;
    HoldersStay(w, u, call);
  }

  lemma {:induction false} GoneStays(w: World, u: Setting, call: Call, k: nat, b: Binding)
    requires WorldOk(w, u) && k < |w.holders| && Gone(w, k, b)
    ensures k < |Step(w, u, call).holders| && Gone(Step(w, u, call), k, b)
  {
    hide AckVerdict, BindVerdict, ParsePublication, Sound;
    HoldersStay(w, u, call);
    if call.CallPublish? && call.k < |w.holders| && PublishedBy(w, u, call.k, call.frame).Ok? {
      SoundAfterPublish(w.holders[call.k].slots, call.frame, u.max, u.hash);
    }
  }

  /** One call leaves an accepted proof accepted, unless it is one of the two, which end it for good. */
  lemma {:induction false} OneCallEndsOrKeeps(w: World, u: Setting, call: Call, k: nat, b: Binding, registry: Registry)
    requires WorldOk(w, u) && k < |w.holders| && Accepts(w, u, k, b, registry)
    ensures k < |Step(w, u, call).holders|
    ensures if Ends(w, u, call, k) then Gone(Step(w, u, call), k, b) else Accepts(Step(w, u, call), u, k, b, registry)
  {
    hide RegistryText, ParsePublication, ParseAck, SameIdentity, SlotOk;
    HoldersStay(w, u, call);
    if call.CallPublish? && call.k < |w.holders| && PublishedBy(w, u, call.k, call.frame).Ok? {
      SoundAfterPublish(w.holders[call.k].slots, call.frame, u.max, u.hash);
    }
  }

  lemma {:induction false} BindIsAccepted(w: World, u: Setting, k: nat, ack: Ack, registry: Registry)
    requires InRange(w) && k < |w.holders| && BoundBy(w, u, k, ack, registry).Ok?
    ensures var after := Step(w, u, CallBind(k, ack, registry));
      k < |after.holders| && Accepts(after, u, k, BoundBy(w, u, k, ack, registry).value, registry)
  {
    hide SameIdentity;
  }

  ghost predicate EndedBy(w: World, u: Setting, calls: seq<Call>, i: nat, k: nat)
    requires InRange(w) && i < |calls|
  {
    var before := RunFrom(w, u, calls[..i]);
    k < |before.holders| && Ends(before, u, calls[i], k)
  }

  ghost predicate Unended(w: World, u: Setting, calls: seq<Call>, k: nat)
    requires InRange(w)
  {
    forall i :: 0 <= i < |calls| ==> !EndedBy(w, u, calls, i, k)
  }

  lemma {:induction false} RunKeepsWorld(w: World, u: Setting, calls: seq<Call>)
    requires WorldOk(w, u)
    ensures WorldOk(RunFrom(w, u, calls), u) && |w.holders| <= |RunFrom(w, u, calls).holders|
  {
    hide Step, CellsOk, Sound;
    if calls != [] {
      var before, last := calls[..|calls| - 1], calls[|calls| - 1];
      RunKeepsWorld(w, u, before);
      StepKeepsWorld(RunFrom(w, u, before), u, last);
      HoldersStay(RunFrom(w, u, before), u, last);
    }
  }

  lemma {:induction false} UnendedInit(w: World, u: Setting, calls: seq<Call>, k: nat)
    requires InRange(w) && calls != []
    ensures var n := |calls| - 1; Unended(w, u, calls, k) <==> Unended(w, u, calls[..n], k) && !EndedBy(w, u, calls, n, k)
  {
    hide RunFrom, Ends;
    var n := |calls| - 1;
    forall i | 0 <= i < n ensures EndedBy(w, u, calls[..n], i, k) == EndedBy(w, u, calls, i, k) {
      assert calls[..n][..i] == calls[..i];
    }
  }

  /**
   * Over any run, a proof that a state accepts stays accepted, for the same registry, exactly as
   * long as that state publishes nothing new and no alias of its lifetime is reset; after
   * either it is gone for good, whatever is acknowledged and bound afterwards.
   */
  lemma {:induction false} AcceptedUntilEnded(w: World, u: Setting, calls: seq<Call>, k: nat, b: Binding, registry: Registry)
    requires WorldOk(w, u) && k < |w.holders| && Accepts(w, u, k, b, registry)
    ensures k < |RunFrom(w, u, calls).holders|
    ensures Accepts(RunFrom(w, u, calls), u, k, b, registry) <==> Unended(w, u, calls, k)
    ensures !Unended(w, u, calls, k) ==> Gone(RunFrom(w, u, calls), k, b)
  {
    hide Step, Accepts, Gone, Ends, CellsOk, Sound, Unended;
    RunKeepsWorld(w, u, calls);
    if calls == [] {
      NothingEnds(w, u, k);
    } else {
      var n := |calls| - 1;
      var before := RunFrom(w, u, calls[..n]);
      RunKeepsWorld(w, u, calls[..n]);
      AcceptedUntilEnded(w, u, calls[..n], k, b, registry);
      UnendedInit(w, u, calls, k);
      if Unended(w, u, calls[..n], k) {
        OneCallEndsOrKeeps(before, u, calls[n], k, b, registry);
      } else {
        GoneStays(before, u, calls[n], k, b);
      }
      if Gone(RunFrom(w, u, calls), k, b) {
        GoneIsRefused(RunFrom(w, u, calls), u, k, b, registry);
      }
    }
  }

  /** A proof just issued is accepted by its issuer over the run that follows, exactly until then. */
  lemma {:induction false} IssuedUntilEnded(w: World, u: Setting, k: nat, ack: Ack, registry: Registry, calls: seq<Call>)
    requires WorldOk(w, u) && k < |w.holders| && BoundBy(w, u, k, ack, registry).Ok?
    ensures var issued, b := Step(w, u, CallBind(k, ack, registry)), BoundBy(w, u, k, ack, registry).value;
      && k < |RunFrom(issued, u, calls).holders|
      && (Accepts(RunFrom(issued, u, calls), u, k, b, registry) <==> Unended(issued, u, calls, k))
      && (!Unended(issued, u, calls, k) ==> forall other :: !Accepts(RunFrom(issued, u, calls), u, k, b, other))
  {
    hide Step, Accepts, BoundBy, Unended, Sound, CellsOk;
    var issued, b := Step(w, u, CallBind(k, ack, registry)), BoundBy(w, u, k, ack, registry).value;
    StepKeepsWorld(w, u, CallBind(k, ack, registry));
    BindIsAccepted(w, u, k, ack, registry);
    AcceptedUntilEnded(issued, u, calls, k, b, registry);
    forall other | !Unended(issued, u, calls, k) ensures !Accepts(RunFrom(issued, u, calls), u, k, b, other) {
      GoneIsRefused(RunFrom(issued, u, calls), u, k, b, other);
    }
  }

  lemma {:induction false} NothingEnds(w: World, u: Setting, k: nat)
    requires InRange(w)
    ensures Unended(w, u, [], k)
  {
  }

  /**
   * Publishing ends the publisher's proofs only: an alias cloned before still accepts what the
   * publisher now refuses for every registry.
   */
  lemma {:induction false} AliasOutlivesPublish(w: World, u: Setting, k: nat, frame: string, b: Binding, registry: Registry)
    requires WorldOk(w, u) && k < |w.holders| && Accepts(w, u, k, b, registry) && PublishedBy(w, u, k, frame).Ok?
    ensures var copy, after := |w.holders|, Step(Step(w, u, CallClone(k)), u, CallPublish(k, frame));
      && k < copy < |after.holders|
      && Accepts(after, u, copy, b, registry)
      && forall other :: !Accepts(after, u, k, b, other)
  {
    hide Accepts, PublishVerdict, AfterPublish;
    var copy, cloned := |w.holders|, Step(w, u, CallClone(k));
    var after := Step(cloned, u, CallPublish(k, frame));
    StepKeepsWorld(w, u, CallClone(k));
    CloneAgrees(w, u, k, b, registry);
    OneCallEndsOrKeeps(cloned, u, CallPublish(k, frame), copy, b, registry);
    OneCallEndsOrKeeps(cloned, u, CallPublish(k, frame), k, b, registry);
    forall other ensures !Accepts(after, u, k, b, other) {
      GoneIsRefused(after, u, k, b, other);
    }
  }

  lemma {:induction false} CloneAgrees(w: World, u: Setting, k: nat, b: Binding, registry: Registry)
    requires InRange(w) && k < |w.holders|
    ensures var cloned := Step(w, u, CallClone(k));
      && |cloned.holders| == |w.holders| + 1
      && Accepts(cloned, u, k, b, registry) == Accepts(w, u, k, b, registry)
      && Accepts(cloned, u, |w.holders|, b, registry) == Accepts(w, u, k, b, registry)
  {
    hide VerifyVerdict;
  }
}
