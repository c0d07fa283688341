/**
 * The log of a run of publication calls, read on its own: which proofs each state has issued or
 * inherited, which of them a publication or a reset has ended, and the law that no check
 * accepts an ended proof (crates/bitty-ai-endpoint/src/metadata_publication.rs:195-251, 351-489).
 */
module PublicationLog {
  import opened Results
  import ProviderProjection
  import opened ProviderPublication
  import opened ProviderRegistry
  import opened PublicationState
  import opened PublicationLedger

  /** How many states the log has seen made. */
  function Made(log: seq<Event>): nat {
    if log == [] then 0
    else
      var e := log[|log| - 1];
      Made(log[..|log| - 1]) + (if e.Created? || e.Cloned? then 1 else 0)
  }

  /** The cell state `k` holds when the log ends. */
  function CellIn(log: seq<Event>, k: nat): nat {
    if log == [] then 0
    else
      var before, e := log[..|log| - 1], log[|log| - 1];
      if e.Created? && e.k == k then e.cell
      else if e.Cloned? && e.copy == k then CellIn(before, e.k)
      else if e.Reset? && e.k == k then e.taken
      else CellIn(before, k)
  }

  /** The proofs state `k` has issued, or got from the state it was cloned from. */
  function Known(log: seq<Event>, k: nat): set<Binding> {
    if log == [] then {}
    else
      var before, e := log[..|log| - 1], log[|log| - 1];
      if e.Created? && e.k == k then {}
      else if e.Issued? && e.k == k then Known(before, k) + {e.proof}
      else if e.Cloned? && e.copy == k then Known(before, e.k)
      else Known(before, k)
  }

  /** Those of them that a later publication on `k`, or a reset of `k`, has ended. */
  function Ended(log: seq<Event>, k: nat): set<Binding> {
    if log == [] then {}
    else
      var before, e := log[..|log| - 1], log[|log| - 1];
      if e.Created? && e.k == k then {}
      else if (e.Published? || e.Reset?) && e.k == k then Known(before, k)
      else if e.Cloned? && e.copy == k then Ended(before, e.k)
      else Ended(before, k)
  }

  /** What was published on state `k`, or on its origins before it was cloned, since its last reset. */
  function History(log: seq<Event>, k: nat): seq<Ack> {
    if log == [] then []
    else
      var before, e := log[..|log| - 1], log[|log| - 1];
      if (e.Created? || e.Reset?) && e.k == k then []
      else if e.Cloned? && e.copy == k then History(before, e.k)
      else if e.Published? && e.k == k then History(before, k) + [e.ack]
      else History(before, k)
  }

  /** `a` follows a history: a higher version than the last one, an id not yet used, and room for one more. */
  predicate Follows(h: seq<Ack>, a: Ack) {
    && (h != [] ==> h[|h| - 1].version < a.version)
    && (forall i :: 0 <= i < |h| ==> h[i].id != a.id)
    && |h| < MAX_ACCEPTED_PUBLICATION_IDS
  }

  /** A proof of the last publication of a history. */
  predicate ProvesLast(h: seq<Ack>, b: Binding) {
    h != [] && b.ack == h[|h| - 1] && b.epoch == |h|
  }

  // ---------------------------------------------------------------- the law

  /** What event `e` must respect after `log`. */
  ghost predicate Allowed(log: seq<Event>, e: Event) {
    match e
    case Created(k, _) => k == Made(log)
    case Cloned(k, copy) => k < copy == Made(log)
    case Reset(k, cell, _) => k < Made(log) && cell == CellIn(log, k)
    case Published(k, a) => k < Made(log) && Follows(History(log, k), a)
    case Issued(k, b, cell) => k < Made(log) && cell == CellIn(log, k) && ProvesLast(History(log, k), b)
    case Checked(k, b, cell, ok) =>
      && k < Made(log) && cell == CellIn(log, k)
      && (ok ==> b !in Ended(log, k) && ProvesLast(History(log, k), b))
      && (ok ==> forall i :: 0 <= i < |log| ==> Admits(log[i], b, cell))
  }

  /** An earlier event that does not speak against accepting `b` under `cell`. */
  predicate Admits(e: Event, b: Binding, cell: nat) {
    (e.Issued? && e.proof == b ==> e.cell == cell) && (e.Reset? ==> e.cell != cell)
  }

  /**
   * A proof is accepted only by holders of the cell it was issued under, never after a reset of
   * that cell, never by a state for which a publication has ended it, and only for the state's
   * last publication; and every publication rises above those before it.
   */
  ghost predicate Lawful(log: seq<Event>) {
    forall j :: 0 <= j < |log| ==> Allowed(log[..j], log[j])
  }

  lemma {:induction false} LawfulAppend(log: seq<Event>, e: Event)
    requires Lawful(log) && Allowed(log, e)
    ensures Lawful(log + [e])
  {
    hide Allowed;
    var more := log + [e];
    forall j | 0 <= j < |more| ensures Allowed(more[..j], more[j]) {
      assert more[..j] == log[..j];
      assert log[..|log|] == log;
    }
  }

  /** Once any alias of the issuing lifetime is reset, the proof is refused by every state from then on. */
  lemma {:induction false} ResetEndsProofs(log: seq<Event>, i: nat, r: nat, j: nat)
    requires Lawful(log) && i < j < |log| && r < j
    requires log[i].Issued? && log[r].Reset? && log[r].cell == log[i].cell
    requires log[j].Checked? && log[j].proof == log[i].proof
    ensures !log[j].ok
  {
    assert Allowed(log[..j], log[j]);
    assert log[..j][i] == log[i] && log[..j][r] == log[r];
  }

  lemma {:induction false} LastEvent(log: seq<Event>, n: nat)
    requires n < |log|
    ensures log[..n + 1][..n] == log[..n] && log[..n + 1][n] == log[n] && |log[..n + 1]| == n + 1
  {
  }

  /** What a state knows, and what is ended for it, only grows. */
  lemma {:induction false} KnownAndEndedGrow(log: seq<Event>, m: nat, n: nat, k: nat)
    requires Lawful(log) && m <= n <= |log| && k < Made(log[..m])
    ensures k < Made(log[..n])
    ensures Known(log[..m], k) <= Known(log[..n], k) && Ended(log[..m], k) <= Ended(log[..n], k) && Ended(log[..n], k) <= Known(log[..n], k)
    decreases n
  {
    EndedIsKnown(log[..n], k);
    if m < n {
      KnownAndEndedGrow(log, m, n - 1, k);
      LastEvent(log, n - 1);
      assert Allowed(log[..n - 1], log[n - 1]);
    }
  }

  lemma {:induction false} EndedIsKnown(log: seq<Event>, k: nat)
    ensures Ended(log, k) <= Known(log, k)
    decreases |log|
  {
    if log != [] {
      var before, e := log[..|log| - 1], log[|log| - 1];
      EndedIsKnown(before, k);
      if e.Cloned? {
        EndedIsKnown(before, e.k);
      }
    }
  }

  /**
   * A proof issued by a state is refused by every check on that state after its next
   * publication, whatever was acknowledged and bound in between.
   */
  lemma {:induction false} PublishEndsProofs(log: seq<Event>, i: nat, m: nat, j: nat)
    requires Lawful(log) && i < m < j < |log|
    requires log[i].Issued? && log[m].Published? && log[m].k == log[i].k
    requires log[j].Checked? && log[j].k == log[i].k && log[j].proof == log[i].proof
    ensures !log[j].ok
  {
    PublishEnds(log, i, m, j);
    assert Allowed(log[..j], log[j]);
  }

  lemma {:induction false} IssuedIsKnown(log: seq<Event>, i: nat)
    requires Lawful(log) && i < |log| && log[i].Issued?
    ensures log[i].k < Made(log[..i + 1]) && log[i].proof in Known(log[..i + 1], log[i].k)
  {
    assert Allowed(log[..i], log[i]);
    LastEvent(log, i);
  }

  lemma {:induction false} PublishedEndsTheKnown(log: seq<Event>, m: nat)
    requires Lawful(log) && m < |log| && log[m].Published?
    ensures log[m].k < Made(log[..m + 1]) && Ended(log[..m + 1], log[m].k) == Known(log[..m], log[m].k)
  {
    assert Allowed(log[..m], log[m]);
    LastEvent(log, m);
  }

  lemma {:induction false} PublishEnds(log: seq<Event>, i: nat, m: nat, j: nat)
    requires Lawful(log) && i < m < j <= |log|
    requires log[i].Issued? && log[m].Published? && log[m].k == log[i].k
    ensures log[i].k < Made(log[..j]) && log[i].proof in Ended(log[..j], log[i].k)
  {
    hide Lawful, Made, Known, Ended;
    IssuedIsKnown(log, i);
    KnownAndEndedGrow(log, i + 1, m, log[i].k);
    PublishedEndsTheKnown(log, m);
    KnownAndEndedGrow(log, m + 1, j, log[i].k);
  }

  /** A clone taken after the publication refuses the proof as well. */
  lemma {:induction false} LaterCopiesRefuseToo(log: seq<Event>, i: nat, m: nat, c: nat, j: nat)
    requires Lawful(log) && i < m < c < j < |log|
    requires log[i].Issued? && log[m].Published? && log[m].k == log[i].k
    requires log[c].Cloned? && log[c].k == log[i].k
    requires log[j].Checked? && log[j].k == log[c].copy && log[j].proof == log[i].proof
    ensures !log[j].ok
  {
    PublishEnds(log, i, m, c);
    assert Allowed(log[..c], log[c]) && Allowed(log[..j], log[j]);
    ClonedInherits(log, c);
    hide Lawful, Made, Known, Ended;
    KnownAndEndedGrow(log, c + 1, j, log[c].copy);
  }

  lemma {:induction false} ClonedInherits(log: seq<Event>, c: nat)
    requires Lawful(log) && c < |log| && log[c].Cloned?
    ensures log[c].copy < Made(log[..c + 1]) && Ended(log[..c + 1], log[c].copy) == Ended(log[..c], log[c].k)
  {
    assert Allowed(log[..c], log[c]);
    LastEvent(log, c);
  }

  /** Along a history versions strictly rise and no id comes twice. */
  lemma {:induction false} HistoriesRise(log: seq<Event>, k: nat, i: nat, j: nat)
    requires Lawful(log) && i < j < |History(log, k)|
    ensures History(log, k)[i].version < History(log, k)[j].version && History(log, k)[i].id != History(log, k)[j].id
    decreases |log|
  {
    hide CellIn, Known, Ended, Made;
    if log != [] {
      var n := |log| - 1;
      var before, e := log[..n], log[n];
      LawfulInit(log);
      assert Allowed(before, e);
      if e.Published? && e.k == k {
        var h := History(before, k);
        if j < |h| {
          HistoriesRise(before, k, i, j);
        } else if i < |h| - 1 {
          HistoriesRise(before, k, i, |h| - 1);
        }
      } else {
        HistoriesRise(before, if e.Cloned? && e.copy == k then e.k else k, i, j);
      }
    }
  }

  lemma {:induction false} LawfulInit(log: seq<Event>)
    requires Lawful(log) && log != []
    ensures Lawful(log[..|log| - 1])
  {
    hide Allowed;
    var before := log[..|log| - 1];
    forall j | 0 <= j < |before| ensures Allowed(before[..j], before[j]) {
      assert before[..j] == log[..j];
      assert Allowed(log[..j], log[j]);
    }
  }

  /** A publication stays in the history of its state until that state is reset. */
  lemma {:induction false} HistoryKeeps(log: seq<Event>, m: nat, n: nat, k: nat)
    requires Lawful(log) && m <= n <= |log| && k < Made(log[..m])
    requires forall r :: m <= r < n ==> !(log[r].Reset? && log[r].k == k)
    ensures k < Made(log[..n]) && History(log[..m], k) <= History(log[..n], k)
    decreases n
  {
    hide Lawful, Made, History;
    if m < n {
      HistoryKeeps(log, m, n - 1, k);
      HistoryStep(log, n - 1, k);
    }
  }

  lemma {:induction false} HistoryStep(log: seq<Event>, n: nat, k: nat)
    requires Lawful(log) && n < |log| && k < Made(log[..n]) && !(log[n].Reset? && log[n].k == k)
    ensures k < Made(log[..n + 1]) && History(log[..n], k) <= History(log[..n + 1], k)
  {
    hide CellIn, Known, Ended, Follows, ProvesLast, Admits;
    LastEvent(log, n);
    assert Allowed(log[..n], log[n]);
  }

  lemma {:induction false} PublishedIsHistory(log: seq<Event>, i: nat)
    requires Lawful(log) && i < |log| && log[i].Published?
    ensures log[i].k < Made(log[..i + 1])
    ensures History(log[..i + 1], log[i].k) == History(log[..i], log[i].k) + [log[i].ack]
  {
    hide CellIn, Known, Ended;
    assert Allowed(log[..i], log[i]);
    LastEvent(log, i);
  }

  /** Whatever is in the history of a state, its next publication has a higher version and another id. */
  lemma {:induction false} NextPublicationRises(log: seq<Event>, j: nat, a: Ack)
    requires Lawful(log) && j < |log| && log[j].Published? && a in History(log[..j], log[j].k)
    ensures a.version < log[j].ack.version && a.id != log[j].ack.id
  {
    hide CellIn, Known, Ended, Made, Allowed;
    var k := log[j].k;
    var h := History(log[..j], k);
    var i :| 0 <= i < |h| && h[i] == a;
    PublishedIsHistory(log, j);
    LawfulUpTo(log, j + 1);
    HistoriesRise(log[..j + 1], k, i, |h|);
  }

  lemma {:induction false} LawfulUpTo(log: seq<Event>, n: nat)
    requires Lawful(log) && n <= |log|
    ensures Lawful(log[..n])
  {
    hide Allowed;
    forall j | 0 <= j < n ensures Allowed(log[..n][..j], log[..n][j]) {
      assert log[..n][..j] == log[..j];
      assert Allowed(log[..j], log[j]);
    }
  }

  /** No rollback: of two publications on one state without a reset between them, the later has the higher version. */
  lemma {:induction false} PublicationsRise(log: seq<Event>, i: nat, j: nat)
    requires Lawful(log) && i < j < |log| && log[i].Published? && log[j].Published? && log[i].k == log[j].k
    requires forall r :: i < r < j ==> !(log[r].Reset? && log[r].k == log[i].k)
    ensures log[i].ack.version < log[j].ack.version && log[i].ack.id != log[j].ack.id
  {
    hide Lawful, Made, History;
    PublishedIsHistory(log, i);
    HistoryKeeps(log, i + 1, j, log[i].k);
    assert log[i].ack in History(log[..i + 1], log[i].k);
    NextPublicationRises(log, j, log[i].ack);
  }

  /** Nor on a clone taken in between, while neither is reset. */
  lemma {:induction false} ClonesRiseToo(log: seq<Event>, i: nat, c: nat, j: nat)
    requires Lawful(log) && i < c < j < |log| && log[i].Published? && log[j].Published?
    requires log[c].Cloned? && log[c].k == log[i].k && log[c].copy == log[j].k
    requires forall r :: i < r < c ==> !(log[r].Reset? && log[r].k == log[i].k)
    requires forall r :: c < r < j ==> !(log[r].Reset? && log[r].k == log[j].k)
    ensures log[i].ack.version < log[j].ack.version && log[i].ack.id != log[j].ack.id
  {
    hide Lawful, Made, History;
    PublishedIsHistory(log, i);
    HistoryKeeps(log, i + 1, c, log[i].k);
    assert log[i].ack in History(log[..i + 1], log[i].k);
    ClonedHistory(log, c);
    HistoryKeeps(log, c + 1, j, log[j].k);
    NextPublicationRises(log, j, log[i].ack);
  }

  lemma {:induction false} ClonedHistory(log: seq<Event>, c: nat)
    requires Lawful(log) && c < |log| && log[c].Cloned?
    ensures log[c].copy < Made(log[..c + 1]) && History(log[..c + 1], log[c].copy) == History(log[..c], log[c].k)
  {
    hide CellIn, Known, Ended;
    assert Allowed(log[..c], log[c]);
    LastEvent(log, c);
  }

  // ---------------------------------------------------------------- the log of a run

  /** The log agrees with the world on who holds what, and on what is over. */
  ghost predicate LogOk(w: World, log: seq<Event>) {
    && InRange(w) && Made(log) == |w.holders|
    && (forall k :: 0 <= k < |w.holders| ==> HolderOk(w, log, k) && Remembers(w.holders[k].slots, History(log, k)))
    && (forall i :: 0 <= i < |log| ==> EventOk(w, log[i]))
  }

  /** The slots say what the history says: its last version, its ids, its length, and only its last publication. */
  ghost predicate Remembers(c: Slots, h: seq<Ack>) {
    && c.latest == (if h == [] then None else Some(h[|h| - 1].version))
    && c.epoch == |h| && (forall i :: 0 <= i < |h| ==> h[i].id in c.accepted)
    && IsLast(c.pending, h) && IsLast(c.acknowledged, h) && IsLast(c.bound, h)
  }

  predicate IsLast(slot: Option<Ack>, h: seq<Ack>) {
    slot.Some? ==> h != [] && slot.value == h[|h| - 1]
  }

  ghost predicate HolderOk(w: World, log: seq<Event>, k: nat)
    requires InRange(w) && k < |w.holders|
  {
    && CellIn(log, k) == w.holders[k].cell
    && (forall b :: b in Known(log, k) ==> ProofOk(w, k, b))
    && (forall b :: b in Ended(log, k) ==> Gone(w, k, b))
  }

  predicate ProofOk(w: World, k: nat, b: Binding)
    requires InRange(w) && k < |w.holders|
  {
    0 < b.token < w.next && (b.token == CellOf(w, k).sequence && !CellOf(w, k).revoked ==> b.epoch <= w.holders[k].slots.epoch)
  }

  ghost predicate EventOk(w: World, e: Event) {
    match e
    case Issued(_, b, c) => c < |w.cells| && b.token == w.cells[c].sequence
    case Reset(_, c, _) => c < |w.cells| && w.cells[c].revoked
    case _ => true
  }

  lemma {:induction false} ProofStays(w: World, u: Setting, call: Call, k: nat, b: Binding)
    requires WorldOk(w, u) && k < |w.holders| && ProofOk(w, k, b)
    ensures k < |Step(w, u, call).holders| && ProofOk(Step(w, u, call), k, b)
  {
    hide AckVerdict, BindVerdict, ParsePublication, Sound;
    HoldersStay(w, u, call);
    if call.CallPublish? && call.k < |w.holders| && PublishedBy(w, u, call.k, call.frame).Ok? {
      SoundAfterPublish(w.holders[call.k].slots, call.frame, u.max, u.hash);
    }
  }

  /** A publication or a reset puts every proof its state knows out of reach. */
  lemma {:induction false} EndingIsForGood(w: World, u: Setting, call: Call, k: nat, b: Binding)
    requires WorldOk(w, u) && k < |w.holders| && ProofOk(w, k, b)
    requires Ends(w, u, call, k) && call.k == k
    ensures k < |Step(w, u, call).holders| && Gone(Step(w, u, call), k, b)
  {
    hide ParsePublication, Sound;
    HoldersStay(w, u, call);
    if call.CallPublish? {
      SoundAfterPublish(w.holders[call.k].slots, call.frame, u.max, u.hash);
    }
  }

  lemma {:induction false} EventStays(w: World, u: Setting, call: Call, e: Event)
    requires InRange(w) && EventOk(w, e)
    ensures EventOk(Step(w, u, call), e)
  {
    hide PublishVerdict, AckVerdict, BindVerdict;
  }

  /** One more event, seen from the end of the log. */
  lemma {:induction false} OneMore(log: seq<Event>, e: Event, k: nat)
    ensures Made(log + [e]) == Made(log) + (if e.Created? || e.Cloned? then 1 else 0)
    ensures CellIn(log + [e], k) ==
      if e.Created? && e.k == k then e.cell
      else if e.Cloned? && e.copy == k then CellIn(log, e.k)
      else if e.Reset? && e.k == k then e.taken
      else CellIn(log, k)
    ensures Known(log + [e], k) ==
      if e.Created? && e.k == k then {}
      else if e.Issued? && e.k == k then Known(log, k) + {e.proof}
      else if e.Cloned? && e.copy == k then Known(log, e.k)
      else Known(log, k)
    ensures History(log + [e], k) ==
      if (e.Created? || e.Reset?) && e.k == k then []
      else if e.Cloned? && e.copy == k then History(log, e.k)
      else if e.Published? && e.k == k then History(log, k) + [e.ack]
      else History(log, k)
    ensures Ended(log + [e], k) ==
      if e.Created? && e.k == k then {}
      else if (e.Published? || e.Reset?) && e.k == k then Known(log, k)
      else if e.Cloned? && e.copy == k then Ended(log, e.k)
      else Ended(log, k)
  {
    assert (log + [e])[..|log|] == log;
  }

  /** The events of one call: none, or one. */
  lemma {:induction false} AtMostOneEvent(w: World, u: Setting, log: seq<Event>, call: Call)
    requires InRange(w)
    ensures var es := EventsOf(w, u, call); (es == [] && log + es == log) || (|es| == 1 && es == [es[0]])
  {
    hide PublishVerdict, BindVerdict, VerifyVerdict;
  }

  /** What a call does to an existing holder, against the event it leaves. */
  lemma {:induction false} EventTellsHolder(w: World, u: Setting, call: Call, k: nat)
    requires InRange(w) && k < |w.holders|
    ensures k < |Step(w, u, call).holders|
    ensures var es, cell := EventsOf(w, u, call), Step(w, u, call).holders[k].cell;
      if es == [] then cell == w.holders[k].cell
      else
        && |es| == 1
        && cell == (if es[0].Reset? && es[0].k == k then es[0].taken else w.holders[k].cell)
        && (es[0].Created? ==> es[0].k == |w.holders|) && (es[0].Cloned? ==> es[0].copy == |w.holders|)
        && ((es[0].Published? || es[0].Reset?) && es[0].k == k ==> call.k == k && Ends(w, u, call, k))
  {
    hide PublishVerdict, AckVerdict, BindVerdict, VerifyVerdict;
  }

  lemma {:induction false} IssuedIsOk(w: World, u: Setting, k: nat, ack: Ack, registry: Registry)
    requires WorldOk(w, u) && k < |w.holders| && BoundBy(w, u, k, ack, registry).Ok?
    ensures var after, b := Step(w, u, CallBind(k, ack, registry)), BoundBy(w, u, k, ack, registry).value;
      && k < |after.holders| && ProofOk(after, k, b)
      && EventOk(after, Issued(k, b, w.holders[k].cell))
  {
    hide Sound, SameIdentity;
  }

  lemma {:induction false} HolderStays(w: World, u: Setting, log: seq<Event>, call: Call, k: nat)
    requires WorldOk(w, u) && k < |w.holders| && HolderOk(w, log, k)
    ensures k < |Step(w, u, call).holders| && HolderOk(Step(w, u, call), log + EventsOf(w, u, call), k)
  {
    hide Step, Ends, Gone, ProofOk, Sound, CellsOk;
    var after, es := Step(w, u, call), EventsOf(w, u, call);
    EventTellsHolder(w, u, call, k);
    AtMostOneEvent(w, u, log, call);
    forall b | b in Known(log, k) ensures ProofOk(after, k, b) {
      ProofStays(w, u, call, k, b);
    }
    forall b | b in Ended(log, k) ensures Gone(after, k, b) {
      GoneStays(w, u, call, k, b);
    }
    if es != [] {
      OneMore(log, es[0], k);
      if (es[0].Published? || es[0].Reset?) && es[0].k == k {
        forall b | b in Known(log, k) ensures Gone(after, k, b) {
          EndingIsForGood(w, u, call, k, b);
        }
      } else if es[0].Issued? && es[0].k == k {
        IssuedIsOk(w, u, k, call.ack, call.registry);
      }
    }
  }

  lemma {:induction false} SlotsRemember(w: World, u: Setting, log: seq<Event>, call: Call, k: nat)
    requires WorldOk(w, u) && k < |w.holders| && Remembers(w.holders[k].slots, History(log, k))
    ensures k < |Step(w, u, call).holders|
    ensures Remembers(Step(w, u, call).holders[k].slots, History(log + EventsOf(w, u, call), k))
  {
    hide PublishedBy, AckedBy, BoundBy, Accepts, Step, Remembers, Sound, History, AfterPublish, AfterAck, AfterBind;
    var c, h := w.holders[k].slots, History(log, k);
    SlotsTold(w, u, call, k);
    AtMostOneEvent(w, u, log, call);
    if EventsOf(w, u, call) != [] {
      OneMore(log, EventsOf(w, u, call)[0], k);
    }
    NothingRemembered();
    if !call.CallDefault? && call.k == k {
      if call.CallPublish? && PublishedBy(w, u, k, call.frame).Ok? {
        PublishRemembers(w, u, k, call.frame, h);
      } else if call.CallAcknowledge? {
        AckRemembers(c, h);
      } else if call.CallBind? {
        BindRemembers(c, h, BoundBy(w, u, k, call.ack, call.registry));
      }
    }
  }

  lemma {:induction false} NothingRemembered()
    ensures Remembers(EMPTY, [])
  {
  }

  lemma {:induction false} PublishRemembers(w: World, u: Setting, k: nat, frame: string, h: seq<Ack>)
    requires InRange(w) && k < |w.holders| && Sound(w.holders[k].slots, u.max, u.hash) && Remembers(w.holders[k].slots, h)
    requires PublishedBy(w, u, k, frame).Ok?
    ensures var a := PublishedBy(w, u, k, frame).value; Remembers(AfterPublish(w.holders[k].slots, a), h + [a])
  {
    hide ParsePublication, Sound;
    SoundAfterPublish(w.holders[k].slots, frame, u.max, u.hash);
  }

  lemma {:induction false} AckRemembers(c: Slots, h: seq<Ack>)
    requires Remembers(c, h)
    ensures Remembers(AfterAck(c), h)
  {
  }

  lemma {:induction false} BindRemembers(c: Slots, h: seq<Ack>, verdict: Result<Binding, ProviderProjection.RoutingError>)
    requires Remembers(c, h)
    ensures Remembers(AfterBind(c, verdict), h)
  {
  }

  lemma {:induction false} FollowsHistory(w: World, u: Setting, k: nat, frame: string, h: seq<Ack>)
    requires InRange(w) && k < |w.holders| && Sound(w.holders[k].slots, u.max, u.hash) && Remembers(w.holders[k].slots, h)
    requires PublishedBy(w, u, k, frame).Ok?
    ensures Follows(h, PublishedBy(w, u, k, frame).value)
  {
    hide ParsePublication;
  }

  lemma {:induction false} AcceptsTheLast(w: World, u: Setting, k: nat, b: Binding, registry: Registry, h: seq<Ack>)
    requires InRange(w) && k < |w.holders| && Remembers(w.holders[k].slots, h) && Accepts(w, u, k, b, registry)
    ensures ProvesLast(h, b)
  {
    hide RegistryText;
  }

  lemma {:induction false} BindsTheLast(w: World, u: Setting, k: nat, ack: Ack, registry: Registry, h: seq<Ack>)
    requires InRange(w) && k < |w.holders| && Remembers(w.holders[k].slots, h) && BoundBy(w, u, k, ack, registry).Ok?
    ensures ProvesLast(h, BoundBy(w, u, k, ack, registry).value)
  {
    hide RegistryText, SameIdentity;
  }

  /** A state just made: fresh, or a copy that inherits what its origin knows. */
  lemma {:induction false} NewHolder(w: World, u: Setting, log: seq<Event>, call: Call)
    requires WorldOk(w, u) && LogOk(w, log) && |Step(w, u, call).holders| > |w.holders|
    ensures |Step(w, u, call).holders| == |w.holders| + 1
    ensures HolderOk(Step(w, u, call), log + EventsOf(w, u, call), |w.holders|)
    ensures Remembers(Step(w, u, call).holders[|w.holders|].slots, History(log + EventsOf(w, u, call), |w.holders|))
  {
    hide PublishVerdict, AckVerdict, BindVerdict, Sound, EventOk;
    OneMore(log, EventsOf(w, u, call)[0], |w.holders|);
    if call.CallClone? {
      assert HolderOk(w, log, call.k);
    }
  }

  lemma {:induction false} EventsOk(w: World, u: Setting, log: seq<Event>, call: Call)
    requires WorldOk(w, u) && LogOk(w, log)
    ensures Made(log + EventsOf(w, u, call)) == |Step(w, u, call).holders|
    ensures forall e :: e in EventsOf(w, u, call) ==> EventOk(Step(w, u, call), e)
  {
    hide PublishVerdict, AckVerdict, BindVerdict, VerifyVerdict, Sound, HolderOk;
    var es := EventsOf(w, u, call);
    AtMostOneEvent(w, u, log, call);
    if es != [] {
      OneMore(log, es[0], 0);
      if es[0].Issued? {
        IssuedIsOk(w, u, call.k, call.ack, call.registry);
      }
    }
  }

  lemma {:induction false} StepKeepsLog(w: World, u: Setting, log: seq<Event>, call: Call)
    requires WorldOk(w, u) && LogOk(w, log)
    ensures LogOk(Step(w, u, call), log + EventsOf(w, u, call))
  {
    hide Step, EventsOf, HolderOk, EventOk, Sound, CellsOk, Made;
    var after, more := Step(w, u, call), log + EventsOf(w, u, call);
    EventsOk(w, u, log, call);
    forall k | 0 <= k < |after.holders|
      ensures HolderOk(after, more, k) && Remembers(after.holders[k].slots, History(more, k))
    {
      if k < |w.holders| {
        HolderStays(w, u, log, call, k);
        SlotsRemember(w, u, log, call, k);
      } else {
        NewHolder(w, u, log, call);
      }
    }
    forall i | 0 <= i < |more| ensures EventOk(after, more[i]) {
      if i < |log| {
        EventStays(w, u, call, log[i]);
      } else {
        assert more[i] in EventsOf(w, u, call);
      }
    }
  }

  /** Whatever a state accepts, nothing in the log speaks against it. */
  lemma {:induction false} AcceptedIsAllowed(w: World, u: Setting, log: seq<Event>, k: nat, b: Binding, registry: Registry)
    requires WorldOk(w, u) && LogOk(w, log) && k < |w.holders| && Accepts(w, u, k, b, registry)
    ensures b !in Ended(log, k)
    ensures forall i :: 0 <= i < |log| ==> Admits(log[i], b, w.holders[k].cell)
  {
    hide RegistryText, Sound, Made;
    assert HolderOk(w, log, k);
    if b in Ended(log, k) {
      GoneIsRefused(w, u, k, b, registry);
    }
    forall i | 0 <= i < |log| ensures Admits(log[i], b, w.holders[k].cell) {
      assert EventOk(w, log[i]);
    }
  }

  lemma {:induction false} EventIsAllowed(w: World, u: Setting, log: seq<Event>, call: Call)
    requires WorldOk(w, u) && LogOk(w, log)
    ensures forall e :: e in EventsOf(w, u, call) ==> Allowed(log, e)
  {
    hide PublishVerdict, BindVerdict, Accepts, Sound, EventOk, Made, Admits;
    if !call.CallDefault? && call.k < |w.holders| {
      var h := History(log, call.k);
      assert HolderOk(w, log, call.k) && Remembers(w.holders[call.k].slots, h);
      if call.CallVerify? && Accepts(w, u, call.k, call.proof, call.registry) {
        AcceptedIsAllowed(w, u, log, call.k, call.proof, call.registry);
        AcceptsTheLast(w, u, call.k, call.proof, call.registry, h);
      } else if call.CallPublish? && PublishedBy(w, u, call.k, call.frame).Ok? {
        FollowsHistory(w, u, call.k, call.frame, h);
      } else if call.CallBind? && BoundBy(w, u, call.k, call.ack, call.registry).Ok? {
        BindsTheLast(w, u, call.k, call.ack, call.registry, h);
      }
    }
  }

  lemma {:induction false} StepIsLawful(w: World, u: Setting, log: seq<Event>, call: Call)
    requires WorldOk(w, u) && LogOk(w, log) && Lawful(log)
    ensures Lawful(log + EventsOf(w, u, call))
  {
    hide EventsOf, Allowed, Lawful, Sound, CellsOk;
    EventIsAllowed(w, u, log, call);
    AtMostOneEvent(w, u, log, call);
    if EventsOf(w, u, call) != [] {
      assert EventsOf(w, u, call)[0] in EventsOf(w, u, call);
      LawfulAppend(log, EventsOf(w, u, call)[0]);
    }
  }

  /** The world and its log are in order. */
  ghost predicate InOrder(w: World, u: Setting, log: seq<Event>) {
    WorldOk(w, u) && LogOk(w, log) && Lawful(log)
  }

  lemma {:induction false} StepStaysInOrder(w: World, u: Setting, log: seq<Event>, call: Call)
    requires InOrder(w, u, log)
    ensures InOrder(Step(w, u, call), u, log + EventsOf(w, u, call))
  {
    StepKeepsWorld(w, u, call);
    StepKeepsLog(w, u, log, call);
    StepIsLawful(w, u, log, call);
    hide Step, EventsOf, LogOk, Lawful, CellsOk, Sound;
  }

  /** Every run of calls, on any number of states and aliases, leaves a lawful log. */
  lemma {:induction false} RunIsLawful(u: Setting, calls: seq<Call>)
    ensures InOrder(RunFrom(START, u, calls), u, LogOf(START, u, calls)) && Lawful(LogOf(START, u, calls))
  {
    hide Step, EventsOf, LogOk, Lawful, CellsOk, Sound;
    if calls == [] {
      StartInOrder(u);
    } else {
      var before := calls[..|calls| - 1];
      RunIsLawful(u, before);
      StepStaysInOrder(RunFrom(START, u, before), u, LogOf(START, u, before), calls[|calls| - 1]);
    }
  }

  lemma {:induction false} StartInOrder(u: Setting)
    ensures InOrder(START, u, [])
  {
  }
}
