/**
 * Every publication state of the process at once, as heap objects: lifetime cells shared
 * between clones, minted from one counter
 * (crates/bitty-ai-endpoint/src/metadata_publication.rs:115-251, 351-489). Each call is proved
 * to follow the value model of `PublicationLedger`, so its laws hold of the objects.
 */
module PublicationWorld {
  import opened Bytes
  import opened Results
  import opened ProviderProjection
  import opened ProviderPublication
  import opened PublicationState
  import opened PublicationLedger
  import opened PublicationLog

  class Process {
    const u: Setting
    var next: nat
    ghost var cells: seq<Lifetime>
    ghost var states: seq<State>
    ghost var world: World
    ghost var log: seq<Event>

    constructor (u: Setting)
      ensures Valid() && this.u == u && next == 1 && cells == [] && states == [] && world == START && log == []
    {
      this.u := u;
      next := 1;
      cells, states, world, log := [], [], START, [];
      new;
      StartInOrder(u);
    }

    ghost predicate CellAt(i: nat)
      requires i < |cells| && i < |world.cells|
      reads this, cells
    {
      cells[i].sequence == world.cells[i].sequence && cells[i].revoked == world.cells[i].revoked
    }

    /** State `k` is what the world and the log say it is. */
    ghost predicate StateAt(k: nat)
      requires k < |states| == |world.holders| && world.holders[k].cell < |cells|
      reads this, states
    {
      && states[k].Valid() && states[k].max == u.max && states[k].hash == u.hash
      && states[k].lifetime == cells[world.holders[k].cell] && states[k].Contents() == world.holders[k].slots
      && states[k].issued == Known(log, k) && states[k].superseded == Ended(log, k)
    }

    /** The objects are the world's cells and holders, one each. */
    ghost predicate Linked()
      reads this, cells, states
    {
      && next == world.next && InRange(world) && |cells| == |world.cells| && |states| == |world.holders|
      && (forall i, j :: 0 <= i < j < |cells| ==> cells[i] != cells[j])
      && (forall i, j :: 0 <= i < j < |states| ==> states[i] != states[j])
      && (forall i :: 0 <= i < |cells| ==> CellAt(i))
      && (forall k :: 0 <= k < |states| ==> StateAt(k))
    }

    ghost predicate Valid()
      reads this, cells, states
    {
      Linked() && InOrder(world, u, log)
    }

    /** The call did to the world and the log what the value model says. */
    twostate predicate Followed(call: Call)
      requires InRange(old(world))
      reads this
    {
      world == Step(old(world), u, call) && log == old(log) + EventsOf(old(world), u, call)
    }

    /** Two live cells never share a token, exhaustion included. */
    lemma {:induction false} LiveTokensAreUnique(c: Lifetime, d: Lifetime)
      requires Valid() && c in cells && d in cells && !c.revoked && !d.revoked && c.sequence == d.sequence
      ensures c == d
    {
      var i :| 0 <= i < |cells| && cells[i] == c;
      var j :| 0 <= j < |cells| && cells[j] == d;
      assert CellAt(i) && CellAt(j);
      PublicationLedger.LiveTokensAreUnique(world, i, j);
    }

    /** The objects are in place, state `k` aside. */
    ghost predicate LinkedBut(k: nat)
      reads this, cells, states
    {
      && next == world.next && InRange(world) && |cells| == |world.cells| && k < |states| == |world.holders|
      && (forall i, j :: 0 <= i < j < |cells| ==> cells[i] != cells[j])
      && (forall i, j :: 0 <= i < j < |states| ==> states[i] != states[j])
      && (forall i :: 0 <= i < |cells| ==> CellAt(i))
      && (forall j :: 0 <= j < |states| && j != k ==> StateAt(j))
    }

    /** State `k` has done its part of a call that touches nothing else. */
    ghost predicate Ahead(k: nat, call: Call)
      requires InRange(world) && |cells| == |world.cells| && k < |states| == |world.holders|
      reads this, states
    {
      var after, es := Step(world, u, call), EventsOf(world, u, call);
      && after == Put(world, k, states[k].Contents())
      && states[k].Valid() && states[k].max == u.max && states[k].hash == u.hash
      && states[k].lifetime == cells[world.holders[k].cell]
      && (if es == [] then states[k].issued == Known(log, k) && states[k].superseded == Ended(log, k)
          else
            && |es| == 1 && es[0].k == k && !es[0].Created? && !es[0].Cloned? && !es[0].Reset?
            && states[k].issued == Known(log, k) + (if es[0].Issued? then {es[0].proof} else {})
            && states[k].superseded == if es[0].Published? then Known(log, k) else Ended(log, k))
    }

    /** Let the world and the log catch up with state `k`. */
    ghost method Record(k: nat, call: Call)
      requires LinkedBut(k) && InOrder(world, u, log) && Ahead(k, call)
      modifies this`world, this`log
      ensures Valid() && Followed(call)
    {
      hide Step, EventsOf, State.Valid, InOrder, Made, CellIn;
      var es := EventsOf(world, u, call);
      StepStaysInOrder(world, u, log, call);
      forall j | 0 <= j < |states|
        ensures Known(log + es, j) == (if j == k then states[k].issued else Known(log, j))
        ensures Ended(log + es, j) == (if j == k then states[k].superseded else Ended(log, j))
      {
        if es == [] {
          assert log + es == log;
        } else {
          OneMore(log, es[0], j);
          assert log + es == log + [es[0]];
        }
      }
      hide Known, Ended;
      world, log := Step(world, u, call), log + es;
      forall j | 0 <= j < |states| ensures StateAt(j) {
        assert j != k ==> old(StateAt(j));
      }
      forall i | 0 <= i < |cells| ensures CellAt(i) {
        assert old(CellAt(i));
      }
    }

    method PublishOn(s: State, ghost k: nat, frame: string) returns (r: Result<Ack, RoutingError>)
      requires Valid() && k < |states| && states[k] == s
      modifies this`world, this`log, s
      ensures Valid() && Followed(CallPublish(k, frame)) && s.lifetime == old(s.lifetime)
      ensures r == PublishedBy(old(world), u, k, frame)
      ensures r.Ok? ==> s.superseded == old(s.issued)
    {
      hide PublishVerdict, AfterPublish, State.Valid, InOrder, Known, Ended;
      assert StateAt(k) && CellAt(world.holders[k].cell);
      r := s.Publish(frame);
      forall j | 0 <= j < |states| && j != k ensures StateAt(j) {
        assert old(StateAt(j));
      }
      Record(k, CallPublish(k, frame));
    }

    method AcknowledgeOn(s: State, ghost k: nat, frame: string) returns (r: Result<Ack, RoutingError>)
      requires Valid() && k < |states| && states[k] == s
      modifies this`world, this`log, s
      ensures Valid() && Followed(CallAcknowledge(k, frame)) && s.lifetime == old(s.lifetime)
      ensures r == AckedBy(old(world), u, k, frame)
      ensures s.epoch == old(s.epoch) && s.issued == old(s.issued) && s.superseded == old(s.superseded)
    {
      hide AckVerdict, State.Valid, InOrder, Known, Ended;
      assert StateAt(k) && CellAt(world.holders[k].cell);
      r := s.Acknowledge(frame);
      forall j | 0 <= j < |states| && j != k ensures StateAt(j) {
        assert old(StateAt(j));
      }
      Record(k, CallAcknowledge(k, frame));
    }

    method BindOn(s: State, ghost k: nat, ack: Ack, registry: Registry) returns (r: Result<Binding, RoutingError>)
      requires Valid() && k < |states| && states[k] == s
      modifies this`world, this`log, s
      ensures Valid() && Followed(CallBind(k, ack, registry)) && s.lifetime == old(s.lifetime)
      ensures r == BoundBy(old(world), u, k, ack, registry)
      ensures s.epoch == old(s.epoch) && s.superseded == old(s.superseded)
      ensures s.issued == if r.Ok? then old(s.issued) + {r.value} else old(s.issued)
    {
      hide BindVerdict, State.Valid, InOrder, Known, Ended;
      assert StateAt(k) && CellAt(world.holders[k].cell);
      r := s.Bind(ack, registry);
      forall j | 0 <= j < |states| && j != k ensures StateAt(j) {
        assert old(StateAt(j));
      }
      Record(k, CallBind(k, ack, registry));
    }

    method Check(s: State, ghost k: nat, b: Binding, registry: Registry) returns (ok: bool)
      requires Valid() && k < |states| && states[k] == s
      modifies this`world, this`log
      ensures Valid() && Followed(CallVerify(k, b, registry))
      ensures ok == Accepts(old(world), u, k, b, registry)
      ensures b in s.superseded ==> !ok
    {
      hide VerifyVerdict, State.Valid, InOrder, Known, Ended;
      assert StateAt(k) && CellAt(world.holders[k].cell);
      ok := s.Verify(b, registry).None?;
      if b in s.superseded {
        s.SupersededIsStale(b);
      }
      Record(k, CallVerify(k, b, registry));
    }

    // -------------------------------------------------------------- making and resetting states

    /** The next sequence, or the revoked sentinel once the counter is exhausted. */
    method Mint() returns (cell: Lifetime)
      requires 1 <= next <= U64_MAX && next == world.next
      modifies this`next
      ensures fresh(cell) && 1 <= next <= U64_MAX
      ensures Minted(world) == world.(next := next, cells := world.cells + [Cell(cell.sequence, cell.revoked)])
      ensures cell.sequence == if old(next) == U64_MAX then EXHAUSTED_LIFETIME_SEQUENCE else old(next)
    {
      var sequence := if next == U64_MAX then EXHAUSTED_LIFETIME_SEQUENCE else next;
      if next != U64_MAX {
        next := next + 1;
      }
      cell := new Lifetime(sequence);
    }

    lemma {:induction false} NextInRange()
      requires Valid()
      ensures 1 <= next <= U64_MAX
    {
    }

    method Default() returns (s: State)
      requires Valid()
      modifies this
      ensures Valid() && Followed(CallDefault) && s.Contents() == EMPTY
      ensures fresh(s) && fresh(s.lifetime) && states == old(states) + [s] && cells == old(cells) + [s.lifetime]
    {
      hide State.Valid, InOrder, Known, Ended;
      NextInRange();
      var cell := Mint();
      s := new State(u.max, u.hash, cell);
      StepStaysInOrder(world, u, log, CallDefault);
      ghost var e := Created(|world.holders|, |world.cells|);
      forall j | 0 <= j <= |states|
        ensures Known(log + [e], j) == (if j == |states| then {} else Known(log, j))
        ensures Ended(log + [e], j) == (if j == |states| then {} else Ended(log, j))
      {
        OneMore(log, e, j);
      }
      cells, states := cells + [cell], states + [s];
      world, log := Step(world, u, CallDefault), log + [e];
      forall j | 0 <= j < |states| ensures StateAt(j) {
        assert j < |old(states)| ==> old(StateAt(j));
      }
      forall i | 0 <= i < |cells| ensures CellAt(i) {
        assert i < |old(cells)| ==> old(CellAt(i));
      }
    }

    method CloneOf(s: State, ghost k: nat) returns (copy: State)
      requires Valid() && k < |states| && states[k] == s
      modifies this`states, this`world, this`log
      ensures Valid() && Followed(CallClone(k)) && copy.lifetime == s.lifetime && copy.Contents() == s.Contents()
      ensures fresh(copy) && states == old(states) + [copy]
    {
      hide State.Valid, InOrder, Known, Ended;
      assert StateAt(k);
      copy := new State.Clone(s);
      StepStaysInOrder(world, u, log, CallClone(k));
      ghost var e := Cloned(k, |world.holders|);
      forall j | 0 <= j <= |states|
        ensures Known(log + [e], j) == (if j == |states| then Known(log, k) else Known(log, j))
        ensures Ended(log + [e], j) == (if j == |states| then Ended(log, k) else Ended(log, j))
      {
        OneMore(log, e, j);
      }
      states := states + [copy];
      world, log := Step(world, u, CallClone(k)), log + [e];
      forall j | 0 <= j < |states| ensures StateAt(j) {
        assert j < |old(states)| ==> old(StateAt(j));
      }
      forall i | 0 <= i < |cells| ensures CellAt(i) {
        assert old(CellAt(i));
      }
    }

    /** No proof a state knows carries the token about to be minted. */
    lemma {:induction false} TokensAreUsed(k: nat)
      requires Valid() && k < |states|
      ensures forall b :: b in states[k].issued ==> 0 < b.token < next
    {
      hide State.Valid, Sound;
      assert StateAt(k) && HolderOk(world, log, k);
      forall b | b in states[k].issued ensures 0 < b.token < next {
        assert ProofOk(world, k, b);
      }
    }

    method ResetState(s: State, ghost k: nat)
      requires Valid() && k < |states| && states[k] == s
      modifies this, s, s.lifetime
      ensures Valid() && Followed(CallReset(k)) && s.Contents() == EMPTY && s.superseded == old(s.issued)
      ensures old(s.lifetime).revoked && fresh(s.lifetime) && cells == old(cells) + [s.lifetime] && states == old(states)
    {
      hide State.Valid, InOrder, Known, Ended;
      NextInRange();
      TokensAreUsed(k);
      assert StateAt(k);
      ghost var c := world.holders[k].cell;
      var cell := Mint();
      s.Restart(cell);
      cells := cells + [cell];
      forall i | 0 <= i < |world.cells| && i != c ensures CellAt(i) {
        assert old(CellAt(i)) && cells[i] != cells[c];
      }
      forall j | 0 <= j < |states| && j != k ensures StateAt(j) {
        assert old(StateAt(j));
      }
      assert old(CellAt(c));
      RecordReset(k);
    }

    /** Let the world and the log catch up with a state `k` that was reset to the last cell. */
    ghost method RecordReset(k: nat)
      requires InRange(world) && InOrder(world, u, log) && |cells| == |world.cells| + 1 && k < |states| == |world.holders|
      requires forall i, j :: 0 <= i < j < |cells| ==> cells[i] != cells[j]
      requires forall i, j :: 0 <= i < j < |states| ==> states[i] != states[j]
      requires var cell := cells[|world.cells|];
        Minted(world) == world.(next := next, cells := world.cells + [Cell(cell.sequence, cell.revoked)])
      requires var c := world.holders[k].cell;
        && cells[c].sequence == world.cells[c].sequence && cells[c].revoked
        && forall i :: 0 <= i < |world.cells| && i != c ==> CellAt(i)
      requires forall j :: 0 <= j < |states| && j != k ==> StateAt(j)
      requires
        && states[k].Valid() && states[k].max == u.max && states[k].hash == u.hash
        && states[k].lifetime == cells[|world.cells|] && states[k].Contents() == EMPTY
        && states[k].issued == states[k].superseded == Known(log, k)
      modifies this`world, this`log
      ensures Valid() && Followed(CallReset(k))
    {
      hide State.Valid, InOrder, Known, Ended;
      StepStaysInOrder(world, u, log, CallReset(k));
      var e := Reset(k, world.holders[k].cell, |world.cells|);
      ResetMints(world, k, next, Cell(cells[|world.cells|].sequence, cells[|world.cells|].revoked));
      forall j | 0 <= j < |states|
        ensures Known(log + [e], j) == Known(log, j)
        ensures Ended(log + [e], j) == (if j == k then Known(log, j) else Ended(log, j))
      {
        OneMore(log, e, j);
      }
      world, log := Step(world, u, CallReset(k)), log + [e];
      forall j | 0 <= j < |states| ensures StateAt(j) {
        assert j != k ==> old(StateAt(j));
      }
      forall i | 0 <= i < |cells| ensures CellAt(i) {
        assert i < |cells| - 1 && i != old(world.holders[k].cell) ==> old(CellAt(i));
      }
    }
  }

  // ---------------------------------------------------------------- any run

  method OneCall(p: Process, held: seq<State>, call: Call) returns (more: seq<State>)
    requires p.Valid() && held == p.states
    modifies p, p.cells, p.states
    ensures p.Valid() && p.Followed(call) && more == p.states
    ensures old(p.cells) <= p.cells && forall i :: |old(p.cells)| <= i < |p.cells| ==> fresh(p.cells[i])
    ensures old(p.states) <= p.states && forall i :: |old(p.states)| <= i < |p.states| ==> fresh(p.states[i])
  {
    hide Step, EventsOf;
    more := held;
    if call.CallDefault? {
      var s := p.Default();
      more := held + [s];
    } else if call.k < |held| {
      var s := held[call.k];
      assert p.StateAt(call.k);
      match call
      case CallClone(k) =>
        var copy := p.CloneOf(s, k);
        more := held + [copy];
      case CallReset(k) => p.ResetState(s, k);
      case CallPublish(k, frame) => var _ := p.PublishOn(s, k, frame);
      case CallAcknowledge(k, frame) => var _ := p.AcknowledgeOn(s, k, frame);
      case CallBind(k, ack, registry) => var _ := p.BindOn(s, k, ack, registry);
      case CallVerify(k, proof, registry) => var _ := p.Check(s, k, proof, registry);
    } else {
      NoSuchState(p.world, p.u, call);
      assert p.log + [] == p.log;
    }
  }

  lemma {:induction false} NoSuchState(w: World, u: Setting, call: Call)
    requires InRange(w) && !call.CallDefault? && call.k >= |w.holders|
    ensures Step(w, u, call) == w && EventsOf(w, u, call) == []
  {
  }

  /**
   * Any interleaving of calls on any number of states, aliases included, leaves exactly the
   * world and the log that the value model gives those calls, so the log is lawful.
   */
  method AnyRun(u: Setting, calls: seq<Call>) returns (p: Process, held: seq<State>)
    ensures fresh(p) && p.Valid() && held == p.states
    ensures p.world == RunFrom(START, u, calls) && p.log == LogOf(START, u, calls) && Lawful(p.log)
    ensures forall c, d :: c in p.cells && d in p.cells && !c.revoked && !d.revoked && c.sequence == d.sequence ==> c == d
  {
    hide Step, EventsOf, InOrder;
    p := new Process(u);
    held := [];
    for i := 0 to |calls|
      invariant fresh(p) && p.u == u && p.Valid() && held == p.states
      invariant (forall i :: 0 <= i < |p.cells| ==> fresh(p.cells[i])) && forall i :: 0 <= i < |p.states| ==> fresh(p.states[i])
      invariant p.world == RunFrom(START, u, calls[..i]) && p.log == LogOf(START, u, calls[..i])
    {
      assert calls[..i + 1][..i] == calls[..i];
      held := OneCall(p, held, calls[i]);
    }
    assert calls[..|calls|] == calls;
    RunIsLawful(u, calls);
    forall c, d | c in p.cells && d in p.cells && !c.revoked && !d.revoked && c.sequence == d.sequence ensures c == d {
      p.LiveTokensAreUnique(c, d);
    }
  }
}
