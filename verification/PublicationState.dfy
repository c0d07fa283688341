/**
 * The provider/routing publication lifecycle of
 * crates/bitty-ai-endpoint/src/metadata_publication.rs:106-251 and 348-489: lifetime cells
 * shared between clones and minted from one process-wide counter, and states that publish,
 * acknowledge, bind and verify against them.
 */
module PublicationState {
  import opened Bytes
  import opened Results
  import opened JsonViews
  import opened ProviderProjection
  import opened ProviderRegistry
  import opened ProviderBinding
  import opened ProviderPublication
  import opened ProviderFrames
  import opened ProviderWriter
  import opened JsonReader

  const MAX_ACCEPTED_PUBLICATION_IDS := 256
  const EXHAUSTED_LIFETIME_SEQUENCE := 0

  /** The registry as a bind or a check sees it. */
  datatype Registry = Registry(entries: seq<Entry>, revision: nat)

  /** An equality proof. */
  datatype Binding = Binding(ack: Ack, revision: nat, epoch: nat, token: nat)

  /** One helper lifetime; clones share the cell. */
  class Lifetime {
    const sequence: nat
    var revoked: bool

    constructor (sequence: nat)
      ensures this.sequence == sequence && revoked == (sequence == EXHAUSTED_LIFETIME_SEQUENCE)
    {
      this.sequence := sequence;
      revoked := sequence == EXHAUSTED_LIFETIME_SEQUENCE;
    }

    method Revoke()
      modifies this
      ensures revoked
    {
      revoked := true;
    }
  }

  // ---------------------------------------------------------------- one state's slots

  /** What a state holds besides its lifetime. */
  datatype Slots = Slots(
    latest: Option<nat>, pending: Option<Ack>, acknowledged: Option<Ack>, bound: Option<Ack>, accepted: set<string>, epoch: nat)

  const EMPTY := Slots(None, None, None, None, {}, 0)

  /** At most one slot is taken, by the latest publication, whose digest is the hash of its bytes. */
  ghost predicate Sound(c: Slots, max: nat, hash: string -> string) {
    && (c.pending.None? || c.acknowledged.None?) && (c.pending.None? || c.bound.None?) && (c.acknowledged.None? || c.bound.None?)
    && SlotOk(c, c.pending, max, hash) && SlotOk(c, c.acknowledged, max, hash) && SlotOk(c, c.bound, max, hash)
    && c.epoch == |c.accepted| <= MAX_ACCEPTED_PUBLICATION_IDS
  }

  ghost predicate SlotOk(c: Slots, slot: Option<Ack>, max: nat, hash: string -> string) {
    slot.Some? ==> Published(slot.value, max, hash) && c.latest == Some(slot.value.version) && slot.value.id in c.accepted
  }

  /** Why a publication would be refused, in the order of the checks. */
  function PublishRefusal(c: Slots, a: Ack): Option<RoutingError> {
    if c.latest.Some? && a.version <= c.latest.value then Some(StaleOrReplay)
    else if a.id in c.accepted then Some(PublicationIdReused)
    else if |c.accepted| >= MAX_ACCEPTED_PUBLICATION_IDS then Some(PublicationLimit)
    else None
  }

  function PublishVerdict(c: Slots, revoked: bool, frame: string, max: nat, hash: string -> string): Result<Ack, RoutingError> {
    if revoked then Err(PublicationLifetimeRevoked)
    else
      match ParsePublication(frame, max, hash)
      case Err(e) => Err(e)
      case Ok(a) => if PublishRefusal(c, a).Some? then Err(PublishRefusal(c, a).value) else Ok(a)
  }

  function AfterPublish(c: Slots, a: Ack): Slots {
    Slots(Some(a.version), Some(a), None, None, c.accepted + {a.id}, Saturating(c.epoch))
  }

  function AckVerdict(c: Slots, revoked: bool, frame: string, max: nat): Result<Ack, RoutingError> {
    if revoked then Err(PublicationLifetimeRevoked)
    else
      match ParseAck(frame, max)
      case Err(e) => Err(e)
      case Ok(a) =>
        if c.pending.None? then Err(NoPublication)
        else if !SameIdentity(c.pending.value, a) then Err(Superseded)
        else Ok(c.pending.value)
  }

  function AfterAck(c: Slots): Slots { c.(pending := None, acknowledged := c.pending) }

  function BindVerdict(c: Slots, revoked: bool, token: nat, hash: string -> string, ack: Ack, registry: Registry)
    : Result<Binding, RoutingError>
  {
    if revoked then Err(PublicationLifetimeRevoked)
    else if c.acknowledged.None? then Err(NoAcknowledgement)
    else if !SameIdentity(c.acknowledged.value, ack) then Err(Superseded)
    else
      match RegistryText(registry.entries)
      case Err(e) => Err(e)
      case Ok(text) =>
        if hash(text) != c.acknowledged.value.digest || text != c.acknowledged.value.bytes then Err(ProjectionMismatch)
        else Ok(Binding(c.acknowledged.value, registry.revision, c.epoch, token))
  }

  /** A bind consumes the acknowledgement on success and on a byte mismatch. */
  function AfterBind(c: Slots, verdict: Result<Binding, RoutingError>): Slots {
    if verdict.Ok? then c.(acknowledged := None, bound := c.acknowledged)
    else if verdict.error == ProjectionMismatch then c.(acknowledged := None)
    else c
  }

  /** The typed refusal of a proof, lifetime first. */
  function VerifyVerdict(c: Slots, revoked: bool, token: nat, hash: string -> string, b: Binding, registry: Registry)
    : Option<RoutingError>
  {
    if revoked then Some(PublicationLifetimeRevoked)
    else if b.token != token then Some(PublicationLifetimeMismatch)
    else if c.bound.None? then Some(NoAcknowledgement)
    else if c.bound.value != b.ack || b.epoch != c.epoch then Some(Superseded)
    else if b.revision != registry.revision then Some(StaleOrReplay)
    else
      match RegistryText(registry.entries)
      case Err(e) => Some(e)
      case Ok(text) => if hash(text) != b.ack.digest || text != b.ack.bytes then Some(ProjectionMismatch) else None
  }

  /** A publication is taken exactly when it parses, on a live cell, with a higher version and an unused id, below the limit. */
  lemma {:induction false} PublishMeans(c: Slots, revoked: bool, frame: string, max: nat, hash: string -> string)
    ensures var r, p := PublishVerdict(c, revoked, frame, max, hash), ParsePublication(frame, max, hash);
      && (revoked ==> r == Err(PublicationLifetimeRevoked))
      && (!revoked && p.Err? ==> r == Err(p.error))
      && (!revoked && p.Ok? ==>
            var a := p.value;
            var rises, unused, room :=
              c.latest.Some? ==> a.version > c.latest.value, a.id !in c.accepted, |c.accepted| < MAX_ACCEPTED_PUBLICATION_IDS;
            && (r == Ok(a) <==> rises && unused && room)
            && (r == Err(StaleOrReplay) <==> !rises)
            && (r == Err(PublicationIdReused) <==> rises && !unused)
            && (r == Err(PublicationLimit) <==> rises && unused && !room))
  {
    hide ParsePublication;
  }

  /** An acknowledgement is taken exactly when it names the pending publication: id, domain, version and digest. */
  lemma {:induction false} AckMeans(c: Slots, revoked: bool, frame: string, max: nat)
    ensures var r, p := AckVerdict(c, revoked, frame, max), ParseAck(frame, max);
      && (revoked ==> r == Err(PublicationLifetimeRevoked))
      && (!revoked && p.Err? ==> r == Err(p.error))
      && (!revoked && p.Ok? && c.pending.None? ==> r == Err(NoPublication))
      && (!revoked && p.Ok? && c.pending.Some? ==>
            var a, q := p.value, c.pending.value;
            r == if a.id == q.id && a.domain == q.domain && a.version == q.version && a.digest == q.digest
                 then Ok(q) else Err(Superseded))
  {
    hide ParseAck;
  }

  /** A bind succeeds exactly when it names the acknowledged publication and the registry prints its very bytes. */
  lemma {:induction false} BindMeans(c: Slots, revoked: bool, token: nat, hash: string -> string, ack: Ack, registry: Registry)
    ensures var r, text := BindVerdict(c, revoked, token, hash, ack, registry), RegistryText(registry.entries);
      && (revoked ==> r == Err(PublicationLifetimeRevoked))
      && (!revoked && c.acknowledged.None? ==> r == Err(NoAcknowledgement))
      && (!revoked && c.acknowledged.Some? ==>
            var a := c.acknowledged.value;
            var named := a.id == ack.id && a.domain == ack.domain && a.version == ack.version && a.digest == ack.digest;
            && (!named ==> r == Err(Superseded))
            && (named && text.Err? ==> r == Err(text.error))
            && (named && text.Ok? ==>
                  r == if text.value == a.bytes && hash(text.value) == a.digest
                       then Ok(Binding(a, registry.revision, c.epoch, token)) else Err(ProjectionMismatch)))
  {
    hide RegistryText;
  }

  /** A bind that succeeds or finds other bytes uses the acknowledgement up; any other leaves the slots alone. */
  lemma {:induction false} BindConsumes(c: Slots, revoked: bool, token: nat, hash: string -> string, ack: Ack, registry: Registry)
    ensures var r := BindVerdict(c, revoked, token, hash, ack, registry);
      var after := AfterBind(c, r);
      if r.Ok? || r.error == ProjectionMismatch then
        && (forall again, other :: BindVerdict(after, revoked, token, hash, again, other).Err?)
        && after.bound == (if r.Ok? then c.acknowledged else c.bound)
        && after.latest == c.latest && after.pending == c.pending && after.accepted == c.accepted && after.epoch == c.epoch
      else after == c
  {
    hide RegistryText, SameIdentity;
  }

  /** A proof verifies exactly on a live cell of its token, for the bound publication, epoch, revision and registry bytes. */
  lemma {:induction false} VerifyMeans(c: Slots, revoked: bool, token: nat, hash: string -> string, b: Binding, registry: Registry)
    ensures var e, text := VerifyVerdict(c, revoked, token, hash, b, registry), RegistryText(registry.entries);
      && (e.None? <==>
            && !revoked && b.token == token && c.bound == Some(b.ack) && b.epoch == c.epoch && b.revision == registry.revision
            && text == Ok(b.ack.bytes) && hash(b.ack.bytes) == b.ack.digest)
      && (revoked ==> e == Some(PublicationLifetimeRevoked))
      && (!revoked && b.token != token ==> e == Some(PublicationLifetimeMismatch))
      && (!revoked && b.token == token && c.bound.None? ==> e == Some(NoAcknowledgement))
      && (!revoked && b.token == token && c.bound.Some? && (c.bound.value != b.ack || b.epoch != c.epoch) ==> e == Some(Superseded))
      && (!revoked && b.token == token && c.bound == Some(b.ack) && b.epoch == c.epoch ==>
            && (b.revision != registry.revision ==> e == Some(StaleOrReplay))
            && (b.revision == registry.revision && text.Err? ==> e == Some(text.error))
            && (b.revision == registry.revision && text.Ok? && e.Some? ==> e == Some(ProjectionMismatch)))
  {
    hide RegistryText;
  }

  lemma {:induction false} SoundAfterPublish(c: Slots, frame: string, max: nat, hash: string -> string)
    requires Sound(c, max, hash) && PublishVerdict(c, false, frame, max, hash).Ok?
    ensures Sound(AfterPublish(c, PublishVerdict(c, false, frame, max, hash).value), max, hash)
    ensures AfterPublish(c, PublishVerdict(c, false, frame, max, hash).value).epoch == c.epoch + 1
  {
    hide Published, ParsePublication;
    PublicationIsSound(frame, max, hash);
  }

  class State {
    const max: nat
    const hash: string -> string
    var lifetime: Lifetime
    var latest: Option<nat>
    var pending: Option<Ack>
    var acknowledged: Option<Ack>
    var bound: Option<Ack>
    var accepted: set<string>
    var epoch: nat
    /** Every proof issued by this state, or by the state it was cloned from before that. */
    ghost var issued: set<Binding>
    /** Those of them that a later publication or reset has ended. */
    ghost var superseded: set<Binding>

    function Contents(): Slots
      reads this
    {
      Slots(latest, pending, acknowledged, bound, accepted, epoch)
    }

    /** Proofs of the current lifetime carry at most the current epoch, superseded ones less. */
    ghost predicate Valid()
      reads this
    {
      && Sound(Contents(), max, hash)
      && superseded <= issued
      && (forall b :: b in issued && b.token == lifetime.sequence ==> b.epoch <= epoch)
      && (forall b :: b in superseded && b.token == lifetime.sequence ==> b.epoch < epoch)
    }

    /** A fresh state over a cell just minted. */
    constructor (max: nat, hash: string -> string, cell: Lifetime)
      ensures this.max == max && this.hash == hash && lifetime == cell
      ensures Valid() && issued == superseded == {} && Contents() == EMPTY
    {
      this.max := max;
      this.hash := hash;
      lifetime := cell;
      latest, pending, acknowledged, bound := None, None, None, None;
      accepted, epoch, issued, superseded := {}, 0, {}, {};
    }

    /** An alias of the same lifetime with a copy of everything else. */
    constructor Clone(from: State)
      requires from.Valid()
      ensures Valid() && lifetime == from.lifetime && issued == from.issued && superseded == from.superseded
      ensures max == from.max && hash == from.hash && Contents() == from.Contents()
    {
      max := from.max;
      hash := from.hash;
      lifetime := from.lifetime;
      latest, pending, acknowledged, bound := from.latest, from.pending, from.acknowledged, from.bound;
      accepted, epoch, issued, superseded := from.accepted, from.epoch, from.issued, from.superseded;
    }

    /** Take up a freshly minted lifetime with nothing in it; the old one is revoked for every alias. */
    method Restart(cell: Lifetime)
      requires cell != lifetime
      requires forall b :: b in issued ==> b.token != cell.sequence
      modifies this, lifetime
      ensures old(lifetime).revoked && lifetime == cell && cell.revoked == old(cell.revoked)
      ensures Valid() && Contents() == EMPTY && issued == superseded == old(issued)
    {
      lifetime.Revoke();
      lifetime := cell;
      latest, pending, acknowledged, bound := None, None, None, None;
      accepted, epoch, superseded := {}, 0, issued;
    }

    /** A new publication ends every proof issued so far, for good: see `SupersededIsStale`. */
    method Publish(frame: string) returns (r: Result<Ack, RoutingError>)
      requires Valid()
      modifies this
      ensures Valid() && lifetime == old(lifetime) && issued == old(issued)
      ensures r == PublishVerdict(old(Contents()), old(lifetime.revoked), frame, max, hash)
      ensures r.Err? ==> Kept()
      ensures r.Ok? ==> Contents() == AfterPublish(old(Contents()), r.value) && epoch == old(epoch) + 1
      ensures r.Ok? ==> superseded == issued
      ensures r.Ok? ==>
        && !old(lifetime.revoked) && (old(latest).Some? ==> r.value.version > old(latest).value)
        && r.value.id !in old(accepted) && |old(accepted)| < MAX_ACCEPTED_PUBLICATION_IDS
        && pending == Some(r.value) && latest == Some(r.value.version) && accepted == old(accepted) + {r.value.id}
      ensures !old(lifetime.revoked) && ParsePublication(frame, max, hash).Ok? ==>
        var a := ParsePublication(frame, max, hash).value;
        r == Ok(a) <==>
          && (old(latest).Some? ==> a.version > old(latest).value)
          && a.id !in old(accepted) && |old(accepted)| < MAX_ACCEPTED_PUBLICATION_IDS
    {
      hide Sound, Published, ParsePublication;
      if lifetime.revoked {
        return Err(PublicationLifetimeRevoked);
      }
      r := ParsePublicationFrame(frame, max, hash);
      if r.Err? {
        return;
      }
      var refusal := PublishRefusal(Contents(), r.value);
      if refusal.Some? {
        return Err(refusal.value);
      }
      SoundAfterPublish(Contents(), frame, max, hash);
      accepted := accepted + {r.value.id};
      latest := Some(r.value.version);
      pending, acknowledged, bound := Some(r.value), None, None;
      epoch := Saturating(epoch);
      superseded := issued;
      assert Contents() == AfterPublish(old(Contents()), r.value);
    }

    method Acknowledge(frame: string) returns (r: Result<Ack, RoutingError>)
      requires Valid()
      modifies this
      ensures Valid() && lifetime == old(lifetime) && issued == old(issued) && superseded == old(superseded)
      ensures r == AckVerdict(old(Contents()), old(lifetime.revoked), frame, max)
      ensures r.Err? ==> Kept()
      ensures r.Ok? ==> Contents() == AfterAck(old(Contents())) && acknowledged == Some(r.value) && bound.None?
    {
      hide Published, ParseAck;
      if lifetime.revoked {
        return Err(PublicationLifetimeRevoked);
      }
      var parsed := ParseAckFrame(frame, max);
      if parsed.Err? {
        return parsed;
      }
      if pending.None? {
        return Err(NoPublication);
      }
      if !SameIdentity(pending.value, parsed.value) {
        return Err(Superseded);
      }
      r := Ok(pending.value);
      acknowledged := pending;
      pending := None;
    }

    method Bind(ack: Ack, registry: Registry) returns (r: Result<Binding, RoutingError>)
      requires Valid()
      modifies this
      ensures Valid() && lifetime == old(lifetime) && superseded == old(superseded)
      ensures r == BindVerdict(old(Contents()), lifetime.revoked, lifetime.sequence, hash, ack, registry)
      ensures Contents() == AfterBind(old(Contents()), r)
      ensures issued == if r.Ok? then old(issued) + {r.value} else old(issued)
      ensures r.Ok? ==> Verify(r.value, registry).None?
    {
      hide Published, RegistryText, SameIdentity;
      if lifetime.revoked {
        return Err(PublicationLifetimeRevoked);
      }
      if acknowledged.None? {
        return Err(NoAcknowledgement);
      }
      if !SameIdentity(acknowledged.value, ack) {
        return Err(Superseded);
      }
      var projection := ProjectRegistry(registry.entries);
      if projection.Err? {
        TextErrors(registry.entries);
        return Err(projection.error);
      }
      var text := projection.value;
      if hash(text) != acknowledged.value.digest || text != acknowledged.value.bytes {
        acknowledged := None;
        return Err(ProjectionMismatch);
      }
      var proof := Binding(acknowledged.value, registry.revision, epoch, lifetime.sequence);
      bound := acknowledged;
      acknowledged := None;
      issued := issued + {proof};
      return Ok(proof);
    }

    function Verify(b: Binding, registry: Registry): Option<RoutingError>
      reads this, lifetime
    {
      VerifyVerdict(Contents(), lifetime.revoked, lifetime.sequence, hash, b, registry)
    }

    /** No registry makes this state accept the proof. */
    ghost predicate Stale(b: Binding)
      reads this, lifetime
    {
      forall registry :: Verify(b, registry).Some?
    }

    /** A superseded proof never verifies here again, whatever is published, acknowledged and bound since. */
    lemma {:induction false} SupersededIsStale(b: Binding)
      requires Valid() && b in superseded
      ensures Stale(b)
    {
      forall registry ensures Verify(b, registry).Some? {
        hide RegistryText;
        assert b.token == lifetime.sequence ==> b.epoch != epoch;
      }
    }

    twostate predicate Kept()
      reads this
    {
      lifetime == old(lifetime) && Contents() == old(Contents()) && issued == old(issued) && superseded == old(superseded)
    }
  }

  /**
   * On a live state whose acknowledged publication the caller names, a bind succeeds exactly
   * when the published models are the registry's models and no published provider is empty.
   */
  lemma {:induction false} BindSucceedsExactly(s: State, ack: Ack, registry: Registry, ps: seq<Provider>)
    requires s.Valid() && !s.lifetime.revoked && s.acknowledged.Some? && SameIdentity(s.acknowledged.value, ack)
    requires s.max >= PROJECTION_DEPTH && Registered(registry.entries)
    requires ParseObject(s.acknowledged.value.bytes, s.max).Ok?
    requires PayloadOf(ParseObject(s.acknowledged.value.bytes, s.max).value) == Ok(ps)
    ensures BindVerdict(s.Contents(), s.lifetime.revoked, s.lifetime.sequence, s.hash, ack, registry).Ok? <==> RowsOf(registry.entries) == Rows(ps) && NoEmptyProvider(ps)
  {
    hide AcceptedPayload, PayloadOf, ParseObject, Registered, RegistryText, PrintedFrom;
    var bytes := s.acknowledged.value.bytes;
    AcceptsExactlyPrintedProjections(bytes, s.max);
    BytesMatchExactlyWhenDataMatch(registry.entries, bytes, ps);
  }

  function Saturating(n: nat): nat { if n >= U64_MAX then U64_MAX else n + 1 }

  lemma {:induction false} TextErrors(entries: seq<Entry>)
    ensures RegistryText(entries).Err? ==> RegistryText(entries).error != ProjectionMismatch
  {
    hide EntriesOk, Print, Utf8Len;
  }
}
