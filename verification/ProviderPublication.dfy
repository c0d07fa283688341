/**
 * The two frames of a provider/routing publication
 * (crates/bitty-ai-endpoint/src/provider_binding.rs:310-404 and the key checks at 539-583).
 * The SHA-256 hex digest is the parameter `hash`; `max` is the parser's depth bound.
 */
module ProviderPublication {
  import opened Bytes
  import opened Results
  import opened Json
  import opened JsonReader
  import opened JsonWriter
  import opened JsonViews
  import opened ProviderProjection

  /** An accepted publication: its identity and the bytes it published. */
  datatype Ack = Ack(id: string, domain: string, version: nat, digest: string, bytes: string)

  predicate SameIdentity(a: Ack, b: Ack) {
    a.id == b.id && a.domain == b.domain && a.version == b.version && a.digest == b.digest
  }

  predicate IsIdentityChar(c: char) {
    'a' <= c <= 'z' || 'A' <= c <= 'Z' || '0' <= c <= '9' || c == '-' || c == '_' || c == '.' || c == ':'
  }

  predicate ValidIdentity(s: string) {
    s != [] && Utf8Len(s) <= MAX_FIELD_BYTES && forall i :: 0 <= i < |s| ==> IsIdentityChar(s[i])
  }

  predicate IsDigest(s: string) {
    |s| == 64 && forall i :: 0 <= i < |s| ==> ('0' <= s[i] <= '9' || 'a' <= s[i] <= 'f')
  }

  predicate DistinctKeys(fields: seq<Field>) {
    forall i, j :: 0 <= i < j < |fields| ==> fields[i].key != fields[j].key
  }

  /** No object anywhere in the value repeats a key. */
  predicate NoDuplicateKeys(v: JVal) {
    match v
    case JObj(fields) => DistinctKeys(fields) && forall i :: 0 <= i < |fields| ==> NoDuplicateKeys(fields[i].value)
    case JArr(items) => forall i :: 0 <= i < |items| ==> NoDuplicateKeys(items[i])
    case _ => true
  }

  predicate ExactKeys(v: JVal, expected: seq<string>) {
    && v.JObj? && |v.fields| == |expected| && DistinctKeys(v.fields)
    && forall i :: 0 <= i < |v.fields| ==> OneOf(v.fields[i].key, expected)
  }

  function VersionField(v: JVal): Option<nat> {
    match FieldOf(v, "snapshot_version")
    case None => None
    case Some(x) => AsU64(x)
  }

  function ReadFrame(frame: string, max: nat, expected: seq<string>): Result<JVal, RoutingError> {
    if Utf8Len(frame) > MAX_PUBLICATION_FRAME_BYTES then Err(FrameTooLarge)
    else
      match ParseObject(frame, max)
      case Err(_) => Err(InvalidJson)
      case Ok(v) => if NoDuplicateKeys(v) && ExactKeys(v, expected) then Ok(v) else Err(InvalidJson)
  }

  const PUBLICATION_KEYS: seq<string> := ["publication_id", "snapshot_version", "domain", "digest", "metadata_json"]
  const ACK_KEYS: seq<string> := ["publication_id", "snapshot_version", "domain", "digest"]

  function CheckIdentity(id: string, domain: string, digest: string): Option<RoutingError> {
    if !ValidIdentity(id) then Some(InvalidIdentity)
    else if domain != PROVIDER_ROUTING_DOMAIN then Some(InvalidDomain)
    else if !IsDigest(digest) then Some(InvalidDigest)
    else None
  }

  function ParsePublication(frame: string, max: nat, hash: string -> string): Result<Ack, RoutingError> {
    match ReadFrame(frame, max, PUBLICATION_KEYS)
    case Err(e) => Err(e)
    case Ok(top) =>
      var id := StringField(top, "publication_id");
      var domain := StringField(top, "domain");
      var digest := StringField(top, "digest");
      var version := VersionField(top);
      var payload := StringField(top, "metadata_json");
      if id.None? || domain.None? || digest.None? || version.None? || payload.None? then Err(InvalidJson)
      else
        match CheckIdentity(id.value, domain.value, digest.value)
        case Some(e) => Err(e)
        case None =>
          match CheckPayload(payload.value, max, digest.value, hash)
          case Some(e) => Err(e)
          case None => Ok(Ack(id.value, domain.value, version.value, digest.value, payload.value))
  }

  function CheckPayload(payload: string, max: nat, digest: string, hash: string -> string): Option<RoutingError> {
    if Utf8Len(payload) > MAX_PUBLICATION_FRAME_BYTES then Some(FrameTooLarge)
    else
      match ParseObject(payload, max)
      case Err(_) => Some(InvalidProjection)
      case Ok(v) =>
        match PayloadText(v)
        case Err(e) => Some(e)
        case Ok(text) =>
          if text != payload then Some(NonCanonicalProjection)
          else if hash(text) != digest then Some(InvalidDigest)
          else None
  }

  function ParseAck(frame: string, max: nat): Result<Ack, RoutingError> {
    match ReadFrame(frame, max, ACK_KEYS)
    case Err(e) => Err(e)
    case Ok(top) =>
      var id := StringField(top, "publication_id");
      var domain := StringField(top, "domain");
      var digest := StringField(top, "digest");
      if id.None? || domain.None? || digest.None? then Err(InvalidJson)
      else
        match CheckIdentity(id.value, domain.value, digest.value)
        case Some(e) => Err(e)
        case None =>
          match VersionField(top)
          case None => Err(InvalidJson)
          case Some(version) => Ok(Ack(id.value, domain.value, version, digest.value, ""))
  }

  /** What every accepted publication is. */
  ghost predicate Published(a: Ack, max: nat, hash: string -> string) {
    && ValidIdentity(a.id) && a.domain == PROVIDER_ROUTING_DOMAIN && a.version <= U64_MAX
    && IsDigest(a.digest) && a.digest == hash(a.bytes) && AcceptedPayload(a.bytes, max)
  }

  /** A payload passes its checks exactly when it is accepted and hashes to the digest. */
  lemma {:induction false} PayloadChecksAreExact(payload: string, max: nat, digest: string, hash: string -> string)
    ensures CheckPayload(payload, max, digest, hash).None? <==>
      AcceptedPayload(payload, max) && hash(payload) == digest && Utf8Len(payload) <= MAX_PUBLICATION_FRAME_BYTES
  {
    hide ParseObject, PayloadText, Utf8Len;
  }

  lemma {:induction false} PublicationIsSound(frame: string, max: nat, hash: string -> string)
    requires ParsePublication(frame, max, hash).Ok?
    ensures Published(ParsePublication(frame, max, hash).value, max, hash)
  {
    hide ReadFrame, StringField, CheckPayload, AcceptedPayload, ValidIdentity;
    var top := ReadFrame(frame, max, PUBLICATION_KEYS).value;
    var payload := StringField(top, "metadata_json").value;
    PayloadChecksAreExact(payload, max, StringField(top, "digest").value, hash);
  }

  // ---------------------------------------------------------------- frames are read back

  function Identity(a: Ack): seq<Field> {
    [Field("publication_id", JStr(a.id)), Field("snapshot_version", Integer(a.version)),
     Field("domain", JStr(a.domain)), Field("digest", JStr(a.digest))]
  }

  /** A publication frame and the acknowledgement frame that answers it. */
  function PublicationValue(a: Ack): JVal { JObj(Identity(a) + [Field("metadata_json", JStr(a.bytes))]) }
  function AckValue(a: Ack): JVal { JObj(Identity(a)) }

  lemma {:induction false} IdentityReads(a: Ack, v: JVal)
    requires v == AckValue(a) || v == PublicationValue(a)
    requires a.version <= U64_MAX
    ensures v.JObj? && 4 <= |v.fields| <= 5 && v.fields[..4] == Identity(a)
    ensures StringField(v, "publication_id") == Some(a.id) && StringField(v, "domain") == Some(a.domain)
    ensures StringField(v, "digest") == Some(a.digest) && VersionField(v) == Some(a.version)
  {
    var fields := v.fields;
    assert forall i :: 0 <= i < 4 ==> fields[i] == Identity(a)[i];
    LookupAt(fields, 0);
    LookupAt(fields, 1);
    LookupAt(fields, 2);
    LookupAt(fields, 3);
    DecimalMeans(a.version);
  }

  lemma {:induction false} PayloadReads(a: Ack)
    ensures StringField(PublicationValue(a), "metadata_json") == Some(a.bytes)
  {
    LookupAt(PublicationValue(a).fields, 4);
  }

  lemma {:induction false} FrameParses(a: Ack, v: JVal, max: nat)
    requires v == AckValue(a) || v == PublicationValue(a)
    requires max >= 1
    ensures ParseObject(Compact(v), max) == Ok(v) && NoDuplicateKeys(v)
  {
    hide Compact, ParseObject, Integer, Within;
    var fields := v.fields;
    assert forall i :: 0 <= i < 4 ==> fields[i] == Identity(a)[i];
    ScalarWithin(a.id, a.version, true, 0);
    ScalarWithin(a.domain, 0, true, 0);
    ScalarWithin(a.digest, 0, true, 0);
    ScalarWithin(a.bytes, 0, true, 0);
    ObjectWithin(fields, 0);
    WithinParses(v, 1, max);
    assert NoDuplicateKeys(Integer(a.version)) by { IntegerIsPlain(a.version); }
  }

  lemma {:induction false} IntegerIsPlain(n: nat)
    ensures NoDuplicateKeys(Integer(n))
  {
  }

  lemma {:induction false} KeysAreExact(a: Ack)
    ensures ExactKeys(AckValue(a), ACK_KEYS) && ExactKeys(PublicationValue(a), PUBLICATION_KEYS)
  {
    var fields := PublicationValue(a).fields;
    forall i | 0 <= i < 5 ensures OneOf(fields[i].key, PUBLICATION_KEYS) && fields[i].key == PUBLICATION_KEYS[i] {
      WordIsOneOf(PUBLICATION_KEYS, i);
    }
    forall i | 0 <= i < 4 ensures OneOf(Identity(a)[i].key, ACK_KEYS) && Identity(a)[i].key == ACK_KEYS[i] {
      WordIsOneOf(ACK_KEYS, i);
    }
  }

  ghost predicate Fits(v: JVal) { Utf8Len(Compact(v)) <= MAX_PUBLICATION_FRAME_BYTES }

  /** Every publishable projection can be published, and its own acknowledgement frame names it. */
  lemma {:induction false} FramesReadBack(a: Ack, max: nat, hash: string -> string)
    requires Published(a, max, hash) && max >= 1 && Utf8Len(a.bytes) <= MAX_PUBLICATION_FRAME_BYTES
    requires Fits(PublicationValue(a)) && Fits(AckValue(a))
    ensures ParsePublication(Compact(PublicationValue(a)), max, hash) == Ok(a)
    ensures ParseAck(Compact(AckValue(a)), max) == Ok(a.(bytes := ""))
  {
    hide StringField, VersionField, ParseObject, CheckPayload, AcceptedPayload, NoDuplicateKeys, ExactKeys;
    hide PublicationValue, AckValue, PUBLICATION_KEYS, ACK_KEYS, ValidIdentity;
    FrameParses(a, PublicationValue(a), max);
    FrameParses(a, AckValue(a), max);
    KeysAreExact(a);
    IdentityReads(a, PublicationValue(a));
    IdentityReads(a, AckValue(a));
    PayloadReads(a);
    PayloadChecksAreExact(a.bytes, max, a.digest, hash);
  }
}
