/**
 * Reading publication and acknowledgement frames with the position-moving parser and the
 * buffer-growing canonicaliser (crates/bitty-ai-endpoint/src/provider_binding.rs:310-404).
 */
module ProviderFrames {
  import opened Results
  import opened Json
  import opened JsonReader
  import opened JsonViews
  import opened JsonParser
  import opened ProviderProjection
  import opened ProviderPublication
  import opened ProviderWriter

  method ParseFrame(frame: string, max: nat, expected: seq<string>) returns (r: Result<JVal, RoutingError>)
    ensures r == ReadFrame(frame, max, expected)
  {
    hide ParseObject, IsObjectText, NoDuplicateKeys, ExactKeys, Utf8Len;
    if Utf8Len(frame) > MAX_PUBLICATION_FRAME_BYTES {
      return Err(FrameTooLarge);
    }
    var top := ParseParamsObject(frame, max);
    if top.Err? || !NoDuplicateKeys(top.value) || !ExactKeys(top.value, expected) {
      return Err(InvalidJson);
    }
    return Ok(top.value);
  }

  method ValidatePayload(payload: string, max: nat, digest: string, hash: string -> string) returns (r: Option<RoutingError>)
    ensures r == CheckPayload(payload, max, digest, hash)
  {
    hide ParseObject, IsObjectText, PayloadText, Utf8Len;
    if Utf8Len(payload) > MAX_PUBLICATION_FRAME_BYTES {
      return Some(FrameTooLarge);
    }
    var parsed := ParseParamsObject(payload, max);
    if parsed.Err? {
      return Some(InvalidProjection);
    }
    var projected := ProjectPayload(parsed.value);
    if projected.Err? {
      return Some(projected.error);
    }
    if projected.value != payload {
      return Some(NonCanonicalProjection);
    }
    if hash(projected.value) != digest {
      return Some(InvalidDigest);
    }
    return None;
  }

  method ParsePublicationFrame(frame: string, max: nat, hash: string -> string) returns (r: Result<Ack, RoutingError>)
    ensures r == ParsePublication(frame, max, hash)
    ensures r.Ok? ==> Published(r.value, max, hash)
  {
    hide ReadFrame, StringField, VersionField, CheckIdentity, CheckPayload, Published;
    var top := ParseFrame(frame, max, PUBLICATION_KEYS);
    if top.Err? {
      return Err(top.error);
    }
    var id := StringField(top.value, "publication_id");
    var domain := StringField(top.value, "domain");
    var digest := StringField(top.value, "digest");
    var version := VersionField(top.value);
    var payload := StringField(top.value, "metadata_json");
    if id.None? || domain.None? || digest.None? || version.None? || payload.None? {
      return Err(InvalidJson);
    }
    var refused := CheckIdentity(id.value, domain.value, digest.value);
    if refused.None? {
      refused := ValidatePayload(payload.value, max, digest.value, hash);
    }
    if refused.Some? {
      return Err(refused.value);
    }
    r := Ok(Ack(id.value, domain.value, version.value, digest.value, payload.value));
    PublicationIsSound(frame, max, hash);
  }

  method ParseAckFrame(frame: string, max: nat) returns (r: Result<Ack, RoutingError>)
    ensures r == ParseAck(frame, max)
  {
    hide ReadFrame, StringField, VersionField, CheckIdentity;
    var top := ParseFrame(frame, max, ACK_KEYS);
    if top.Err? {
      return Err(top.error);
    }
    var id := StringField(top.value, "publication_id");
    var domain := StringField(top.value, "domain");
    var digest := StringField(top.value, "digest");
    if id.None? || domain.None? || digest.None? {
      return Err(InvalidJson);
    }
    var refused := CheckIdentity(id.value, domain.value, digest.value);
    if refused.Some? {
      return Err(refused.value);
    }
    var version := VersionField(top.value);
    if version.None? {
      return Err(InvalidJson);
    }
    return Ok(Ack(id.value, domain.value, version.value, digest.value, ""));
  }
}
