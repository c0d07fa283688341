/**
 * Which publication and acknowledgement frames are read, as what, and which refusal the others
 * get (crates/bitty-ai-endpoint/src/provider_binding.rs:310-404 and 539-583), spelled out.
 */
module PublicationRules {
  import opened Results
  import opened Json
  import opened JsonReader
  import opened JsonWriter
  import opened JsonViews
  import opened ProviderProjection
  import opened ProviderPublication
  import Utf8

  // ---------------------------------------------------------------- keys

  /** `w` is `v` or stands somewhere inside it. */
  ghost predicate Inside(w: JVal, v: JVal) {
    || w == v
    || (v.JObj? && exists i :: 0 <= i < |v.fields| && Inside(w, v.fields[i].value))
    || (v.JArr? && exists i :: 0 <= i < |v.items| && Inside(w, v.items[i]))
  }

  lemma {:induction false} RepeatIsFound(v: JVal, w: JVal)
    requires NoDuplicateKeys(v) && Inside(w, v) && w.JObj?
    ensures DistinctKeys(w.fields)
    decreases v
  {
    hide DistinctKeys;
    if w != v {
      if v.JObj? {
        var i :| 0 <= i < |v.fields| && Inside(w, v.fields[i].value);
        RepeatIsFound(v.fields[i].value, w);
      } else {
        var i :| 0 <= i < |v.items| && Inside(w, v.items[i]);
        RepeatIsFound(v.items[i], w);
      }
    }
  }

  lemma {:induction false} RepeatIsThere(v: JVal) returns (w: JVal)
    requires !NoDuplicateKeys(v)
    ensures Inside(w, v) && w.JObj? && !DistinctKeys(w.fields)
    decreases v
  {
    hide DistinctKeys;
    if v.JObj? {
      if !DistinctKeys(v.fields) {
        return v;
      }
      var i :| 0 <= i < |v.fields| && !NoDuplicateKeys(v.fields[i].value);
      w := RepeatIsThere(v.fields[i].value);
    } else {
      var i :| 0 <= i < |v.items| && !NoDuplicateKeys(v.items[i]);
      w := RepeatIsThere(v.items[i]);
    }
  }

  ghost predicate Unambiguous(v: JVal) {
    forall w :: Inside(w, v) && w.JObj? ==> forall i, j :: 0 <= i < j < |w.fields| ==> w.fields[i].key != w.fields[j].key
  }

  /** The check finds a repeated key in any object, however deep. */
  lemma {:induction false} NoDuplicateKeysMeans(v: JVal)
    ensures NoDuplicateKeys(v) <==> Unambiguous(v)
  {
    if NoDuplicateKeys(v) {
      forall w | Inside(w, v) && w.JObj? ensures DistinctKeys(w.fields) {
        RepeatIsFound(v, w);
      }
    } else {
      var w := RepeatIsThere(v);
    }
  }

  ghost function KeySet(fields: seq<Field>): set<string> { set i | 0 <= i < |fields| :: fields[i].key }

  lemma {:induction false} KeysAreCounted(fields: seq<Field>)
    ensures |KeySet(fields)| <= |fields|
    ensures DistinctKeys(fields) ==> |KeySet(fields)| == |fields|
  {
    if fields != [] {
      var n := |fields| - 1;
      var front, last := fields[..n], fields[n].key;
      KeysAreCounted(front);
      assert KeySet(fields) == KeySet(front) + {last};
      if DistinctKeys(fields) {
        assert last !in KeySet(front);
      }
    }
  }

  lemma {:induction false} WordsAreCounted(words: seq<string>)
    ensures |set w | w in words| <= |words|
  {
    if words != [] {
      WordsAreCounted(words[1..]);
      assert (set w | w in words) == {words[0]} + (set w | w in words[1..]);
    }
  }

  lemma {:induction false} SameSize(a: set<string>, b: set<string>)
    requires a <= b && |a| >= |b|
    ensures a == b
  {
    assert b == a + (b - a) && |b| == |a| + |b - a|;
  }

  /** As many different keys as expected, all of them expected: so each expected key is there. */
  lemma {:induction false} ExactKeysMeans(v: JVal, expected: seq<string>)
    requires ExactKeys(v, expected)
    ensures KeySet(v.fields) == set w | w in expected
  {
    var want := set w | w in expected;
    KeysAreCounted(v.fields);
    WordsAreCounted(expected);
    forall k | k in KeySet(v.fields) ensures k in want {
      OneOfIsIn(k, expected);
    }
    SameSize(KeySet(v.fields), want);
  }

  // ---------------------------------------------------------------- identities

  /** One to 128 characters, each a letter, a digit or one of four marks. */
  ghost predicate IdentityRules(s: string) {
    && 1 <= |s| <= 128
    && forall i :: 0 <= i < |s| ==>
         'a' <= s[i] <= 'z' || 'A' <= s[i] <= 'Z' || '0' <= s[i] <= '9' || s[i] in {'-', '_', '.', ':'}
  }

  lemma {:induction false} PlainLength(s: string)
    requires forall i :: 0 <= i < |s| ==> s[i] < '\U{0080}'
    ensures Utf8Len(s) == |s|
  {
    if s != [] {
      PlainLength(s[..|s| - 1]);
    }
  }

  lemma {:induction false} IdentityMeans(s: string)
    ensures ValidIdentity(s) <==> IdentityRules(s)
  {
    hide Utf8Len;
    if forall i :: 0 <= i < |s| ==> IsIdentityChar(s[i]) {
      PlainLength(s);
    }
  }

  ghost predicate DigestRules(s: string) {
    |s| == 64 && forall i :: 0 <= i < |s| ==> '0' <= s[i] <= '9' || 'a' <= s[i] <= 'f'
  }

  // ---------------------------------------------------------------- frames

  /** The frame is within its bound and holds exactly these keys, none twice anywhere. */
  ghost predicate FrameRules(frame: string, max: nat, v: JVal, keys: set<string>) {
    && |Utf8.EncodeText(frame)| <= 262144 && ParseObject(frame, max) == Ok(v) && Unambiguous(v)
    && v.JObj? && |v.fields| == |keys| && KeySet(v.fields) == keys
  }

  lemma {:induction false} FrameMeans(frame: string, max: nat, expected: seq<string>, v: JVal)
    requires forall i, j :: 0 <= i < j < |expected| ==> expected[i] != expected[j]
    ensures ReadFrame(frame, max, expected) == Ok(v) <==> FrameRules(frame, max, v, set w | w in expected)
    ensures |Utf8.EncodeText(frame)| > 262144 ==> ReadFrame(frame, max, expected) == Err(FrameTooLarge)
    ensures |Utf8.EncodeText(frame)| <= 262144 && ReadFrame(frame, max, expected).Err? ==>
      ReadFrame(frame, max, expected).error == InvalidJson
  {
    hide ParseObject, NoDuplicateKeys, Unambiguous, Utf8Len, Utf8.EncodeText, ExactKeys;
    Utf8LenMeans(frame);
    NoDuplicateKeysMeans(v);
    KeysAreExactly(v, expected);
  }

  lemma {:induction false} DistinctAreCounted(words: seq<string>)
    requires forall i, j :: 0 <= i < j < |words| ==> words[i] != words[j]
    ensures |set w | w in words| == |words|
  {
    if words != [] {
      DistinctAreCounted(words[1..]);
      assert (set w | w in words) == {words[0]} + (set w | w in words[1..]);
      assert words[0] !in words[1..];
    }
  }

  lemma {:induction false} KeysAreExactly(v: JVal, expected: seq<string>)
    requires forall i, j :: 0 <= i < j < |expected| ==> expected[i] != expected[j]
    ensures NoDuplicateKeys(v) ==>
      (ExactKeys(v, expected) <==>
        v.JObj? && |v.fields| == |set w | w in expected| && KeySet(v.fields) == set w | w in expected)
  {
    DistinctAreCounted(expected);
    if NoDuplicateKeys(v) {
      if ExactKeys(v, expected) {
        ExactKeysMeans(v, expected);
      }
      if v.JObj? && KeySet(v.fields) == set w | w in expected {
        forall i | 0 <= i < |v.fields| ensures OneOf(v.fields[i].key, expected) {
          assert v.fields[i].key in KeySet(v.fields);
          OneOfIsIn(v.fields[i].key, expected);
        }
      }
    }
  }

  ghost predicate Versioned(v: JVal, n: nat) {
    FieldOf(v, "snapshot_version").Some? && AsU64(FieldOf(v, "snapshot_version").value) == Some(n)
  }

  const FRAME_KEYS: set<string> := {"publication_id", "snapshot_version", "domain", "digest", "metadata_json"}
  const ANSWER_KEYS: set<string> := {"publication_id", "snapshot_version", "domain", "digest"}

  lemma {:induction false} ExpectedKeys()
    ensures |PUBLICATION_KEYS| == 5 && |ACK_KEYS| == 4
    ensures (set w | w in PUBLICATION_KEYS) == FRAME_KEYS && (set w | w in ACK_KEYS) == ANSWER_KEYS
    ensures forall i, j :: 0 <= i < j < 5 ==> PUBLICATION_KEYS[i] != PUBLICATION_KEYS[j]
    ensures forall i, j :: 0 <= i < j < 4 ==> ACK_KEYS[i] != ACK_KEYS[j]
  {
    assert |PUBLICATION_KEYS[0]| == 14 && |PUBLICATION_KEYS[1]| == 16 && |PUBLICATION_KEYS[2]| == 6;
    assert |PUBLICATION_KEYS[4]| == 13 && PUBLICATION_KEYS[2][1] == 'o' && PUBLICATION_KEYS[3][1] == 'i';
  }

  ghost predicate IdentityShown(v: JVal, a: Ack) {
    && StringField(v, "publication_id") == Some(a.id) && IdentityRules(a.id)
    && StringField(v, "domain") == Some("provider-routing") && a.domain == "provider-routing"
    && StringField(v, "digest") == Some(a.digest) && DigestRules(a.digest)
    && Versioned(v, a.version)
  }

  /** A publication is read exactly when its frame, its identity and its payload are in order. */
  lemma {:induction false} PublicationReads(frame: string, max: nat, hash: string -> string, a: Ack)
    ensures ParsePublication(frame, max, hash) == Ok(a) <==> exists v :: PublicationRead(frame, max, hash, a, v)
  {
    hide ReadFrame, FieldOf, StringField, FrameRules, CheckPayload, AcceptedPayload, IdentityRules, ValidIdentity, Utf8Len, Utf8.EncodeText, PUBLICATION_KEYS;
    ExpectedKeys();
    IdentityMeans(a.id);
    PayloadChecksAreExact(a.bytes, max, a.digest, hash);
    Utf8LenMeans(a.bytes);
    if ParsePublication(frame, max, hash) == Ok(a) {
      var v := ReadFrame(frame, max, PUBLICATION_KEYS).value;
      FrameMeans(frame, max, PUBLICATION_KEYS, v);
      assert PublicationRead(frame, max, hash, a, v);
    }
    if v :| PublicationRead(frame, max, hash, a, v) {
      FrameMeans(frame, max, PUBLICATION_KEYS, v);
    }
  }

  ghost predicate PublicationRead(frame: string, max: nat, hash: string -> string, a: Ack, v: JVal) {
    && FrameRules(frame, max, v, FRAME_KEYS) && IdentityShown(v, a)
    && StringField(v, "metadata_json") == Some(a.bytes) && |Utf8.EncodeText(a.bytes)| <= 262144
    && AcceptedPayload(a.bytes, max) && hash(a.bytes) == a.digest
  }

  ghost predicate AckRead(frame: string, max: nat, a: Ack, v: JVal) {
    FrameRules(frame, max, v, ANSWER_KEYS) && IdentityShown(v, a) && a.bytes == ""
  }

  /** And an acknowledgement exactly when its frame and its identity are. */
  lemma {:induction false} AckReads(frame: string, max: nat, a: Ack)
    ensures ParseAck(frame, max) == Ok(a) <==> exists v :: AckRead(frame, max, a, v)
  {
    hide ReadFrame, FieldOf, StringField, FrameRules, IdentityRules, ValidIdentity, ACK_KEYS;
    ExpectedKeys();
    IdentityMeans(a.id);
    if ParseAck(frame, max) == Ok(a) {
      var v := ReadFrame(frame, max, ACK_KEYS).value;
      FrameMeans(frame, max, ACK_KEYS, v);
      assert AckRead(frame, max, a, v);
    }
    if v :| AckRead(frame, max, a, v) {
      FrameMeans(frame, max, ACK_KEYS, v);
    }
  }

  /** Which refusal a frame gets: the first of these that applies. */
  lemma {:induction false} PublicationRefusals(frame: string, max: nat, hash: string -> string, v: JVal)
    ensures var r := ParsePublication(frame, max, hash);
      |Utf8.EncodeText(frame)| > 262144 ==> r == Err(FrameTooLarge)
    ensures var r := ParsePublication(frame, max, hash);
      |Utf8.EncodeText(frame)| <= 262144 && !(exists w :: FrameRules(frame, max, w, FRAME_KEYS)) ==> r == Err(InvalidJson)
    ensures FrameRules(frame, max, v, FRAME_KEYS) ==>
      var r, id, domain := ParsePublication(frame, max, hash), StringField(v, "publication_id"), StringField(v, "domain");
      var digest, payload := StringField(v, "digest"), StringField(v, "metadata_json");
      var there := id.Some? && domain.Some? && digest.Some? && payload.Some? && VersionField(v).Some?;
      && (!there ==> r == Err(InvalidJson))
      && (there && !IdentityRules(id.value) ==> r == Err(InvalidIdentity))
      && (there && IdentityRules(id.value) && domain.value != "provider-routing" ==> r == Err(InvalidDomain))
      && (there && IdentityRules(id.value) && domain.value == "provider-routing" ==>
            && (!DigestRules(digest.value) ==> r == Err(InvalidDigest))
            && (DigestRules(digest.value) && CheckPayload(payload.value, max, digest.value, hash).Some? ==>
                  r == Err(CheckPayload(payload.value, max, digest.value, hash).value)))
  {
    hide ReadFrame, StringField, VersionField, FrameRules, CheckPayload, IdentityRules, ValidIdentity, Utf8.EncodeText, PUBLICATION_KEYS;
    ExpectedKeys();
    FrameMeans(frame, max, PUBLICATION_KEYS, v);
    var read := ReadFrame(frame, max, PUBLICATION_KEYS);
    if read.Ok? {
      FrameMeans(frame, max, PUBLICATION_KEYS, read.value);
    }
    var id := StringField(v, "publication_id");
    if id.Some? {
      IdentityMeans(id.value);
    }
  }

  /** The payload's own refusals, in order. */
  lemma {:induction false} PayloadRefused(payload: string, max: nat, digest: string, hash: string -> string)
    ensures var r, parsed := CheckPayload(payload, max, digest, hash), ParseObject(payload, max);
      var small := |Utf8.EncodeText(payload)| <= 262144;
      && (!small ==> r == Some(FrameTooLarge))
      && (small && parsed.Err? ==> r == Some(InvalidProjection))
      && (small && parsed.Ok? && PayloadText(parsed.value).Err? ==> r == Some(PayloadText(parsed.value).error))
      && (small && parsed.Ok? && PayloadText(parsed.value).Ok? && PayloadText(parsed.value).value != payload ==>
            r == Some(NonCanonicalProjection))
      && (small && AcceptedPayload(payload, max) && hash(payload) != digest ==> r == Some(InvalidDigest))
  {
    hide ParseObject, PayloadText, Utf8Len, Utf8.EncodeText;
    Utf8LenMeans(payload);
  }
}
