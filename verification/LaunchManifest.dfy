/**
 * The launch manifest (crates/bitty-ai-control/src/manifest.rs:186-412 and 592-705): one
 * bounded record of twenty fields. The helper key check of the TLS library is the parameter
 * `keyError`.
 */
module LaunchManifest {
  import opened Bytes
  import opened Results
  import opened Streams
  import opened Utf8

  const CONTROL_BOOTSTRAP_MAX_BYTES := 4096
  const CONTROL_STRING_MAX_BYTES := 128
  const LAUNCH_CERT_MAX_BYTES := 1024
  const LAUNCH_KEY_MAX_BYTES := 256
  const RANDOM_ID_BYTES := 32
  const DELEGATION_PURPOSE: seq<Byte> := Octets("provider-routing-publication")
  const CONTROL_PROFILE: seq<Byte> := Octets("provider-publication-control/1")

  datatype KeyError = HelperKeyMismatch | InvalidHelperKeyMaterial | HelperKeyNotP256

  datatype ManifestError =
    | TotalTooLarge
    | Truncated(field: string)
    | TrailingBytes
    | Unsupported(field: string, actual: nat)
    | FieldTooLarge(field: string, len: nat, max: nat)
    | EmptyField(field: string)
    | InvalidUtf8(field: string)
    | UnsupportedDelegationPurpose
    | UnsupportedControlProfile
    | HelperKey(error: KeyError)

  // ---------------------------------------------------------------- fields

  /** A fixed value, so many bytes, bounded UTF-8 text, or bounded bytes. */
  datatype Kind = Exact(value: seq<Byte>) | Fixed(size: nat) | Text | Blob(max: nat)
  datatype Spec = Spec(name: string, kind: Kind)

  predicate ValueOk(k: Kind, v: seq<Byte>) {
    match k
    case Exact(value) => v == value
    case Fixed(size) => |v| == size
    case Text => 0 < |v| <= CONTROL_STRING_MAX_BYTES && IsUtf8(v)
    case Blob(max) => |v| <= max
  }

  function EncodeField(k: Kind, v: seq<Byte>): seq<Byte> {
    if k.Exact? || k.Fixed? then v else BigEndian(|v|, 4) + v
  }

  type Reading = Result<(seq<Byte>, seq<Byte>), ManifestError>

  function TakeBytes(b: seq<Byte>, n: nat, field: string): Reading {
    if n > |b| then Err(Truncated(field)) else Ok((b[..n], b[n..]))
  }

  function TakeBounded(b: seq<Byte>, max: nat, field: string): Reading {
    match TakeBytes(b, 4, field)
    case Err(e) => Err(e)
    case Ok((prefix, rest)) =>
      var len := FromBigEndian(prefix);
      if len > max then Err(FieldTooLarge(field, len, max)) else TakeBytes(rest, len, field)
  }

  /** One field and the bytes after it. */
  function ReadField(s: Spec, b: seq<Byte>): Reading {
    match s.kind
    case Exact(value) =>
      (match TakeBytes(b, |value|, s.name)
       case Err(e) => Err(e)
       case Ok((v, rest)) => if v != value then Err(Unsupported(s.name, FromBigEndian(v))) else Ok((v, rest)))
    case Fixed(size) => TakeBytes(b, size, s.name)
    case Blob(max) => TakeBounded(b, max, s.name)
    case Text =>
      match TakeBounded(b, CONTROL_STRING_MAX_BYTES, s.name)
      case Err(e) => Err(e)
      case Ok((v, rest)) =>
        if v == [] then Err(EmptyField(s.name))
        else if !IsUtf8(v) then Err(InvalidUtf8(s.name))
        else Ok((v, rest))
  }

  /** Kinds whose lengths fit their prefix. */
  predicate KindOk(k: Kind) { k.Blob? ==> k.max <= U32_MAX }

  lemma {:induction false} FieldReads(s: Spec, v: seq<Byte>, t: seq<Byte>)
    requires ValueOk(s.kind, v) && KindOk(s.kind)
    ensures ReadField(s, EncodeField(s.kind, v) + t) == Ok((v, t))
  {
    hide IsUtf8, BigEndian, FromBigEndian;
    if s.kind.Exact? || s.kind.Fixed? {
      assert (v + t)[..|v|] == v && (v + t)[|v|..] == t;
    } else {
      var prefix := BigEndian(|v|, 4);
      Capacities();
      BigEndianRoundTrip(|v|, 4);
      var b := prefix + v + t;
      assert b[..4] == prefix && b[4..] == v + t;
      assert (v + t)[..|v|] == v && (v + t)[|v|..] == t;
    }
  }

  lemma {:induction false} FieldShape(s: Spec, b: seq<Byte>)
    requires ReadField(s, b).Ok?
    ensures var (v, rest) := ReadField(s, b).value; ValueOk(s.kind, v) && b == EncodeField(s.kind, v) + rest
  {
    hide IsUtf8, BigEndian, FromBigEndian;
    var (v, rest) := ReadField(s, b).value;
    if s.kind.Exact? || s.kind.Fixed? {
      assert b == v + rest;
    } else {
      FromBigEndianRoundTrip(b[..4]);
      assert b == b[..4] + v + rest;
    }
  }

  // ---------------------------------------------------------------- records

  predicate ValuesOk(specs: seq<Spec>, vs: seq<seq<Byte>>) {
    |specs| == |vs| && forall i :: 0 <= i < |specs| ==> ValueOk(specs[i].kind, vs[i])
  }

  function EncodeFields(specs: seq<Spec>, vs: seq<seq<Byte>>): seq<Byte>
    requires |specs| == |vs|
  {
    if specs == [] then [] else EncodeField(specs[0].kind, vs[0]) + EncodeFields(specs[1..], vs[1..])
  }

  /** The values of a table of fields, and the bytes after them. */
  type Record = Result<(seq<seq<Byte>>, seq<Byte>), ManifestError>

  function ReadFields(specs: seq<Spec>, b: seq<Byte>): Record
    decreases specs
  {
    if specs == [] then Ok(([], b))
    else
      match ReadField(specs[0], b)
      case Err(e) => Err(e)
      case Ok((v, rest)) => First(v, ReadFields(specs[1..], rest))
  }

  function First(v: seq<Byte>, r: Record): Record {
    if r.Ok? then Ok(([v] + r.value.0, r.value.1)) else r
  }

  lemma {:induction false} FieldsRead(specs: seq<Spec>, vs: seq<seq<Byte>>, t: seq<Byte>)
    requires ValuesOk(specs, vs) && forall i :: 0 <= i < |specs| ==> KindOk(specs[i].kind)
    ensures ReadFields(specs, EncodeFields(specs, vs) + t) == Ok((vs, t))
  {
    hide ReadField, EncodeField, ValueOk;
    if specs == [] {
      assert [] + t == t;
    } else {
      var more := EncodeFields(specs[1..], vs[1..]);
      FieldsRead(specs[1..], vs[1..], t);
      FieldReads(specs[0], vs[0], more + t);
      assert EncodeFields(specs, vs) + t == EncodeField(specs[0].kind, vs[0]) + (more + t);
      assert vs == [vs[0]] + vs[1..];
    }
  }

  lemma {:induction false} FieldsShape(specs: seq<Spec>, b: seq<Byte>)
    requires ReadFields(specs, b).Ok?
    ensures var (vs, rest) := ReadFields(specs, b).value; ValuesOk(specs, vs) && b == EncodeFields(specs, vs) + rest
    decreases specs
  {
    hide ReadField, EncodeField, ValueOk;
    if specs == [] {
      assert b == [] + b;
    } else {
      FieldShape(specs[0], b);
      var (v, b1) := ReadField(specs[0], b).value;
      FieldsShape(specs[1..], b1);
      var (vs, rest) := ReadFields(specs, b).value;
      assert vs[1..] == ReadFields(specs[1..], b1).value.0;
      var more := EncodeFields(specs[1..], vs[1..]);
      assert EncodeField(specs[0].kind, v) + (more + rest) == EncodeField(specs[0].kind, v) + more + rest;
    }
  }

  // ---------------------------------------------------------------- the manifest

  datatype Manifest = Manifest(
    coreNonce: seq<Byte>, launchNonce: seq<Byte>,
    componentName: seq<Byte>, descriptorVersion: seq<Byte>, executableName: seq<Byte>,
    executableSha256: seq<Byte>, protocolVersion: seq<Byte>,
    controlNonce: seq<Byte>, dataNonce: seq<Byte>,
    purpose: seq<Byte>, profile: seq<Byte>, keyProfile: Byte, keyType: Byte,
    coreCertificate: seq<Byte>, helperCertificate: seq<Byte>, privateKey: seq<Byte>)

  const HEAD_SPECS: seq<Spec> := [
    Spec("bootstrap_format_version", Exact([0, 1])),
    Spec("control_protocol_version", Exact([0, 1])),
    Spec("core_role", Exact([1])),
    Spec("helper_role", Exact([2])),
    Spec("core_instance_nonce", Fixed(RANDOM_ID_BYTES)),
    Spec("launch_nonce", Fixed(RANDOM_ID_BYTES)),
    Spec("component_name", Text),
    Spec("descriptor_version", Text),
    Spec("executable_name", Text),
    Spec("executable_sha256", Fixed(32))]

  const TAIL_SPECS: seq<Spec> := [
    Spec("component_protocol_version", Fixed(2)),
    Spec("control_channel_nonce", Fixed(RANDOM_ID_BYTES)),
    Spec("data_channel_nonce", Fixed(RANDOM_ID_BYTES)),
    Spec("delegation_purpose", Text),
    Spec("control_profile", Text),
    Spec("key_material_profile", Exact([1])),
    Spec("key_type", Exact([1])),
    Spec("core_certificate_der", Blob(LAUNCH_CERT_MAX_BYTES)),
    Spec("helper_certificate_der", Blob(LAUNCH_CERT_MAX_BYTES)),
    Spec("helper_private_key_pkcs8_der", Blob(LAUNCH_KEY_MAX_BYTES))]

  function HeadValues(m: Manifest): seq<seq<Byte>> {
    [[0, 1], [0, 1], [1], [2], m.coreNonce, m.launchNonce,
     m.componentName, m.descriptorVersion, m.executableName, m.executableSha256]
  }

  function TailValues(m: Manifest): seq<seq<Byte>> {
    [m.protocolVersion, m.controlNonce, m.dataNonce, m.purpose, m.profile,
     [m.keyProfile], [m.keyType], m.coreCertificate, m.helperCertificate, m.privateKey]
  }

  function ManifestOf(head: seq<seq<Byte>>, tail: seq<seq<Byte>>): Manifest
    requires |head| == |tail| == 10 && |tail[5]| == |tail[6]| == 1
  {
    Manifest(head[4], head[5], head[6], head[7], head[8], head[9],
      tail[0], tail[1], tail[2], tail[3], tail[4], tail[5][0], tail[6][0], tail[7], tail[8], tail[9])
  }

  /** The wire form. */
  function Encoded(m: Manifest): seq<Byte> {
    EncodeFields(HEAD_SPECS, HeadValues(m)) + EncodeFields(TAIL_SPECS, TailValues(m))
  }

  type KeyCheck = (seq<Byte>, seq<Byte>) -> Option<KeyError>

  /** The checks made once every field is read. */
  function Validate(m: Manifest, keyError: KeyCheck): Option<ManifestError> {
    if m.purpose != DELEGATION_PURPOSE then Some(UnsupportedDelegationPurpose)
    else if m.profile != CONTROL_PROFILE then Some(UnsupportedControlProfile)
    else if m.coreCertificate == [] then Some(EmptyField("core_certificate_der"))
    else if m.helperCertificate == [] then Some(EmptyField("helper_certificate_der"))
    else if m.privateKey == [] then Some(EmptyField("helper_private_key_pkcs8_der"))
    else
      match keyError(m.helperCertificate, m.privateKey)
      case Some(e) => Some(HelperKey(e))
      case None => None
  }

  ghost predicate Valid(m: Manifest, keyError: KeyCheck) {
    ValuesOk(HEAD_SPECS, HeadValues(m)) && ValuesOk(TAIL_SPECS, TailValues(m)) && Validate(m, keyError).None?
  }

  function Parsed(b: seq<Byte>, keyError: KeyCheck): Result<Manifest, ManifestError> {
    if |b| > CONTROL_BOOTSTRAP_MAX_BYTES then Err(TotalTooLarge)
    else
      match ReadFields(HEAD_SPECS, b)
      case Err(e) => Err(e)
      case Ok((head, b1)) =>
        match ReadFields(TAIL_SPECS, b1)
        case Err(e) => Err(e)
        case Ok((tail, rest)) =>
          if rest != [] then Err(TrailingBytes)
          else
            FieldsShape(HEAD_SPECS, b);
            FieldsShape(TAIL_SPECS, b1);
            TagsAreBytes(tail);
            var m := ManifestOf(head, tail);
            match Validate(m, keyError)
            case Some(e) => Err(e)
            case None => Ok(m)
  }

  lemma {:induction false} TagsAreBytes(tail: seq<seq<Byte>>)
    requires ValuesOk(TAIL_SPECS, tail)
    ensures |tail| == 10 && tail[5] == [1] && tail[6] == [1]
  {
    assert ValueOk(TAIL_SPECS[5].kind, tail[5]) && ValueOk(TAIL_SPECS[6].kind, tail[6]);
  }

  lemma {:induction false} ConstantsAreRead(head: seq<seq<Byte>>)
    requires ValuesOk(HEAD_SPECS, head)
    ensures |head| == 10 && head[0] == [0, 1] && head[1] == [0, 1] && head[2] == [1] && head[3] == [2]
  {
    assert ValueOk(HEAD_SPECS[0].kind, head[0]) && ValueOk(HEAD_SPECS[1].kind, head[1]);
    assert ValueOk(HEAD_SPECS[2].kind, head[2]) && ValueOk(HEAD_SPECS[3].kind, head[3]);
  }

  lemma {:induction false} ValuesOfManifest(head: seq<seq<Byte>>, tail: seq<seq<Byte>>)
    requires ValuesOk(HEAD_SPECS, head) && ValuesOk(TAIL_SPECS, tail)
    ensures |head| == |tail| == 10 && |tail[5]| == |tail[6]| == 1
    ensures HeadValues(ManifestOf(head, tail)) == head && TailValues(ManifestOf(head, tail)) == tail
  {
    TagsAreBytes(tail);
    ConstantsAreRead(head);
    hide ValuesOk;
  }

  // ---------------------------------------------------------------- sizes

  /** The longest encoding of a field of this kind. */
  function Longest(k: Kind): nat {
    match k
    case Exact(value) => |value|
    case Fixed(size) => size
    case Text => 4 + CONTROL_STRING_MAX_BYTES
    case Blob(max) => 4 + max
  }

  function LongestAll(specs: seq<Spec>): nat {
    if specs == [] then 0 else Longest(specs[0].kind) + LongestAll(specs[1..])
  }

  lemma {:induction false} LengthAtMost(specs: seq<Spec>, vs: seq<seq<Byte>>)
    requires ValuesOk(specs, vs)
    ensures |EncodeFields(specs, vs)| <= LongestAll(specs)
  {
    if specs != [] {
      LengthAtMost(specs[1..], vs[1..]);
    }
  }

  lemma {:induction false} LongestSplits(a: seq<Spec>, b: seq<Spec>)
    ensures LongestAll(a + b) == LongestAll(a) + LongestAll(b)
  {
    if a == [] {
      assert a + b == b;
    } else {
      assert (a + b)[1..] == a[1..] + b;
      LongestSplits(a[1..], b);
    }
  }

  lemma {:induction false} EncodeSplits(specs: seq<Spec>, vs: seq<seq<Byte>>, n: nat)
    requires |specs| == |vs| && n <= |specs|
    ensures EncodeFields(specs, vs) == EncodeFields(specs[..n], vs[..n]) + EncodeFields(specs[n..], vs[n..])
  {
    hide EncodeField;
    if n == 0 {
      assert specs[0..] == specs && vs[0..] == vs;
      assert EncodeFields(specs, vs) == [] + EncodeFields(specs, vs);
    } else {
      EncodeSplits(specs[1..], vs[1..], n - 1);
      assert specs[1..][..n - 1] == specs[..n][1..] && vs[1..][..n - 1] == vs[..n][1..];
      assert specs[1..][n - 1..] == specs[n..] && vs[1..][n - 1..] == vs[n..];
    }
  }

  /** A valid manifest fits the record bound with room to spare. */
  lemma {:induction false} ValidManifestsFit(m: Manifest, keyError: KeyCheck)
    requires Valid(m, keyError)
    ensures |Encoded(m)| <= 2948 < CONTROL_BOOTSTRAP_MAX_BYTES
  {
    hide ValueOk;
    LengthAtMost(HEAD_SPECS, HeadValues(m));
    HeadLongest();
    TailAtMost(m);
  }

  lemma {:induction false} HeadLongest()
    ensures LongestAll(HEAD_SPECS) == 498
  {
    var a, b := HEAD_SPECS[..5], HEAD_SPECS[5..];
    assert HEAD_SPECS == a + b;
    LongestSplits(a, b);
    assert a[1..][1..] == a[2..] && a[2..][1..] == a[3..] && a[3..][1..] == a[4..] && a[4..][1..] == [];
    assert b[1..][1..] == b[2..] && b[2..][1..] == b[3..] && b[3..][1..] == b[4..] && b[4..][1..] == [];
    assert LongestAll(a[4..]) == 32 && LongestAll(a[3..]) == 33 && LongestAll(a[2..]) == 34 && LongestAll(a[1..]) == 36;
    assert LongestAll(b[4..]) == 32 && LongestAll(b[3..]) == 164 && LongestAll(b[2..]) == 296 && LongestAll(b[1..]) == 428;
  }

  /** The tail is shorter than its bounds allow, because two of its texts are fixed. */
  lemma {:induction false} TailAtMost(m: Manifest)
    requires ValuesOk(TAIL_SPECS, TailValues(m))
    requires m.purpose == DELEGATION_PURPOSE && m.profile == CONTROL_PROFILE
    ensures |EncodeFields(TAIL_SPECS, TailValues(m))| <= 2450
  {
    hide IsUtf8, BigEndian;
    var s, v := TAIL_SPECS, TailValues(m);
    forall i | 0 <= i < 10 ensures ValueOk(s[i].kind, v[i]) {}
    assert ValueOk(s[0].kind, v[0]) && ValueOk(s[1].kind, v[1]) && ValueOk(s[2].kind, v[2]);
    assert ValueOk(s[7].kind, v[7]) && ValueOk(s[8].kind, v[8]) && ValueOk(s[9].kind, v[9]);
    TailUnfolds(s, v);
  }

  lemma {:induction false} TailUnfolds(s: seq<Spec>, v: seq<seq<Byte>>)
    requires |s| == |v| == 10
    ensures |EncodeFields(s, v)| == |EncodeField(s[0].kind, v[0])| + |EncodeField(s[1].kind, v[1])|
      + |EncodeField(s[2].kind, v[2])| + |EncodeField(s[3].kind, v[3])| + |EncodeField(s[4].kind, v[4])|
      + |EncodeField(s[5].kind, v[5])| + |EncodeField(s[6].kind, v[6])| + |EncodeField(s[7].kind, v[7])|
      + |EncodeField(s[8].kind, v[8])| + |EncodeField(s[9].kind, v[9])|
  {
    hide EncodeField;
    FiveUnfold(s[..5], v[..5]);
    FiveUnfold(s[5..], v[5..]);
    EncodeSplits(s, v, 5);
  }

  lemma {:induction false} FiveUnfold(s: seq<Spec>, v: seq<seq<Byte>>)
    requires |s| == |v| == 5
    ensures |EncodeFields(s, v)| == |EncodeField(s[0].kind, v[0])| + |EncodeField(s[1].kind, v[1])|
      + |EncodeField(s[2].kind, v[2])| + |EncodeField(s[3].kind, v[3])| + |EncodeField(s[4].kind, v[4])|
  {
    hide EncodeField;
    assert s[1..][1..] == s[2..] && s[2..][1..] == s[3..] && s[3..][1..] == s[4..] && s[4..][1..] == [];
    assert v[1..][1..] == v[2..] && v[2..][1..] == v[3..] && v[3..][1..] == v[4..] && v[4..][1..] == [];
    assert |EncodeFields(s[4..], v[4..])| == |EncodeField(s[4].kind, v[4])|;
    assert |EncodeFields(s[3..], v[3..])| == |EncodeField(s[3].kind, v[3])| + |EncodeField(s[4].kind, v[4])|;
    assert |EncodeFields(s[2..], v[2..])| == |EncodeField(s[2].kind, v[2])| + |EncodeFields(s[3..], v[3..])|;
    assert |EncodeFields(s[1..], v[1..])| == |EncodeField(s[1].kind, v[1])| + |EncodeFields(s[2..], v[2..])|;
  }

  // ---------------------------------------------------------------- exact inverses

  lemma {:induction false} KindsAreOk()
    ensures forall i :: 0 <= i < 10 ==> KindOk(HEAD_SPECS[i].kind) && KindOk(TAIL_SPECS[i].kind)
  {
  }

  /** Parsing undoes encoding on every valid manifest. */
  lemma {:induction false} ParseUndoesEncode(m: Manifest, keyError: KeyCheck)
    requires Valid(m, keyError)
    ensures Parsed(Encoded(m), keyError) == Ok(m)
  {
    hide ReadFields, EncodeFields, ValuesOk, KindOk;
    KindsAreOk();
    ValidManifestsFit(m, keyError);
    var tail := EncodeFields(TAIL_SPECS, TailValues(m));
    FieldsRead(HEAD_SPECS, HeadValues(m), tail);
    FieldsRead(TAIL_SPECS, TailValues(m), []);
    assert tail + [] == tail;
  }

  /** Whatever parses is valid, and encoding it gives the same bytes. */
  lemma {:induction false} EncodeUndoesParse(b: seq<Byte>, keyError: KeyCheck)
    requires Parsed(b, keyError).Ok?
    ensures Valid(Parsed(b, keyError).value, keyError) && Encoded(Parsed(b, keyError).value) == b
  {
    hide ReadFields, EncodeFields, ValuesOk;
    var (head, b1) := ReadFields(HEAD_SPECS, b).value;
    var (tail, rest) := ReadFields(TAIL_SPECS, b1).value;
    FieldsShape(HEAD_SPECS, b);
    FieldsShape(TAIL_SPECS, b1);
    ValuesOfManifest(head, tail);
    assert EncodeFields(TAIL_SPECS, tail) + [] == EncodeFields(TAIL_SPECS, tail);
  }

  // ---------------------------------------------------------------- spelled out

  /** What a launch carries, field by field. */
  ghost predicate Launchable(m: Manifest, keyError: KeyCheck) {
    && |m.coreNonce| == 32 && |m.launchNonce| == 32 && |m.executableSha256| == 32 && |m.protocolVersion| == 2
    && |m.controlNonce| == 32 && |m.dataNonce| == 32
    && 0 < |m.componentName| <= 128 && IsUtf8(m.componentName)
    && 0 < |m.descriptorVersion| <= 128 && IsUtf8(m.descriptorVersion)
    && 0 < |m.executableName| <= 128 && IsUtf8(m.executableName)
    && m.purpose == DELEGATION_PURPOSE && m.profile == CONTROL_PROFILE
    && m.keyProfile == 1 && m.keyType == 1
    && 0 < |m.coreCertificate| <= 1024 && 0 < |m.helperCertificate| <= 1024 && 0 < |m.privateKey| <= 256
    && keyError(m.helperCertificate, m.privateKey).None?
  }

  function Prefixed(v: seq<Byte>): seq<Byte> { BigEndian(|v|, 4) + v }

  /** The fields in wire order, in fours or fives. */
  function Wire(m: Manifest): seq<Byte> {
    [0, 1, 0, 1, 1, 2] + m.coreNonce
    + (m.launchNonce + Prefixed(m.componentName) + Prefixed(m.descriptorVersion) + Prefixed(m.executableName) + m.executableSha256)
    + (m.protocolVersion + m.controlNonce + m.dataNonce + Prefixed(m.purpose) + Prefixed(m.profile))
    + ([m.keyProfile, m.keyType] + Prefixed(m.coreCertificate) + Prefixed(m.helperCertificate) + Prefixed(m.privateKey))
  }

  lemma {:induction false} HeadMeans(m: Manifest)
    ensures ValuesOk(HEAD_SPECS, HeadValues(m)) <==>
      && |m.coreNonce| == 32 && |m.launchNonce| == 32 && |m.executableSha256| == 32
      && 0 < |m.componentName| <= 128 && IsUtf8(m.componentName)
      && 0 < |m.descriptorVersion| <= 128 && IsUtf8(m.descriptorVersion)
      && 0 < |m.executableName| <= 128 && IsUtf8(m.executableName)
  {
    hide IsUtf8;
    var s, v := HEAD_SPECS, HeadValues(m);
    if ValuesOk(s, v) {
      assert ValueOk(s[4].kind, v[4]) && ValueOk(s[5].kind, v[5]) && ValueOk(s[6].kind, v[6]);
      assert ValueOk(s[7].kind, v[7]) && ValueOk(s[8].kind, v[8]) && ValueOk(s[9].kind, v[9]);
    }
  }

  lemma {:induction false} TailMeans(m: Manifest)
    ensures ValuesOk(TAIL_SPECS, TailValues(m)) <==>
      && |m.protocolVersion| == 2 && |m.controlNonce| == 32 && |m.dataNonce| == 32
      && 0 < |m.purpose| <= 128 && IsUtf8(m.purpose) && 0 < |m.profile| <= 128 && IsUtf8(m.profile)
      && m.keyProfile == 1 && m.keyType == 1
      && |m.coreCertificate| <= 1024 && |m.helperCertificate| <= 1024 && |m.privateKey| <= 256
  {
    hide IsUtf8;
    var s, v := TAIL_SPECS, TailValues(m);
    if ValuesOk(s, v) {
      TagsAreBytes(v);
      assert ValueOk(s[0].kind, v[0]) && ValueOk(s[1].kind, v[1]) && ValueOk(s[2].kind, v[2]);
      assert ValueOk(s[3].kind, v[3]) && ValueOk(s[4].kind, v[4]);
      assert ValueOk(s[7].kind, v[7]) && ValueOk(s[8].kind, v[8]) && ValueOk(s[9].kind, v[9]);
    }
  }

  lemma {:induction false} PurposeIsText()
    ensures IsUtf8(DELEGATION_PURPOSE) && |DELEGATION_PURPOSE| == 28
  {
    hide IsUtf8;
    AsciiReads("provider-routing-publication");
  }

  lemma {:induction false} ProfileIsText()
    ensures IsUtf8(CONTROL_PROFILE) && |CONTROL_PROFILE| == 30
  {
    hide IsUtf8;
    AsciiReads("provider-publication-control/1");
  }

  lemma {:induction false} ValidMeans(m: Manifest, keyError: KeyCheck)
    ensures Valid(m, keyError) <==> Launchable(m, keyError)
  {
    hide IsUtf8, ValuesOk, DELEGATION_PURPOSE, CONTROL_PROFILE;
    HeadMeans(m);
    TailMeans(m);
    PurposeIsText();
    ProfileIsText();
  }

  lemma {:induction false} FiveForm(s: seq<Spec>, v: seq<seq<Byte>>)
    requires |s| == |v| == 5
    ensures EncodeFields(s, v) == EncodeField(s[0].kind, v[0]) + EncodeField(s[1].kind, v[1])
      + EncodeField(s[2].kind, v[2]) + EncodeField(s[3].kind, v[3]) + EncodeField(s[4].kind, v[4])
  {
    hide EncodeField;
    assert s[1..][1..] == s[2..] && s[2..][1..] == s[3..] && s[3..][1..] == s[4..] && s[4..][1..] == [];
    assert v[1..][1..] == v[2..] && v[2..][1..] == v[3..] && v[3..][1..] == v[4..] && v[4..][1..] == [];
    assert EncodeFields(s[4..], v[4..]) == EncodeField(s[4].kind, v[4]) + [];
    assert EncodeFields(s[3..], v[3..]) == EncodeField(s[3].kind, v[3]) + EncodeFields(s[4..], v[4..]);
    assert EncodeFields(s[2..], v[2..]) == EncodeField(s[2].kind, v[2]) + EncodeFields(s[3..], v[3..]);
    assert EncodeFields(s[1..], v[1..]) == EncodeField(s[1].kind, v[1]) + EncodeFields(s[2..], v[2..]);
  }

  lemma {:induction false} HeadForm(m: Manifest)
    ensures EncodeFields(HEAD_SPECS, HeadValues(m)) == [0, 1, 0, 1, 1, 2] + m.coreNonce
      + (m.launchNonce + Prefixed(m.componentName) + Prefixed(m.descriptorVersion) + Prefixed(m.executableName) + m.executableSha256)
  {
    hide BigEndian, EncodeFields;
    var s, v := HEAD_SPECS, HeadValues(m);
    FiveForm(s[..5], v[..5]);
    FiveForm(s[5..], v[5..]);
    EncodeSplits(s, v, 5);
    Constants();
  }

  lemma {:induction false} Constants()
    ensures [0, 1] + [0, 1] + [1] + [2] == [0, 1, 0, 1, 1, 2]
  {
  }

  lemma {:induction false} TailForm(m: Manifest)
    ensures EncodeFields(TAIL_SPECS, TailValues(m)) ==
      (m.protocolVersion + m.controlNonce + m.dataNonce + Prefixed(m.purpose) + Prefixed(m.profile))
      + ([m.keyProfile, m.keyType] + Prefixed(m.coreCertificate) + Prefixed(m.helperCertificate) + Prefixed(m.privateKey))
  {
    hide BigEndian, EncodeFields;
    var s, v := TAIL_SPECS, TailValues(m);
    FiveForm(s[..5], v[..5]);
    FiveForm(s[5..], v[5..]);
    EncodeSplits(s, v, 5);
    assert [m.keyProfile, m.keyType] == [m.keyProfile] + [m.keyType];
  }

  lemma {:induction false} EncodedIsWire(m: Manifest)
    ensures Encoded(m) == Wire(m)
  {
    hide Prefixed, EncodeFields;
    HeadForm(m);
    TailForm(m);
    var tail := EncodeFields(TAIL_SPECS, TailValues(m));
    var third := m.protocolVersion + m.controlNonce + m.dataNonce + Prefixed(m.purpose) + Prefixed(m.profile);
    assert Encoded(m) == EncodeFields(HEAD_SPECS, HeadValues(m)) + third + tail[|third|..];
  }

  /** The bytes that parse, and as what: exactly the wire forms of what may be launched. */
  lemma {:induction false} ParsedExactly(b: seq<Byte>, m: Manifest, keyError: KeyCheck)
    ensures Parsed(b, keyError) == Ok(m) <==> Launchable(m, keyError) && b == Wire(m)
  {
    hide Parsed, Valid, Launchable, Encoded, Wire;
    ValidMeans(m, keyError);
    EncodedIsWire(m);
    if Parsed(b, keyError) == Ok(m) {
      EncodeUndoesParse(b, keyError);
    }
    if Valid(m, keyError) {
      ParseUndoesEncode(m, keyError);
    }
  }

  /** Readable bytes are judged by what follows them, then check by check. */
  lemma {:induction false} ReadableIsJudged(m: Manifest, t: seq<Byte>, keyError: KeyCheck)
    requires ValuesOk(HEAD_SPECS, HeadValues(m)) && ValuesOk(TAIL_SPECS, TailValues(m))
    ensures var r := Parsed(Encoded(m) + t, keyError);
      var named := m.purpose == DELEGATION_PURPOSE && m.profile == CONTROL_PROFILE;
      && (|Encoded(m) + t| > 4096 ==> r == Err(TotalTooLarge))
      && (|Encoded(m) + t| <= 4096 && t != [] ==> r == Err(TrailingBytes))
      && (t == [] && m.purpose != DELEGATION_PURPOSE ==> r == Err(UnsupportedDelegationPurpose))
      && (t == [] && m.purpose == DELEGATION_PURPOSE && m.profile != CONTROL_PROFILE ==>
            r == Err(UnsupportedControlProfile))
      && (t == [] && named && m.coreCertificate == [] ==> r == Err(EmptyField("core_certificate_der")))
      && (t == [] && named && m.coreCertificate != [] && m.helperCertificate == [] ==>
            r == Err(EmptyField("helper_certificate_der")))
      && (t == [] && named && m.coreCertificate != [] && m.helperCertificate != [] && m.privateKey == [] ==>
            r == Err(EmptyField("helper_private_key_pkcs8_der")))
      && (t == [] && named && m.coreCertificate != [] && m.helperCertificate != [] && m.privateKey != [] ==>
            r == match keyError(m.helperCertificate, m.privateKey)
                 case Some(e) => Err(HelperKey(e))
                 case None => Ok(m))
  {
    hide ReadFields, EncodeFields, ValuesOk, KindOk;
    KindsAreOk();
    ReadableFits(m);
    var tail := EncodeFields(TAIL_SPECS, TailValues(m));
    FieldsRead(HEAD_SPECS, HeadValues(m), tail + t);
    FieldsRead(TAIL_SPECS, TailValues(m), t);
    assert Encoded(m) + t == EncodeFields(HEAD_SPECS, HeadValues(m)) + (tail + t);
    ValuesOfManifest(HeadValues(m), TailValues(m));
  }

  lemma {:induction false} ReadableFits(m: Manifest)
    requires ValuesOk(HEAD_SPECS, HeadValues(m)) && ValuesOk(TAIL_SPECS, TailValues(m))
    ensures |Encoded(m)| <= 4096
  {
    hide IsUtf8, BigEndian, ValuesOk;
    HeadMeans(m);
    TailMeans(m);
    EncodedIsWire(m);
  }

  /** Why a field is refused: its bytes run out, or its value, length or encoding is not allowed. */
  lemma {:induction false} FieldRefusals(s: Spec, b: seq<Byte>)
    ensures var r, short := ReadField(s, b), Err(Truncated(s.name));
      match s.kind
      case Exact(value) =>
        && (|b| < |value| ==> r == short)
        && (|b| >= |value| && !(value <= b) ==> r == Err(Unsupported(s.name, FromBigEndian(b[..|value|]))))
      case Fixed(size) => |b| < size ==> r == short
      case Blob(max) => |b| < 4 ==> r == short
      case Text => |b| < 4 ==> r == short
    ensures (s.kind.Text? || s.kind.Blob?) && |b| >= 4 ==>
      var r, max := ReadField(s, b), if s.kind.Text? then 128 else s.kind.max;
      var n := FromBigEndian(b[..4]);
      && (n > max ==> r == Err(FieldTooLarge(s.name, n, max)))
      && (n <= max && |b| < 4 + n ==> r == Err(Truncated(s.name)))
      && (n <= max && |b| >= 4 + n && s.kind.Text? && n == 0 ==> r == Err(EmptyField(s.name)))
      && (n <= max && |b| >= 4 + n && s.kind.Text? && n > 0 && !IsUtf8(b[4..4 + n]) ==> r == Err(InvalidUtf8(s.name)))
  {
    hide IsUtf8, FromBigEndian;
    if (s.kind.Text? || s.kind.Blob?) && |b| >= 4 {
      var n := FromBigEndian(b[..4]);
      if |b| >= 4 + n {
        assert b[4..][..n] == b[4..4 + n];
      }
    }
  }

  /** An unreadable record is refused for the first of its fields that cannot be read. */
  lemma {:induction false} FirstUnreadable(specs: seq<Spec>, vs: seq<seq<Byte>>, k: nat, b: seq<Byte>)
    requires k < |specs| && ValuesOk(specs[..k], vs) && forall i :: 0 <= i < k ==> KindOk(specs[i].kind)
    requires ReadField(specs[k], b).Err?
    ensures ReadFields(specs, EncodeFields(specs[..k], vs) + b) == Err(ReadField(specs[k], b).error)
    decreases k
  {
    hide ReadField, EncodeField, ValueOk, KindOk;
    if k == 0 {
      assert [] + b == b;
    } else {
      assert specs[1..][..k - 1] == specs[..k][1..];
      assert KindOk(specs[0].kind) && ValueOk(specs[..k][0].kind, vs[0]);
      var more := EncodeFields(specs[..k][1..], vs[1..]);
      FirstUnreadable(specs[1..], vs[1..], k - 1, b);
      FieldReads(specs[0], vs[0], more + b);
      assert EncodeFields(specs[..k], vs) + b == EncodeField(specs[0].kind, vs[0]) + (more + b);
    }
  }

  // ---------------------------------------------------------------- the cursor and the buffer

  ghost predicate Follows(r: Result<seq<Byte>, ManifestError>, spec: Reading, rest: seq<Byte>) {
    match r
    case Ok(v) => spec == Ok((v, rest))
    case Err(e) => spec == Err(e)
  }

  class Cursor {
    const input: seq<Byte>
    var offset: nat

    constructor (input: seq<Byte>)
      ensures this.input == input && offset == 0
    {
      this.input := input;
      offset := 0;
    }

    ghost predicate Valid()
      reads this
    {
      offset <= |input|
    }

    ghost function Rest(): seq<Byte>
      requires Valid()
      reads this
    {
      input[offset..]
    }

    method Take(n: nat, field: string) returns (r: Result<seq<Byte>, ManifestError>)
      requires Valid()
      modifies this
      ensures Valid() && Follows(r, TakeBytes(old(Rest()), n, field), Rest())
    {
      var end := offset + n;
      if end > |input| {
        return Err(Truncated(field));
      }
      assert Rest()[..n] == input[offset..end] && Rest()[n..] == input[end..];
      r := Ok(input[offset..end]);
      offset := end;
    }

    method Bounded(max: nat, field: string) returns (r: Result<seq<Byte>, ManifestError>)
      requires Valid()
      modifies this
      ensures Valid() && Follows(r, TakeBounded(old(Rest()), max, field), Rest())
    {
      hide TakeBytes, FromBigEndian;
      r := Take(4, field);
      if r.Err? {
        return;
      }
      var len := FromBigEndian(r.value);
      if len > max {
        return Err(FieldTooLarge(field, len, max));
      }
      r := Take(len, field);
    }

    method Field(s: Spec) returns (r: Result<seq<Byte>, ManifestError>)
      requires Valid()
      modifies this
      ensures Valid() && Follows(r, ReadField(s, old(Rest())), Rest())
    {
      hide TakeBytes, TakeBounded, IsUtf8;
      match s.kind
      case Exact(value) =>
        r := Take(|value|, s.name);
        if r.Ok? && r.value != value {
          r := Err(Unsupported(s.name, FromBigEndian(r.value)));
        }
      case Fixed(size) => r := Take(size, s.name);
      case Blob(max) => r := Bounded(max, s.name);
      case Text =>
        r := Bounded(CONTROL_STRING_MAX_BYTES, s.name);
        if r.Ok? {
          if r.value == [] {
            r := Err(EmptyField(s.name));
          } else if !IsUtf8(r.value) {
            r := Err(InvalidUtf8(s.name));
          }
        }
    }

    /** The fields of one table, in order. */
    method Fields(specs: seq<Spec>) returns (r: Result<seq<seq<Byte>>, ManifestError>)
      requires Valid()
      modifies this
      ensures Valid()
      ensures match ReadFields(specs, old(Rest()))
        case Ok((vs, rest)) => r == Ok(vs) && Rest() == rest
        case Err(e) => r == Err(e)
    {
      hide ReadField;
      ghost var start := Rest();
      var vs: seq<seq<Byte>> := [];
      assert specs[0..] == specs;
      OntoNothing(ReadFields(specs, start));
      for i := 0 to |specs|
        invariant Valid() && |vs| == i
        invariant ReadFields(specs, start) == Onto(vs, ReadFields(specs[i..], Rest()))
      {
        assert specs[i..][1..] == specs[i + 1..];
        var v := Field(specs[i]);
        if v.Err? {
          return Err(v.error);
        }
        OntoFirst(vs, v.value, ReadFields(specs[i + 1..], Rest()));
        vs := vs + [v.value];
      }
      assert specs[|specs|..] == [] && vs + [] == vs;
      return Ok(vs);
    }
  }

  ghost function Onto(done: seq<seq<Byte>>, r: Record): Record {
    if r.Ok? then Ok((done + r.value.0, r.value.1)) else r
  }

  lemma {:induction false} OntoFirst(done: seq<seq<Byte>>, v: seq<Byte>, r: Record)
    ensures Onto(done, First(v, r)) == Onto(done + [v], r)
  {
    if r.Ok? {
      assert done + ([v] + r.value.0) == done + [v] + r.value.0;
    }
  }

  lemma {:induction false} OntoNothing(r: Record)
    ensures Onto([], r) == r
  {
    if r.Ok? {
      assert [] + r.value.0 == r.value.0;
    }
  }

  method Parse(bytes: seq<Byte>, keyError: KeyCheck) returns (r: Result<Manifest, ManifestError>)
    ensures r == Parsed(bytes, keyError)
  {
    hide ReadFields, Validate, ValuesOk;
    if |bytes| > CONTROL_BOOTSTRAP_MAX_BYTES {
      return Err(TotalTooLarge);
    }
    var cursor := new Cursor(bytes);
    assert cursor.Rest() == bytes;
    var head := cursor.Fields(HEAD_SPECS);
    if head.Err? {
      return Err(head.error);
    }
    FieldsShape(HEAD_SPECS, bytes);
    ghost var rest := cursor.Rest();
    var tail := cursor.Fields(TAIL_SPECS);
    if tail.Err? {
      return Err(tail.error);
    }
    FieldsShape(TAIL_SPECS, rest);
    if cursor.offset != |bytes| {
      return Err(TrailingBytes);
    }
    ValuesOfManifest(head.value, tail.value);
    var m := ManifestOf(head.value, tail.value);
    var e := Validate(m, keyError);
    return if e.Some? then Err(e.value) else Ok(m);
  }

  method Encode(m: Manifest) returns (bytes: seq<Byte>)
    ensures bytes == Encoded(m)
  {
    var head := EncodeAll(HEAD_SPECS, HeadValues(m));
    var tail := EncodeAll(TAIL_SPECS, TailValues(m));
    return head + tail;
  }

  method EncodeAll(specs: seq<Spec>, vs: seq<seq<Byte>>) returns (bytes: seq<Byte>)
    requires |specs| == |vs|
    ensures bytes == EncodeFields(specs, vs)
  {
    hide EncodeField;
    bytes := [];
    for i := 0 to |specs|
      invariant bytes == EncodeFields(specs[..i], vs[..i])
    {
      EncodeSplits(specs[..i + 1], vs[..i + 1], i);
      assert specs[..i + 1][..i] == specs[..i] && vs[..i + 1][..i] == vs[..i];
      OneEncodes(specs[..i + 1][i..], vs[..i + 1][i..]);
      bytes := bytes + EncodeField(specs[i].kind, vs[i]);
    }
    assert specs[..|specs|] == specs && vs[..|vs|] == vs;
  }

  lemma {:induction false} OneEncodes(specs: seq<Spec>, vs: seq<seq<Byte>>)
    requires |specs| == |vs| == 1
    ensures EncodeFields(specs, vs) == EncodeField(specs[0].kind, vs[0])
  {
    hide EncodeField;
    assert specs[1..] == [] && vs[1..] == [];
  }

  // ---------------------------------------------------------------- reading to end of file

  datatype ReadError = Io | Rejected(error: ManifestError)

  /** However the bytes arrive, the outcome is that of parsing all of them. */
  method ReadFrom(stream: ByteStream, keyError: KeyCheck) returns (r: Result<Manifest, ReadError>)
    modifies stream`inbound, stream`readPlan
    ensures r == Err(Io) || r == match Parsed(old(stream.inbound), keyError)
                                 case Ok(m) => Ok(m)
                                 case Err(e) => Err(Rejected(e))
    ensures ReadFails !in old(stream.readPlan) && ReadInterrupted !in old(stream.readPlan) ==> r != Err(Io)
  {
    hide ReadFields, Validate;
    ghost var all := stream.inbound;
    var buffer: seq<Byte> := [];
    var chunk := new Byte[512];
    while true
      invariant |buffer| <= CONTROL_BOOTSTRAP_MAX_BYTES && |buffer| <= |all|
      invariant buffer == all[..|buffer|] && stream.inbound == all[|buffer|..]
      invariant forall c :: c in stream.readPlan ==> c in old(stream.readPlan)
      decreases |stream.inbound|
    {
      var got := stream.Read(chunk, 0);
      if !got.Moved? {
        return Err(Io);
      }
      if got.count == 0 {
        break;
      }
      if |buffer| + got.count > CONTROL_BOOTSTRAP_MAX_BYTES {
        return Err(Rejected(TotalTooLarge));
      }
      assert chunk[..got.count] == all[|buffer|..][..got.count];
      buffer := buffer + chunk[..got.count];
    }
    assert buffer == all;
    var parsed := Parse(buffer, keyError);
    return if parsed.Ok? then Ok(parsed.value) else Err(Rejected(parsed.error));
  }
}
