/**
 * The minimal disclosure envelope (crates/bitty-ai-host/src/cache_disclosure.rs:784-958)
 * and the fallback that makes one from unreadable bytes (983-1044). A field is the bytes of
 * its text.
 */
module FallbackEnvelope {
  import opened Bytes
  import opened Results
  import opened Utf8

  const ENVELOPE_MAGIC: seq<Byte> := Octets("fallback/1\n")
  const LEN_WIDTH := 8
  const MAX_FALLBACK_ID_BYTES := 64
  const MAX_FALLBACK_KIND_BYTES := 64
  const MAX_FALLBACK_TEXT_BYTES := 512
  const FALLBACK_ID := "fallback"
  const FALLBACK_KIND := "syntax-fallback"

  datatype Envelope = Envelope(id: seq<Byte>, kind: seq<Byte>, text: seq<Byte>)

  datatype FallbackError =
    | IdTooLarge(actual: nat)
    | KindTooLarge(actual: nat)
    | TextTooLarge(actual: nat)
    | MalformedEnvelope

  predicate FieldOk(field: seq<Byte>, cap: nat) { |field| <= cap && IsUtf8(field) }

  predicate Valid(e: Envelope) {
    && FieldOk(e.id, MAX_FALLBACK_ID_BYTES) && FieldOk(e.kind, MAX_FALLBACK_KIND_BYTES)
    && FieldOk(e.text, MAX_FALLBACK_TEXT_BYTES)
  }

  // ---------------------------------------------------------------- encoding

  /** The wire form: the magic and each field behind its length. */
  function Encoded(e: Envelope): seq<Byte> {
    ENVELOPE_MAGIC + (LengthPrefixed(e.id) + (LengthPrefixed(e.kind) + LengthPrefixed(e.text)))
  }

  method ToBytes(e: Envelope) returns (bytes: seq<Byte>)
    ensures bytes == Encoded(e)
  {
    hide LengthPrefixed;
    var fields := [e.id, e.kind, e.text];
    bytes := ENVELOPE_MAGIC;
    for i := 0 to 3
      invariant bytes == ENVELOPE_MAGIC + Fields(fields[..i])
    {
      assert fields[..i + 1][..i] == fields[..i];
      bytes := AppendField(bytes, fields[i]);
      assert ENVELOPE_MAGIC + Fields(fields[..i]) + LengthPrefixed(fields[i])
        == ENVELOPE_MAGIC + (Fields(fields[..i]) + LengthPrefixed(fields[i]));
    }
    ThreeFields(e);
    assert fields[..3] == fields;
  }

  method AppendField(buffer: seq<Byte>, field: seq<Byte>) returns (bytes: seq<Byte>)
    ensures bytes == buffer + LengthPrefixed(field)
  {
    bytes := buffer + LittleEndian(|field|, 8);
    bytes := bytes + field;
  }

  ghost function Fields(fs: seq<seq<Byte>>): seq<Byte> {
    if fs == [] then [] else Fields(fs[..|fs| - 1]) + LengthPrefixed(fs[|fs| - 1])
  }

  lemma {:induction false} ThreeFields(e: Envelope)
    ensures Fields([e.id, e.kind, e.text]) == LengthPrefixed(e.id) + (LengthPrefixed(e.kind) + LengthPrefixed(e.text))
  {
    hide LengthPrefixed;
    var fs := [e.id, e.kind, e.text];
    assert fs[..2] == [e.id, e.kind] && [e.id, e.kind][..1] == [e.id] && [e.id][..0] == [];
    assert Fields([e.id]) == [] + LengthPrefixed(e.id) == LengthPrefixed(e.id);
    assert Fields([e.id, e.kind]) == LengthPrefixed(e.id) + LengthPrefixed(e.kind);
  }

  /** Where the fields stand: eight bytes of length before each, least significant first. */
  lemma {:induction false} FieldsStandInOrder(e: Envelope)
    ensures var b, n := Encoded(e), |ENVELOPE_MAGIC|;
      var i, k := n + 8 + |e.id|, n + 16 + |e.id| + |e.kind|;
      && |b| == k + 8 + |e.text| && b[..n] == ENVELOPE_MAGIC
      && b[n..n + 8] == LittleEndian(|e.id|, 8) && b[n + 8..i] == e.id
      && b[i..i + 8] == LittleEndian(|e.kind|, 8) && b[i + 8..k] == e.kind
      && b[k..k + 8] == LittleEndian(|e.text|, 8) && b[k + 8..] == e.text
  {
    hide LittleEndian, ENVELOPE_MAGIC;
  }

  // ---------------------------------------------------------------- decoding

  datatype Which = Id | Kind | Text

  function Cap(w: Which): nat {
    match w
    case Id => MAX_FALLBACK_ID_BYTES
    case Kind => MAX_FALLBACK_KIND_BYTES
    case Text => MAX_FALLBACK_TEXT_BYTES
  }

  function TooLarge(w: Which, actual: nat): FallbackError {
    match w
    case Id => IdTooLarge(actual)
    case Kind => KindTooLarge(actual)
    case Text => TextTooLarge(actual)
  }

  /** The field at the front of `b`, and the bytes after it. */
  function FieldAt(b: seq<Byte>, w: Which): Result<(seq<Byte>, seq<Byte>), FallbackError> {
    if |b| < LEN_WIDTH then Err(MalformedEnvelope)
    else
      var declared := FromLittleEndian(b[..LEN_WIDTH]);
      if declared > Cap(w) then Err(TooLarge(w, declared))
      else if LEN_WIDTH + declared > |b| then Err(MalformedEnvelope)
      else
        var field := b[LEN_WIDTH..LEN_WIDTH + declared];
        if !IsUtf8(field) then Err(MalformedEnvelope) else Ok((field, b[LEN_WIDTH + declared..]))
  }

  /** The envelope these bytes encode, or the first reason there is none. */
  function Decoded(b: seq<Byte>): Result<Envelope, FallbackError> {
    if !(ENVELOPE_MAGIC <= b) then Err(MalformedEnvelope)
    else
      match FieldAt(b[|ENVELOPE_MAGIC|..], Id)
      case Err(e) => Err(e)
      case Ok((id, b1)) =>
        match FieldAt(b1, Kind)
        case Err(e) => Err(e)
        case Ok((kind, b2)) =>
          match FieldAt(b2, Text)
          case Err(e) => Err(e)
          case Ok((text, b3)) => if b3 != [] then Err(MalformedEnvelope) else Ok(Envelope(id, kind, text))
  }

  /** The declared length at the front of `b`. */
  function DeclaredLen(b: seq<Byte>): Option<nat> {
    if |b| < LEN_WIDTH then None else Some(FromLittleEndian(b[..LEN_WIDTH]))
  }

  function TakeField(b: seq<Byte>, w: Which): Result<seq<Byte>, FallbackError> {
    match DeclaredLen(b)
    case None => Err(MalformedEnvelope)
    case Some(declared) =>
      if declared > Cap(w) then Err(TooLarge(w, declared))
      else if LEN_WIDTH + declared > |b| || !IsUtf8(b[LEN_WIDTH..LEN_WIDTH + declared]) then Err(MalformedEnvelope)
      else Ok(b[LEN_WIDTH..LEN_WIDTH + declared])
  }

  function AdvanceField(b: seq<Byte>): Result<seq<Byte>, FallbackError> {
    match DeclaredLen(b)
    case None => Err(MalformedEnvelope)
    case Some(declared) =>
      if LEN_WIDTH + declared > U64_MAX || LEN_WIDTH + declared > |b| then Err(MalformedEnvelope)
      else Ok(b[LEN_WIDTH + declared..])
  }

  /** Taking a field and then advancing past it reads the field and what follows, error for error. */
  lemma {:induction false} TakeThenAdvance(b: seq<Byte>, w: Which)
    ensures FieldAt(b, w).Ok? <==> TakeField(b, w).Ok?
    ensures FieldAt(b, w).Ok? ==> FieldAt(b, w).value.0 == TakeField(b, w).value && AdvanceField(b) == Ok(FieldAt(b, w).value.1)
    ensures FieldAt(b, w).Err? ==> TakeField(b, w).error == FieldAt(b, w).error
  {
    hide IsUtf8, FromLittleEndian;
  }

  /** Why a field is refused: too short a frame, too long a field, an overrun, or bytes that are no text. */
  lemma {:induction false} FieldRefusals(b: seq<Byte>, w: Which)
    ensures |b| < 8 ==> FieldAt(b, w) == Err(MalformedEnvelope)
    ensures |b| >= 8 ==>
      var n, cap := FromLittleEndian(b[..8]), if w.Text? then 512 else 64;
      && (n > cap ==> FieldAt(b, w) == Err(match w case Id => IdTooLarge(n) case Kind => KindTooLarge(n) case Text => TextTooLarge(n)))
      && (n <= cap && 8 + n > |b| ==> FieldAt(b, w) == Err(MalformedEnvelope))
      && (n <= cap && 8 + n <= |b| ==>
            FieldAt(b, w) == if IsUtf8(b[8..8 + n]) then Ok((b[8..8 + n], b[8 + n..])) else Err(MalformedEnvelope))
  {
    hide IsUtf8, FromLittleEndian;
  }

  method FromBytes(bytes: seq<Byte>) returns (r: Result<Envelope, FallbackError>)
    ensures r == Decoded(bytes)
  {
    hide FieldAt, TakeField, AdvanceField;
    if !(ENVELOPE_MAGIC <= bytes) {
      return Err(MalformedEnvelope);
    }
    var cursor := bytes[|ENVELOPE_MAGIC|..];
    TakeThenAdvance(cursor, Id);
    var id := TakeField(cursor, Id);
    if id.Err? {
      return Err(id.error);
    }
    cursor := AdvanceField(cursor).value;
    TakeThenAdvance(cursor, Kind);
    var kind := TakeField(cursor, Kind);
    if kind.Err? {
      return Err(kind.error);
    }
    cursor := AdvanceField(cursor).value;
    TakeThenAdvance(cursor, Text);
    var text := TakeField(cursor, Text);
    if text.Err? {
      return Err(text.error);
    }
    cursor := AdvanceField(cursor).value;
    if cursor != [] {
      return Err(MalformedEnvelope);
    }
    return Ok(Envelope(id.value, kind.value, text.value));
  }

  lemma {:induction false} FieldReads(field: seq<Byte>, w: Which, t: seq<Byte>)
    requires FieldOk(field, Cap(w))
    ensures FieldAt(LengthPrefixed(field) + t, w) == Ok((field, t))
  {
    var b := LengthPrefixed(field) + t;
    Capacities();
    LittleEndianRoundTrip(|field|, 8);
    assert b[..8] == LittleEndian(|field|, 8) && b[8..8 + |field|] == field && b[8 + |field|..] == t;
  }

  lemma {:induction false} FieldShape(b: seq<Byte>, w: Which)
    requires FieldAt(b, w).Ok?
    ensures var (field, rest) := FieldAt(b, w).value; FieldOk(field, Cap(w)) && b == LengthPrefixed(field) + rest
  {
    hide FromLittleEndian, LittleEndian, Capacity, IsUtf8;
    FromLittleEndianRoundTrip(b[..8]);
    var (field, rest) := FieldAt(b, w).value;
    assert b == b[..8] + field + rest;
  }

  /** Decoding undoes encoding on every valid envelope. */
  lemma {:induction false} DecodeUndoesEncode(e: Envelope)
    requires Valid(e)
    ensures Decoded(Encoded(e)) == Ok(e)
  {
    hide FieldAt, LengthPrefixed, FieldOk, ENVELOPE_MAGIC;
    var text := LengthPrefixed(e.text);
    var kind := LengthPrefixed(e.kind) + text;
    var all := LengthPrefixed(e.id) + kind;
    assert (ENVELOPE_MAGIC + all)[|ENVELOPE_MAGIC|..] == all;
    FieldReads(e.id, Id, kind);
    FieldReads(e.kind, Kind, text);
    FieldReads(e.text, Text, []);
    assert text + [] == text;
  }

  /** Whatever decodes is valid, and encoding it gives the same bytes. */
  lemma {:induction false} EncodeUndoesDecode(b: seq<Byte>)
    requires Decoded(b).Ok?
    ensures Valid(Decoded(b).value) && Encoded(Decoded(b).value) == b
  {
    hide FieldAt, LengthPrefixed, FieldOk, ENVELOPE_MAGIC;
    var b0 := b[|ENVELOPE_MAGIC|..];
    FieldShape(b0, Id);
    var b1 := FieldAt(b0, Id).value.1;
    FieldShape(b1, Kind);
    var b2 := FieldAt(b1, Kind).value.1;
    FieldShape(b2, Text);
    var text := FieldAt(b2, Text).value.0;
    assert LengthPrefixed(text) + [] == LengthPrefixed(text);
    assert b == ENVELOPE_MAGIC + b0;
  }

  // ---------------------------------------------------------------- the fallback

  predicate Printable(c: char) { ' ' <= c <= '~' }

  function Scrub(c: Option<char>): char {
    if c.Some? && Printable(c.value) then c.value else '?'
  }

  /** A printable character stays; anything else, and every invalid run, becomes a question mark. */
  lemma {:induction false} ScrubMeans(b: seq<Byte>, i: nat)
    requires i < |Lossy(b)|
    ensures |Scrubbed(b)| == |Lossy(b)|
    ensures Scrubbed(b)[i] == match Lossy(b)[i]
      case Some(c) => if '\U{0020}' <= c <= '\U{007E}' then c else '?'
      case None => '?'
  {
    hide Lossy;
  }

  /** Printable ASCII, character by character. */
  function Scrubbed(b: seq<Byte>): string { ScrubAll(Lossy(b)) }

  function ScrubAll(cs: seq<Option<char>>): string { seq(|cs|, i requires 0 <= i < |cs| => Scrub(cs[i])) }

  lemma {:induction false} ScrubAppend(cs: seq<Option<char>>, c: Option<char>)
    ensures ScrubAll(cs + [c]) == ScrubAll(cs) + [Scrub(c)]
  {
  }

  method ScrubText(unreadable: seq<Byte>) returns (r: Result<string, FallbackError>)
    ensures r == if |Scrubbed(unreadable)| > MAX_FALLBACK_TEXT_BYTES
                 then Err(TextTooLarge(|Scrubbed(unreadable)|)) else Ok(Scrubbed(unreadable))
  {
    hide Next, Lossy, Scrub;
    var scrubbed := "";
    var counted := 0;
    var excess := false;
    var cursor := unreadable;
    ghost var done: seq<Option<char>> := [];
    assert [] + Lossy(unreadable) == Lossy(unreadable);
    while cursor != []
      invariant Lossy(unreadable) == done + Lossy(cursor) && counted == |done|
      invariant excess == (counted > MAX_FALLBACK_TEXT_BYTES)
      invariant !excess ==> scrubbed == ScrubAll(done)
      decreases |cursor|
    {
      var (next, rest) := Next(cursor);
      LossySplits(cursor);
      assert done + ([next] + Lossy(rest)) == done + [next] + Lossy(rest);
      ScrubAppend(done, next);
      counted := counted + 1;
      if counted <= MAX_FALLBACK_TEXT_BYTES {
        scrubbed := scrubbed + [Scrub(next)];
      } else {
        excess := true;
      }
      done := done + [next];
      cursor := rest;
    }
    NothingLeft(done);
    if excess {
      return Err(TextTooLarge(counted));
    }
    return Ok(scrubbed);
  }

  lemma {:induction false} NothingLeft(done: seq<Option<char>>)
    ensures done + Lossy([]) == done
  {
  }

  lemma {:induction false} ScrubbedIsPrintable(b: seq<Byte>)
    ensures IsAscii(Scrubbed(b)) && forall i :: 0 <= i < |Scrubbed(b)| ==> Printable(Scrubbed(b)[i])
  {
    hide Lossy;
  }

  /** Scrubbing scrubbed text changes nothing. */
  lemma {:induction false} ScrubIsIdempotent(b: seq<Byte>)
    ensures IsAscii(Scrubbed(b)) && Scrubbed(Octets(Scrubbed(b))) == Scrubbed(b)
  {
    hide Lossy, Scrubbed;
    var s := Scrubbed(b);
    ScrubbedIsPrintable(b);
    AsciiReads(s);
    ScrubOfChars(s);
  }

  lemma {:induction false} ScrubOfChars(s: string)
    requires IsAscii(s) && forall i :: 0 <= i < |s| ==> Printable(s[i])
    ensures Scrubbed(Octets(s)) == s
  {
    hide Lossy;
    AsciiReads(s);
  }

  /** Any bytes become a readable envelope, unless they hold too many characters. */
  method FallbackFor(unreadable: seq<Byte>) returns (r: Result<Envelope, FallbackError>)
    ensures IsAscii(Scrubbed(unreadable))
    ensures r.Err? <==> |Scrubbed(unreadable)| > MAX_FALLBACK_TEXT_BYTES
    ensures r.Err? ==> r.error == TextTooLarge(|Scrubbed(unreadable)|)
    ensures r.Ok? ==> r.value == Envelope(Octets(FALLBACK_ID), Octets(FALLBACK_KIND), Octets(Scrubbed(unreadable)))
    ensures r.Ok? ==> Valid(r.value) && Decoded(Encoded(r.value)) == r
  {
    hide Scrubbed, Decoded, Encoded, IsUtf8;
    var text := ScrubText(unreadable);
    ScrubbedIsPrintable(unreadable);
    if text.Err? {
      return Err(text.error);
    }
    AsciiReads(text.value);
    AsciiReads(FALLBACK_ID);
    AsciiReads(FALLBACK_KIND);
    r := Ok(Envelope(Octets(FALLBACK_ID), Octets(FALLBACK_KIND), Octets(text.value)));
    DecodeUndoesEncode(r.value);
  }
}
