/**
 * The stable-prefix walker and the cache key over it
 * (crates/bitty-ai-host/src/cache_disclosure.rs:137-154, 253-424), with the prompt renderer
 * whose output it walks (crates/bitty-ai-runtime/src/prompt.rs:1342-1359). A byte is the
 * character of the same code.
 */
module StablePrefix {
  import opened Bytes
  import opened Results
  import opened Json
  import opened JsonReader
  import opened JsonGrammar
  import opened JsonWriter
  import Fnv

  const STABLE_LAYERS: seq<string> := ["core-contract", "user", "project", "skills-profile"]
  const RUNTIME_LAYER := "runtime-turn"
  const CANONICAL_MAGIC := "prompt/1\n"
  const CORE_VERSION_PREFIX := "core-version:"
  const SECTION_OPEN := "[layer:"
  const SECTION_LEN_SEP := " len="
  const SECTION_CLOSE := "]\n"
  const EFFECTIVE_OPEN := "[effective]\n"
  const MAX_CANONICAL_BYTES := 96 * 1024

  // ---------------------------------------------------------------- the walker

  function Strip(s: string, prefix: string): (r: Option<string>)
    ensures r.Some? ==> |r.value| <= |s|
  {
    if prefix <= s then Some(s[|prefix|..]) else None
  }

  /** The declared length and the bytes from the section text on. */
  function SectionHeader(s: string, layer: string): (r: Option<(nat, string)>)
    ensures r.Some? ==> |r.value.1| <= |s|
  {
    match Strip(s, SECTION_OPEN)
    case None => None
    case Some(a) =>
      match Strip(a, layer)
      case None => None
      case Some(b) =>
        match Strip(b, SECTION_LEN_SEP)
        case None => None
        case Some(c) => DeclaredLength(c)
  }

  function DeclaredLength(s: string): (r: Option<(nat, string)>)
    ensures r.Some? ==> |r.value.1| <= |s|
  {
    var n := DigitRun(s);
    if n == 0 || DigitsValue(s[..n]) > U64_MAX then None
    else
      match Strip(s[n..], SECTION_CLOSE)
      case None => None
      case Some(rest) => Some((DigitsValue(s[..n]), rest))
  }

  /** The text of the section at the front, and what follows its line feed. */
  function ReadSection(s: string, layer: string): (r: Option<(string, string)>)
    ensures r.Some? ==> |r.value.1| <= |s|
  {
    match SectionHeader(s, layer)
    case None => None
    case Some((n, rest)) =>
      if n > |rest| then None
      else
        match Strip(rest[n..], "\n")
        case None => None
        case Some(after) => Some((rest[..n], after))
  }

  /** The bytes after the section at the front, skipped by its declared length. */
  function StripSection(s: string, layer: string): Option<string> {
    match SectionHeader(s, layer)
    case None => None
    case Some((n, rest)) => if n > |rest| then None else Strip(rest[n..], "\n")
  }

  /** Skipping a section leaves what reading it leaves. */
  lemma {:induction false} SkippingIsReading(s: string, layer: string)
    ensures StripSection(s, layer).Some? <==> ReadSection(s, layer).Some?
    ensures ReadSection(s, layer).Some? ==> StripSection(s, layer) == Some(ReadSection(s, layer).value.1)
  {
    hide SectionHeader;
  }

  function LineEnd(s: string): Option<nat> {
    if s == [] then None
    else if s[0] == '\n' then Some(0)
    else
      match LineEnd(s[1..])
      case None => None
      case Some(n) => Some(n + 1)
  }

  lemma {:induction false} LineEndIs(line: string, t: string)
    requires '\n' !in line
    ensures LineEnd(line + ("\n" + t)) == Some(|line|)
  {
    var s := line + ("\n" + t);
    if line == [] {
      assert s == "\n" + t && s[0] == '\n';
    } else {
      assert s[1..] == line[1..] + ("\n" + t);
      LineEndIs(line[1..], t);
    }
  }

  lemma {:induction false} LineEndSplits(s: string)
    requires LineEnd(s).Some?
    ensures var n := LineEnd(s).value; n < |s| && s[n] == '\n' && '\n' !in s[..n]
  {
    if s[0] != '\n' {
      LineEndSplits(s[1..]);
      var n := LineEnd(s).value;
      assert s[..n] == [s[0]] + s[1..][..n - 1];
    }
  }

  function StripVersion(s: string): (r: Option<(string, string)>)
    ensures r.Some? ==> |r.value.1| <= |s|
  {
    match Strip(s, CANONICAL_MAGIC)
    case None => None
    case Some(a) =>
      match Strip(a, CORE_VERSION_PREFIX)
      case None => None
      case Some(b) =>
        match LineEnd(b)
        case None => None
        case Some(n) => LineEndSplits(b); Some((b[..n], b[n + 1..]))
  }

  /** The texts of the sections at the front, in the given order. */
  function ReadSections(s: string, layers: seq<string>): (r: Option<(seq<string>, string)>)
    ensures r.Some? ==> |r.value.1| <= |s|
    decreases layers
  {
    if layers == [] then Some(([], s))
    else
      match ReadSection(s, layers[0])
      case None => None
      case Some((text, rest)) =>
        match ReadSections(rest, layers[1..])
        case None => None
        case Some((texts, after)) => Some(([text] + texts, after))
  }

  datatype Stable = Stable(version: string, texts: seq<string>, rest: string)

  /** What the stable part of a canonical form says, and where it ends. */
  function ReadStable(s: string): (r: Option<Stable>)
    ensures r.Some? ==> |r.value.rest| <= |s|
  {
    match StripVersion(s)
    case None => None
    case Some((version, a)) =>
      match ReadSections(a, STABLE_LAYERS)
      case None => None
      case Some((texts, rest)) => Some(Stable(version, texts, rest))
  }

  function PrefixLen(s: string): (r: Option<nat>)
    ensures r.Some? ==> r.value <= |s|
  {
    match ReadStable(s)
    case None => None
    case Some(stable) =>
      match StripSection(stable.rest, RUNTIME_LAYER)
      case None => None
      case Some(tail) => if EFFECTIVE_OPEN <= tail then Some(|s| - |stable.rest|) else None
  }

  method StablePrefixLen(canonical: string) returns (r: Option<nat>)
    ensures r == PrefixLen(canonical)
  {
    hide Strip, LineEnd, ReadSection, StripSection;
    var magic := Strip(canonical, CANONICAL_MAGIC);
    if magic.None? {
      return None;
    }
    var prefix := Strip(magic.value, CORE_VERSION_PREFIX);
    if prefix.None? {
      return None;
    }
    var cursor := prefix.value;
    var end := LineEnd(cursor);
    if end.None? {
      return None;
    }
    LineEndSplits(cursor);
    cursor := cursor[end.value + 1..];
    ghost var start := cursor;
    ghost var done: seq<string> := [];
    NoSectionsYet(cursor, STABLE_LAYERS);
    for i := 0 to |STABLE_LAYERS|
      invariant ReadSections(start, STABLE_LAYERS) == After(done, ReadSections(cursor, STABLE_LAYERS[i..]))
    {
      assert STABLE_LAYERS[i..][1..] == STABLE_LAYERS[i + 1..];
      SkippingIsReading(cursor, STABLE_LAYERS[i]);
      var rest := StripSection(cursor, STABLE_LAYERS[i]);
      if rest.None? {
        return None;
      }
      ghost var text := ReadSection(cursor, STABLE_LAYERS[i]).value.0;
      AfterOne(done, text, ReadSections(rest.value, STABLE_LAYERS[i + 1..]));
      done := done + [text];
      cursor := rest.value;
    }
    assert STABLE_LAYERS[4..] == [] && done + [] == done;
    var boundary := |canonical| - |cursor|;
    var tail := StripSection(cursor, RUNTIME_LAYER);
    if tail.None? || !(EFFECTIVE_OPEN <= tail.value) {
      return None;
    }
    return Some(boundary);
  }

  ghost function After(done: seq<string>, r: Option<(seq<string>, string)>): Option<(seq<string>, string)> {
    if r.Some? then Some((done + r.value.0, r.value.1)) else None
  }

  lemma {:induction false} AfterOne(done: seq<string>, text: string, r: Option<(seq<string>, string)>)
    ensures r.Some? ==> After(done, Some(([text] + r.value.0, r.value.1))) == After(done + [text], r)
  {
    if r.Some? {
      assert done + ([text] + r.value.0) == done + [text] + r.value.0;
    }
  }

  lemma {:induction false} NoSectionsYet(s: string, layers: seq<string>)
    ensures ReadSections(s, layers) == After([], ReadSections(s, layers[0..]))
  {
    assert layers[0..] == layers;
    var r := ReadSections(s, layers);
    if r.Some? {
      assert [] + r.value.0 == r.value.0;
    }
  }

  // ---------------------------------------------------------------- the layout

  /** A section whose length is spelled `digits`, and what follows. */
  function SectionThen(layer: string, digits: string, text: string, t: string): string {
    SECTION_OPEN + (layer + (SECTION_LEN_SEP + (digits + (SECTION_CLOSE + (text + ("\n" + t))))))
  }

  predicate Spells(digits: string, text: string) {
    SomeDigits(digits) && DigitsValue(digits) == |text| <= U64_MAX
  }

  function SectionsThen(layers: seq<string>, digits: seq<string>, texts: seq<string>, t: string): string
    requires |layers| == |digits| == |texts|
  {
    if layers == [] then t
    else SectionThen(layers[0], digits[0], texts[0], SectionsThen(layers[1..], digits[1..], texts[1..], t))
  }

  predicate AllSpell(digits: seq<string>, texts: seq<string>) {
    |digits| == |texts| && forall i :: 0 <= i < |texts| ==> Spells(digits[i], texts[i])
  }

  function StableThen(version: string, digits: seq<string>, texts: seq<string>, t: string): string
    requires |digits| == |texts| == |STABLE_LAYERS|
  {
    CANONICAL_MAGIC + (CORE_VERSION_PREFIX + (version + ("\n" + SectionsThen(STABLE_LAYERS, digits, texts, t))))
  }

  lemma {:induction false} StripJoined(prefix: string, t: string)
    ensures Strip(prefix + t, prefix) == Some(t)
  {
  }

  lemma {:induction false} StripSplits(s: string, prefix: string)
    requires Strip(s, prefix).Some?
    ensures s == prefix + Strip(s, prefix).value
  {
  }

  lemma {:induction false} LengthReads(digits: string, text: string, t: string)
    requires Spells(digits, text)
    ensures DeclaredLength(digits + (SECTION_CLOSE + t)) == Some((|text|, t))
  {
    var s := digits + (SECTION_CLOSE + t);
    assert (SECTION_CLOSE + t)[0] == ']';
    DigitRunOver(digits, SECTION_CLOSE + t);
    assert s[..|digits|] == digits && s[|digits|..] == SECTION_CLOSE + t;
    StripJoined(SECTION_CLOSE, t);
  }

  lemma {:induction false} SectionReads(layer: string, digits: string, text: string, t: string)
    requires Spells(digits, text)
    ensures ReadSection(SectionThen(layer, digits, text, t), layer) == Some((text, t))
  {
    hide Strip, DeclaredLength;
    var body := text + ("\n" + t);
    var c := digits + (SECTION_CLOSE + body);
    LengthReads(digits, text, body);
    StripJoined(SECTION_LEN_SEP, c);
    StripJoined(layer, SECTION_LEN_SEP + c);
    StripJoined(SECTION_OPEN, layer + (SECTION_LEN_SEP + c));
    assert body[..|text|] == text && body[|text|..] == "\n" + t;
    StripJoined("\n", t);
  }

  lemma {:induction false} SectionShape(s: string, layer: string) returns (digits: string)
    requires ReadSection(s, layer).Some?
    ensures var (text, rest) := ReadSection(s, layer).value;
      Spells(digits, text) && s == SectionThen(layer, digits, text, rest)
  {
    hide Strip, DeclaredLength;
    var (text, rest) := ReadSection(s, layer).value;
    var a := Strip(s, SECTION_OPEN).value;
    var b := Strip(a, layer).value;
    var c := Strip(b, SECTION_LEN_SEP).value;
    StripSplits(s, SECTION_OPEN);
    StripSplits(a, layer);
    StripSplits(b, SECTION_LEN_SEP);
    var (n, body) := DeclaredLength(c).value;
    digits := LengthShape(c);
    StripSplits(body[n..], "\n");
    SplitAt(body, n);
  }

  lemma {:induction false} LengthShape(s: string) returns (digits: string)
    requires DeclaredLength(s).Some?
    ensures var (n, rest) := DeclaredLength(s).value;
      SomeDigits(digits) && DigitsValue(digits) == n <= U64_MAX && s == digits + (SECTION_CLOSE + rest)
  {
    var n := DigitRun(s);
    digits := s[..n];
    SplitAt(s, n);
    StripSplits(s[n..], SECTION_CLOSE);
  }

  lemma {:induction false} SectionsRead(layers: seq<string>, digits: seq<string>, texts: seq<string>, t: string)
    requires |layers| == |texts| && AllSpell(digits, texts)
    ensures ReadSections(SectionsThen(layers, digits, texts, t), layers) == Some((texts, t))
  {
    hide ReadSection, SectionThen, Spells;
    if layers != [] {
      SectionReads(layers[0], digits[0], texts[0], SectionsThen(layers[1..], digits[1..], texts[1..], t));
      SectionsRead(layers[1..], digits[1..], texts[1..], t);
      assert texts == [texts[0]] + texts[1..];
    }
  }

  lemma {:induction false} SectionsShape(s: string, layers: seq<string>) returns (digits: seq<string>)
    requires ReadSections(s, layers).Some?
    ensures var (texts, rest) := ReadSections(s, layers).value;
      |texts| == |layers| && AllSpell(digits, texts) && s == SectionsThen(layers, digits, texts, rest)
    decreases layers
  {
    hide ReadSection, SectionThen, Spells;
    if layers == [] {
      digits := [];
    } else {
      var (text, rest) := ReadSection(s, layers[0]).value;
      var first := SectionShape(s, layers[0]);
      var others := SectionsShape(rest, layers[1..]);
      digits := [first] + others;
      assert digits[1..] == others;
      var (texts, _) := ReadSections(s, layers).value;
      assert texts[1..] == ReadSections(rest, layers[1..]).value.0;
    }
  }

  lemma {:induction false} StableReads(version: string, digits: seq<string>, texts: seq<string>, t: string)
    requires '\n' !in version && |texts| == |STABLE_LAYERS| && AllSpell(digits, texts)
    ensures ReadStable(StableThen(version, digits, texts, t)) == Some(Stable(version, texts, t))
  {
    hide Strip, LineEnd, ReadSections, SectionsThen, Spells;
    var sections := SectionsThen(STABLE_LAYERS, digits, texts, t);
    var line := version + ("\n" + sections);
    StripJoined(CORE_VERSION_PREFIX, line);
    StripJoined(CANONICAL_MAGIC, CORE_VERSION_PREFIX + line);
    LineEndIs(version, sections);
    assert line[..|version|] == version && line[|version| + 1..] == sections;
    SectionsRead(STABLE_LAYERS, digits, texts, t);
  }

  lemma {:induction false} StableShape(s: string) returns (digits: seq<string>)
    requires ReadStable(s).Some?
    ensures var stable := ReadStable(s).value;
      && '\n' !in stable.version && |stable.texts| == |STABLE_LAYERS| && AllSpell(digits, stable.texts)
      && s == StableThen(stable.version, digits, stable.texts, stable.rest)
  {
    hide Strip, LineEnd, ReadSections, SectionsThen, Spells;
    var a := Strip(s, CANONICAL_MAGIC).value;
    var b := Strip(a, CORE_VERSION_PREFIX).value;
    StripSplits(s, CANONICAL_MAGIC);
    StripSplits(a, CORE_VERSION_PREFIX);
    LineEndSplits(b);
    var n := LineEnd(b).value;
    assert b == b[..n] + ("\n" + b[n + 1..]);
    digits := SectionsShape(b[n + 1..], STABLE_LAYERS);
  }

  // ---------------------------------------------------------------- what follows is independent

  lemma {:induction false} SectionFollowed(layer: string, digits: string, text: string, t: string)
    ensures SectionThen(layer, digits, text, t) == SectionThen(layer, digits, text, "") + t
  {
    Assoc("\n", "", t);
    assert "" + t == t;
    Assoc(text, "\n" + "", t);
    Assoc(SECTION_CLOSE, text + ("\n" + ""), t);
    var d := SECTION_CLOSE + (text + ("\n" + ""));
    Assoc(digits, d, t);
    Assoc(SECTION_LEN_SEP, digits + d, t);
    Assoc(layer, SECTION_LEN_SEP + (digits + d), t);
    Assoc(SECTION_OPEN, layer + (SECTION_LEN_SEP + (digits + d)), t);
  }

  lemma {:induction false} SectionsFollowed(layers: seq<string>, digits: seq<string>, texts: seq<string>, t: string)
    requires |layers| == |digits| == |texts|
    ensures SectionsThen(layers, digits, texts, t) == SectionsThen(layers, digits, texts, "") + t
  {
    hide SectionThen;
    if layers == [] {
      assert "" + t == t;
    } else {
      var more := SectionsThen(layers[1..], digits[1..], texts[1..], "");
      SectionsFollowed(layers[1..], digits[1..], texts[1..], t);
      SectionFollowed(layers[0], digits[0], texts[0], more + t);
      SectionFollowed(layers[0], digits[0], texts[0], more);
      Assoc(SectionThen(layers[0], digits[0], texts[0], ""), more, t);
    }
  }

  lemma {:induction false} StableFollowed(version: string, digits: seq<string>, texts: seq<string>, t: string)
    requires |digits| == |texts| == |STABLE_LAYERS|
    ensures StableThen(version, digits, texts, t) == StableThen(version, digits, texts, "") + t
  {
    hide SectionsThen;
    var more := SectionsThen(STABLE_LAYERS, digits, texts, "");
    SectionsFollowed(STABLE_LAYERS, digits, texts, t);
    Assoc("\n", more, t);
    Assoc(version, "\n" + more, t);
    Assoc(CORE_VERSION_PREFIX, version + ("\n" + more), t);
    Assoc(CANONICAL_MAGIC, CORE_VERSION_PREFIX + (version + ("\n" + more)), t);
  }

  // ---------------------------------------------------------------- theorems

  /** What `render_canonical` writes: lengths in decimal, sections in order, then the policy block. */
  function Rendered(version: string, texts: seq<string>, turn: string, tail: string): string
    requires |texts| == |STABLE_LAYERS|
  {
    StableThen(version, Decimals(texts), texts, SectionThen(RUNTIME_LAYER, Decimal(|turn|), turn, EFFECTIVE_OPEN + tail))
  }

  function Decimals(texts: seq<string>): seq<string> {
    seq(|texts|, i requires 0 <= i < |texts| => Decimal(|texts[i]|))
  }

  lemma {:induction false} DecimalSpells(text: string)
    requires |text| <= U64_MAX
    ensures Spells(Decimal(|text|), text)
  {
    DecimalMeans(|text|);
  }

  /** On every rendered prompt the walker stops where the runtime section starts, whatever the texts hold. */
  lemma {:induction false} FindsTheBoundary(version: string, texts: seq<string>, turn: string, tail: string)
    requires '\n' !in version && |texts| == |STABLE_LAYERS| && |turn| <= U64_MAX
    requires forall i :: 0 <= i < |texts| ==> |texts[i]| <= U64_MAX
    ensures PrefixLen(Rendered(version, texts, turn, tail)) == Some(|StableThen(version, Decimals(texts), texts, "")|)
  {
    hide Decimal, SectionThen, StableThen, ReadSection, StripSection, ReadStable, Spells;
    forall i | 0 <= i < |texts| ensures Spells(Decimals(texts)[i], texts[i]) {
      DecimalSpells(texts[i]);
    }
    DecimalSpells(turn);
    var rest := SectionThen(RUNTIME_LAYER, Decimal(|turn|), turn, EFFECTIVE_OPEN + tail);
    StableReads(version, Decimals(texts), texts, rest);
    SectionReads(RUNTIME_LAYER, Decimal(|turn|), turn, EFFECTIVE_OPEN + tail);
    SkippingIsReading(rest, RUNTIME_LAYER);
    StableFollowed(version, Decimals(texts), texts, rest);
    assert EFFECTIVE_OPEN <= EFFECTIVE_OPEN + tail;
  }

  /** A canonical form: the stable part, a runtime section, the policy block, with lengths spelled in any digits. */
  datatype Layout = Layout(
    version: string, digits: seq<string>, texts: seq<string>, turnDigits: string, turn: string, tail: string)

  predicate LayoutOk(x: Layout) {
    && '\n' !in x.version && |x.texts| == |STABLE_LAYERS| && AllSpell(x.digits, x.texts) && Spells(x.turnDigits, x.turn)
  }

  function LayoutText(x: Layout): string
    requires LayoutOk(x)
  {
    StableThen(x.version, x.digits, x.texts, SectionThen(RUNTIME_LAYER, x.turnDigits, x.turn, EFFECTIVE_OPEN + x.tail))
  }

  /** The walker accepts every such form, and stops right after its stable part. */
  lemma {:induction false} LayoutIsAccepted(x: Layout)
    requires LayoutOk(x)
    ensures PrefixLen(LayoutText(x)) == Some(|StableThen(x.version, x.digits, x.texts, "")|)
  {
    hide SectionThen, StableThen, ReadSection, StripSection, ReadStable, Spells;
    var rest := SectionThen(RUNTIME_LAYER, x.turnDigits, x.turn, EFFECTIVE_OPEN + x.tail);
    StableReads(x.version, x.digits, x.texts, rest);
    SectionReads(RUNTIME_LAYER, x.turnDigits, x.turn, EFFECTIVE_OPEN + x.tail);
    SkippingIsReading(rest, RUNTIME_LAYER);
    StableFollowed(x.version, x.digits, x.texts, rest);
    assert EFFECTIVE_OPEN <= EFFECTIVE_OPEN + x.tail;
  }

  /** And nothing else. */
  lemma {:induction false} AcceptedIsALayout(s: string) returns (x: Layout)
    requires PrefixLen(s).Some?
    ensures LayoutOk(x) && s == LayoutText(x)
  {
    hide SectionThen, StableThen, ReadSection, StripSection, ReadStable, Spells;
    var stable := ReadStable(s).value;
    var digits := StableShape(s);
    SkippingIsReading(stable.rest, RUNTIME_LAYER);
    var (turn, after) := ReadSection(stable.rest, RUNTIME_LAYER).value;
    var turnDigits := SectionShape(stable.rest, RUNTIME_LAYER);
    x := Layout(stable.version, digits, stable.texts, turnDigits, turn, after[|EFFECTIVE_OPEN|..]);
    assert after == EFFECTIVE_OPEN + x.tail;
  }

  /** The prefix of an accepted form, taken alone, says which version and which four texts it holds. */
  lemma {:induction false} PrefixDeterminesTheTexts(a: string, b: string)
    requires PrefixLen(a).Some? && PrefixLen(b).Some?
    requires a[..PrefixLen(a).value] == b[..PrefixLen(b).value]
    ensures ReadStable(a).value.version == ReadStable(b).value.version
    ensures ReadStable(a).value.texts == ReadStable(b).value.texts
  {
    hide ReadStable, StripSection, StableThen, Spells;
    var x := PrefixIsStable(a);
    var y := PrefixIsStable(b);
    StableReads(ReadStable(a).value.version, x, ReadStable(a).value.texts, "");
    StableReads(ReadStable(b).value.version, y, ReadStable(b).value.texts, "");
  }

  lemma {:induction false} PrefixIsStable(s: string) returns (digits: seq<string>)
    requires PrefixLen(s).Some?
    ensures var stable := ReadStable(s).value;
      && '\n' !in stable.version && |stable.texts| == |STABLE_LAYERS| && AllSpell(digits, stable.texts)
      && s[..PrefixLen(s).value] == StableThen(stable.version, digits, stable.texts, "")
      && s == s[..PrefixLen(s).value] + stable.rest
  {
    hide ReadStable, StripSection, StableThen, Spells;
    var stable := ReadStable(s).value;
    digits := StableShape(s);
    StableFollowed(stable.version, digits, stable.texts, stable.rest);
  }

  /** Two accepted forms that agree on the prefix bytes of one have the same prefix. */
  lemma {:induction false} PrefixIsSelfDelimiting(a: string, b: string)
    requires PrefixLen(a).Some? && PrefixLen(b).Some?
    requires PrefixLen(a).value <= |b|
    requires b[..PrefixLen(a).value] == a[..PrefixLen(a).value]
    ensures PrefixLen(b) == PrefixLen(a)
  {
    hide ReadStable, StripSection, StableThen, Spells;
    var stable := ReadStable(a).value;
    var n := PrefixLen(a).value;
    var digits := PrefixIsStable(a);
    StableReads(stable.version, digits, stable.texts, b[n..]);
    StableFollowed(stable.version, digits, stable.texts, b[n..]);
    SplitAt(b, n);
  }

  // ---------------------------------------------------------------- the key

  datatype Scope = Session | Turn | Round
  datatype Key = Key(provider: string, model: string, scope: Scope, hash: Fnv.Word, prefixLen: nat)
  datatype KeyError = InvalidProviderId | InvalidModelId | EmptyCanonical | CanonicalTooLarge(actual: nat) | MissingStableMarker

  predicate IsLower(c: char) { 'a' <= c <= 'z' }

  predicate ProviderIdValid(id: string) {
    && 0 < |id| <= 64 && IsLower(id[0])
    && forall i :: 0 <= i < |id| ==> IsLower(id[i]) || IsDigit(id[i]) || id[i] == '_' || id[i] == '-'
  }

  predicate ModelNameValid(name: string) {
    && 0 < |name| <= 128 && (IsLower(name[0]) || IsDigit(name[0]))
    && forall i :: 0 <= i < |name| ==>
      IsLower(name[i]) || IsDigit(name[i]) || name[i] == '_' || name[i] == '-' || name[i] == '.' || name[i] == ':' || name[i] == '/'
  }

  /** The names a route may carry, by their character codes; a provider's is always fit for a model. */
  lemma {:induction false} RouteNames(s: string)
    ensures ProviderIdValid(s) <==>
      && 1 <= |s| <= 64 && 97 <= s[0] as int <= 122
      && forall i :: 0 <= i < |s| ==> var n := s[i] as int; 97 <= n <= 122 || 48 <= n <= 57 || n == 45 || n == 95
    ensures ModelNameValid(s) <==>
      && 1 <= |s| <= 128 && (97 <= s[0] as int <= 122 || 48 <= s[0] as int <= 57)
      && forall i :: 0 <= i < |s| ==> var n := s[i] as int; 97 <= n <= 122 || 45 <= n <= 58 || n == 95
    ensures ProviderIdValid(s) ==> ModelNameValid(s)
  {
  }

  predicate AreBytes(s: string) { forall i :: 0 <= i < |s| ==> s[i] as int < 256 }

  function Octets(s: string): seq<Byte>
    requires AreBytes(s)
  {
    seq(|s|, i requires 0 <= i < |s| => s[i] as int)
  }

  method NewKey(provider: string, model: string, scope: Scope, canonical: string) returns (r: Result<Key, KeyError>)
    requires AreBytes(canonical)
    ensures r == KeyFor(provider, model, scope, canonical)
    ensures r.Ok? ==>
      && r.value.provider == provider && r.value.model == model && r.value.scope == scope
      && PrefixLen(canonical) == Some(r.value.prefixLen)
      && r.value.hash == Fnv.Digest(Octets(canonical[..r.value.prefixLen]))
    ensures r.Ok? <==>
      && ProviderIdValid(provider) && ModelNameValid(model) && 0 < |canonical| <= MAX_CANONICAL_BYTES
      && PrefixLen(canonical).Some?
  {
    hide PrefixLen;
    if !ProviderIdValid(provider) {
      return Err(InvalidProviderId);
    }
    if !ModelNameValid(model) {
      return Err(InvalidModelId);
    }
    if canonical == [] {
      return Err(EmptyCanonical);
    }
    if |canonical| > MAX_CANONICAL_BYTES {
      return Err(CanonicalTooLarge(|canonical|));
    }
    var len := StablePrefixLen(canonical);
    if len.None? {
      return Err(MissingStableMarker);
    }
    var hash := Fnv.Fnv1a64(Octets(canonical[..len.value]));
    return Ok(Key(provider, model, scope, hash, len.value));
  }

  ghost function KeyFor(provider: string, model: string, scope: Scope, canonical: string): (r: Result<Key, KeyError>)
    requires AreBytes(canonical)
    ensures r.Ok? ==> r.value.prefixLen <= |canonical|
  {
    if !ProviderIdValid(provider) then Err(InvalidProviderId)
    else if !ModelNameValid(model) then Err(InvalidModelId)
    else if canonical == [] then Err(EmptyCanonical)
    else if |canonical| > MAX_CANONICAL_BYTES then Err(CanonicalTooLarge(|canonical|))
    else
      match PrefixLen(canonical)
      case None => Err(MissingStableMarker)
      case Some(n) => Ok(Key(provider, model, scope, Fnv.Digest(Octets(canonical[..n])), n))
  }

  /** Which refusal: the first of these that applies. */
  lemma {:induction false} KeyRefusals(provider: string, model: string, scope: Scope, canonical: string)
    requires AreBytes(canonical)
    ensures var r := KeyFor(provider, model, scope, canonical);
      var routed := ProviderIdValid(provider) && ModelNameValid(model);
      && (r == Err(InvalidProviderId) <==> !ProviderIdValid(provider))
      && (r == Err(InvalidModelId) <==> ProviderIdValid(provider) && !ModelNameValid(model))
      && (r == Err(EmptyCanonical) <==> routed && |canonical| == 0)
      && (r == Err(CanonicalTooLarge(|canonical|)) <==> routed && |canonical| > MAX_CANONICAL_BYTES)
      && (r == Err(MissingStableMarker) <==> routed && 0 < |canonical| <= MAX_CANONICAL_BYTES && PrefixLen(canonical).None?)
  {
    hide PrefixLen, ProviderIdValid, ModelNameValid;
  }

  /** Equal keys mean one provider, one model, one scope and one prefix length. */
  lemma {:induction false} KeysSeparateRoutes(
    provider: string, model: string, scope: Scope, a: string, provider': string, model': string, scope': Scope, b: string)
    requires AreBytes(a) && AreBytes(b)
    requires KeyFor(provider, model, scope, a).Ok? && KeyFor(provider', model', scope', b) == KeyFor(provider, model, scope, a)
    ensures provider == provider' && model == model' && scope == scope' && PrefixLen(a) == PrefixLen(b)
  {
    hide PrefixLen, ProviderIdValid, ModelNameValid;
  }

  /** On one route, agreeing on one's stable prefix means sharing a key. */
  lemma {:induction false} SamePrefixSameKey(provider: string, model: string, scope: Scope, a: string, b: string)
    requires AreBytes(a) && AreBytes(b)
    requires KeyFor(provider, model, scope, a).Ok? && KeyFor(provider, model, scope, b).Ok?
    requires KeyFor(provider, model, scope, a).value.prefixLen <= |b|
    requires b[..KeyFor(provider, model, scope, a).value.prefixLen] == a[..KeyFor(provider, model, scope, a).value.prefixLen]
    ensures KeyFor(provider, model, scope, a) == KeyFor(provider, model, scope, b)
  {
    hide PrefixLen;
    PrefixIsSelfDelimiting(a, b);
  }

  /** One changed byte inside a stable prefix of the same length always changes the key. */
  lemma {:induction false} OneByteChangesTheKey(provider: string, model: string, scope: Scope, a: string, b: string, i: nat)
    requires AreBytes(a) && AreBytes(b)
    requires KeyFor(provider, model, scope, a).Ok? && KeyFor(provider, model, scope, b).Ok?
    requires var n := KeyFor(provider, model, scope, a).value.prefixLen;
      i < n <= |a| && n <= |b| && a[i] != b[i] && forall k :: 0 <= k < n && k != i ==> a[k] == b[k]
    ensures KeyFor(provider, model, scope, a) != KeyFor(provider, model, scope, b)
  {
    hide PrefixLen;
    var x, y := KeyFor(provider, model, scope, a).value, KeyFor(provider, model, scope, b).value;
    if x.prefixLen == y.prefixLen {
      Fnv.OneByteIsEnough(Octets(a[..x.prefixLen]), Octets(b[..x.prefixLen]), i);
    }
  }
}
