/**
 * The canonical provider/routing projection of
 * crates/bitty-ai-endpoint/src/provider_binding.rs: the data it stands for, its text, and
 * the second canonicaliser that reads a parsed payload back. Byte strings are the UTF-8
 * form of the texts here, so lengths are UTF-8 lengths.
 */
module ProviderProjection {
  import opened Bytes
  import opened Results
  import opened Json
  import opened JsonReader
  import opened JsonWriter
  import opened JsonViews

  const MAX_PUBLICATION_FRAME_BYTES := 256 * 1024
  const MAX_PROVIDERS := 32
  const MAX_MODELS := 64
  const MAX_CAPABILITIES := 8
  const MAX_FIELD_BYTES := 128
  const PROVIDER_ROUTING_DOMAIN := "provider-routing"

  datatype RoutingError =
    | FrameTooLarge
    | InvalidJson
    | InvalidDomain
    | InvalidIdentity
    | InvalidDigest
    | InvalidProjection
    | NonCanonicalProjection
    | StaleOrReplay
    | PublicationIdReused
    | PublicationLimit
    | Superseded
    | NoPublication
    | NoAcknowledgement
    | ProjectionMismatch
    | PublicationLifetimeRevoked
    | PublicationLifetimeMismatch

  // ---------------------------------------------------------------- text

  predicate IsControl(c: char) { c < ' ' || '\U{007F}' <= c <= '\U{009F}' }

  predicate TextOk(s: string) {
    s != [] && Utf8Len(s) <= MAX_FIELD_BYTES && forall i :: 0 <= i < |s| ==> !IsControl(s[i])
  }

  /** The order of Rust strings: code point by code point. */
  predicate Less(a: string, b: string) {
    b != [] && (a == [] || a[0] < b[0] || (a[0] == b[0] && Less(a[1..], b[1..])))
  }

  lemma {:induction false} NotLessItself(a: string)
    ensures !Less(a, a)
  {
    if a != [] {
      NotLessItself(a[1..]);
    }
  }

  lemma {:induction false} LessIsTotal(a: string, b: string)
    ensures Less(a, b) || a == b || Less(b, a)
    ensures !(Less(a, b) && Less(b, a))
  {
    if a != [] && b != [] && a[0] == b[0] {
      LessIsTotal(a[1..], b[1..]);
      if a[1..] == b[1..] {
        assert a == [a[0]] + a[1..] == b;
      }
    }
  }

  lemma {:induction false} LessIsTransitive(a: string, b: string, c: string)
    requires Less(a, b) && Less(b, c)
    ensures Less(a, c)
  {
    if a != [] && a[0] == b[0] == c[0] {
      LessIsTransitive(a[1..], b[1..], c[1..]);
    }
  }

  predicate Increasing(s: seq<string>) {
    forall i :: 0 < i < |s| ==> Less(s[i - 1], s[i])
  }

  // ---------------------------------------------------------------- data

  const LABELS: seq<string> :=
    ["text", "streaming", "tool_use", "image_input", "audio_input", "audio_output", "video_input", "reasoning"]

  datatype Model = Model(name: string, capabilities: seq<string>, window: nat, inputCost: nat, outputCost: nat)
  datatype Provider = Provider(id: string, models: seq<Model>)

  predicate CapabilitiesOk(labels: seq<string>) {
    && 1 <= |labels| <= MAX_CAPABILITIES
    && (forall i :: 0 <= i < |labels| ==> TextOk(labels[i]) && OneOf(labels[i], LABELS))
    && Increasing(labels)
  }

  predicate ModelOk(m: Model) {
    && TextOk(m.name) && CapabilitiesOk(m.capabilities)
    && m.window <= U32_MAX && m.inputCost <= U32_MAX && m.outputCost <= U32_MAX
  }

  predicate After(last: Option<string>, next: string) {
    last.Some? ==> Less(last.value, next)
  }

  /** Sound models whose names increase from `last` on. */
  predicate ModelsOk(ms: seq<Model>, last: Option<string>) {
    ms == [] || (ModelOk(ms[0]) && After(last, ms[0].name) && ModelsOk(ms[1..], Some(ms[0].name)))
  }

  predicate ProviderOk(p: Provider) {
    TextOk(p.id) && |p.models| <= MAX_MODELS && ModelsOk(p.models, None)
  }

  /** Sound providers whose ids increase from `last` on. */
  predicate ProvidersOk(ps: seq<Provider>, last: Option<string>) {
    ps == [] || (ProviderOk(ps[0]) && After(last, ps[0].id) && ProvidersOk(ps[1..], Some(ps[0].id)))
  }

  function ModelCount(ps: seq<Provider>): nat {
    if ps == [] then 0 else |ps[0].models| + ModelCount(ps[1..])
  }

  /** The lists of providers a projection may stand for. */
  predicate Canonical(ps: seq<Provider>) {
    |ps| <= MAX_PROVIDERS && ModelCount(ps) <= MAX_MODELS && ProvidersOk(ps, None)
  }

  lemma {:induction false} NamesAreSorted(ms: seq<Model>, last: Option<string>, i: nat, j: nat)
    requires ModelsOk(ms, last) && i < j < |ms|
    ensures Less(ms[i].name, ms[j].name)
  {
    if i > 0 {
      NamesAreSorted(ms[1..], Some(ms[0].name), i - 1, j - 1);
    } else if j > 1 {
      NamesAreSorted(ms[1..], Some(ms[0].name), 0, j - 1);
      LessIsTransitive(ms[0].name, ms[1].name, ms[j].name);
    }
  }

  /** Canonical lists hold no id and no model name of one provider twice. */
  lemma {:induction false} IdsAreSorted(ps: seq<Provider>, last: Option<string>, i: nat, j: nat)
    requires ProvidersOk(ps, last) && i < j < |ps|
    ensures Less(ps[i].id, ps[j].id)
  {
    if i > 0 {
      IdsAreSorted(ps[1..], Some(ps[0].id), i - 1, j - 1);
    } else if j > 1 {
      IdsAreSorted(ps[1..], Some(ps[0].id), 0, j - 1);
      LessIsTransitive(ps[0].id, ps[1].id, ps[j].id);
    }
  }

  // ---------------------------------------------------------------- text of the data

  function ModelValue(m: Model): JVal {
    JObj([
      Field("name", JStr(m.name)),
      Field("capabilities", JArr(Strings(m.capabilities))),
      Field("context_window_tokens", Integer(m.window)),
      Field("input_cost_weight", Integer(m.inputCost)),
      Field("output_cost_weight", Integer(m.outputCost))])
  }

  function ModelValues(ms: seq<Model>): seq<JVal> {
    seq(|ms|, i requires 0 <= i < |ms| => ModelValue(ms[i]))
  }

  function ProviderValue(p: Provider): JVal {
    JObj([Field("id", JStr(p.id)), Field("models", JArr(ModelValues(p.models)))])
  }

  function ProviderValues(ps: seq<Provider>): seq<JVal> {
    seq(|ps|, i requires 0 <= i < |ps| => ProviderValue(ps[i]))
  }

  function ProjectionValue(ps: seq<Provider>): JVal {
    JObj([Field("domain", JStr(PROVIDER_ROUTING_DOMAIN)), Field("providers", JArr(ProviderValues(ps)))])
  }

  /** The canonical bytes of a list of providers. */
  function Print(ps: seq<Provider>): string { Compact(ProjectionValue(ps)) }

  // ---------------------------------------------------------------- reading a payload back

  function IntegerField(v: JVal, name: string): Option<nat> {
    match FieldOf(v, name)
    case None => None
    case Some(x) => if AsU64(x).Some? && AsU64(x).value <= U32_MAX then AsU64(x) else None
  }

  function LabelsOf(vs: seq<JVal>): Option<seq<string>> {
    if vs == [] then Some([])
    else if !vs[0].JStr? || !TextOk(vs[0].text) || !OneOf(vs[0].text, LABELS) then None
    else
      match LabelsOf(vs[1..])
      case None => None
      case Some(rest) => Some([vs[0].text] + rest)
  }

  function CapabilitiesOf(v: JVal): Option<seq<string>> {
    match ArrayField(v, "capabilities")
    case None => None
    case Some(vs) =>
      if vs == [] || |vs| > MAX_CAPABILITIES then None
      else
        match LabelsOf(vs)
        case None => None
        case Some(labels) => if Increasing(labels) then Some(labels) else None
  }

  function ModelOf(v: JVal): Result<Model, RoutingError> {
    if !v.JObj? || |v.fields| != 5 then Err(InvalidProjection)
    else
      match StringField(v, "name")
      case None => Err(InvalidJson)
      case Some(name) =>
        if !TextOk(name) then Err(InvalidProjection)
        else
          match CapabilitiesOf(v)
          case None => Err(InvalidProjection)
          case Some(labels) =>
            var window := IntegerField(v, "context_window_tokens");
            var inputCost := IntegerField(v, "input_cost_weight");
            var outputCost := IntegerField(v, "output_cost_weight");
            if window.None? || inputCost.None? || outputCost.None? then Err(InvalidProjection)
            else Ok(Model(name, labels, window.value, inputCost.value, outputCost.value))
  }

  function ModelsOf(vs: seq<JVal>, last: Option<string>, count: nat): Result<seq<Model>, RoutingError> {
    if vs == [] then Ok([])
    else if count + 1 > MAX_MODELS then Err(InvalidProjection)
    else
      match ModelOf(vs[0])
      case Err(e) => Err(e)
      case Ok(m) =>
        if !After(last, m.name) then Err(InvalidProjection)
        else Prefixed(m, ModelsOf(vs[1..], Some(m.name), count + 1))
  }

  function ProviderOf(v: JVal, last: Option<string>, count: nat): Result<Provider, RoutingError> {
    if !v.JObj? || |v.fields| != 2 then Err(InvalidProjection)
    else
      match StringField(v, "id")
      case None => Err(InvalidJson)
      case Some(id) =>
        if !TextOk(id) || !After(last, id) then Err(InvalidProjection)
        else
          match ArrayField(v, "models")
          case None => Err(InvalidProjection)
          case Some(vs) =>
            if |vs| > MAX_MODELS then Err(InvalidProjection)
            else
              match ModelsOf(vs, None, count)
              case Err(e) => Err(e)
              case Ok(ms) => Ok(Provider(id, ms))
  }

  function ProvidersOf(vs: seq<JVal>, last: Option<string>, count: nat): Result<seq<Provider>, RoutingError> {
    if vs == [] then Ok([])
    else
      var first := ProviderOf(vs[0], last, count);
      if first.Err? then Err(first.error)
      else Prefixed(first.value, ProvidersOf(vs[1..], Some(first.value.id), count + |first.value.models|))
  }

  function Prefixed<T>(x: T, rest: Result<seq<T>, RoutingError>): Result<seq<T>, RoutingError> {
    if rest.Ok? then Ok([x] + rest.value) else rest
  }

  /** The providers a parsed payload lists, or why it is refused. */
  function PayloadOf(v: JVal): Result<seq<Provider>, RoutingError> {
    if !v.JObj? || |v.fields| != 2 then Err(InvalidProjection)
    else
      match StringField(v, "domain")
      case None => Err(InvalidJson)
      case Some(domain) =>
        if domain != PROVIDER_ROUTING_DOMAIN then Err(InvalidDomain)
        else
          match ArrayField(v, "providers")
          case None => Err(InvalidProjection)
          case Some(vs) => if |vs| > MAX_PROVIDERS then Err(InvalidProjection) else ProvidersOf(vs, None, 0)
  }

  function Fitting(text: string): Result<string, RoutingError> {
    if Utf8Len(text) > MAX_PUBLICATION_FRAME_BYTES then Err(FrameTooLarge) else Ok(text)
  }

  /** The canonical bytes of a parsed payload. */
  function PayloadText(v: JVal): Result<string, RoutingError> {
    match PayloadOf(v)
    case Err(e) => Err(e)
    case Ok(ps) => Fitting(Print(ps))
  }

  // ---------------------------------------------------------------- a payload is read as canonical data

  lemma {:induction false} LabelsAre(vs: seq<JVal>)
    requires LabelsOf(vs).Some?
    ensures var labels := LabelsOf(vs).value;
      |labels| == |vs| && forall i :: 0 <= i < |labels| ==> TextOk(labels[i]) && OneOf(labels[i], LABELS)
  {
    if vs != [] {
      LabelsAre(vs[1..]);
    }
  }

  lemma {:induction false} ModelIsOk(v: JVal)
    requires ModelOf(v).Ok?
    ensures ModelOk(ModelOf(v).value)
  {
    var vs := ArrayField(v, "capabilities").value;
    LabelsAre(vs);
  }

  lemma {:induction false} ModelsAreOk(vs: seq<JVal>, last: Option<string>, count: nat)
    requires ModelsOf(vs, last, count).Ok?
    ensures var ms := ModelsOf(vs, last, count).value;
      |ms| == |vs| && ModelsOk(ms, last) && (ms != [] ==> count + |ms| <= MAX_MODELS)
  {
    hide ModelOf, ModelOk;
    if vs != [] {
      var m := ModelOf(vs[0]).value;
      ModelIsOk(vs[0]);
      ModelsAreOk(vs[1..], Some(m.name), count + 1);
      ConsTail(m, ModelsOf(vs[1..], Some(m.name), count + 1).value);
    }
  }

  lemma {:induction false} ProviderIsOk(v: JVal, last: Option<string>, count: nat)
    requires ProviderOf(v, last, count).Ok?
    ensures var p := ProviderOf(v, last, count).value;
      ProviderOk(p) && After(last, p.id) && (p.models != [] ==> count + |p.models| <= MAX_MODELS)
  {
    ModelsAreOk(ArrayField(v, "models").value, None, count);
  }

  lemma {:induction false} ProvidersAreOk(vs: seq<JVal>, last: Option<string>, count: nat)
    requires ProvidersOf(vs, last, count).Ok? && count <= MAX_MODELS
    ensures var ps := ProvidersOf(vs, last, count).value;
      |ps| == |vs| && ProvidersOk(ps, last) && count + ModelCount(ps) <= MAX_MODELS
  {
    hide ProviderOf, ProviderOk;
    if vs != [] {
      var p := ProviderOf(vs[0], last, count).value;
      ProviderIsOk(vs[0], last, count);
      ProvidersAreOk(vs[1..], Some(p.id), count + |p.models|);
      MoreProvidersOk(p, ProvidersOf(vs[1..], Some(p.id), count + |p.models|).value, last);
    }
  }

  lemma {:induction false} MoreProvidersOk(p: Provider, ps: seq<Provider>, last: Option<string>)
    requires ProviderOk(p) && After(last, p.id) && ProvidersOk(ps, Some(p.id))
    ensures ProvidersOk([p] + ps, last) && ModelCount([p] + ps) == |p.models| + ModelCount(ps)
  {
    ConsTail(p, ps);
  }

  /** Whatever payload is accepted, it is read as sorted, bounded, duplicate-free data. */
  lemma {:induction false} AcceptedPayloadIsCanonical(v: JVal)
    requires PayloadOf(v).Ok?
    ensures Canonical(PayloadOf(v).value)
  {
    ProvidersAreOk(ArrayField(v, "providers").value, None, 0);
  }

  // ---------------------------------------------------------------- canonical data is read back

  lemma {:induction false} DecimalReadsBack(n: nat)
    requires n <= U32_MAX
    ensures AsU64(Integer(n)) == Some(n)
  {
    DecimalMeans(n);
  }

  lemma {:induction false} LabelsReadBack(labels: seq<string>)
    requires forall i :: 0 <= i < |labels| ==> TextOk(labels[i]) && OneOf(labels[i], LABELS)
    ensures LabelsOf(Strings(labels)) == Some(labels)
  {
    if labels != [] {
      assert Strings(labels)[1..] == Strings(labels[1..]);
      LabelsReadBack(labels[1..]);
      ConsSplit(labels);
    }
  }

  lemma {:induction false} ModelFields(m: Model)
    ensures var v := ModelValue(m);
      && |v.fields| == 5
      && StringField(v, "name") == Some(m.name)
      && ArrayField(v, "capabilities") == Some(Strings(m.capabilities))
      && FieldOf(v, "context_window_tokens") == Some(Integer(m.window))
      && FieldOf(v, "input_cost_weight") == Some(Integer(m.inputCost))
      && FieldOf(v, "output_cost_weight") == Some(Integer(m.outputCost))
  {
    var fields := ModelValue(m).fields;
    LookupAt(fields, 0);
    LookupAt(fields, 1);
    LookupAt(fields, 2);
    LookupAt(fields, 3);
    LookupAt(fields, 4);
  }

  lemma {:induction false} ModelReadsBack(m: Model)
    requires ModelOk(m)
    ensures ModelOf(ModelValue(m)) == Ok(m)
  {
    ModelFields(m);
    LabelsReadBack(m.capabilities);
    DecimalReadsBack(m.window);
    DecimalReadsBack(m.inputCost);
    DecimalReadsBack(m.outputCost);
  }

  lemma {:induction false} ModelsReadBack(ms: seq<Model>, last: Option<string>, count: nat)
    requires ModelsOk(ms, last) && (ms != [] ==> count + |ms| <= MAX_MODELS)
    ensures ModelsOf(ModelValues(ms), last, count) == Ok(ms)
  {
    hide ModelOf, ModelOk, ModelValue;
    if ms != [] {
      ModelReadsBack(ms[0]);
      var rest := ms[1..];
      assert ModelValues(ms)[1..] == ModelValues(rest);
      ModelsReadBack(rest, Some(ms[0].name), count + 1);
      ConsSplit(ms);
    }
  }

  lemma {:induction false} ProviderReadsBack(p: Provider, last: Option<string>, count: nat)
    requires ProviderOk(p) && After(last, p.id) && (p.models != [] ==> count + |p.models| <= MAX_MODELS)
    ensures ProviderOf(ProviderValue(p), last, count) == Ok(p)
  {
    var fields := ProviderValue(p).fields;
    LookupAt(fields, 0);
    LookupAt(fields, 1);
    ModelsReadBack(p.models, None, count);
  }

  lemma {:induction false} ProvidersReadBack(ps: seq<Provider>, last: Option<string>, count: nat)
    requires ProvidersOk(ps, last) && count + ModelCount(ps) <= MAX_MODELS
    ensures ProvidersOf(ProviderValues(ps), last, count) == Ok(ps)
  {
    hide ProviderOf, ProviderOk, ProviderValue;
    if ps != [] {
      ProviderReadsBack(ps[0], last, count);
      var rest := ps[1..];
      assert ProviderValues(ps)[1..] == ProviderValues(rest);
      ProvidersReadBack(rest, Some(ps[0].id), count + |ps[0].models|);
      ConsSplit(ps);
    }
  }

  /** Printing canonical data and canonicalising it again gives the same data. */
  lemma {:induction false} CanonicalDataReadsBack(ps: seq<Provider>)
    requires Canonical(ps)
    ensures PayloadOf(ProjectionValue(ps)) == Ok(ps)
  {
    var fields := ProjectionValue(ps).fields;
    LookupAt(fields, 0);
    LookupAt(fields, 1);
    ProvidersReadBack(ps, None, 0);
  }

  // ---------------------------------------------------------------- the text determines the data

  /** How deep a projection nests. */
  const PROJECTION_DEPTH := 6

  lemma {:induction false} ModelWrites(m: Model)
    ensures Within(ModelValue(m), 2)
  {
    hide Within, Integer, Strings;
    ScalarWithin(m.name, m.window, true, 1);
    ScalarWithin("", m.inputCost, true, 1);
    ScalarWithin("", m.outputCost, true, 1);
    StringsWithin(m.capabilities, 0);
    ObjectWithin(ModelValue(m).fields, 1);
  }

  lemma {:induction false} ProviderWrites(p: Provider)
    ensures Within(ProviderValue(p), 4)
  {
    hide Within, ModelValue;
    forall i | 0 <= i < |p.models| ensures Within(ModelValues(p.models)[i], 2) {
      ModelWrites(p.models[i]);
    }
    ScalarWithin(p.id, 0, true, 3);
    ArrayWithin(ModelValues(p.models), 2);
    ObjectWithin(ProviderValue(p).fields, 3);
  }

  lemma {:induction false} ProjectionWrites(ps: seq<Provider>)
    ensures Within(ProjectionValue(ps), PROJECTION_DEPTH)
  {
    hide Within, ProviderValue;
    forall i | 0 <= i < |ps| ensures Within(ProviderValues(ps)[i], 4) {
      ProviderWrites(ps[i]);
    }
    ScalarWithin(PROVIDER_ROUTING_DOMAIN, 0, true, 5);
    ArrayWithin(ProviderValues(ps), 4);
    ObjectWithin(ProjectionValue(ps).fields, 5);
  }

  /** The parser reads a printed projection back as the value it was printed from. */
  lemma {:induction false} PrintParses(ps: seq<Provider>, max: nat)
    requires max >= PROJECTION_DEPTH
    ensures ParseObject(Print(ps), max) == Ok(ProjectionValue(ps))
  {
    ProjectionWrites(ps);
    CompactReadsBack(ProjectionValue(ps), max);
  }

  lemma {:induction false} ModelValueIsInjective(a: Model, b: Model)
    requires ModelValue(a) == ModelValue(b)
    ensures a == b
  {
    hide ModelValue;
    ModelFields(a);
    ModelFields(b);
    DecimalMeans(a.window);
    DecimalMeans(b.window);
    DecimalMeans(a.inputCost);
    DecimalMeans(b.inputCost);
    DecimalMeans(a.outputCost);
    DecimalMeans(b.outputCost);
    assert |Strings(a.capabilities)| == |a.capabilities| == |b.capabilities|;
    forall i | 0 <= i < |a.capabilities| ensures a.capabilities[i] == b.capabilities[i] {
      assert Strings(a.capabilities)[i] == Strings(b.capabilities)[i];
    }
  }

  lemma {:induction false} ProviderValueIsInjective(a: Provider, b: Provider)
    requires ProviderValue(a) == ProviderValue(b)
    ensures a == b
  {
    hide ModelValue;
    assert ProviderValue(a).fields[0] == ProviderValue(b).fields[0];
    assert ProviderValue(a).fields[1] == ProviderValue(b).fields[1];
    var xs, ys := ModelValues(a.models), ModelValues(b.models);
    assert xs == ys && |a.models| == |xs| == |b.models|;
    forall i | 0 <= i < |a.models| ensures a.models[i] == b.models[i] {
      assert xs[i] == ys[i];
      ModelValueIsInjective(a.models[i], b.models[i]);
    }
  }

  /** Two lists with the same bytes are the same list. */
  lemma {:induction false} PrintIsInjective(a: seq<Provider>, b: seq<Provider>)
    requires Print(a) == Print(b)
    ensures a == b
  {
    hide ProviderValue;
    PrintParses(a, PROJECTION_DEPTH);
    PrintParses(b, PROJECTION_DEPTH);
    assert ProjectionValue(a).fields[1] == ProjectionValue(b).fields[1];
    var xs, ys := ProviderValues(a), ProviderValues(b);
    assert xs == ys && |a| == |xs| == |b|;
    forall i | 0 <= i < |a| ensures a[i] == b[i] {
      assert xs[i] == ys[i];
      ProviderValueIsInjective(a[i], b[i]);
    }
  }

  /** The text is accepted as a payload: it parses, and canonicalising it changes nothing. */
  ghost predicate AcceptedPayload(text: string, max: nat) {
    ParseObject(text, max).Ok? && PayloadText(ParseObject(text, max).value) == Ok(text)
  }

  ghost predicate PrintedFrom(text: string, ps: seq<Provider>) {
    Canonical(ps) && text == Print(ps) && Utf8Len(text) <= MAX_PUBLICATION_FRAME_BYTES
  }

  /** The accepted payloads are exactly the printed forms of canonical data. */
  lemma {:induction false} AcceptsExactlyPrintedProjections(text: string, max: nat)
    requires max >= PROJECTION_DEPTH
    ensures AcceptedPayload(text, max) <==> exists ps :: PrintedFrom(text, ps)
    ensures AcceptedPayload(text, max) ==> PrintedFrom(text, PayloadOf(ParseObject(text, max).value).value)
  {
    if AcceptedPayload(text, max) {
      var v := ParseObject(text, max).value;
      AcceptedPayloadIsCanonical(v);
      assert PrintedFrom(text, PayloadOf(v).value);
    }
    if ps :| PrintedFrom(text, ps) {
      PrintParses(ps, max);
      CanonicalDataReadsBack(ps);
    }
  }
}
