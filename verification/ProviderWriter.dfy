/**
 * The two loops that grow a projection's bytes: `project_registry` over the sorted entries of
 * the runtime registry and `project_payload` over a parsed payload
 * (crates/bitty-ai-endpoint/src/provider_binding.rs:182-264 and 406-537).
 */
module ProviderWriter {
  import opened Results
  import opened Json
  import opened JsonWriter
  import opened JsonBuffer
  import opened JsonViews
  import opened ProviderProjection
  import opened ProviderRegistry

  // ---------------------------------------------------------------- one model

  /** The buffer up to the capability list of a model. */
  function ModelOpen(out: string, name: string): string {
    out + "{" + KeyText("name") + Quote(name) + "," + KeyText("capabilities") + "["
  }

  /** The buffer after the capability list is closed. */
  function ModelClose(out: string, m: Model): string {
    out + "]" + "," + KeyText("context_window_tokens") + Decimal(m.window) + "," + KeyText("input_cost_weight")
    + Decimal(m.inputCost) + "," + KeyText("output_cost_weight") + Decimal(m.outputCost) + "}"
  }

  lemma {:induction false} PlainModelKeys()
    ensures PlainKey("name") && PlainKey("capabilities") && PlainKey("context_window_tokens")
    ensures PlainKey("input_cost_weight") && PlainKey("output_cost_weight")
  {
  }

  lemma {:induction false} ModelKeys(m: Model)
    ensures forall i :: 0 <= i < 5 ==> PlainKey(ModelValue(m).fields[i].key)
  {
    hide PlainKey, Integer;
    PlainModelKeys();
  }

  lemma {:induction false} ModelEmits(out: string, m: Model)
    ensures ModelClose(EmitItems(ModelOpen(out, m.name), Strings(m.capabilities)), m) == Emit(out, ModelValue(m))
  {
    hide Quote, KeyText, Decimal, EmitItems, EmitFields, Compact, Strings, Emit, PlainKey;
    ModelKeys(m);
    var fields := ModelValue(m).fields;
    var first := out + "{";
    var one := NextField(first, [], fields[0]);
    var two := NextField(first, one, fields[1]);
    var three := NextField(first, two, fields[2]);
    var four := NextField(first, three, fields[3]);
    var five := NextField(first, four, fields[4]);
    assert five == fields && one == [fields[0]];
    var a := FirstEmits(first, fields[0], m.name);
    ContainerEmits(out, [], fields);
    ContainerEmits(a + "," + KeyText("capabilities"), Strings(m.capabilities), []);
    var b := EmitFields(first, two);
    ScalarEmits(b + "," + KeyText("context_window_tokens"), "", m.window);
    var c := EmitFields(first, three);
    ScalarEmits(c + "," + KeyText("input_cost_weight"), "", m.inputCost);
    var d := EmitFields(first, four);
    ScalarEmits(d + "," + KeyText("output_cost_weight"), "", m.outputCost);
  }

  lemma {:induction false} NothingEmitted(out: string)
    ensures EmitItems(out, Strings([])) == out && EmitItems(out, ModelValues([])) == out
  {
  }

  method AppendModel(buffer: string, m: Model) returns (out: string)
    ensures out == Emit(buffer, ModelValue(m))
  {
    hide Quote, KeyText, Decimal, EmitItems, Emit, ModelValue;
    out := buffer + "{" + KeyText("name");
    out := AppendJsonString(out, m.name);
    out := out + "," + KeyText("capabilities") + "[";
    ghost var listed := out;
    NothingEmitted(listed);
    for i := 0 to |m.capabilities|
      invariant out == EmitItems(listed, Strings(m.capabilities[..i]))
    {
      EmitItemsAppend(listed, Strings(m.capabilities[..i]), JStr(m.capabilities[i]));
      assert Strings(m.capabilities[..i]) + [JStr(m.capabilities[i])] == Strings(m.capabilities[..i + 1]);
      ScalarEmits(Comma(out, i), m.capabilities[i], 0);
      if i > 0 {
        out := out + ",";
      }
      out := AppendJsonString(out, m.capabilities[i]);
    }
    assert m.capabilities[..|m.capabilities|] == m.capabilities;
    out := out + "]" + "," + KeyText("context_window_tokens") + Decimal(m.window);
    out := out + "," + KeyText("input_cost_weight") + Decimal(m.inputCost);
    out := out + "," + KeyText("output_cost_weight") + Decimal(m.outputCost) + "}";
    ModelEmits(buffer, m);
  }

  // ---------------------------------------------------------------- providers and the whole

  function ProviderOpen(out: string, id: string): string {
    out + "{" + KeyText("id") + Quote(id) + "," + KeyText("models") + "["
  }

  lemma {:induction false} ProviderEmits(out: string, p: Provider)
    ensures EmitItems(ProviderOpen(out, p.id), ModelValues(p.models)) + "]" + "}" == Emit(out, ProviderValue(p))
  {
    hide Quote, KeyText, EmitItems;
    var fields := ProviderValue(p).fields;
    var one := NextField(out + "{", [], fields[0]);
    var two := NextField(out + "{", one, fields[1]);
    assert two == fields;
  }

  const HEAD: string :=
    "{" + KeyText("domain") + Quote(PROVIDER_ROUTING_DOMAIN) + "," + KeyText("providers") + "["

  lemma {:induction false} ProjectionEmits(ps: seq<Provider>)
    ensures EmitItems(HEAD, ProviderValues(ps)) + "]" + "}" == Print(ps)
  {
    hide Quote, KeyText, EmitItems;
    var fields := ProjectionValue(ps).fields;
    var one := NextField("{", [], fields[0]);
    var two := NextField("{", one, fields[1]);
    assert two == fields;
    assert "" + "{" == "{";
    EmitAppends("", ProjectionValue(ps));
    assert "" + Print(ps) == Print(ps);
  }

  /** One more provider or model after those already in the buffer. */
  lemma {:induction false} NextModel(out: string, ms: seq<Model>, m: Model)
    ensures EmitItems(out, ModelValues(ms + [m])) == Emit(Comma(EmitItems(out, ModelValues(ms)), |ms|), ModelValue(m))
  {
    hide ModelValue, Emit, EmitItems, Comma;
    EmitItemsAppend(out, ModelValues(ms), ModelValue(m));
    assert ModelValues(ms + [m]) == ModelValues(ms) + [ModelValue(m)];
  }

  lemma {:induction false} NextProvider(out: string, ps: seq<Provider>, p: Provider)
    ensures EmitItems(out, ProviderValues(ps + [p])) == Emit(Comma(EmitItems(out, ProviderValues(ps)), |ps|), ProviderValue(p))
  {
    hide ProviderValue, Emit, EmitItems, Comma;
    EmitItemsAppend(out, ProviderValues(ps), ProviderValue(p));
    assert ProviderValues(ps + [p]) == ProviderValues(ps) + [ProviderValue(p)];
  }

  // ---------------------------------------------------------------- from the registry

  method CheckEntries(entries: seq<Entry>) returns (ok: bool)
    ensures ok == forall i :: 0 <= i < |entries| ==> EntryOk(entries[i])
  {
    for i := 0 to |entries|
      invariant forall j :: 0 <= j < i ==> EntryOk(entries[j])
    {
      if !EntryOk(entries[i]) {
        return false;
      }
    }
    return true;
  }

  /** The models of one provider, appended in order. */
  method AppendEntries(buffer: string, entries: seq<Entry>) returns (out: string)
    ensures out == EmitItems(buffer, ModelValues(Models(RowsOf(entries))))
  {
    hide ModelValue, ModelFrom, EmitItems, ModelValues;
    out := buffer;
    NothingEmitted(buffer);
    assert Models(RowsOf(entries[..0])) == [];
    for i := 0 to |entries|
      invariant out == EmitItems(buffer, ModelValues(Models(RowsOf(entries[..i]))))
    {
      var m := ModelFrom(entries[i]);
      NextModel(buffer, Models(RowsOf(entries[..i])), m);
      assert Models(RowsOf(entries[..i + 1])) == Models(RowsOf(entries[..i])) + [m];
      if i > 0 {
        out := out + ",";
      }
      out := AppendModel(out, m);
    }
    assert entries[..|entries|] == entries;
  }

  method ProjectRegistry(entries: seq<Entry>) returns (r: Result<string, RoutingError>)
    ensures r == RegistryText(entries)
  {
    hide EntryOk, Grouped, Fitting, Print, KeyText, Quote, EmitItems, ModelFrom, ProviderValues, HEAD;
    if |entries| > MAX_MODELS {
      return Err(InvalidProjection);
    }
    var ok := CheckEntries(entries);
    if !ok {
      return Err(InvalidProjection);
    }
    var rows := RowsOf(entries);
    var out := HEAD;
    var next := 0;
    ghost var done: seq<Provider> := [];
    var count := 0;
    NothingYet(rows);
    while next < |entries|
      invariant 0 <= next <= |entries| && count == |done| <= MAX_PROVIDERS
      invariant Grouped(rows) == done + Grouped(rows[next..])
      invariant out == EmitItems(HEAD, ProviderValues(done))
    {
      var start := next;
      var id := entries[start].provider;
      while next < |entries| && entries[next].provider == id
        invariant start <= next <= |entries|
        invariant forall k :: start <= k < next ==> entries[k].provider == id
      {
        next := next + 1;
      }
      GroupedFrom(rows, start, next);
      ghost var p := Provider(id, Models(rows[start..next]));
      GroupsShift(done, p, Grouped(rows[next..]));
      if count >= MAX_PROVIDERS || next - start > MAX_MODELS {
        return Err(InvalidProjection);
      }
      NextProvider(HEAD, done, p);
      if count > 0 {
        out := out + ",";
      }
      ProviderEmits(out, p);
      out := out + "{" + KeyText("id");
      out := AppendJsonString(out, id);
      out := out + "," + KeyText("models") + "[";
      out := AppendEntries(out, entries[start..next]);
      assert RowsOf(entries[start..next]) == rows[start..next];
      out := out + "]" + "}";
      done := done + [p];
      count := count + 1;
    }
    NothingLeft(rows, done);
    out := out + "]" + "}";
    ProjectionEmits(done);
    r := Fitting(out);
  }

  lemma {:induction false} NoProviders()
    ensures EmitItems(HEAD, ProviderValues([])) == HEAD
  {
    hide HEAD;
  }

  lemma {:induction false} NothingYet(rows: seq<Row>)
    ensures EmitItems(HEAD, ProviderValues([])) == HEAD && Grouped(rows) == [] + Grouped(rows[0..])
  {
    hide HEAD, Grouped;
    assert rows[0..] == rows && [] + Grouped(rows) == Grouped(rows);
  }

  lemma {:induction false} NothingLeft(rows: seq<Row>, done: seq<Provider>)
    ensures done + Grouped(rows[|rows|..]) == done
  {
    assert rows[|rows|..] == [] && done + [] == done;
  }

  lemma {:induction false} GroupsShift(done: seq<Provider>, p: Provider, rest: seq<Provider>)
    ensures done + ([p] + rest) == done + [p] + rest && |done + ([p] + rest)| > |done|
  {
  }

  // ---------------------------------------------------------------- from a payload

  ghost function Onto<T>(done: seq<T>, rest: Result<seq<T>, RoutingError>): Result<seq<T>, RoutingError> {
    if rest.Ok? then Ok(done + rest.value) else rest
  }

  lemma {:induction false} OntoNext<T>(done: seq<T>, x: T, rest: Result<seq<T>, RoutingError>)
    ensures Onto(done, Prefixed(x, rest)) == Onto(done + [x], rest)
  {
    if rest.Ok? {
      assert done + ([x] + rest.value) == done + [x] + rest.value;
    }
  }

  lemma {:induction false} OntoNothing<T>(rest: Result<seq<T>, RoutingError>)
    ensures Onto([], rest) == rest
  {
    if rest.Ok? {
      assert [] + rest.value == rest.value;
    }
  }

  method ReadLabels(vs: seq<JVal>) returns (r: Option<seq<string>>)
    ensures r == LabelsOf(vs)
  {
    hide TextOk, OneOf;
    var labels := [];
    assert vs[0..] == vs && (LabelsOf(vs).Some? ==> [] + LabelsOf(vs).value == LabelsOf(vs).value);
    for i := 0 to |vs|
      invariant LabelsOf(vs) == if LabelsOf(vs[i..]).Some? then Some(labels + LabelsOf(vs[i..]).value) else None
    {
      assert vs[i..][1..] == vs[i + 1..];
      var v := vs[i];
      if !v.JStr? || !TextOk(v.text) || !OneOf(v.text, LABELS) {
        return None;
      }
      ghost var rest := LabelsOf(vs[i + 1..]);
      assert rest.Some? ==> labels + ([v.text] + rest.value) == labels + [v.text] + rest.value;
      labels := labels + [v.text];
    }
    assert vs[|vs|..] == [] && labels + [] == labels;
    return Some(labels);
  }

  method ReadModel(v: JVal) returns (r: Result<Model, RoutingError>)
    ensures r == ModelOf(v)
  {
    hide StringField, ArrayField, IntegerField, TextOk, LabelsOf;
    if !v.JObj? || |v.fields| != 5 {
      return Err(InvalidProjection);
    }
    var name := StringField(v, "name");
    if name.None? {
      return Err(InvalidJson);
    }
    if !TextOk(name.value) {
      return Err(InvalidProjection);
    }
    var capabilities := ArrayField(v, "capabilities");
    if capabilities.None? || |capabilities.value| == 0 || |capabilities.value| > MAX_CAPABILITIES {
      return Err(InvalidProjection);
    }
    var labels := ReadLabels(capabilities.value);
    if labels.None? || !Increasing(labels.value) {
      return Err(InvalidProjection);
    }
    var window := IntegerField(v, "context_window_tokens");
    var inputCost := IntegerField(v, "input_cost_weight");
    var outputCost := IntegerField(v, "output_cost_weight");
    if window.None? || inputCost.None? || outputCost.None? {
      return Err(InvalidProjection);
    }
    return Ok(Model(name.value, labels.value, window.value, inputCost.value, outputCost.value));
  }

  method ProjectModels(buffer: string, vs: seq<JVal>, before: nat)
    returns (r: Result<string, RoutingError>, count: nat)
    ensures var spec := ModelsOf(vs, None, before);
      if spec.Err? then r == Err(spec.error)
      else r == Ok(EmitItems(buffer, ModelValues(spec.value))) && count == before + |spec.value|
  {
    hide ModelOf, ModelValue, ModelValues, EmitItems;
    NothingEmitted(buffer);
    var out := buffer;
    var last: Option<string> := None;
    count := before;
    ghost var done: seq<Model> := [];
    OntoNothing(ModelsOf(vs, None, before));
    assert vs[0..] == vs;
    for i := 0 to |vs|
      invariant count == before + i && |done| == i
      invariant ModelsOf(vs, None, before) == Onto(done, ModelsOf(vs[i..], last, count))
      invariant out == EmitItems(buffer, ModelValues(done))
    {
      assert vs[i..][1..] == vs[i + 1..];
      count := count + 1;
      if count > MAX_MODELS {
        return Err(InvalidProjection), count;
      }
      var m := ReadModel(vs[i]);
      if m.Err? {
        return Err(m.error), count;
      }
      if last.Some? && !Less(last.value, m.value.name) {
        return Err(InvalidProjection), count;
      }
      OntoNext(done, m.value, ModelsOf(vs[i + 1..], Some(m.value.name), count));
      NextModel(buffer, done, m.value);
      last := Some(m.value.name);
      if i > 0 {
        out := out + ",";
      }
      out := AppendModel(out, m.value);
      done := done + [m.value];
    }
    assert vs[|vs|..] == [] && done + [] == done;
    return Ok(out), count;
  }

  method ProjectProvider(buffer: string, v: JVal, last: Option<string>, before: nat)
    returns (r: Result<(string, string), RoutingError>, count: nat)
    ensures var spec := ProviderOf(v, last, before);
      if spec.Err? then r == Err(spec.error)
      else r == Ok((Emit(buffer, ProviderValue(spec.value)), spec.value.id)) && count == before + |spec.value.models|
  {
    hide StringField, ArrayField, TextOk, ModelsOf, Quote, KeyText;
    count := before;
    if !v.JObj? || |v.fields| != 2 {
      return Err(InvalidProjection), count;
    }
    var id := StringField(v, "id");
    if id.None? {
      return Err(InvalidJson), count;
    }
    if !TextOk(id.value) || (last.Some? && !Less(last.value, id.value)) {
      return Err(InvalidProjection), count;
    }
    var models := ArrayField(v, "models");
    if models.None? || |models.value| > MAX_MODELS {
      return Err(InvalidProjection), count;
    }
    var out := buffer + "{" + KeyText("id");
    out := AppendJsonString(out, id.value);
    out := out + "," + KeyText("models") + "[";
    var more: Result<string, RoutingError>;
    more, count := ProjectModels(out, models.value, before);
    if more.Err? {
      return Err(more.error), count;
    }
    ghost var p := ProviderOf(v, last, before).value;
    ProviderEmits(buffer, p);
    return Ok((more.value + "]" + "}", id.value)), count;
  }

  method ProjectProviders(vs: seq<JVal>) returns (r: Result<string, RoutingError>)
    ensures var spec := ProvidersOf(vs, None, 0);
      if spec.Err? then r == Err(spec.error) else r == Ok(EmitItems(HEAD, ProviderValues(spec.value)))
  {
    hide ProviderOf, ProviderValue, HEAD, ProviderValues, EmitItems;
    NoProviders();
    var out := HEAD;
    var last: Option<string> := None;
    var count := 0;
    ghost var done: seq<Provider> := [];
    OntoNothing(ProvidersOf(vs, None, 0));
    assert vs[0..] == vs;
    for i := 0 to |vs|
      invariant |done| == i
      invariant ProvidersOf(vs, None, 0) == Onto(done, ProvidersOf(vs[i..], last, count))
      invariant out == EmitItems(HEAD, ProviderValues(done))
    {
      assert vs[i..][1..] == vs[i + 1..];
      ghost var p := ProviderOf(vs[i], last, count);
      if i > 0 {
        out := out + ",";
      }
      var more, counted := ProjectProvider(out, vs[i], last, count);
      if more.Err? {
        return Err(more.error);
      }
      count := counted;
      OntoNext(done, p.value, ProvidersOf(vs[i + 1..], Some(p.value.id), count));
      NextProvider(HEAD, done, p.value);
      out := more.value.0;
      last := Some(more.value.1);
      done := done + [p.value];
    }
    assert vs[|vs|..] == [] && done + [] == done;
    return Ok(out);
  }

  method ProjectPayload(v: JVal) returns (r: Result<string, RoutingError>)
    ensures r == PayloadText(v)
  {
    hide StringField, ArrayField, ProvidersOf, Utf8Len, Print;
    if !v.JObj? || |v.fields| != 2 {
      return Err(InvalidProjection);
    }
    var domain := StringField(v, "domain");
    if domain.None? {
      return Err(InvalidJson);
    }
    if domain.value != PROVIDER_ROUTING_DOMAIN {
      return Err(InvalidDomain);
    }
    var providers := ArrayField(v, "providers");
    if providers.None? || |providers.value| > MAX_PROVIDERS {
      return Err(InvalidProjection);
    }
    var out := ProjectProviders(providers.value);
    if out.Err? {
      return Err(out.error);
    }
    ProjectionEmits(PayloadOf(v).value);
    r := Fitting(out.value + "]" + "}");
  }
}
