/**
 * The rules of the provider/routing projection spelled out field by field
 * (crates/bitty-ai-endpoint/src/provider_binding.rs:182-308 and 406-538), against which the
 * two canonicalisers are compared.
 */
module ProjectionRules {
  import opened Results
  import opened Json
  import opened JsonWriter
  import opened JsonViews
  import opened ProviderProjection
  import opened ProviderRegistry
  import opened ProviderBinding
  import Utf8

  // ---------------------------------------------------------------- text

  /** At most 128 bytes of UTF-8, at least one, none of a control character. */
  ghost predicate Plain(s: string) {
    && 0 < |Utf8.EncodeText(s)| <= 128
    && forall i :: 0 <= i < |s| ==> '\U{0020}' <= s[i] <= '\U{007E}' || '\U{00A0}' <= s[i]
  }

  lemma {:induction false} TextOkMeans(s: string)
    ensures TextOk(s) <==> Plain(s)
  {
    hide Utf8.EncodeText, Utf8Len;
    Utf8LenMeans(s);
    NothingIsEmpty(s);
  }

  lemma {:induction false} NothingIsEmpty(s: string)
    ensures Utf8.EncodeText(s) == [] <==> s == []
  {
  }

  /** The texts agree up to `k`, where `a` ends or has the smaller character. */
  predicate PartAt(a: string, b: string, k: nat) {
    k <= |a| && k < |b| && a[..k] == b[..k] && (k == |a| || a[k] < b[k])
  }

  lemma {:induction false} LessParts(a: string, b: string) returns (k: nat)
    requires Less(a, b)
    ensures PartAt(a, b, k)
  {
    if a == [] || a[0] < b[0] {
      return 0;
    }
    k := LessParts(a[1..], b[1..]);
    var n := k + 1;
    assert a[..n] == [a[0]] + a[1..][..k] && b[..n] == [b[0]] + b[1..][..k];
    k := n;
  }

  lemma {:induction false} PartsLess(a: string, b: string, k: nat)
    requires PartAt(a, b, k)
    ensures Less(a, b)
  {
    if k > 0 {
      assert a[0] == a[..k][0] == b[..k][0] == b[0];
      assert a[1..][..k - 1] == a[..k][1..] && b[1..][..k - 1] == b[..k][1..];
      PartsLess(a[1..], b[1..], k - 1);
    }
  }

  /** Texts are ordered by the first character in which they differ. */
  lemma {:induction false} LessMeans(a: string, b: string)
    ensures Less(a, b) <==> exists k: nat :: PartAt(a, b, k)
  {
    if Less(a, b) {
      var k := LessParts(a, b);
    }
    if k: nat :| PartAt(a, b, k) {
      PartsLess(a, b, k);
    }
  }

  lemma {:induction false} IncreasingPairs(s: seq<string>, i: nat, j: nat)
    requires Increasing(s) && i < j < |s|
    ensures Less(s[i], s[j])
  {
    hide Less;
    if i + 1 < j {
      IncreasingPairs(s, i, j - 1);
      LessIsTransitive(s[i], s[j - 1], s[j]);
    }
  }

  // ---------------------------------------------------------------- canonical data

  ghost predicate IsLabel(s: string) { exists c :: Label(c) == s }

  lemma {:induction false} LabelsAreCapabilities(s: string)
    ensures OneOf(s, LABELS) <==> IsLabel(s)
  {
    OneOfIsIn(s, LABELS);
    if s in LABELS {
      var k :| 0 <= k < 8 && LABELS[k] == s;
      assert s == Label([Text, Streaming, ToolUse, ImageInput, AudioInput, AudioOutput, VideoInput, Reasoning][k]);
    }
    if c :| Label(c) == s {
      LabelIsKnown(c);
    }
  }

  ghost predicate ModelRules(m: Model) {
    && Plain(m.name)
    && 1 <= |m.capabilities| <= 8
    && (forall i :: 0 <= i < |m.capabilities| ==> IsLabel(m.capabilities[i]))
    && (forall i, j :: 0 <= i < j < |m.capabilities| ==> Less(m.capabilities[i], m.capabilities[j]))
    && m.window < 0x1_0000_0000 && m.inputCost < 0x1_0000_0000 && m.outputCost < 0x1_0000_0000
  }

  ghost predicate ProviderRules(p: Provider) {
    && Plain(p.id)
    && (forall i :: 0 <= i < |p.models| ==> ModelRules(p.models[i]))
    && (forall i, j :: 0 <= i < j < |p.models| ==> Less(p.models[i].name, p.models[j].name))
  }

  ghost predicate Rules(ps: seq<Provider>) {
    && |ps| <= 32 && |Rows(ps)| <= 64
    && (forall i :: 0 <= i < |ps| ==> ProviderRules(ps[i]))
    && (forall i, j :: 0 <= i < j < |ps| ==> Less(ps[i].id, ps[j].id))
  }

  lemma {:induction false} ModelOkMeans(m: Model)
    ensures ModelOk(m) <==> ModelRules(m)
  {
    hide TextOk, Plain, IsLabel, OneOf, Less, LABELS;
    var cs := m.capabilities;
    TextOkMeans(m.name);
    forall i | 0 <= i < |cs| ensures TextOk(cs[i]) && OneOf(cs[i], LABELS) <==> IsLabel(cs[i]) {
      LabelsAreCapabilities(cs[i]);
      LabelIsText(cs[i]);
    }
    if Increasing(cs) {
      forall i, j | 0 <= i < j < |cs| ensures Less(cs[i], cs[j]) {
        IncreasingPairs(cs, i, j);
      }
    }
  }

  lemma {:induction false} LabelIsText(s: string)
    ensures IsLabel(s) ==> TextOk(s)
  {
    hide TextOk;
    if c :| Label(c) == s {
      LabelIsKnown(c);
    }
  }

  lemma {:induction false} ModelsOkMeans(ms: seq<Model>, last: Option<string>)
    ensures ModelsOk(ms, last) <==>
      && (forall i :: 0 <= i < |ms| ==> ModelOk(ms[i]))
      && (forall i, j :: 0 <= i < j < |ms| ==> Less(ms[i].name, ms[j].name))
      && (ms != [] ==> After(last, ms[0].name))
  {
    hide ModelOk, Less;
    if ModelsOk(ms, last) {
      forall i | 0 <= i < |ms| ensures ModelOk(ms[i]) {
        CanonicalModelsAreOk(ms, last, i);
      }
      forall i, j | 0 <= i < j < |ms| ensures Less(ms[i].name, ms[j].name) {
        NamesAreSorted(ms, last, i, j);
      }
    }
    if ms != [] {
      ModelsOkMeans(ms[1..], Some(ms[0].name));
    }
  }

  lemma {:induction false} CanonicalProviderIsOk(ps: seq<Provider>, last: Option<string>, i: nat)
    requires ProvidersOk(ps, last) && i < |ps|
    ensures ProviderOk(ps[i])
  {
    hide ProviderOk;
    if i > 0 {
      CanonicalProviderIsOk(ps[1..], Some(ps[0].id), i - 1);
    }
  }

  lemma {:induction false} ProvidersOkMeans(ps: seq<Provider>, last: Option<string>)
    ensures ProvidersOk(ps, last) <==>
      && (forall i :: 0 <= i < |ps| ==> ProviderOk(ps[i]))
      && (forall i, j :: 0 <= i < j < |ps| ==> Less(ps[i].id, ps[j].id))
      && (ps != [] ==> After(last, ps[0].id))
  {
    hide ProviderOk, Less;
    if ProvidersOk(ps, last) {
      forall i | 0 <= i < |ps| ensures ProviderOk(ps[i]) {
        CanonicalProviderIsOk(ps, last, i);
      }
      forall i, j | 0 <= i < j < |ps| ensures Less(ps[i].id, ps[j].id) {
        IdsAreSorted(ps, last, i, j);
      }
    }
    if ps != [] {
      ProvidersOkMeans(ps[1..], Some(ps[0].id));
    }
  }

  lemma {:induction false} ModelsAreCounted(ps: seq<Provider>, i: nat)
    requires i < |ps|
    ensures |ps[i].models| <= |Rows(ps)|
  {
    if i > 0 {
      ModelsAreCounted(ps[1..], i - 1);
    }
  }

  lemma {:induction false} ProviderOkMeans(p: Provider)
    ensures ProviderOk(p) <==> ProviderRules(p) && |p.models| <= 64
  {
    hide ModelOk, ModelRules, Less, ModelsOk, TextOk, Plain;
    TextOkMeans(p.id);
    ModelsOkMeans(p.models, None);
    forall i | 0 <= i < |p.models| ensures ModelOk(p.models[i]) <==> ModelRules(p.models[i]) {
      ModelOkMeans(p.models[i]);
    }
  }

  /** The lists a projection may stand for, rule by rule. */
  lemma {:induction false} CanonicalMeans(ps: seq<Provider>)
    ensures Canonical(ps) <==> Rules(ps)
  {
    hide ProviderOk, ProviderRules, Less, ProvidersOk, Rows, ModelCount;
    RowCount(ps);
    ProvidersOkMeans(ps, None);
    if |Rows(ps)| <= 64 {
      forall i | 0 <= i < |ps| ensures ProviderOk(ps[i]) <==> ProviderRules(ps[i]) {
        ModelsAreCounted(ps, i);
        ProviderOkMeans(ps[i]);
      }
    }
  }

  // ---------------------------------------------------------------- refused payloads

  ghost predicate Numbered(v: JVal, name: string, n: nat) {
    FieldOf(v, name).Some? && AsU64(FieldOf(v, name).value) == Some(n)
  }

  lemma {:induction false} LabelsOfMeans(vs: seq<JVal>, labels: seq<string>)
    ensures LabelsOf(vs) == Some(labels) <==>
      vs == Strings(labels) && forall i :: 0 <= i < |labels| ==> TextOk(labels[i]) && OneOf(labels[i], LABELS)
  {
    hide TextOk, OneOf, LABELS;
    if LabelsOf(vs) == Some(labels) {
      LabelsAre(vs);
      LabelsAreStrings(vs);
    }
    if vs == Strings(labels) && forall i :: 0 <= i < |labels| ==> TextOk(labels[i]) && OneOf(labels[i], LABELS) {
      LabelsReadBack(labels);
    }
  }

  lemma {:induction false} LabelsAreStrings(vs: seq<JVal>)
    requires LabelsOf(vs).Some?
    ensures vs == Strings(LabelsOf(vs).value)
  {
    hide TextOk, OneOf, LABELS;
    if vs != [] {
      LabelsAreStrings(vs[1..]);
      var rest := LabelsOf(vs[1..]).value;
      assert Strings([vs[0].text] + rest) == [vs[0]] + Strings(rest);
    }
  }

  /** A model is read exactly from its five fields, and only one refusal is not about the projection. */
  lemma {:induction false} ModelReads(v: JVal, m: Model)
    ensures ModelOf(v) == Ok(m) <==>
      && v.JObj? && |v.fields| == 5
      && StringField(v, "name") == Some(m.name)
      && ArrayField(v, "capabilities") == Some(Strings(m.capabilities))
      && Numbered(v, "context_window_tokens", m.window)
      && Numbered(v, "input_cost_weight", m.inputCost)
      && Numbered(v, "output_cost_weight", m.outputCost)
      && ModelRules(m)
    ensures ModelOf(v).Err? ==>
      ModelOf(v).error == (if v.JObj? && |v.fields| == 5 && StringField(v, "name").None? then InvalidJson else InvalidProjection)
  {
    hide FieldOf, StringField, ArrayField, LabelsOf, ModelRules, TextOk, OneOf, LABELS, Increasing;
    ModelOkMeans(m);
    var vs := ArrayField(v, "capabilities");
    if vs.Some? {
      LabelsOfMeans(vs.value, m.capabilities);
    }
  }

  /** Why a provider is refused, before its models are read. */
  lemma {:induction false} ProviderRefusals(v: JVal, last: Option<string>, count: nat)
    ensures var r, id := ProviderOf(v, last, count), StringField(v, "id");
      var shaped, models := v.JObj? && |v.fields| == 2, ArrayField(v, "models");
      && (!shaped ==> r == Err(InvalidProjection))
      && (shaped && id.None? ==> r == Err(InvalidJson))
      && (shaped && id.Some? && !Plain(id.value) ==> r == Err(InvalidProjection))
      && (shaped && id.Some? && last.Some? && !Less(last.value, id.value) ==> r == Err(InvalidProjection))
      && (shaped && id.Some? && (models.None? || |models.value| > 64) ==> r == Err(InvalidProjection))
      && (r.Ok? ==> r.value.id == id.value && models.Some? && ModelsOf(models.value, None, count) == Ok(r.value.models))
  {
    hide StringField, ArrayField, ModelsOf, TextOk, Plain, Less;
    var id := StringField(v, "id");
    if id.Some? {
      TextOkMeans(id.value);
    }
  }

  /** Why a payload is refused, before its providers are read. */
  lemma {:induction false} PayloadRefusals(v: JVal)
    ensures var r, domain := PayloadOf(v), StringField(v, "domain");
      var shaped, providers := v.JObj? && |v.fields| == 2, ArrayField(v, "providers");
      && (!shaped ==> r == Err(InvalidProjection))
      && (shaped && domain.None? ==> r == Err(InvalidJson))
      && (shaped && domain.Some? && domain.value != "provider-routing" ==> r == Err(InvalidDomain))
      && (shaped && domain == Some("provider-routing") && (providers.None? || |providers.value| > 32) ==>
            r == Err(InvalidProjection))
      && (r.Ok? ==> providers.Some? && |r.value| == |providers.value| && ProvidersOf(providers.value, None, 0) == r)
  {
    hide StringField, ArrayField, ProvidersOf;
    var providers := ArrayField(v, "providers");
    if PayloadOf(v).Ok? {
      ProvidersAreOk(providers.value, None, 0);
    }
  }

  /** The error is that of the first provider refused. */
  lemma {:induction false} FirstBadProvider(ps: seq<Provider>, last: Option<string>, count: nat, v: JVal, rest: seq<JVal>)
    requires ProvidersOk(ps, last) && count + ModelCount(ps) <= 64
    requires ProviderOf(v, if ps == [] then last else Some(ps[|ps| - 1].id), count + ModelCount(ps)).Err?
    ensures ProvidersOf(ProviderValues(ps) + [v] + rest, last, count)
      == Err(ProviderOf(v, if ps == [] then last else Some(ps[|ps| - 1].id), count + ModelCount(ps)).error)
  {
    hide ProviderOf, ProviderOk, ProviderValue;
    var vs := ProviderValues(ps) + [v] + rest;
    if ps == [] {
      assert vs[0] == v;
    } else {
      ProviderReadsBack(ps[0], last, count);
      FirstBadProvider(ps[1..], Some(ps[0].id), count + |ps[0].models|, v, rest);
      assert vs[0] == ProviderValue(ps[0]) && vs[1..] == ProviderValues(ps[1..]) + [v] + rest;
    }
  }

  // ---------------------------------------------------------------- the registry

  lemma {:induction false} LabelIsInjective(a: Capability, b: Capability)
    requires Label(a) == Label(b)
    ensures a == b
  {
    assert |Label(a)| == |Label(b)| && Label(a)[0] == Label(b)[0];
  }

  lemma {:induction false} TwiceCounts<T>(s: seq<T>, i: nat, j: nat)
    requires i < j < |s| && s[i] == s[j]
    ensures multiset(s)[s[i]] >= 2
  {
    assert s == s[..j] + [s[j]] + s[j + 1..];
    assert s[..j][i] == s[i] && s[i] in multiset(s[..j]);
  }

  lemma {:induction false} CountedTwice<T>(s: seq<T>, x: T) returns (i: nat, j: nat)
    requires multiset(s)[x] >= 2
    ensures i < j < |s| && s[i] == x && s[j] == x
  {
    assert s == [s[0]] + s[1..];
    if s[0] == x {
      assert x in multiset(s[1..]);
      var k :| 0 <= k < |s[1..]| && s[1..][k] == x;
      return 0, k + 1;
    }
    i, j := CountedTwice(s[1..], x);
    i, j := i + 1, j + 1;
  }

  /** The check on sorted labels finds exactly a capability listed twice. */
  lemma {:induction false} RepeatsAreFound(cs: seq<Capability>)
    ensures NoRepeat(SortedLabels(cs)) <==> forall i, j :: 0 <= i < j < |cs| ==> cs[i] != cs[j]
  {
    hide Label, Less, SortedLabels;
    var s, labels := SortedLabels(cs), Labels(cs);
    LabelsAreSorted(cs);
    NoRepeatIsIncreasing(cs);
    if NoRepeat(s) {
      forall i, j | 0 <= i < j < |cs| ensures cs[i] != cs[j] {
        if cs[i] == cs[j] {
          TwiceCounts(labels, i, j);
          var p, q := CountedTwice(s, labels[i]);
          IncreasingPairs(s, p, q);
          NotLessItself(s[p]);
        }
      }
    } else {
      var i :| 0 < i < |s| && s[i - 1] == s[i];
      TwiceCounts(s, i - 1, i);
      var p, q := CountedTwice(labels, s[i]);
      LabelIsInjective(cs[p], cs[q]);
    }
  }

  /** A row shows its entry: every field under its own name, the capabilities sorted. */
  lemma {:induction false} RowsShowEntries(entries: seq<Entry>, i: nat)
    requires i < |entries|
    ensures |RowsOf(entries)| == |entries|
    ensures var row, e := RowsOf(entries)[i], entries[i];
      && row.id == e.provider && row.model.name == e.name && row.model.window == e.window
      && row.model.inputCost == e.inputCost && row.model.outputCost == e.outputCost
      && Ordered(row.model.capabilities) && multiset(row.model.capabilities) == multiset(Labels(e.capabilities))
  {
    hide SortedLabels, Label;
    LabelsAreSorted(entries[i].capabilities);
  }

  /** Neighbouring groups belong to different providers. */
  lemma {:induction false} GroupsAreApart(rows: seq<Row>, i: nat)
    requires i + 1 < |Grouped(rows)|
    ensures Grouped(rows)[i].id != Grouped(rows)[i + 1].id
    decreases |rows|
  {
    var n := Run(rows, rows[0].id);
    if i > 0 {
      GroupsAreApart(rows[n..], i - 1);
    }
  }

  /** Which registries are projected, to what, and which refusal the others get. */
  lemma {:induction false} RegistryRules(entries: seq<Entry>)
    ensures var ps := Grouped(RowsOf(entries));
      var ok := |entries| <= 64 && |ps| <= 32 && forall i :: 0 <= i < |entries| ==> EntryRules(entries[i]);
      && (!ok ==> RegistryText(entries) == Err(InvalidProjection))
      && (ok && |Utf8.EncodeText(Print(ps))| > 262144 ==> RegistryText(entries) == Err(FrameTooLarge))
      && (ok && |Utf8.EncodeText(Print(ps))| <= 262144 ==> RegistryText(entries) == Ok(Print(ps)))
  {
    hide EntryOk, EntryRules, Grouped, RowsOf, Print, Utf8Len, Utf8.EncodeText;
    Utf8LenMeans(Print(Grouped(RowsOf(entries))));
    forall i | 0 <= i < |entries| ensures EntryOk(entries[i]) <==> EntryRules(entries[i]) {
      EntryOkMeans(entries[i]);
    }
  }

  ghost predicate EntryRules(e: Entry) {
    && Plain(e.provider) && Plain(e.name) && |e.capabilities| <= 8
    && forall i, j :: 0 <= i < j < |e.capabilities| ==> e.capabilities[i] != e.capabilities[j]
  }

  lemma {:induction false} EntryOkMeans(e: Entry)
    ensures EntryOk(e) <==> EntryRules(e)
  {
    hide TextOk, Plain, SortedLabels, NoRepeat;
    TextOkMeans(e.provider);
    TextOkMeans(e.name);
    RepeatsAreFound(e.capabilities);
  }
}
