/**
 * The runtime registry's models as the projection sees them: entries sorted by provider and
 * name, grouped into providers (crates/bitty-ai-endpoint/src/provider_binding.rs:182-264).
 */
module ProviderRegistry {
  import opened Results
  import opened JsonViews
  import opened ProviderProjection

  datatype Capability = Text | Streaming | ToolUse | ImageInput | AudioInput | AudioOutput | VideoInput | Reasoning

  datatype Entry = Entry(
    provider: string, name: string, capabilities: seq<Capability>, window: nat, inputCost: nat, outputCost: nat)

  function Label(c: Capability): string {
    match c
    case Text => "text"
    case Streaming => "streaming"
    case ToolUse => "tool_use"
    case ImageInput => "image_input"
    case AudioInput => "audio_input"
    case AudioOutput => "audio_output"
    case VideoInput => "video_input"
    case Reasoning => "reasoning"
  }

  // ---------------------------------------------------------------- sorted labels

  function Insert(x: string, sorted: seq<string>): seq<string> {
    if sorted == [] || !Less(sorted[0], x) then [x] + sorted else [sorted[0]] + Insert(x, sorted[1..])
  }

  /** The capability labels in order. */
  function SortedLabels(cs: seq<Capability>): (labels: seq<string>)
    ensures |labels| == |cs|
  {
    if cs == [] then [] else
      InsertGrows(Label(cs[0]), SortedLabels(cs[1..]));
      Insert(Label(cs[0]), SortedLabels(cs[1..]))
  }

  lemma {:induction false} InsertGrows(x: string, sorted: seq<string>)
    ensures |Insert(x, sorted)| == |sorted| + 1 && multiset(Insert(x, sorted)) == multiset(sorted) + multiset{x}
    ensures Insert(x, sorted)[0] == x || (sorted != [] && Insert(x, sorted)[0] == sorted[0])
  {
    if sorted != [] {
      ConsSplit(sorted);
      if Less(sorted[0], x) {
        InsertGrows(x, sorted[1..]);
        assert multiset(Insert(x, sorted)) == multiset{sorted[0]} + multiset(Insert(x, sorted[1..]));
        assert multiset(sorted) == multiset{sorted[0]} + multiset(sorted[1..]);
      }
    }
  }

  /** In order, repeats allowed. */
  ghost predicate Ordered(s: seq<string>) {
    |s| < 2 || (!Less(s[1], s[0]) && Ordered(s[1..]))
  }

  lemma {:induction false} InsertKeepsOrder(x: string, sorted: seq<string>)
    requires Ordered(sorted)
    ensures Ordered(Insert(x, sorted))
  {
    if sorted == [] {
    } else if Less(sorted[0], x) {
      LessIsTotal(sorted[0], x);
      InsertGrows(x, sorted[1..]);
      InsertKeepsOrder(x, sorted[1..]);
      ConsTail(sorted[0], Insert(x, sorted[1..]));
    } else {
      ConsTail(x, sorted);
    }
  }

  function Labels(cs: seq<Capability>): seq<string> {
    seq(|cs|, i requires 0 <= i < |cs| => Label(cs[i]))
  }

  lemma {:induction false} LabelsSplit(cs: seq<Capability>)
    requires cs != []
    ensures Labels(cs) == [Label(cs[0])] + Labels(cs[1..])
  {
    hide Label;
  }

  /** `sort_unstable`: the same labels, in order. */
  lemma {:induction false} LabelsAreSorted(cs: seq<Capability>)
    ensures Ordered(SortedLabels(cs))
    ensures multiset(SortedLabels(cs)) == multiset(Labels(cs))
  {
    hide Label, Less;
    if cs != [] {
      var rest := cs[1..];
      LabelsAreSorted(rest);
      InsertKeepsOrder(Label(cs[0]), SortedLabels(rest));
      InsertGrows(Label(cs[0]), SortedLabels(rest));
      LabelsSplit(cs);
    }
  }

  predicate NoRepeat(s: seq<string>) {
    forall i :: 0 < i < |s| ==> s[i - 1] != s[i]
  }

  lemma {:induction false} OrderedAt(s: seq<string>, i: nat)
    requires Ordered(s) && 0 < i < |s|
    ensures !Less(s[i], s[i - 1])
  {
    if i > 1 {
      OrderedAt(s[1..], i - 1);
    }
  }

  /** Sorted labels without a repeat are strictly increasing. */
  lemma {:induction false} NoRepeatIsIncreasing(cs: seq<Capability>)
    ensures NoRepeat(SortedLabels(cs)) <==> Increasing(SortedLabels(cs))
  {
    var s := SortedLabels(cs);
    LabelsAreSorted(cs);
    forall i | 0 < i < |s| ensures s[i - 1] != s[i] <==> Less(s[i - 1], s[i]) {
      OrderedAt(s, i);
      LessIsTotal(s[i - 1], s[i]);
      NotLessItself(s[i]);
    }
  }

  lemma {:induction false} LabelIsKnown(c: Capability)
    ensures TextOk(Label(c)) && OneOf(Label(c), LABELS)
  {
    var k := match c
      case Text => 0 case Streaming => 1 case ToolUse => 2 case ImageInput => 3
      case AudioInput => 4 case AudioOutput => 5 case VideoInput => 6 case Reasoning => 7;
    WordIsOneOf(LABELS, k);
    AsciiLength(Label(c));
  }

  lemma {:induction false} AsciiLength(s: string)
    requires forall i :: 0 <= i < |s| ==> s[i] < '\U{0080}'
    ensures Utf8Len(s) == |s|
  {
    if s != [] {
      AsciiLength(s[..|s| - 1]);
    }
  }

  lemma {:induction false} SortedLabelsAreKnown(cs: seq<Capability>, i: nat)
    requires i < |cs|
    ensures TextOk(SortedLabels(cs)[i]) && OneOf(SortedLabels(cs)[i], LABELS)
  {
    var all := Labels(cs);
    LabelsAreSorted(cs);
    assert SortedLabels(cs)[i] in multiset(SortedLabels(cs));
    assert SortedLabels(cs)[i] in all;
    var k :| 0 <= k < |cs| && all[k] == SortedLabels(cs)[i];
    LabelIsKnown(cs[k]);
  }

  // ---------------------------------------------------------------- rows and groups

  /** One model and the provider it belongs to. */
  datatype Row = Row(id: string, model: Model)

  function ModelFrom(e: Entry): Model {
    Model(e.name, SortedLabels(e.capabilities), e.window, e.inputCost, e.outputCost)
  }

  function RowsOf(entries: seq<Entry>): seq<Row> {
    seq(|entries|, i requires 0 <= i < |entries| => Row(entries[i].provider, ModelFrom(entries[i])))
  }

  function Models(rows: seq<Row>): seq<Model> {
    seq(|rows|, i requires 0 <= i < |rows| => rows[i].model)
  }

  /** How many leading rows belong to `id`. */
  function Run(rows: seq<Row>, id: string): (n: nat)
    ensures n <= |rows| && (forall i :: 0 <= i < n ==> rows[i].id == id) && (n < |rows| ==> rows[n].id != id)
  {
    if rows != [] && rows[0].id == id then 1 + Run(rows[1..], id) else 0
  }

  /** Neighbouring rows of one provider, gathered. */
  function Grouped(rows: seq<Row>): seq<Provider>
    decreases |rows|
  {
    if rows == [] then []
    else
      var n := Run(rows, rows[0].id);
      [Provider(rows[0].id, Models(rows[..n]))] + Grouped(rows[n..])
  }

  lemma {:induction false} RunIs(rows: seq<Row>, id: string, n: nat)
    requires n <= |rows| && (forall i :: 0 <= i < n ==> rows[i].id == id) && (n < |rows| ==> rows[n].id != id)
    ensures Run(rows, id) == n
  {
  }

  lemma {:induction false} GroupedFrom(rows: seq<Row>, start: nat, next: nat)
    requires start < next <= |rows| && forall k :: start <= k < next ==> rows[k].id == rows[start].id
    requires next < |rows| ==> rows[next].id != rows[start].id
    ensures Grouped(rows[start..]) == [Provider(rows[start].id, Models(rows[start..next]))] + Grouped(rows[next..])
  {
    var tail := rows[start..];
    RunIs(tail, rows[start].id, next - start);
    assert tail[..next - start] == rows[start..next] && tail[next - start..] == rows[next..];
  }

  // ---------------------------------------------------------------- what is projected

  predicate EntryOk(e: Entry) {
    TextOk(e.provider) && TextOk(e.name) && |e.capabilities| <= MAX_CAPABILITIES && NoRepeat(SortedLabels(e.capabilities))
  }

  predicate EntriesOk(entries: seq<Entry>) {
    |entries| <= MAX_MODELS && (forall i :: 0 <= i < |entries| ==> EntryOk(entries[i]))
    && |Grouped(RowsOf(entries))| <= MAX_PROVIDERS
  }

  /** The canonical bytes of the registry. */
  function RegistryText(entries: seq<Entry>): Result<string, RoutingError> {
    if EntriesOk(entries) then Fitting(Print(Grouped(RowsOf(entries)))) else Err(InvalidProjection)
  }
}
