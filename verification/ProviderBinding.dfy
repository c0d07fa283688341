/**
 * When the registry's bytes equal published bytes: the comparison at the heart of
 * `bind_provider_routing` (crates/bitty-ai-endpoint/src/metadata_publication.rs:411-440)
 * stated over the data on both sides.
 */
module ProviderBinding {
  import opened Bytes
  import opened Results
  import opened JsonViews
  import opened ProviderProjection
  import opened ProviderRegistry

  /** What the runtime registry promises of `entries()`: 32-bit numbers, strictly sorted. */
  predicate Registered(entries: seq<Entry>) {
    && (forall i :: 0 <= i < |entries| ==>
      entries[i].window <= U32_MAX && entries[i].inputCost <= U32_MAX && entries[i].outputCost <= U32_MAX)
    && RowsSorted(RowsOf(entries))
  }

  predicate RowBefore(a: Row, b: Row) {
    Less(a.id, b.id) || (a.id == b.id && Less(a.model.name, b.model.name))
  }

  predicate RowsSorted(rows: seq<Row>) {
    forall i :: 0 < i < |rows| ==> RowBefore(rows[i - 1], rows[i])
  }

  predicate RowOk(r: Row) { TextOk(r.id) && ModelOk(r.model) }

  ghost predicate RowsOk(rows: seq<Row>) { forall i :: 0 <= i < |rows| ==> RowOk(rows[i]) }

  // ---------------------------------------------------------------- flattening and grouping

  function Rows(ps: seq<Provider>): seq<Row> {
    if ps == [] then [] else RowsOfProvider(ps[0]) + Rows(ps[1..])
  }

  function RowsOfProvider(p: Provider): seq<Row> {
    seq(|p.models|, i requires 0 <= i < |p.models| => Row(p.id, p.models[i]))
  }

  lemma {:induction false} RunIsProvider(rows: seq<Row>, n: nat)
    requires 0 < n <= |rows| && forall i :: 0 <= i < n ==> rows[i].id == rows[0].id
    ensures RowsOfProvider(Provider(rows[0].id, Models(rows[..n]))) == rows[..n] && |Models(rows[..n])| == n
  {
  }

  lemma {:induction false} FirstOfRows(p: Provider, ps: seq<Provider>)
    ensures Rows([p] + ps) == RowsOfProvider(p) + Rows(ps) && ModelCount([p] + ps) == |p.models| + ModelCount(ps)
  {
    hide RowsOfProvider;
    ConsTail(p, ps);
  }

  lemma {:induction false} NoRows()
    ensures Rows([]) == [] && ModelCount([]) == 0
  {
  }

  /** Grouping loses nothing and adds nothing. */
  lemma {:induction false} GroupingKeepsRows(rows: seq<Row>)
    ensures Rows(Grouped(rows)) == rows && ModelCount(Grouped(rows)) == |rows|
    decreases |rows|
  {
    hide Models, RowsOfProvider, Rows, ModelCount;
    if rows == [] {
      NoRows();
    } else {
      var n := Run(rows, rows[0].id);
      var p := Provider(rows[0].id, Models(rows[..n]));
      GroupingKeepsRows(rows[n..]);
      RunIsProvider(rows, n);
      FirstOfRows(p, Grouped(rows[n..]));
      assert rows[..n] + rows[n..] == rows;
    }
  }

  ghost predicate NoEmptyProvider(ps: seq<Provider>) { forall i :: 0 <= i < |ps| ==> ps[i].models != [] }

  lemma {:induction false} GroupsAreNotEmpty(rows: seq<Row>)
    ensures NoEmptyProvider(Grouped(rows))
    decreases |rows|
  {
    if rows != [] {
      GroupsAreNotEmpty(rows[Run(rows, rows[0].id)..]);
    }
  }

  lemma {:induction false} FirstRow(ps: seq<Provider>)
    requires NoEmptyProvider(ps) && ps != []
    ensures Rows(ps) != [] && Rows(ps)[0] == Row(ps[0].id, ps[0].models[0])
  {
  }

  /** The rows of one provider, before rows of others, are grouped back into it. */
  lemma {:induction false} FirstGroup(p: Provider, rest: seq<Row>)
    requires p.models != [] && (rest != [] ==> rest[0].id != p.id)
    ensures Grouped(RowsOfProvider(p) + rest) == [p] + Grouped(rest)
  {
    var first := RowsOfProvider(p);
    var rows := first + rest;
    assert rows[0].id == p.id;
    RunIs(rows, p.id, |first|);
    assert rows[..|first|] == first && rows[|first|..] == rest;
    assert Models(first) == p.models;
  }

  /** And it undoes flattening, for canonical lists without an empty provider. */
  lemma {:induction false} GroupingUndoesFlattening(ps: seq<Provider>, last: Option<string>)
    requires ProvidersOk(ps, last) && NoEmptyProvider(ps)
    ensures Grouped(Rows(ps)) == ps
  {
    hide ProviderOk, Grouped, RowsOfProvider;
    if ps == [] {
      NoGroups();
    } else {
      GroupingUndoesFlattening(ps[1..], Some(ps[0].id));
      if Rows(ps[1..]) != [] {
        assert ps[1..] != [];
        FirstRow(ps[1..]);
        NotLessItself(ps[0].id);
      }
      FirstGroup(ps[0], Rows(ps[1..]));
      ConsSplit(ps);
    }
  }

  lemma {:induction false} NoGroups()
    ensures Grouped(Rows([])) == []
  {
  }

  // ---------------------------------------------------------------- canonical groups

  lemma {:induction false} SortedTail(rows: seq<Row>, n: nat)
    requires RowsSorted(rows) && n <= |rows|
    ensures RowsSorted(rows[n..])
  {
    hide RowBefore;
    var rest := rows[n..];
    forall i | 0 < i < |rest| ensures RowBefore(rest[i - 1], rest[i]) {
      assert rest[i - 1] == rows[n + i - 1] && rest[i] == rows[n + i];
    }
  }

  lemma {:induction false} RunIsOk(rows: seq<Row>, n: nat, last: Option<string>)
    requires RowsSorted(rows) && RowsOk(rows) && n <= |rows|
    requires forall i :: 0 <= i < n ==> rows[i].id == rows[0].id
    requires n > 0 ==> After(last, rows[0].model.name)
    ensures ModelsOk(Models(rows[..n]), last)
    decreases n
  {
    hide ModelOk, TextOk;
    if n > 0 {
      var rest := rows[1..];
      SortedTail(rows, 1);
      if n > 1 {
        assert RowBefore(rows[0], rows[1]);
        NotLessItself(rows[0].id);
      }
      RunIsOk(rest, n - 1, Some(rows[0].model.name));
      assert Models(rows[..n])[1..] == Models(rest[..n - 1]);
    }
  }

  lemma {:induction false} GroupsAreOk(rows: seq<Row>, last: Option<string>)
    requires RowsSorted(rows) && RowsOk(rows) && |rows| <= MAX_MODELS
    requires rows != [] ==> After(last, rows[0].id)
    ensures ProvidersOk(Grouped(rows), last)
    decreases |rows|
  {
    hide ModelOk, TextOk;
    if rows != [] {
      var n := Run(rows, rows[0].id);
      var rest := rows[n..];
      RunIsOk(rows, n, None);
      SortedTail(rows, n);
      if rest != [] {
        assert RowBefore(rows[n - 1], rows[n]);
      }
      GroupsAreOk(rest, Some(rows[0].id));
      ConsTail(Provider(rows[0].id, Models(rows[..n])), Grouped(rest));
    }
  }

  lemma {:induction false} CanonicalModelsAreOk(ms: seq<Model>, last: Option<string>, i: nat)
    requires ModelsOk(ms, last) && i < |ms|
    ensures ModelOk(ms[i])
  {
    hide ModelOk;
    if i > 0 {
      CanonicalModelsAreOk(ms[1..], Some(ms[0].name), i - 1);
    }
  }

  lemma {:induction false} CanonicalRowsAreOk(ps: seq<Provider>, last: Option<string>)
    requires ProvidersOk(ps, last)
    ensures RowsOk(Rows(ps))
  {
    hide ModelOk, TextOk, ModelsOk;
    if ps != [] {
      CanonicalRowsAreOk(ps[1..], Some(ps[0].id));
      var first := RowsOfProvider(ps[0]);
      forall i | 0 <= i < |first| ensures RowOk(first[i]) {
        CanonicalModelsAreOk(ps[0].models, None, i);
      }
    }
  }

  lemma {:induction false} RowCount(ps: seq<Provider>)
    ensures |Rows(ps)| == ModelCount(ps)
  {
    if ps != [] {
      RowCount(ps[1..]);
    }
  }

  // ---------------------------------------------------------------- the two sides compared

  lemma {:induction false} EntryRowOk(e: Entry)
    requires EntryOk(e) && e.window <= U32_MAX && e.inputCost <= U32_MAX && e.outputCost <= U32_MAX
    ensures RowOk(Row(e.provider, ModelFrom(e))) <==> e.capabilities != []
  {
    hide TextOk, OneOf, SortedLabels;
    NoRepeatIsIncreasing(e.capabilities);
    forall i | 0 <= i < |e.capabilities| ensures TextOk(SortedLabels(e.capabilities)[i]) && OneOf(SortedLabels(e.capabilities)[i], LABELS) {
      SortedLabelsAreKnown(e.capabilities, i);
    }
  }

  lemma {:induction false} RowEntryOk(e: Entry)
    requires RowOk(Row(e.provider, ModelFrom(e)))
    ensures EntryOk(e)
  {
    hide TextOk, OneOf, SortedLabels;
    NoRepeatIsIncreasing(e.capabilities);
  }

  /** A projected registry stands for canonical data exactly when every model has a capability. */
  lemma {:induction false} RegistryIsCanonical(entries: seq<Entry>)
    requires Registered(entries) && EntriesOk(entries)
    ensures Canonical(Grouped(RowsOf(entries))) <==> forall i :: 0 <= i < |entries| ==> entries[i].capabilities != []
  {
    hide EntryOk, RowOk, ModelFrom, Grouped;
    var rows := RowsOf(entries);
    GroupingKeepsRows(rows);
    forall i | 0 <= i < |entries| ensures RowOk(rows[i]) <==> entries[i].capabilities != [] {
      EntryRowOk(entries[i]);
    }
    if forall i :: 0 <= i < |entries| ==> entries[i].capabilities != [] {
      GroupsAreOk(rows, None);
    }
    if Canonical(Grouped(rows)) {
      CanonicalRowsAreOk(Grouped(rows), None);
    }
  }

  /**
   * The registry's own bytes, sent back as a payload, are accepted exactly when every model
   * has a capability: the registry projection lets an empty list through, the payload
   * projection does not.
   */
  lemma {:induction false} RegistryBytesAreAccepted(entries: seq<Entry>, max: nat)
    requires Registered(entries) && RegistryText(entries).Ok? && max >= PROJECTION_DEPTH
    ensures AcceptedPayload(RegistryText(entries).value, max)
      <==> forall i :: 0 <= i < |entries| ==> entries[i].capabilities != []
  {
    hide Print, Grouped, Canonical, AcceptedPayload, EntriesOk;
    var g := Grouped(RowsOf(entries));
    var text := RegistryText(entries).value;
    RegistryIsCanonical(entries);
    AcceptsExactlyPrintedProjections(text, max);
    if ps :| PrintedFrom(text, ps) {
      PrintIsInjective(g, ps);
    }
    assert Canonical(g) ==> PrintedFrom(text, g);
  }

  /**
   * The registry's bytes equal the published bytes exactly when the published models are the
   * registry's models and no published provider is empty.
   */
  lemma {:induction false} BytesMatchExactlyWhenDataMatch(entries: seq<Entry>, text: string, ps: seq<Provider>)
    requires Registered(entries) && PrintedFrom(text, ps)
    ensures RegistryText(entries) == Ok(text) <==> RowsOf(entries) == Rows(ps) && NoEmptyProvider(ps)
  {
    hide Print, Grouped, ProvidersOk, EntryOk, RowOk, ModelFrom, Utf8Len;
    var rows := RowsOf(entries);
    if RegistryText(entries) == Ok(text) {
      PrintIsInjective(Grouped(rows), ps);
      GroupingKeepsRows(rows);
      GroupsAreNotEmpty(rows);
    }
    if rows == Rows(ps) && NoEmptyProvider(ps) {
      GroupingUndoesFlattening(ps, None);
      RowCount(ps);
      CanonicalRowsAreOk(ps, None);
      forall i | 0 <= i < |entries| ensures EntryOk(entries[i]) {
        assert RowOk(rows[i]);
        RowEntryOk(entries[i]);
      }
    }
  }
}
