/**
 * `ai.context_read` from an accepted request to its result text
 * (crates/bitty-ai-endpoint/src/lib.rs:2407-2667). The artifact store is a parameter; the
 * schema bounds of the contract crate are parameters.
 */
module ContextRead {
  import opened Results
  import opened Json
  import opened JsonReader
  import opened JsonWriter
  import opened JsonBuffer
  import opened JsonViews

  const MAX_CONTEXT_RECORDS := 128
  const MAX_ARTIFACTS := 64
  const MAX_SUMMARY_BYTES := 4 * 1024
  const MAX_RECORD_BODY_BYTES := 16 * 1024
  const DEFAULT_CONTEXT_BUDGET_BYTES := 32 * 1024
  const BYTES_PER_TOKEN_ESTIMATE := 4
  const KNOWN_PROVIDERS: seq<string> := ["workspace", "project", "git", "diagnostics", "terminal"]

  /** Inline bytes are their length and, when they are UTF-8, their text. */
  datatype Body = Inline(size: nat, text: Option<string>) | Artifact(reference: string)

  datatype Record = Record(
    id: string, provider: string, owner: string, generation: nat, summary: string, body: Body, untrusted: bool)

  datatype Absence = Available | NeverRecorded | Missing | Deleted | Expired

  /** The store's answers at the request's generation. */
  datatype Store = Store(absence: string -> Absence, resolves: string -> bool)

  datatype Bounds = Bounds(id: nat, summary: nat, body: nat)

  datatype ReadError =
    | EmptyScopes
    | UnknownProvider
    | EmptyId
    | NotText
    | ResolveFailed
    | LimitExceeded(field: string, limit: nat, actual: nat)

  datatype Request = Request(scopes: seq<string>, generation: nat, maxBytes: Option<nat>, maxTokens: Option<nat>)

  function Budget(q: Request): nat {
    var bytes := if q.maxBytes.Some? then q.maxBytes.value else DEFAULT_CONTEXT_BUDGET_BYTES;
    if q.maxTokens.Some? && q.maxTokens.value * BYTES_PER_TOKEN_ESTIMATE < bytes
    then q.maxTokens.value * BYTES_PER_TOKEN_ESTIMATE else bytes
  }

  /** The budget is the byte ceiling asked for, or the default, or the token ceiling in bytes: the smaller of those given. */
  lemma {:induction false} BudgetIsTheLeast(q: Request)
    ensures Budget(q) <= (if q.maxBytes.Some? then q.maxBytes.value else DEFAULT_CONTEXT_BUDGET_BYTES)
    ensures q.maxTokens.Some? ==> Budget(q) <= 4 * q.maxTokens.value
    ensures || Budget(q) == (if q.maxBytes.Some? then q.maxBytes.value else DEFAULT_CONTEXT_BUDGET_BYTES)
            || (q.maxTokens.Some? && Budget(q) == 4 * q.maxTokens.value)
  {
  }

  // ---------------------------------------------------------------- what is selected

  /** The positions of the records read: those of the fenced generation owned by a scope asked for, in order. */
  ghost predicate Picks(p: seq<nat>, records: seq<Record>, q: Request) {
    && (forall j :: 0 <= j < |p| ==> p[j] < |records|)
    && (forall i, j :: 0 <= i < j < |p| ==> p[i] < p[j])
    && (forall i :: 0 <= i < |records| ==>
          (i in p <==> records[i].generation == q.generation && records[i].owner in q.scopes))
  }

  ghost function Picked(records: seq<Record>, p: seq<nat>): seq<Record>
    requires forall j :: 0 <= j < |p| ==> p[j] < |records|
  {
    seq(|p|, j requires 0 <= j < |p| => records[p[j]])
  }

  predicate InScope(r: Record, q: Request) {
    r.generation == q.generation && OneOf(r.owner, q.scopes)
  }

  function Selected(records: seq<Record>, q: Request): seq<Record> {
    if records == [] then []
    else if InScope(records[0], q) then [records[0]] + Selected(records[1..], q)
    else Selected(records[1..], q)
  }

  lemma {:induction false} SelectedSnoc(records: seq<Record>, r: Record, q: Request)
    ensures Selected(records + [r], q) == Selected(records, q) + (if InScope(r, q) then [r] else [])
  {
    hide InScope;
    if records == [] {
      assert ([] + [r])[1..] == [];
    } else {
      SelectedSnoc(records[1..], r, q);
      assert (records + [r])[1..] == records[1..] + [r];
    }
  }

  /** What is selected are exactly the records of that generation and those scopes, in order. */
  lemma {:induction false} SelectedArePicked(records: seq<Record>, q: Request) returns (p: seq<nat>)
    ensures Picks(p, records, q) && Picked(records, p) == Selected(records, q)
  {
    if records == [] {
      return [];
    }
    var n := |records| - 1;
    var before, last := records[..n], records[n];
    p := SelectedArePicked(before, q);
    SelectedSnoc(before, last, q);
    assert records == before + [last];
    OneOfIsIn(last.owner, q.scopes);
    assert forall i :: 0 <= i < n ==> records[i] == before[i];
    assert Picked(records, p) == Picked(before, p);
    if InScope(last, q) {
      assert Picked(records, p + [n]) == Picked(records, p) + [last];
      p := p + [n];
    }
  }

  // ---------------------------------------------------------------- what is refused

  /** The record's own shape, apart from the store. */
  function ShapeError(r: Record, bounds: Bounds): Option<ReadError> {
    if !OneOf(r.provider, KNOWN_PROVIDERS) then Some(UnknownProvider)
    else if Utf8Len(r.summary) > MAX_SUMMARY_BYTES then
      Some(LimitExceeded("records.summary", MAX_SUMMARY_BYTES, Utf8Len(r.summary)))
    else if r.body.Inline? && r.body.size > MAX_RECORD_BODY_BYTES then
      Some(LimitExceeded("records.content.body", MAX_RECORD_BODY_BYTES, r.body.size))
    else if r.id == [] then Some(EmptyId)
    else if Utf8Len(r.id) > bounds.id then Some(LimitExceeded("records.id", bounds.id, Utf8Len(r.id)))
    else if Utf8Len(r.summary) > bounds.summary then
      Some(LimitExceeded("records.summary", bounds.summary, Utf8Len(r.summary)))
    else if r.body.Inline? && r.body.size > bounds.body then
      Some(LimitExceeded("records.content.body", bounds.body, r.body.size))
    else if r.body.Inline? && r.body.text.None? then Some(NotText)
    else None
  }

  /** An artifact record whose artifact is not there. */
  datatype Absent = Absent(reference: string, reason: Absence)

  function AbsenceOf(r: Record, store: Store): Option<Absent> {
    if r.body.Artifact? && store.absence(r.body.reference) != Available
    then Some(Absent(r.body.reference, store.absence(r.body.reference))) else None
  }

  /** The artifact records that are not available, in order. */
  function AbsencesOf(rs: seq<Record>, store: Store): seq<Absent> {
    if rs == [] then []
    else
      var n := |rs| - 1;
      var last := AbsenceOf(rs[n], store);
      AbsencesOf(rs[..n], store) + (if last.Some? then [last.value] else [])
  }

  function RecordError(r: Record, index: nat, absent: nat, bounds: Bounds, store: Store): Option<ReadError> {
    if index >= MAX_CONTEXT_RECORDS then Some(LimitExceeded("context.records", MAX_CONTEXT_RECORDS, index + 1))
    else if ShapeError(r, bounds).Some? then ShapeError(r, bounds)
    else if AbsenceOf(r, store).Some? then
      if absent >= MAX_ARTIFACTS then Some(LimitExceeded("context.absences", MAX_ARTIFACTS, absent + 1)) else None
    else if r.body.Artifact? && !store.resolves(r.body.reference) then Some(ResolveFailed)
    else None
  }

  /** The refusals of a record in its place, in the order they apply. */
  lemma {:induction false} RecordErrorMeans(r: Record, index: nat, absent: nat, bounds: Bounds, store: Store)
    ensures var e := RecordError(r, index, absent, bounds, store);
      var shaped := index < MAX_CONTEXT_RECORDS && ShapeError(r, bounds).None?;
      var missing := r.body.Artifact? && store.absence(r.body.reference) != Available;
      && (index >= MAX_CONTEXT_RECORDS ==> e == Some(LimitExceeded("context.records", MAX_CONTEXT_RECORDS, index + 1)))
      && (index < MAX_CONTEXT_RECORDS && ShapeError(r, bounds).Some? ==> e == ShapeError(r, bounds))
      && (shaped && missing ==>
            e == if absent < MAX_ARTIFACTS then None else Some(LimitExceeded("context.absences", MAX_ARTIFACTS, absent + 1)))
      && (shaped && !missing ==>
            e == if r.body.Artifact? && !store.resolves(r.body.reference) then Some(ResolveFailed) else None)
  {
    hide ShapeError;
  }

  function Count(o: Option<Absent>): nat { if o.Some? then 1 else 0 }

  /** The first refusal among the selected records. */
  function FirstError(rs: seq<Record>, index: nat, absent: nat, bounds: Bounds, store: Store): Option<ReadError> {
    if rs == [] then None
    else if RecordError(rs[0], index, absent, bounds, store).Some? then RecordError(rs[0], index, absent, bounds, store)
    else FirstError(rs[1..], index + 1, absent + Count(AbsenceOf(rs[0], store)), bounds, store)
  }

  /** A record that can be shown: a known provider, a named id, text within every bound, an artifact that resolves. */
  ghost predicate RecordFits(r: Record, bounds: Bounds, store: Store) {
    && r.provider in KNOWN_PROVIDERS && 0 < |r.id| && Utf8Len(r.id) <= bounds.id
    && Utf8Len(r.summary) <= MAX_SUMMARY_BYTES && Utf8Len(r.summary) <= bounds.summary
    && (r.body.Inline? ==> r.body.size <= MAX_RECORD_BODY_BYTES && r.body.size <= bounds.body && r.body.text.Some?)
    && (r.body.Artifact? && store.absence(r.body.reference) == Available ==> store.resolves(r.body.reference))
  }

  lemma {:induction false} ShapesFit(r: Record, bounds: Bounds, store: Store)
    ensures RecordFits(r, bounds, store) <==>
      && ShapeError(r, bounds).None?
      && (r.body.Artifact? && store.absence(r.body.reference) == Available ==> store.resolves(r.body.reference))
  {
    hide Utf8Len, OneOf;
    OneOfIsIn(r.provider, KNOWN_PROVIDERS);
  }

  /** Which refusal a misshapen record gets: the first of these that applies. */
  lemma {:induction false} ShapeErrorMeans(r: Record, bounds: Bounds)
    ensures var e := ShapeError(r, bounds);
      var known, long := r.provider in KNOWN_PROVIDERS, Utf8Len(r.summary);
      var inline, size := r.body.Inline?, if r.body.Inline? then r.body.size else 0;
      var runtime := known && long <= MAX_SUMMARY_BYTES && size <= MAX_RECORD_BODY_BYTES;
      && (!known ==> e == Some(UnknownProvider))
      && (known && long > MAX_SUMMARY_BYTES ==> e == Some(LimitExceeded("records.summary", MAX_SUMMARY_BYTES, long)))
      && (known && long <= MAX_SUMMARY_BYTES && size > MAX_RECORD_BODY_BYTES ==>
            e == Some(LimitExceeded("records.content.body", MAX_RECORD_BODY_BYTES, size)))
      && (runtime && r.id == [] ==> e == Some(EmptyId))
      && (runtime && r.id != [] && Utf8Len(r.id) > bounds.id ==> e == Some(LimitExceeded("records.id", bounds.id, Utf8Len(r.id))))
      && (runtime && r.id != [] && Utf8Len(r.id) <= bounds.id ==>
            && (long > bounds.summary ==> e == Some(LimitExceeded("records.summary", bounds.summary, long)))
            && (long <= bounds.summary && size > bounds.body && inline ==>
                  e == Some(LimitExceeded("records.content.body", bounds.body, size)))
            && (long <= bounds.summary && (inline ==> size <= bounds.body && r.body.text.None?) && inline ==> e == Some(NotText)))
  {
    hide Utf8Len, OneOf;
    OneOfIsIn(r.provider, KNOWN_PROVIDERS);
  }

  /** The refusal of record `i` where it stands, after `index` records and `absent` absences. */
  function ErrorAt(rs: seq<Record>, i: nat, index: nat, absent: nat, bounds: Bounds, store: Store): Option<ReadError>
    requires i < |rs|
  {
    RecordError(rs[i], index + i, absent + |AbsencesOf(rs[..i], store)|, bounds, store)
  }

  lemma {:induction false} ErrorAtNext(rs: seq<Record>, i: nat, index: nat, absent: nat, bounds: Bounds, store: Store)
    requires i + 1 < |rs|
    ensures ErrorAt(rs, i + 1, index, absent, bounds, store)
      == ErrorAt(rs[1..], i, index + 1, absent + Count(AbsenceOf(rs[0], store)), bounds, store)
  {
    hide RecordError, AbsenceOf;
    AbsencesSplit(rs[..i + 1], store);
    assert rs[..i + 1][1..] == rs[1..][..i];
  }

  /** The refusal reported is that of the first record that does not fit where it stands. */
  lemma {:induction false} FirstErrorIsFirst(rs: seq<Record>, index: nat, absent: nat, bounds: Bounds, store: Store) returns (i: nat)
    requires FirstError(rs, index, absent, bounds, store).Some?
    ensures i < |rs| && ErrorAt(rs, i, index, absent, bounds, store) == FirstError(rs, index, absent, bounds, store)
    ensures forall j :: 0 <= j < i ==> ErrorAt(rs, j, index, absent, bounds, store).None?
  {
    hide RecordError, AbsenceOf;
    assert rs[..0] == [] && ErrorAt(rs, 0, index, absent, bounds, store) == RecordError(rs[0], index, absent, bounds, store);
    hide ErrorAt;
    if ErrorAt(rs, 0, index, absent, bounds, store).Some? {
      return 0;
    }
    var more := absent + Count(AbsenceOf(rs[0], store));
    var k := FirstErrorIsFirst(rs[1..], index + 1, more, bounds, store);
    i := k + 1;
    ErrorAtNext(rs, k, index, absent, bounds, store);
    forall j | 0 <= j < i ensures ErrorAt(rs, j, index, absent, bounds, store).None? {
      if j > 0 {
        ErrorAtNext(rs, j - 1, index, absent, bounds, store);
      }
    }
  }

  lemma {:induction false} AbsenceMeans(r: Record, store: Store)
    ensures AbsenceOf(r, store).Some? <==> r.body.Artifact? && store.absence(r.body.reference) != Available
    ensures AbsenceOf(r, store).Some? ==> AbsenceOf(r, store).value == Absent(r.body.reference, store.absence(r.body.reference))
  {
  }

  /** Absence `j` is that of record `p[j]`, in order, and no other record is absent. */
  ghost predicate ListsAbsences(rs: seq<Record>, store: Store, xs: seq<Absent>, p: seq<nat>) {
    && |p| == |xs| && (forall j :: 0 <= j < |p| ==> p[j] < |rs|) && (forall i, j :: 0 <= i < j < |p| ==> p[i] < p[j])
    && (forall j :: 0 <= j < |p| ==> AbsenceOf(rs[p[j]], store) == Some(xs[j]))
    && (forall i :: 0 <= i < |rs| && AbsenceOf(rs[i], store).Some? ==> i in p)
  }

  lemma {:induction false} ListsOneMore(rs: seq<Record>, r: Record, store: Store, xs: seq<Absent>, p: seq<nat>)
    requires ListsAbsences(rs, store, xs, p)
    ensures if AbsenceOf(r, store).Some? then ListsAbsences(rs + [r], store, xs + [AbsenceOf(r, store).value], p + [|rs|])
            else ListsAbsences(rs + [r], store, xs, p)
  {
    hide AbsenceOf;
    var more, p' := rs + [r], if AbsenceOf(r, store).Some? then p + [|rs|] else p;
    forall i | 0 <= i < |more| && AbsenceOf(more[i], store).Some? ensures i in p' {
      if i < |rs| {
        assert more[i] == rs[i] && i in p;
      } else {
        assert p'[|p|] == i;
      }
    }
  }

  /** The absences listed are the unavailable artifacts among the records, in order. */
  lemma {:induction false} AbsencesAreListed(rs: seq<Record>, store: Store) returns (p: seq<nat>)
    ensures ListsAbsences(rs, store, AbsencesOf(rs, store), p)
  {
    p := [];
    if rs != [] {
      hide AbsenceOf, ListsAbsences;
      var n := |rs| - 1;
      p := AbsencesAreListed(rs[..n], store);
      ListsOneMore(rs[..n], rs[n], store, AbsencesOf(rs[..n], store), p);
      assert rs == rs[..n] + [rs[n]];
      if AbsenceOf(rs[n], store).Some? {
        p := p + [n];
      } else {
        assert AbsencesOf(rs[..n], store) + [] == AbsencesOf(rs[..n], store);
      }
    }
  }

  lemma {:induction false} AbsencesSplit(rs: seq<Record>, store: Store)
    requires rs != []
    ensures |AbsencesOf(rs, store)| == Count(AbsenceOf(rs[0], store)) + |AbsencesOf(rs[1..], store)|
  {
    hide AbsenceOf;
    if |rs| > 1 {
      var n := |rs| - 1;
      AbsencesSplit(rs[..n], store);
      assert rs[..n][1..] == rs[1..][..n - 1];
    }
  }

  /** A read succeeds exactly when each record fits and neither count passes its bound. */
  lemma {:induction false} AcceptedExactly(rs: seq<Record>, index: nat, absent: nat, bounds: Bounds, store: Store)
    requires index <= MAX_CONTEXT_RECORDS && absent <= MAX_ARTIFACTS
    ensures FirstError(rs, index, absent, bounds, store).None? <==>
      && (forall i :: 0 <= i < |rs| ==> RecordFits(rs[i], bounds, store))
      && index + |rs| <= MAX_CONTEXT_RECORDS && absent + |AbsencesOf(rs, store)| <= MAX_ARTIFACTS
  {
    hide ShapeError, RecordFits;
    if rs != [] {
      AbsencesSplit(rs, store);
      ShapesFit(rs[0], bounds, store);
      if RecordError(rs[0], index, absent, bounds, store).None? {
        AcceptedExactly(rs[1..], index + 1, absent + Count(AbsenceOf(rs[0], store)), bounds, store);
        assert forall i :: 0 < i < |rs| ==> rs[i] == rs[1..][i - 1];
      }
    }
  }

  // ---------------------------------------------------------------- the result

  function AbsenceName(a: Absence): string {
    match a
    case Available => "available"
    case NeverRecorded => "never_recorded"
    case Missing => "missing"
    case Deleted => "deleted"
    case Expired => "expired"
  }

  /** Five names for five outcomes. */
  lemma {:induction false} AbsenceNames(a: Absence, b: Absence)
    ensures AbsenceName(a) == AbsenceName(b) ==> a == b
    ensures AbsenceName(Available) == "available" && AbsenceName(NeverRecorded) == "never_recorded"
    ensures AbsenceName(Missing) == "missing" && AbsenceName(Deleted) == "deleted" && AbsenceName(Expired) == "expired"
  {
    var names := ["available", "never_recorded", "missing", "deleted", "expired"];
    assert |names[0]| == 9 && |names[1]| == 14 && |names[2]| == 7 && |names[3]| == 7 && |names[4]| == 7;
    assert names[2][0] == 'm' && names[3][0] == 'd' && names[4][0] == 'e';
  }

  function ContentValue(b: Body): JVal {
    match b
    case Inline(_, text) =>
      JObj([Field("kind", JStr("inline")), Field("body", JStr(if text.Some? then text.value else ""))])
    case Artifact(reference) => JObj([Field("kind", JStr("reference")), Field("reference", JStr(reference))])
  }

  function RecordValue(r: Record): JVal {
    JObj([
      Field("id", JStr(r.id)),
      Field("provider", JStr(r.provider)),
      Field("summary", JStr(r.summary)),
      Field("content", ContentValue(r.body)),
      Field("is_untrusted_surface", JBool(r.untrusted))])
  }

  function AbsentValue(a: Absent): JVal {
    JObj([Field("reference", JStr(a.reference)), Field("absence", JStr(AbsenceName(a.reason)))])
  }

  function RecordValues(rs: seq<Record>): seq<JVal> { seq(|rs|, i requires 0 <= i < |rs| => RecordValue(rs[i])) }
  function AbsentValues(xs: seq<Absent>): seq<JVal> { seq(|xs|, i requires 0 <= i < |xs| => AbsentValue(xs[i])) }
  function RecordIds(rs: seq<Record>): seq<string> { seq(|rs|, i requires 0 <= i < |rs| => rs[i].id) }

  function ResultValue(q: Request, rs: seq<Record>, absences: seq<Absent>): JVal {
    JObj([
      Field("current_generation", Integer(q.generation)),
      Field("records", JArr(RecordValues(rs))),
      Field("context_refs", JArr(Strings(RecordIds(rs)))),
      Field("omitted_ids", JArr([])),
      Field("pruned_ids", JArr([])),
      Field("externalized", Integer(0)),
      Field("truncated_bytes", Integer(0)),
      Field("truncated_tokens_estimate", Integer(0)),
      Field("truncated_providers", JArr([])),
      Field("budget_bytes", Integer(Budget(q))),
      Field("absences", JArr(AbsentValues(absences)))])
  }

  // ---------------------------------------------------------------- reading the result back

  /** A record as the result shows it. */
  datatype Span = Span(id: string, provider: string, summary: string, content: Content, untrusted: bool)
  datatype Content = Text(text: string) | Reference(reference: string)

  function SpanOf(r: Record): Span {
    Span(r.id, r.provider, r.summary,
      match r.body
      case Inline(_, text) => Text(if text.Some? then text.value else "")
      case Artifact(reference) => Reference(reference),
      r.untrusted)
  }

  function ReadContent(v: JVal): Option<Content> {
    if StringField(v, "kind") == Some("inline") then
      match StringField(v, "body") case Some(text) => Some(Text(text)) case None => None
    else if StringField(v, "kind") == Some("reference") then
      match StringField(v, "reference") case Some(reference) => Some(Reference(reference)) case None => None
    else None
  }

  function ReadSpan(v: JVal): Option<Span> {
    match (StringField(v, "id"), StringField(v, "provider"), StringField(v, "summary"),
           FieldOf(v, "content"), FieldOf(v, "is_untrusted_surface"))
    case (Some(id), Some(provider), Some(summary), Some(content), Some(JBool(untrusted))) =>
      (match ReadContent(content)
       case Some(c) => Some(Span(id, provider, summary, c, untrusted))
       case None => None)
    case _ => None
  }

  function ReadAbsent(v: JVal): Option<(string, string)> {
    match (StringField(v, "reference"), StringField(v, "absence"))
    case (Some(reference), Some(name)) => Some((reference, name))
    case _ => None
  }

  lemma {:induction false} ContentReads(b: Body)
    ensures ReadContent(ContentValue(b)) == Some(
      match b
      case Inline(_, text) => Text(if text.Some? then text.value else "")
      case Artifact(reference) => Reference(reference))
  {
    var fields := ContentValue(b).fields;
    LookupAt(fields, 0);
    LookupAt(fields, 1);
    assert "inline" != "reference";
  }

  lemma {:induction false} SpanReads(r: Record)
    ensures ReadSpan(RecordValue(r)) == Some(SpanOf(r))
  {
    hide ReadContent, ContentValue;
    var fields := RecordValue(r).fields;
    LookupAt(fields, 0);
    LookupAt(fields, 1);
    LookupAt(fields, 2);
    LookupAt(fields, 3);
    LookupAt(fields, 4);
    ContentReads(r.body);
  }

  lemma {:induction false} AbsentReads(a: Absent)
    ensures ReadAbsent(AbsentValue(a)) == Some((a.reference, AbsenceName(a.reason)))
  {
    var fields := AbsentValue(a).fields;
    LookupAt(fields, 0);
    LookupAt(fields, 1);
  }

  lemma {:induction false} ResultFields(q: Request, rs: seq<Record>, absences: seq<Absent>)
    ensures var v := ResultValue(q, rs, absences);
      && FieldOf(v, "current_generation") == Some(Integer(q.generation))
      && ArrayField(v, "records") == Some(RecordValues(rs))
      && ArrayField(v, "context_refs") == Some(Strings(RecordIds(rs)))
      && FieldOf(v, "budget_bytes") == Some(Integer(Budget(q)))
      && ArrayField(v, "absences") == Some(AbsentValues(absences))
  {
    hide RecordValues, Strings, AbsentValues, Integer, Budget;
    var fields := ResultValue(q, rs, absences).fields;
    LookupAt(fields, 0);
    LookupAt(fields, 1);
    LookupAt(fields, 2);
    LookupAt(fields, 9);
    LookupAt(fields, 10);
  }

  // ---------------------------------------------------------------- well-formed text

  const RESULT_DEPTH := 4

  lemma {:induction false} ContentWrites(b: Body)
    ensures Within(ContentValue(b), 1)
  {
    hide Within;
    var fields := ContentValue(b).fields;
    ScalarWithin(fields[0].value.text, 0, true, 0);
    ScalarWithin(fields[1].value.text, 0, true, 0);
    ObjectWithin(fields, 0);
  }

  lemma {:induction false} RecordWrites(r: Record)
    ensures Within(RecordValue(r), 2)
  {
    hide Within, ContentValue;
    ScalarWithin(r.id, 0, r.untrusted, 1);
    ScalarWithin(r.provider, 0, true, 1);
    ScalarWithin(r.summary, 0, true, 1);
    ContentWrites(r.body);
    ObjectWithin(RecordValue(r).fields, 1);
  }

  lemma {:induction false} AbsentWrites(a: Absent)
    ensures Within(AbsentValue(a), 2)
  {
    hide Within, AbsenceName;
    ScalarWithin(a.reference, 0, true, 1);
    ScalarWithin(AbsenceName(a.reason), 0, true, 1);
    ObjectWithin(AbsentValue(a).fields, 1);
  }

  lemma {:induction false} ResultWrites(q: Request, rs: seq<Record>, absences: seq<Absent>)
    ensures Within(ResultValue(q, rs, absences), RESULT_DEPTH)
  {
    hide Within, Integer, Strings, Budget, RecordValue, AbsentValue;
    ScalarWithin("", q.generation, true, 3);
    ScalarWithin("", 0, true, 3);
    ScalarWithin("", Budget(q), true, 3);
    forall i | 0 <= i < |rs| ensures Within(RecordValues(rs)[i], 2) {
      RecordWrites(rs[i]);
    }
    forall i | 0 <= i < |absences| ensures Within(AbsentValues(absences)[i], 2) {
      AbsentWrites(absences[i]);
    }
    ArrayWithin(RecordValues(rs), 2);
    StringsWithin(RecordIds(rs), 2);
    ArrayWithin(AbsentValues(absences), 2);
    ObjectWithin(ResultValue(q, rs, absences).fields, 3);
  }

  /** Parsed, the text gives the records, their ids, the absences, the generation and the budget, in order. */
  ghost predicate ReadsBack(text: string, q: Request, rs: seq<Record>, store: Store, max: nat) {
    var parsed := ParseObject(text, max);
    var absences := AbsencesOf(rs, store);
    && parsed.Ok?
    && ArrayField(parsed.value, "records").Some? && |ArrayField(parsed.value, "records").value| == |rs|
    && (forall i :: 0 <= i < |rs| ==> ReadSpan(ArrayField(parsed.value, "records").value[i]) == Some(SpanOf(rs[i])))
    && ArrayField(parsed.value, "context_refs") == Some(Strings(RecordIds(rs)))
    && ArrayField(parsed.value, "absences").Some? && |ArrayField(parsed.value, "absences").value| == |absences|
    && (forall i :: 0 <= i < |absences| ==>
        ReadAbsent(ArrayField(parsed.value, "absences").value[i])
        == Some((absences[i].reference, AbsenceName(absences[i].reason))))
    && FieldOf(parsed.value, "current_generation") == Some(Integer(q.generation))
    && FieldOf(parsed.value, "budget_bytes") == Some(Integer(Budget(q)))
  }

  /**
   * The result text is JSON, and the crate's own parser reads it back as exactly the
   * selected records in order, their ids, and the absent artifacts in order.
   */
  lemma {:induction false} ResultReadsBack(q: Request, rs: seq<Record>, store: Store, max: nat)
    requires max >= RESULT_DEPTH
    ensures ReadsBack(Compact(ResultValue(q, rs, AbsencesOf(rs, store))), q, rs, store, max)
  {
    hide ReadSpan, SpanOf, RecordValue, ReadAbsent, AbsentValue, AbsencesOf, AbsenceName, ArrayField;
    hide ParseObject;
    var absences := AbsencesOf(rs, store);
    ResultWrites(q, rs, absences);
    WithinParses(ResultValue(q, rs, absences), RESULT_DEPTH, max);
    ResultFields(q, rs, absences);
    forall i | 0 <= i < |rs| ensures ReadSpan(RecordValues(rs)[i]) == Some(SpanOf(rs[i])) {
      SpanReads(rs[i]);
    }
    forall i | 0 <= i < |absences|
      ensures ReadAbsent(AbsentValues(absences)[i]) == Some((absences[i].reference, AbsenceName(absences[i].reason)))
    {
      AbsentReads(absences[i]);
    }
  }

  // ---------------------------------------------------------------- building the text

  method EncodeContent(b: Body) returns (out: string)
    ensures out == Compact(ContentValue(b))
  {
    hide KeyText, EmitFields, Quote;
    ghost var fields := ContentValue(b).fields;
    ObjectEmits("", fields);
    FieldStep("{", fields, 0);
    FieldStep("{", fields, 1);
    assert "" + "{" == "{" && "" + Compact(ContentValue(b)) == Compact(ContentValue(b));
    match b
    case Inline(_, text) =>
      var kind := EncodeStr("inline");
      var body := EncodeStr(if text.Some? then text.value else "");
      out := "{" + KeyText("kind") + kind + "," + KeyText("body") + body + "}";
    case Artifact(reference) =>
      var kind := EncodeStr("reference");
      var target := EncodeStr(reference);
      out := "{" + KeyText("kind") + kind + "," + KeyText("reference") + target + "}";
  }

  lemma {:induction false} RecordKeys()
    ensures PlainKey("id") && PlainKey("provider") && PlainKey("summary") && PlainKey("content") && PlainKey("is_untrusted_surface")
  {
  }

  lemma {:induction false} RecordScalars(r: Record)
    ensures Compact(JStr(r.id)) == Quote(r.id) && Compact(JStr(r.provider)) == Quote(r.provider)
    ensures Compact(JStr(r.summary)) == Quote(r.summary)
    ensures Compact(JBool(r.untrusted)) == if r.untrusted then "true" else "false"
  {
  }

  method AppendRecord(buffer: string, r: Record, content: string) returns (out: string)
    requires content == Compact(ContentValue(r.body))
    ensures out == Emit(buffer, RecordValue(r))
  {
    hide KeyText, EmitFields, Quote, ContentValue, Compact, PlainKey;
    ghost var fields := RecordValue(r).fields;
    ghost var start := buffer + "{";
    RecordKeys();
    RecordScalars(r);
    ObjectEmits(buffer, fields);
    FieldStep(start, fields, 0);
    FieldStep(start, fields, 1);
    FieldStep(start, fields, 2);
    FieldStep(start, fields, 3);
    FieldStep(start, fields, 4);
    var id := EncodeStr(r.id);
    var provider := EncodeStr(r.provider);
    var summary := EncodeStr(r.summary);
    out := buffer + "{" + KeyText("id") + id;
    out := out + "," + KeyText("provider") + provider;
    out := out + "," + KeyText("summary") + summary;
    out := out + "," + KeyText("content") + content;
    out := out + "," + KeyText("is_untrusted_surface") + (if r.untrusted then "true" else "false");
    out := out + "}";
  }

  method AppendAbsent(buffer: string, a: Absent) returns (out: string)
    ensures out == Emit(buffer, AbsentValue(a))
  {
    hide KeyText, EmitFields, Quote, AbsenceName;
    ghost var fields := AbsentValue(a).fields;
    ObjectEmits(buffer, fields);
    FieldStep(buffer + "{", fields, 0);
    FieldStep(buffer + "{", fields, 1);
    var reference := EncodeStr(a.reference);
    var name := EncodeStr(AbsenceName(a.reason));
    out := buffer + "{" + KeyText("reference") + reference + "," + KeyText("absence") + name + "}";
  }

  /** The three lists, each still without its closing bracket. */
  datatype Lists = Lists(records: string, refs: string, absences: string)

  ghost function ListsOf(rs: seq<Record>, store: Store): Lists {
    Lists(
      EmitItems("[", RecordValues(rs)),
      EmitItems("[", Strings(RecordIds(rs))),
      EmitItems("[", AbsentValues(AbsencesOf(rs, store))))
  }

  lemma {:induction false} NextRecord(rs: seq<Record>, r: Record, store: Store)
    ensures EmitItems("[", RecordValues(rs + [r])) == Emit(Comma(EmitItems("[", RecordValues(rs)), |rs|), RecordValue(r))
    ensures EmitItems("[", Strings(RecordIds(rs + [r]))) == Comma(EmitItems("[", Strings(RecordIds(rs))), |rs|) + Quote(r.id)
    ensures AbsencesOf(rs + [r], store)
      == AbsencesOf(rs, store) + (if AbsenceOf(r, store).Some? then [AbsenceOf(r, store).value] else [])
  {
    hide RecordValue, AbsenceOf, EmitItems;
    assert RecordValues(rs + [r]) == RecordValues(rs) + [RecordValue(r)];
    EmitItemsAppend("[", RecordValues(rs), RecordValue(r));
    assert Strings(RecordIds(rs + [r])) == Strings(RecordIds(rs)) + [JStr(r.id)];
    EmitItemsAppend("[", Strings(RecordIds(rs)), JStr(r.id));
    assert (rs + [r])[..|rs|] == rs;
  }

  lemma {:induction false} NextAbsent(xs: seq<Absent>, a: Absent)
    ensures EmitItems("[", AbsentValues(xs + [a])) == Emit(Comma(EmitItems("[", AbsentValues(xs)), |xs|), AbsentValue(a))
  {
    hide AbsentValue;
    assert AbsentValues(xs + [a]) == AbsentValues(xs) + [AbsentValue(a)];
    EmitItemsAppend("[", AbsentValues(xs), AbsentValue(a));
  }

  /** One accepted record appended to the lists. */
  method AppendTo(lists: Lists, ghost done: seq<Record>, r: Record, index: nat, absent: nat, store: Store) returns (more: Lists)
    requires lists == ListsOf(done, store) && index == |done| && absent == |AbsencesOf(done, store)|
    ensures more == ListsOf(done + [r], store)
  {
    hide EmitItems, RecordValue, AbsentValue, Quote;
    NextRecord(done, r, store);
    var content := EncodeContent(r.body);
    var absences := lists.absences;
    var missing := AbsenceOf(r, store);
    if missing.Some? {
      NextAbsent(AbsencesOf(done, store), missing.value);
      if absent > 0 {
        absences := absences + ",";
      }
      absences := AppendAbsent(absences, missing.value);
    } else {
      assert AbsencesOf(done, store) + [] == AbsencesOf(done, store);
    }
    var records := AppendRecord(Comma(lists.records, index), r, content);
    var id := EncodeStr(r.id);
    more := Lists(records, Comma(lists.refs, index) + id, absences);
  }

  method CollectRecords(records: seq<Record>, q: Request, bounds: Bounds, store: Store)
    returns (r: Result<Lists, ReadError>)
    ensures var rs := Selected(records, q);
      match FirstError(rs, 0, 0, bounds, store)
      case Some(e) => r == Err(e)
      case None => r == Ok(ListsOf(rs, store))
  {
    hide EmitItems, RecordValue, AbsentValue, InScope, ListsOf, RecordError;
    var lists := Lists("[", "[", "[");
    var index, absent := 0, 0;
    ghost var done: seq<Record> := [];
    NothingListed(store);
    assert records[0..] == records && [] + Selected(records, q) == Selected(records, q);
    for k := 0 to |records|
      invariant index == |done| && absent == |AbsencesOf(done, store)| && lists == ListsOf(done, store)
      invariant Selected(records, q) == done + Selected(records[k..], q)
      invariant FirstError(Selected(records, q), 0, 0, bounds, store)
        == FirstError(Selected(records[k..], q), index, absent, bounds, store)
    {
      assert records[k..][1..] == records[k + 1..];
      if InScope(records[k], q) {
        ghost var rest := Selected(records[k + 1..], q);
        assert ([records[k]] + rest)[1..] == rest;
        assert done + ([records[k]] + rest) == done + [records[k]] + rest;
        var e := RecordError(records[k], index, absent, bounds, store);
        if e.Some? {
          return Err(e.value);
        }
        NextRecord(done, records[k], store);
        lists := AppendTo(lists, done, records[k], index, absent, store);
        index, absent := index + 1, absent + Count(AbsenceOf(records[k], store));
        done := done + [records[k]];
      }
    }
    assert records[|records|..] == [] && done + [] == done;
    return Ok(lists);
  }

  lemma {:induction false} NothingListed(store: Store)
    ensures ListsOf([], store) == Lists("[", "[", "[")
  {
  }

  lemma {:induction false} ListCloses(items: seq<JVal>)
    ensures EmitItems("[", items) + "]" == Compact(JArr(items))
  {
    EmitAppends("", JArr(items));
    assert "" + "[" == "[" && "" + Compact(JArr(items)) == Compact(JArr(items));
  }

  /** Everything that was picked can be shown. */
  ghost predicate AllFit(rs: seq<Record>, bounds: Bounds, store: Store) {
    && (forall i :: 0 <= i < |rs| ==> RecordFits(rs[i], bounds, store))
    && |rs| <= MAX_CONTEXT_RECORDS && |AbsencesOf(rs, store)| <= MAX_ARTIFACTS
  }

  /**
   * The text of an accepted read, or the refusal of the first record that does not fit. The
   * records read are those at the positions `p`: of the fenced generation, owned by a scope asked for.
   */
  method HandleContextRead(records: seq<Record>, q: Request, bounds: Bounds, store: Store)
    returns (r: Result<string, ReadError>, ghost p: seq<nat>)
    ensures Picks(p, records, q)
    ensures q.scopes == [] ==> r == Err(EmptyScopes)
    ensures |q.scopes| > MAX_CONTEXT_RECORDS ==> r == Err(LimitExceeded("context.scopes", MAX_CONTEXT_RECORDS, |q.scopes|))
    ensures 0 < |q.scopes| <= MAX_CONTEXT_RECORDS ==>
      var rs := Picked(records, p);
      match FirstError(rs, 0, 0, bounds, store)
      case Some(e) => r == Err(e)
      case None => r == Ok(Compact(ResultValue(q, rs, AbsencesOf(rs, store))))
    ensures 0 < |q.scopes| <= MAX_CONTEXT_RECORDS ==> (r.Ok? <==> AllFit(Picked(records, p), bounds, store))
    ensures r.Ok? ==> forall max :: max >= RESULT_DEPTH ==> ReadsBack(r.value, q, Picked(records, p), store, max)
  {
    hide FirstError, EmitItems, ReadsBack, RecordFits;
    p := SelectedArePicked(records, q);
    if q.scopes == [] {
      return Err(EmptyScopes), p;
    }
    if |q.scopes| > MAX_CONTEXT_RECORDS {
      return Err(LimitExceeded("context.scopes", MAX_CONTEXT_RECORDS, |q.scopes|)), p;
    }
    hide Picks, Picked;
    AcceptedExactly(Selected(records, q), 0, 0, bounds, store);
    var collected := CollectRecords(records, q, bounds, store);
    if collected.Err? {
      return Err(collected.error), p;
    }
    var lists := collected.value;
    ghost var rs := Selected(records, q);
    ListCloses(RecordValues(rs));
    ListCloses(Strings(RecordIds(rs)));
    ListCloses(AbsentValues(AbsencesOf(rs, store)));
    var out := ResultText(q, lists.records + "]", lists.refs + "]", lists.absences + "]", rs, AbsencesOf(rs, store));
    forall max | max >= RESULT_DEPTH ensures ReadsBack(out, q, rs, store, max) {
      ResultReadsBack(q, rs, store, max);
    }
    return Ok(out), p;
  }

  /** The first six members. */
  method ResultHead(q: Request, records: string, refs: string,
                    ghost rs: seq<Record>, ghost absences: seq<Absent>) returns (out: string)
    requires records == Compact(JArr(RecordValues(rs))) && refs == Compact(JArr(Strings(RecordIds(rs))))
    ensures out == EmitFields("{", ResultValue(q, rs, absences).fields[..6])
  {
    hide KeyText, EmitFields, RecordValues, AbsentValues, RecordIds, Strings, Decimal, PlainKey, Compact;
    hide Integer, Budget;
    ghost var fields := ResultValue(q, rs, absences).fields;
    ResultKeys(q, rs, absences);
    PlainValues(q.generation);
    PlainValues(0);
    ObjectEmits("", fields);
    assert "" + "{" == "{";
    FieldStep("{", fields, 0);
    FieldStep("{", fields, 1);
    FieldStep("{", fields, 2);
    FieldStep("{", fields, 3);
    FieldStep("{", fields, 4);
    FieldStep("{", fields, 5);
    out := "{" + KeyText("current_generation") + Decimal(q.generation);
    out := out + "," + KeyText("records") + records;
    out := out + "," + KeyText("context_refs") + refs;
    out := out + "," + KeyText("omitted_ids") + "[]" + "," + KeyText("pruned_ids") + "[]";
    out := out + "," + KeyText("externalized") + Decimal(0);
  }

  method ResultText(q: Request, records: string, refs: string, missing: string,
                    ghost rs: seq<Record>, ghost absences: seq<Absent>) returns (out: string)
    requires records == Compact(JArr(RecordValues(rs))) && refs == Compact(JArr(Strings(RecordIds(rs))))
    requires missing == Compact(JArr(AbsentValues(absences)))
    ensures out == Compact(ResultValue(q, rs, absences))
  {
    hide KeyText, EmitFields, RecordValues, AbsentValues, RecordIds, Strings, Decimal, PlainKey, Compact;
    hide Integer, Budget;
    ghost var fields := ResultValue(q, rs, absences).fields;
    ResultKeys(q, rs, absences);
    PlainValues(0);
    PlainValues(Budget(q));
    out := ResultHead(q, records, refs, rs, absences);
    FieldStep("{", fields, 6);
    FieldStep("{", fields, 7);
    FieldStep("{", fields, 8);
    FieldStep("{", fields, 9);
    FieldStep("{", fields, 10);
    out := out + "," + KeyText("truncated_bytes") + Decimal(0) + "," + KeyText("truncated_tokens_estimate") + Decimal(0);
    out := out + "," + KeyText("truncated_providers") + "[]";
    out := out + "," + KeyText("budget_bytes") + Decimal(Budget(q));
    out := out + "," + KeyText("absences") + missing + "}";
    ObjectEmits("", fields);
    assert "" + "{" == "{" && "" + Compact(ResultValue(q, rs, absences)) == Compact(ResultValue(q, rs, absences));
  }

  lemma {:induction false} FirstKeys()
    ensures PlainKey("current_generation") && PlainKey("records") && PlainKey("context_refs") && PlainKey("omitted_ids")
  {
  }

  lemma {:induction false} MiddleKeys()
    ensures PlainKey("pruned_ids") && PlainKey("externalized") && PlainKey("truncated_bytes") && PlainKey("truncated_tokens_estimate")
  {
  }

  lemma {:induction false} LastKeys()
    ensures PlainKey("truncated_providers") && PlainKey("budget_bytes") && PlainKey("absences")
  {
  }

  lemma {:induction false} ResultKeys(q: Request, rs: seq<Record>, absences: seq<Absent>)
    ensures forall i :: 0 <= i < 11 ==> PlainKey(ResultValue(q, rs, absences).fields[i].key)
  {
    hide PlainKey, Integer, Budget;
    FirstKeys();
    MiddleKeys();
    LastKeys();
  }

  lemma {:induction false} PlainValues(n: nat)
    ensures Compact(Integer(n)) == Decimal(n) && Compact(JArr([])) == "[]"
  {
    assert "[" + "]" == "[]";
  }
}
