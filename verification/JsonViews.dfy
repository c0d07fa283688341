/**
 * Reading fields out of a parsed value (crates/bitty-ai-endpoint/src/lib.rs:719-769) and
 * measuring text in UTF-8 bytes.
 */
module JsonViews {
  import opened Results
  import opened Json
  import opened JsonReader
  import opened JsonWriter
  import Utf8

  // ---------------------------------------------------------------- text

  function CharLen(c: char): nat {
    if c < '\U{0080}' then 1 else if c < '\U{0800}' then 2 else if c < '\U{10000}' then 3 else 4
  }

  function Utf8Len(s: string): nat {
    if s == [] then 0 else Utf8Len(s[..|s| - 1]) + CharLen(s[|s| - 1])
  }

  /** It is the length of the text's UTF-8 encoding. */
  lemma {:induction false} Utf8LenMeans(s: string)
    ensures Utf8Len(s) == |Utf8.EncodeText(s)|
  {
    if s != [] {
      var front, last := s[..|s| - 1], s[|s| - 1];
      Utf8LenMeans(front);
      LastEncodes(front, last);
      assert s == front + [last];
    }
  }

  lemma {:induction false} LastEncodes(s: string, c: char)
    ensures Utf8.EncodeText(s + [c]) == Utf8.EncodeText(s) + Utf8.EncodeChar(c)
  {
    hide Utf8.EncodeChar;
    if s == [] {
      assert s + [c] == [c] && [c][1..] == [];
      assert Utf8.EncodeText([c]) == Utf8.EncodeChar(c) + [];
    } else {
      LastEncodes(s[1..], c);
      assert (s + [c])[1..] == s[1..] + [c];
    }
  }

  predicate OneOf(s: string, words: seq<string>) {
    words != [] && (s == words[0] || OneOf(s, words[1..]))
  }

  lemma {:induction false} WordIsOneOf(words: seq<string>, k: nat)
    requires k < |words|
    ensures OneOf(words[k], words)
  {
    if k > 0 {
      WordIsOneOf(words[1..], k - 1);
    }
  }

  lemma {:induction false} OneOfIsIn(s: string, words: seq<string>)
    ensures OneOf(s, words) <==> s in words
  {
    if words != [] {
      OneOfIsIn(s, words[1..]);
      assert words == [words[0]] + words[1..];
    }
  }

  lemma {:induction false} ConsTail<T>(x: T, xs: seq<T>)
    ensures ([x] + xs)[1..] == xs
  {
  }

  lemma {:induction false} ConsSplit<T>(s: seq<T>)
    requires s != []
    ensures [s[0]] + s[1..] == s
  {
  }

  // ---------------------------------------------------------------- values

  /** The first field of that name. */
  function Lookup(fields: seq<Field>, name: string): Option<JVal> {
    if fields == [] then None
    else if fields[0].key == name then Some(fields[0].value)
    else Lookup(fields[1..], name)
  }

  lemma {:induction false} LookupAt(fields: seq<Field>, i: nat)
    requires i < |fields| && forall j :: 0 <= j < i ==> fields[j].key != fields[i].key
    ensures Lookup(fields, fields[i].key) == Some(fields[i].value)
  {
    if i > 0 {
      assert fields[1..][i - 1] == fields[i];
      LookupAt(fields[1..], i - 1);
    }
  }

  function FieldOf(v: JVal, name: string): Option<JVal> {
    if v.JObj? then Lookup(v.fields, name) else None
  }

  function StringField(v: JVal, name: string): Option<string> {
    match FieldOf(v, name)
    case Some(JStr(text)) => Some(text)
    case _ => None
  }

  function ArrayField(v: JVal, name: string): Option<seq<JVal>> {
    match FieldOf(v, name)
    case Some(JArr(items)) => Some(items)
    case _ => None
  }

  function Strings(labels: seq<string>): seq<JVal> {
    seq(|labels|, i requires 0 <= i < |labels| => JStr(labels[i]))
  }

  function Integer(n: nat): JVal { JNum(Decimal(n)) }

  // ---------------------------------------------------------------- values a writer can write

  /** Every number is a token and nothing nests deeper than `n`. */
  ghost predicate Within(v: JVal, n: nat) { Writable(v) && ValueDepth(v) <= n }

  lemma {:induction false} ItemsAtMost(items: seq<JVal>, n: nat)
    requires forall i :: 0 <= i < |items| ==> ValueDepth(items[i]) <= n
    ensures ItemsDepthOf(items) <= n
  {
    if items != [] {
      ItemsAtMost(items[1..], n);
    }
  }

  lemma {:induction false} FieldsAtMost(fields: seq<Field>, n: nat)
    requires forall i :: 0 <= i < |fields| ==> ValueDepth(fields[i].value) <= n
    ensures FieldsDepthOf(fields) <= n
  {
    if fields != [] {
      FieldsAtMost(fields[1..], n);
    }
  }

  lemma {:induction false} ArrayWithin(items: seq<JVal>, n: nat)
    requires forall i :: 0 <= i < |items| ==> Within(items[i], n)
    ensures Within(JArr(items), n + 1)
  {
    assert forall i :: 0 <= i < |items| ==> Within(items[i], n) ==> ValueDepth(items[i]) <= n && Writable(items[i]);
    ItemsAtMost(items, n);
  }

  lemma {:induction false} ObjectWithin(fields: seq<Field>, n: nat)
    requires forall i :: 0 <= i < |fields| ==> Within(fields[i].value, n)
    ensures Within(JObj(fields), n + 1)
  {
    assert forall i :: 0 <= i < |fields| ==> Within(fields[i].value, n) ==> ValueDepth(fields[i].value) <= n && Writable(fields[i].value);
    FieldsAtMost(fields, n);
  }

  lemma {:induction false} ScalarWithin(text: string, k: nat, b: bool, n: nat)
    ensures Within(JStr(text), n) && Within(Integer(k), n) && Within(JBool(b), n) && Within(JArr([]), n)
  {
    DecimalIsToken(k);
  }

  lemma {:induction false} StringsWithin(labels: seq<string>, n: nat)
    ensures Within(JArr(Strings(labels)), n + 1)
  {
    forall i | 0 <= i < |labels| ensures Within(Strings(labels)[i], n) { ScalarWithin(labels[i], 0, true, n); }
    ArrayWithin(Strings(labels), n);
  }

  /** What was written as an object is read back. */
  lemma {:induction false} WithinParses(v: JVal, n: nat, max: nat)
    requires Within(v, n) && n <= max && v.JObj?
    ensures ParseObject(Compact(v), max) == Ok(v)
  {
    CompactReadsBack(v, max);
  }
}
