/**
 * Growing a text buffer value by value, the way every encoder of
 * crates/bitty-ai-endpoint/src builds its output. What is appended is the compact text.
 */
module JsonBuffer {
  import opened Json
  import opened JsonGrammar
  import opened JsonWriter

  function Comma(out: string, done: nat): string {
    if done == 0 then out else out + ","
  }

  /** The buffer after `v` is appended. */
  function Emit(out: string, v: JVal): string
    decreases v, 0
  {
    match v
    case JArr(items) => EmitItems(out + "[", items) + "]"
    case JObj(fields) => EmitFields(out + "{", fields) + "}"
    case _ => out + Compact(v)
  }

  function EmitItems(out: string, items: seq<JVal>): string
    decreases items, 1
  {
    if items == [] then out
    else
      var n := |items| - 1;
      Emit(Comma(EmitItems(out, items[..n]), n), items[n])
  }

  function EmitFields(out: string, fields: seq<Field>): string
    decreases fields, 1
  {
    if fields == [] then out
    else
      var n := |fields| - 1;
      Emit(Comma(EmitFields(out, fields[..n]), n) + Quote(fields[n].key) + ":", fields[n].value)
  }

  lemma {:induction false} EmitItemsAppend(out: string, items: seq<JVal>, v: JVal)
    ensures EmitItems(out, items + [v]) == Emit(Comma(EmitItems(out, items), |items|), v)
  {
    assert (items + [v])[..|items|] == items;
  }

  lemma {:induction false} EmitFieldsAppend(out: string, fields: seq<Field>, f: Field)
    ensures EmitFields(out, fields + [f]) == Emit(Comma(EmitFields(out, fields), |fields|) + Quote(f.key) + ":", f.value)
  {
    assert (fields + [f])[..|fields|] == fields;
  }

  // ---------------------------------------------------------------- what is appended

  /** The items of an array, or the members of an object, without their closing bracket. */
  ghost function JoinedItems(items: seq<JVal>): string
    decreases items
  {
    if items == [] then ""
    else if |items| == 1 then Compact(items[0])
    else Compact(items[0]) + ("," + JoinedItems(items[1..]))
  }

  ghost function MemberText(f: Field): string { Quote(f.key) + (":" + Compact(f.value)) }

  ghost function JoinedFields(fields: seq<Field>): string {
    if fields == [] then ""
    else if |fields| == 1 then MemberText(fields[0])
    else MemberText(fields[0]) + ("," + JoinedFields(fields[1..]))
  }

  lemma {:induction false} ItemsAreJoined(items: seq<JVal>)
    requires items != []
    ensures CompactItems(items) == JoinedItems(items) + "]"
  {
    if |items| > 1 {
      ItemsAreJoined(items[1..]);
      Assoc(",", JoinedItems(items[1..]), "]");
      Assoc(Compact(items[0]), "," + JoinedItems(items[1..]), "]");
    }
  }

  lemma {:induction false} FieldsAreJoined(fields: seq<Field>)
    requires fields != []
    ensures CompactFields(fields) == JoinedFields(fields) + "}"
  {
    var rest := if |fields| == 1 then "}" else "," + CompactFields(fields[1..]);
    Assoc(":", Compact(fields[0].value), rest);
    Assoc(Quote(fields[0].key), ":" + Compact(fields[0].value), rest);
    if |fields| > 1 {
      FieldsAreJoined(fields[1..]);
      Assoc(",", JoinedFields(fields[1..]), "}");
      Assoc(MemberText(fields[0]), "," + JoinedFields(fields[1..]), "}");
    }
  }

  lemma {:induction false} JoinedItemsAppend(items: seq<JVal>, v: JVal)
    ensures JoinedItems(items + [v]) == Comma(JoinedItems(items), |items|) + Compact(v)
  {
    if items == [] {
      assert [] + [v] == [v] && "" + Compact(v) == Compact(v);
    } else {
      assert (items + [v])[1..] == items[1..] + [v] && (items + [v])[0] == items[0];
      JoinedItemsAppend(items[1..], v);
      var first := Compact(items[0]);
      if |items| == 1 {
        assert "" + Compact(v) == Compact(v);
        Assoc(first, ",", Compact(v));
      } else {
        var middle := JoinedItems(items[1..]);
        Assoc(",", middle + ",", Compact(v));
        Assoc(",", middle, ",");
        Assoc(first, "," + middle, ",");
        Assoc(first, "," + middle + ",", Compact(v));
      }
    }
  }

  lemma {:induction false} JoinedFieldsAppend(fields: seq<Field>, f: Field)
    ensures JoinedFields(fields + [f]) == Comma(JoinedFields(fields), |fields|) + MemberText(f)
  {
    if fields == [] {
      assert [] + [f] == [f] && "" + MemberText(f) == MemberText(f);
    } else {
      assert (fields + [f])[1..] == fields[1..] + [f] && (fields + [f])[0] == fields[0];
      JoinedFieldsAppend(fields[1..], f);
      var first := MemberText(fields[0]);
      if |fields| == 1 {
        assert "" + MemberText(f) == MemberText(f);
        Assoc(first, ",", MemberText(f));
      } else {
        var middle := JoinedFields(fields[1..]);
        Assoc(",", middle + ",", MemberText(f));
        Assoc(",", middle, ",");
        Assoc(first, "," + middle, ",");
        Assoc(first, "," + middle + ",", MemberText(f));
      }
    }
  }

  lemma {:induction false} CommaOnto(out: string, done: string, n: nat, more: string)
    ensures Comma(out + done, n) + more == out + (Comma(done, n) + more)
  {
    if n == 0 {
      Assoc(out, done, more);
    } else {
      Assoc(out, done, ",");
      Assoc(out, done + ",", more);
    }
  }

  /** Appending a value appends its compact text and nothing else. */
  lemma {:induction false} EmitAppends(out: string, v: JVal)
    ensures Emit(out, v) == out + Compact(v)
    decreases v, 0
  {
    match v
    case JArr(items) =>
      EmitItemsAppends(out + "[", items);
      Bracketed(out, "[", JoinedItems(items), "]");
      if items == [] {
        assert "" + "]" == "]";
      } else {
        ItemsAreJoined(items);
      }
    case JObj(fields) =>
      EmitFieldsAppends(out + "{", fields);
      Bracketed(out, "{", JoinedFields(fields), "}");
      if fields == [] {
        assert "" + "}" == "}";
      } else {
        FieldsAreJoined(fields);
      }
    case _ =>
  }

  lemma {:induction false} Bracketed(out: string, open: string, inner: string, close: string)
    ensures out + open + inner + close == out + (open + (inner + close))
  {
    Assoc(out + open, inner, close);
    Assoc(out, open, inner + close);
  }

  lemma {:induction false} EmitItemsAppends(out: string, items: seq<JVal>)
    ensures EmitItems(out, items) == out + JoinedItems(items)
    decreases items, 1
  {
    if items == [] {
      assert out + "" == out;
    } else {
      var n := |items| - 1;
      EmitItemsAppends(out, items[..n]);
      EmitAppends(Comma(EmitItems(out, items[..n]), n), items[n]);
      CommaOnto(out, JoinedItems(items[..n]), n, Compact(items[n]));
      JoinedItemsAppend(items[..n], items[n]);
      LastSplit(items);
    }
  }

  lemma {:induction false} MemberOnto(out: string, done: string, n: nat, key: string, value: string)
    ensures Comma(out + done, n) + key + ":" + value == out + (Comma(done, n) + (key + (":" + value)))
  {
    var before := Comma(out + done, n);
    Assoc(before + key, ":", value);
    Assoc(before, key, ":" + value);
    CommaOnto(out, done, n, key + (":" + value));
  }

  lemma {:induction false} EmitFieldsAppends(out: string, fields: seq<Field>)
    ensures EmitFields(out, fields) == out + JoinedFields(fields)
    decreases fields, 1
  {
    if fields == [] {
      assert out + "" == out;
    } else {
      var n := |fields| - 1;
      var f := fields[n];
      EmitFieldsAppends(out, fields[..n]);
      var before := Comma(EmitFields(out, fields[..n]), n);
      EmitAppends(before + Quote(f.key) + ":", f.value);
      MemberOnto(out, JoinedFields(fields[..n]), n, Quote(f.key), Compact(f.value));
      JoinedFieldsAppend(fields[..n], f);
      LastSplit(fields);
    }
  }

  // ---------------------------------------------------------------- literal keys

  predicate PlainKey(key: string) {
    forall i :: 0 <= i < |key| ==> ('a' <= key[i] <= 'z' || key[i] == '_')
  }

  /** The text written before a member's value. */
  function KeyText(key: string): string { "\"" + (key + "\":") }

  lemma {:induction false} PlainIsItself(c: char)
    requires 'a' <= c <= 'z' || c == '_'
    ensures Escaped(c) == [c]
  {
  }

  lemma {:induction false} LastSplit<T>(s: seq<T>)
    requires s != []
    ensures s == s[..|s| - 1] + [s[|s| - 1]]
  {
  }

  lemma {:induction false} PlainIsUnescaped(text: string)
    requires PlainKey(text)
    ensures EscapedText(text) == text
  {
    if text != [] {
      var n := |text| - 1;
      PlainIsUnescaped(text[..n]);
      PlainIsItself(text[n]);
      LastSplit(text);
    }
  }

  lemma {:induction false} WriteKey(out: string, key: string)
    requires PlainKey(key)
    ensures out + KeyText(key) == out + Quote(key) + ":"
  {
    PlainIsUnescaped(key);
    Assoc(out, Quote(key), ":");
    Assoc("\"", key + "\"", ":");
    Assoc(key, "\"", ":");
    assert "\"" + ":" == "\":";
  }

  /** One more member of an object, its key written as a literal. */
  lemma {:induction false} NextField(out: string, fields: seq<Field>, f: Field) returns (more: seq<Field>)
    requires PlainKey(f.key)
    ensures more == fields + [f]
    ensures EmitFields(out, more) == Emit(Comma(EmitFields(out, fields), |fields|) + KeyText(f.key), f.value)
  {
    more := fields + [f];
    EmitFieldsAppend(out, fields, f);
    WriteKey(Comma(EmitFields(out, fields), |fields|), f.key);
  }

  lemma {:induction false} ScalarEmits(out: string, text: string, n: nat)
    ensures Emit(out, JStr(text)) == out + Quote(text) && Emit(out, JNum(Decimal(n))) == out + Decimal(n)
  {
  }

  lemma {:induction false} ContainerEmits(out: string, items: seq<JVal>, fields: seq<Field>)
    ensures Emit(out, JArr(items)) == EmitItems(out + "[", items) + "]"
    ensures Emit(out, JObj(fields)) == EmitFields(out + "{", fields) + "}"
  {
  }

  /** The first member of an object, when it is a string. */
  lemma {:induction false} FirstEmits(out: string, f: Field, text: string) returns (more: string)
    requires PlainKey(f.key) && f.value == JStr(text)
    ensures more == EmitFields(out, [f]) == out + KeyText(f.key) + Quote(text)
  {
    var one := NextField(out, [], f);
    assert one == [f];
    ScalarEmits(out + KeyText(f.key), text, 0);
    more := EmitFields(out, [f]);
  }

  /** One more member after the first `i`. */
  lemma {:induction false} FieldStep(out: string, fields: seq<Field>, i: nat)
    requires i < |fields| && PlainKey(fields[i].key)
    ensures EmitFields(out, fields[..i + 1])
      == Comma(EmitFields(out, fields[..i]), i) + KeyText(fields[i].key) + Compact(fields[i].value)
  {
    hide KeyText, Compact, EmitFields;
    var more := NextField(out, fields[..i], fields[i]);
    assert more == fields[..i + 1];
    EmitAppends(Comma(EmitFields(out, fields[..i]), i) + KeyText(fields[i].key), fields[i].value);
  }

  /** All members written, the object is written. */
  lemma {:induction false} ObjectEmits(out: string, fields: seq<Field>)
    ensures EmitFields(out + "{", fields[..0]) == out + "{"
    ensures EmitFields(out + "{", fields[..|fields|]) + "}" == Emit(out, JObj(fields)) == out + Compact(JObj(fields))
  {
    assert fields[..|fields|] == fields;
    EmitAppends(out, JObj(fields));
  }
}
