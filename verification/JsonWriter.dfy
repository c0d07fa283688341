/**
 * The hand-rolled JSON writers: string escaping (crates/bitty-ai-endpoint/src/lib.rs:1796-1820
 * and provider_binding.rs:290-308), decimal integers, and the compact form every encoder of
 * the crate emits. The reader undoes all of them.
 */
module JsonWriter {
  import opened Bytes
  import opened Results
  import opened Json
  import opened JsonReader
  import opened JsonGrammar

  // ---------------------------------------------------------------- strings

  function HexChar(n: nat): char
    requires n < 16
  {
    if n < 10 then ('0' as int + n) as char else ('a' as int + n - 10) as char
  }

  /** The letter of the two-character escapes, or a quote where there is none. */
  function EscapeLetter(c: char): char {
    if c == '\n' then 'n'
    else if c == '\r' then 'r'
    else if c == '\t' then 't'
    else if c == '\U{0008}' then 'b'
    else if c == '\U{000C}' then 'f'
    else if c == '\\' then '\\'
    else '"'
  }

  predicate HasLetter(c: char) { EscapeLetter(c) != '"' || c == '"' }

  /** The syntax in which one character is written. */
  function PieceOf(c: char): Piece {
    if HasLetter(c) then Escape(EscapeLetter(c))
    else if c < ' ' then Unicode(['0', '0', HexChar(c as int / 16), HexChar(c as int % 16)])
    else Raw(c)
  }

  function Escaped(c: char): string { PieceText(PieceOf(c)) }

  /** How each character is spelled. */
  lemma {:induction false} EscapeSpelling(c: char)
    ensures Escaped('"') == "\\\"" && Escaped('\\') == "\\\\"
    ensures Escaped('\n') == "\\n" && Escaped('\r') == "\\r" && Escaped('\t') == "\\t"
    ensures Escaped('\U{0008}') == "\\b" && Escaped('\U{000C}') == "\\f"
    ensures c < ' ' && c !in "\n\r\t\U{0008}\U{000C}" ==>
      Escaped(c) == "\\u00" + [if c < '\U{0010}' then '0' else '1', HexChar(c as int % 16)]
    ensures c >= ' ' && c != '"' && c != '\\' ==> Escaped(c) == [c]
  {
    var plain := "\n\r\t\U{0008}\U{000C}";
    assert plain[0] == '\n' && plain[1] == '\r' && plain[2] == '\t' && plain[3] == '\U{0008}' && plain[4] == '\U{000C}';
  }

  function EscapedText(text: string): string {
    if text == [] then [] else EscapedText(text[..|text| - 1]) + Escaped(text[|text| - 1])
  }

  lemma {:induction false} EscapedAppend(text: string, i: nat)
    requires i < |text|
    ensures EscapedText(text[..i + 1]) == EscapedText(text[..i]) + Escaped(text[i])
  {
    assert text[..i + 1][..i] == text[..i];
  }

  function Quote(text: string): string { "\"" + (EscapedText(text) + "\"") }

  /** Both writers push one escaped character after another. */
  method EscapeInto(buffer: string, text: string) returns (out: string)
    ensures out == buffer + EscapedText(text)
  {
    out := buffer;
    for i := 0 to |text|
      invariant out == buffer + EscapedText(text[..i])
    {
      EscapedAppend(text, i);
      Assoc(buffer, EscapedText(text[..i]), Escaped(text[i]));
      out := out + Escaped(text[i]);
    }
    assert text[..|text|] == text;
  }

  method EncodeStr(text: string) returns (out: string)
    ensures out == Quote(text)
  {
    out := EscapeInto("\"", text);
    out := out + "\"";
  }

  method AppendJsonString(buffer: string, text: string) returns (out: string)
    ensures out == buffer + Quote(text)
  {
    out := EscapeInto(buffer + "\"", text);
    Assoc(buffer, "\"", EscapedText(text));
    Assoc(buffer, "\"" + EscapedText(text), "\"");
    Assoc("\"", EscapedText(text), "\"");
    out := out + "\"";
  }

  lemma {:induction false} LetterMeans(c: char)
    requires HasLetter(c)
    ensures EscapeLetter(c) in "\"\\/bfnrt" && EscapeMeaning(EscapeLetter(c)) == c
  {
    var letters := "\"\\/bfnrt";
    assert letters[0] == '"' && letters[1] == '\\' && letters[3] == 'b' && letters[4] == 'f';
    assert letters[5] == 'n' && letters[6] == 'r' && letters[7] == 't';
  }

  lemma {:induction false} HexMeans(n: nat)
    requires n < 32
    ensures IsHex4(['0', '0', HexChar(n / 16), HexChar(n % 16)])
    ensures HexValue(['0', '0', HexChar(n / 16), HexChar(n % 16)]) == n
  {
    assert HexDigit(HexChar(n / 16)) == n / 16 && HexDigit(HexChar(n % 16)) == n % 16;
  }

  /** A written character is well formed and means the character itself. */
  lemma {:induction false} PieceOfMeans(c: char)
    ensures PieceOk(PieceOf(c)) && PieceChar(PieceOf(c)) == c
  {
    if HasLetter(c) {
      LetterMeans(c);
    } else if c < ' ' {
      HexMeans(c as int);
    }
  }

  function PiecesOf(text: string): seq<Piece> {
    seq(|text|, i requires 0 <= i < |text| => PieceOf(text[i]))
  }

  lemma {:induction false} PiecesOfMeans(text: string)
    ensures PiecesOk(PiecesOf(text)) && PiecesChars(PiecesOf(text)) == text
  {
    forall p | p in PiecesOf(text) ensures PieceOk(p) {
      var i :| 0 <= i < |text| && p == PieceOf(text[i]);
      PieceOfMeans(text[i]);
    }
    if text != [] {
      PieceOfMeans(text[0]);
      assert PiecesOf(text)[1..] == PiecesOf(text[1..]);
      PiecesOfMeans(text[1..]);
    }
  }

  lemma {:induction false} PiecesTextAppend(ps: seq<Piece>, p: Piece)
    ensures PiecesText(ps + [p]) == PiecesText(ps) + PieceText(p)
  {
    if ps == [] {
      assert [p][1..] == [] && PieceText(p) + [] == PieceText(p) == [] + PieceText(p);
      assert [] + [p] == [p];
    } else {
      assert (ps + [p])[1..] == ps[1..] + [p];
      PiecesTextAppend(ps[1..], p);
      Assoc(PieceText(ps[0]), PiecesText(ps[1..]), PieceText(p));
    }
  }

  lemma {:induction false} EscapedIsPieces(text: string)
    ensures EscapedText(text) == PiecesText(PiecesOf(text))
  {
    if text != [] {
      var n := |text| - 1;
      EscapedIsPieces(text[..n]);
      var p := PieceOf(text[n]);
      assert PiecesOf(text) == PiecesOf(text[..n]) + [p];
      PiecesTextAppend(PiecesOf(text[..n]), p);
    }
  }

  /** A written string is read back exactly, whatever follows its closing quote. */
  lemma {:induction false} QuoteReadsBack(text: string, t: string)
    ensures Quote(text) == QuotedText(PiecesOf(text))
    ensures Quote(text) + t != [] && (Quote(text) + t)[0] == '"'
    ensures ReadString((Quote(text) + t)[1..]) == Ok((text, t))
  {
    EscapedIsPieces(text);
    PiecesOfMeans(text);
    QuotedFollowed(PiecesOf(text), t);
    TailOf('"', PiecesThen(PiecesOf(text), t));
    StringReads(PiecesOf(text), t);
  }

  // ---------------------------------------------------------------- integers

  function Decimal(n: nat): (s: string)
    ensures SomeDigits(s)
  {
    if n < 10 then [('0' as int + n) as char]
    else
      var s := Decimal(n / 10);
      var d := ('0' as int + n % 10) as char;
      s + [d]
  }

  function DigitsValue(s: string): nat
    requires AllDigits(s)
  {
    if s == [] then 0
    else
      var n := |s| - 1;
      assert s[n] in s;
      DigitsValue(s[..n]) * 10 + (s[n] as int - '0' as int)
  }

  /** An integer's decimal form has no leading zero and stands for the integer. */
  lemma {:induction false} DecimalMeans(n: nat)
    ensures DigitsValue(Decimal(n)) == n && (Decimal(n)[0] == '0' ==> Decimal(n) == "0")
    ensures n > 0 ==> Decimal(n)[0] != '0'
  {
    if n >= 10 {
      DecimalMeans(n / 10);
      assert Decimal(n)[..|Decimal(n)| - 1] == Decimal(n / 10);
    } else {
      assert Decimal(n)[..0] == [];
    }
  }

  lemma {:induction false} SplitDecimal(v: nat, d: nat)
    requires d < 10
    ensures (v * 10 + d) / 10 == v && (v * 10 + d) % 10 == d
  {
  }

  /** One digit more. */
  lemma {:induction false} DecimalNext(v: nat, c: char)
    requires v > 0 && IsDigit(c)
    ensures Decimal(v * 10 + (c as int - '0' as int)) == Decimal(v) + [c]
  {
    SplitDecimal(v, c as int - '0' as int);
  }

  /** And it is the only such form. */
  lemma {:induction false} DecimalIsCanonical(s: string)
    requires SomeDigits(s) && (s[0] == '0' ==> s == "0")
    ensures Decimal(DigitsValue(s)) == s
    ensures s[0] != '0' ==> DigitsValue(s) > 0
  {
    var n := |s| - 1;
    assert s[n] in s && s[0] in s;
    if n == 0 {
      assert s[..0] == [];
    } else {
      var head := s[..n];
      assert head[0] == s[0];
      DecimalIsCanonical(head);
      DecimalNext(DigitsValue(head), s[n]);
      hide Decimal;
      assert s == head + [s[n]];
    }
  }

  /** The unsigned view of a number: digits only, within 64 bits. */
  function AsU64(v: JVal): Option<nat> {
    if v.JNum? && SomeDigits(v.raw) && DigitsValue(v.raw) <= U64_MAX then Some(DigitsValue(v.raw)) else None
  }

  // ---------------------------------------------------------------- number tokens

  ghost predicate IsNumberToken(raw: string) {
    exists n :: NumberOk(n) && NumberText(n) == raw
  }

  ghost function NumberOf(raw: string): (n: Number)
    requires IsNumberToken(raw)
    ensures NumberOk(n) && NumberText(n) == raw
  {
    var n :| NumberOk(n) && NumberText(n) == raw;
    n
  }

  /** The number scanner takes exactly the tokens of section 6 of RFC 8259. */
  lemma {:induction false} ScansExactlyNumberTokens(raw: string)
    ensures ReadNumber(raw) == Ok((raw, "")) <==> IsNumberToken(raw)
  {
    if ReadNumber(raw) == Ok((raw, "")) {
      var n := NumberSyntax(raw);
    }
    if IsNumberToken(raw) {
      var n := NumberOf(raw);
      NumberFollowed(n, "");
      assert raw + "" == raw;
      NumberReads(n, "");
    }
  }

  lemma {:induction false} DecimalIsToken(n: nat)
    ensures IsNumberToken(Decimal(n))
  {
    DecimalMeans(n);
    var x := Number(false, Decimal(n), None, None);
    assert NumberText(x) == Decimal(n);
  }

  // ---------------------------------------------------------------- compact text

  function Compact(v: JVal): string
    decreases v, 0
  {
    match v
    case JNull => "null"
    case JBool(b) => if b then "true" else "false"
    case JNum(raw) => raw
    case JStr(text) => Quote(text)
    case JArr(items) => "[" + (if items == [] then "]" else CompactItems(items))
    case JObj(fields) => "{" + (if fields == [] then "}" else CompactFields(fields))
  }

  /** The items and the closing bracket. */
  function CompactItems(items: seq<JVal>): string
    requires items != []
    decreases items, 1
  {
    Compact(items[0]) + (if |items| == 1 then "]" else "," + CompactItems(items[1..]))
  }

  /** The members and the closing brace. */
  function CompactFields(fields: seq<Field>): string
    requires fields != []
    decreases fields, 1
  {
    Quote(fields[0].key) + (":" + (Compact(fields[0].value) + (if |fields| == 1 then "}" else "," + CompactFields(fields[1..]))))
  }

  /** Every number in the value is a token. */
  ghost predicate Writable(v: JVal)
    decreases v
  {
    match v
    case JNum(raw) => IsNumberToken(raw)
    case JArr(items) => forall i :: 0 <= i < |items| ==> Writable(items[i])
    case JObj(fields) => forall i :: 0 <= i < |fields| ==> Writable(fields[i].value)
    case _ => true
  }

  function ValueDepth(v: JVal): nat
    decreases v, 0
  {
    match v
    case JArr(items) => if items == [] then 0 else 1 + ItemsDepthOf(items)
    case JObj(fields) => if fields == [] then 0 else 1 + FieldsDepthOf(fields)
    case _ => 0
  }

  function ItemsDepthOf(items: seq<JVal>): nat
    decreases items, 1
  {
    if items == [] then 0 else Max(ValueDepth(items[0]), ItemsDepthOf(items[1..]))
  }

  function FieldsDepthOf(fields: seq<Field>): nat
    decreases fields, 1
  {
    if fields == [] then 0 else Max(ValueDepth(fields[0].value), FieldsDepthOf(fields[1..]))
  }

  /** The syntax tree behind the compact text: no whitespace anywhere. */
  lemma {:induction false} CompactSyntax(v: JVal) returns (x: Syntax)
    requires Writable(v)
    ensures SyntaxOk(x) && Text(x) == Compact(v) && Meaning(x) == v && Depth(x) == ValueDepth(v)
    decreases v, 0
  {
    match v
    case JNull => x := SNull;
    case JBool(b) => x := if b then STrue else SFalse;
    case JNum(raw) => x := SNum(NumberOf(raw));
    case JStr(text) =>
      x := SStr(PiecesOf(text));
      EscapedIsPieces(text);
      PiecesOfMeans(text);
    case JArr(items) =>
      if items == [] {
        x := SArr("", NoItems);
        assert "" + "]" == "]";
      } else {
        var xs := CompactItemsSyntax(items);
        x := SArr("", xs);
      }
    case JObj(fields) =>
      if fields == [] {
        x := SObj("", NoMembers);
        assert "" + "}" == "}";
      } else {
        var xs := CompactFieldsSyntax(fields);
        x := SObj("", xs);
      }
  }

  lemma {:induction false} CompactItemsSyntax(items: seq<JVal>) returns (x: Items)
    requires items != [] && forall i :: 0 <= i < |items| ==> Writable(items[i])
    ensures x.Item? && ItemsOk(x) && ItemsText(x) == CompactItems(items)
    ensures ItemsMeaning(x) == items && ItemsDepth(x) == ItemsDepthOf(items)
    decreases items, 1
  {
    var first := CompactSyntax(items[0]);
    var rest := NoItems;
    if |items| > 1 {
      forall i | 0 <= i < |items[1..]| ensures Writable(items[1..][i]) { assert items[1..][i] == items[i + 1]; }
      rest := CompactItemsSyntax(items[1..]);
    }
    x := Item("", first, "", rest);
    var close := if rest.NoItems? then "]" else "," + ItemsText(rest);
    assert "" + close == close;
    assert "" + (Text(first) + close) == Text(first) + close;
    assert items == [items[0]] + items[1..];
  }

  lemma {:induction false} CompactFieldsSyntax(fields: seq<Field>) returns (x: Members)
    requires fields != [] && forall i :: 0 <= i < |fields| ==> Writable(fields[i].value)
    ensures x.Member? && MembersOk(x) && MembersText(x) == CompactFields(fields)
    ensures MembersMeaning(x) == fields && MembersDepth(x) == FieldsDepthOf(fields)
    decreases fields, 1
  {
    var first := CompactSyntax(fields[0].value);
    var rest := NoMembers;
    if |fields| > 1 {
      forall i | 0 <= i < |fields[1..]| ensures Writable(fields[1..][i].value) { assert fields[1..][i] == fields[i + 1]; }
      rest := CompactFieldsSyntax(fields[1..]);
    }
    var key := PiecesOf(fields[0].key);
    PiecesOfMeans(fields[0].key);
    EscapedIsPieces(fields[0].key);
    x := Member("", key, "", "", first, "", rest);
    CompactMemberText(x, fields[0].key, Compact(fields[0].value), if rest.NoMembers? then "}" else "," + MembersText(rest));
    assert fields == [fields[0]] + fields[1..];
  }

  lemma {:induction false} CompactMemberText(x: Members, key: string, value: string, close: string)
    requires x.Member? && x.before == x.colonBefore == x.colonAfter == x.after == ""
    requires QuotedText(x.key) == Quote(key) && Text(x.value) == value
    requires close == if x.rest.NoMembers? then "}" else "," + MembersText(x.rest)
    ensures MembersText(x) == Quote(key) + (":" + (value + close))
  {
    assert "" + close == close;
    var v := value + close;
    assert "" + v == v;
    var c := ":" + v;
    assert "" + c == c;
    var q := Quote(key) + c;
    assert "" + q == q;
  }

  /** What any compact writer produces for an object, the reader turns back into that object. */
  lemma {:induction false} CompactReadsBack(v: JVal, max: nat)
    requires Writable(v) && v.JObj? && ValueDepth(v) <= max
    ensures ParseObject(Compact(v), max) == Ok(v)
  {
    var x := CompactSyntax(v);
    ObjectTextIsAccepted("", x, "", max);
    assert "" + (Text(x) + "") == Compact(v);
  }

  /** So no two objects share a compact text. */
  lemma {:induction false} CompactIsInjective(a: JVal, b: JVal)
    requires Writable(a) && Writable(b) && a.JObj? && b.JObj? && Compact(a) == Compact(b)
    ensures a == b
  {
    var max := Max(ValueDepth(a), ValueDepth(b));
    CompactReadsBack(a, max);
    CompactReadsBack(b, max);
  }
}
