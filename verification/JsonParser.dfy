/**
 * The recursive-descent parser of crates/bitty-ai-endpoint/src/lib.rs:779-1079, moving a
 * position over the text. Each method does what the function of `JsonReader` says on the
 * text from its position on, and leaves the position at the text that function leaves.
 * The depth bound of the contract crate is the parameter `max`.
 */
module JsonParser {
  import opened Results
  import opened Json
  import opened JsonReader
  import opened JsonGrammar

  /** A result and the unread text are what the specification says. */
  ghost predicate Follows<T>(r: Result<T, JsonError>, spec: Reading<T>, rest: string) {
    match r
    case Ok(v) => spec == Ok((v, rest))
    case Err(e) => spec == Err(e)
  }

  /** A reading with elements already read put in front. */
  ghost function Onto<T>(done: seq<T>, r: Reading<seq<T>>): Reading<seq<T>> {
    match r
    case Ok(v) => Ok((done + v.0, v.1))
    case Err(_) => r
  }

  lemma {:induction false} OntoOne<T>(done: seq<T>, x: T, r: Reading<seq<T>>)
    ensures r.Ok? ==> Onto(done, Ok(([x] + r.value.0, r.value.1))) == Onto(done + [x], r)
    ensures r.Err? ==> Onto(done, r) == Onto(done + [x], r)
  {
    if r.Ok? {
      assert done + ([x] + r.value.0) == done + [x] + r.value.0;
    }
  }

  /** The digits read so far, most significant first. */
  ghost function HexFold(h: string): nat {
    if h == [] then 0 else HexFold(h[..|h| - 1]) * 16 + HexDigit(h[|h| - 1])
  }

  lemma {:induction false} HexFoldOfFour(h: string)
    requires IsHex4(h)
    ensures HexFold(h) == HexValue(h)
  {
    assert h[..3][..2] == h[..2] && h[..2][..1] == h[..1] && h[..1][..0] == [];
    assert HexFold(h[..1]) == HexDigit(h[0]);
    assert HexFold(h[..2]) == HexFold(h[..1]) * 16 + HexDigit(h[1]);
    assert HexFold(h[..3]) == HexFold(h[..2]) * 16 + HexDigit(h[2]);
  }

  class Parser {
    const input: string
    var pos: nat

    constructor (text: string)
      ensures input == text && pos == 0
    {
      input := text;
      pos := 0;
    }

    ghost predicate Valid()
      reads this
    {
      pos <= |input|
    }

    /** The unread text. */
    ghost function Rest(): string
      requires Valid()
      reads this
    {
      input[pos..]
    }

    predicate Peek(c: char)
      requires Valid()
      reads this
    {
      pos < |input| && input[pos] == c
    }

    predicate PeekDigit()
      requires Valid()
      reads this
    {
      pos < |input| && IsDigit(input[pos])
    }

    method Ws()
      requires Valid()
      modifies this`pos
      ensures Valid() && Rest() == SkipWs(old(Rest())) && pos >= old(pos)
    {
      while pos < |input| && IsWs(input[pos])
        invariant old(pos) <= pos <= |input|
        invariant SkipWs(Rest()) == SkipWs(old(Rest()))
      {
        assert input[pos..][1..] == input[pos + 1..];
        pos := pos + 1;
      }
    }

    method Advance()
      requires Valid() && pos < |input|
      modifies this`pos
      ensures Valid() && pos == old(pos) + 1 && Rest() == old(Rest())[1..]
    {
      pos := pos + 1;
    }

    method Literal(word: string, value: JVal) returns (r: Result<JVal, JsonError>)
      requires Valid() && word != []
      modifies this`pos
      ensures Valid() && Follows(r, ReadLiteral(old(Rest()), word, value), Rest())
      ensures pos >= old(pos)
    {
      var end := pos + |word|;
      if end <= |input| && input[pos..end] == word {
        assert word <= Rest() by { assert Rest()[..|word|] == word; }
        assert Rest()[|word|..] == input[end..];
        pos := end;
        return Ok(value);
      }
      assert end <= |input| ==> input[pos..end] == Rest()[..|word|];
      return Err(Malformed);
    }

    /** A run of digits. */
    method Digits() returns (n: nat)
      requires Valid()
      modifies this`pos
      ensures Valid() && pos == old(pos) + n && n == DigitRun(old(Rest())) && Rest() == old(Rest())[n..]
    {
      n := 0;
      while PeekDigit()
        invariant Valid() && pos == old(pos) + n
        invariant DigitRun(old(Rest())) == n + DigitRun(Rest())
        decreases |input| - pos
      {
        assert Rest()[1..] == input[pos + 1..];
        pos := pos + 1;
        n := n + 1;
      }
    }

    method Whole() returns (ok: bool)
      requires Valid()
      modifies this`pos
      ensures Valid() && pos >= old(pos)
      ensures AfterWhole(old(Rest())) == if ok then Ok(Rest()) else Err(Malformed)
    {
      if Peek('0') {
        Advance();
        return !PeekDigit();
      }
      var n := Digits();
      return n > 0;
    }

    method Fraction() returns (ok: bool)
      requires Valid()
      modifies this`pos
      ensures Valid() && pos >= old(pos)
      ensures AfterFraction(old(Rest())) == if ok then Ok(Rest()) else Err(Malformed)
    {
      if !Peek('.') {
        return true;
      }
      Advance();
      var n := Digits();
      return n > 0;
    }

    method Exponent() returns (ok: bool)
      requires Valid()
      modifies this`pos
      ensures Valid() && pos >= old(pos)
      ensures AfterExponent(old(Rest())) == if ok then Ok(Rest()) else Err(Malformed)
    {
      if !Peek('e') && !Peek('E') {
        return true;
      }
      ghost var s := Rest();
      Advance();
      assert Rest() == s[1..];
      if Peek('+') || Peek('-') {
        assert At(s, 1, '+') || At(s, 1, '-');
        Advance();
        assert Rest() == s[2..];
      } else {
        assert !At(s, 1, '+') && !At(s, 1, '-');
      }
      var n := Digits();
      return n > 0;
    }

    /** Past the number token. */
    method SkipNumber() returns (ok: bool)
      requires Valid()
      modifies this`pos
      ensures Valid() && pos >= old(pos)
      ensures AfterNumber(old(Rest())) == if ok then Ok(Rest()) else Err(Malformed)
    {
      if Peek('-') {
        Advance();
      }
      ok := Whole();
      if ok {
        ok := Fraction();
      }
      if ok {
        ok := Exponent();
      }
    }

    method Number() returns (r: Result<string, JsonError>)
      requires Valid()
      modifies this`pos
      ensures Valid() && pos >= old(pos) && Follows(r, ReadNumber(old(Rest())), Rest())
    {
      var start := pos;
      var ok := SkipNumber();
      if !ok {
        return Err(Malformed);
      }
      assert input[start..pos] == old(Rest())[..|old(Rest())| - |Rest()|];
      return Ok(input[start..pos]);
    }

    method Hex4() returns (r: Result<nat, JsonError>)
      requires Valid()
      modifies this`pos
      ensures Valid() && pos >= old(pos) && Follows(r, ReadHex4(old(Rest())), Rest())
    {
      ghost var s := Rest();
      var code := 0;
      for i := 0 to 4
        invariant Valid() && pos == old(pos) + i
        invariant forall j :: 0 <= j < i ==> HexDigit(s[j]) < 16
        invariant code == HexFold(s[..i])
      {
        if pos == |input| {
          return Err(Malformed);
        }
        var v := HexDigit(input[pos]);
        if v == 16 {
          assert s[i] == input[pos];
          return Err(Malformed);
        }
        assert s[..i + 1][..i] == s[..i];
        code := code * 16 + v;
        pos := pos + 1;
      }
      HexFoldOfFour(s[..4]);
      assert Rest() == s[4..];
      return Ok(code);
    }

    method Unicode() returns (r: Result<char, JsonError>)
      requires Valid()
      modifies this`pos
      ensures Valid() && pos >= old(pos) && Follows(r, ReadUnicode(old(Rest())), Rest())
    {
      var first := Hex4();
      if first.Err? {
        return Err(first.error);
      }
      var high := first.value;
      if IsHighSurrogate(high) {
        if pos + 2 > |input| || input[pos..pos + 2] != "\\u" {
          return Err(Malformed);
        }
        assert Rest()[..2] == "\\u" && Rest()[2..] == input[pos + 2..];
        pos := pos + 2;
        var second := Hex4();
        if second.Err? {
          return Err(second.error);
        }
        var low := second.value;
        if !IsLowSurrogate(low) {
          return Err(Malformed);
        }
        return Ok(PairScalar(high, low) as char);
      }
      if IsLowSurrogate(high) {
        return Err(Malformed);
      }
      return Ok(high as char);
    }

    /** After the backslash. */
    method Escape() returns (r: Result<char, JsonError>)
      requires Valid()
      modifies this`pos
      ensures Valid() && pos >= old(pos) && Follows(r, ReadEscape(old(Rest())), Rest())
    {
      if pos == |input| {
        return Err(Malformed);
      }
      var letter := input[pos];
      if letter in "\"\\/bfnrt" {
        Advance();
        return Ok(EscapeMeaning(letter));
      }
      if letter != 'u' {
        return Err(Malformed);
      }
      Advance();
      r := Unicode();
    }

    /** From the opening quote through the closing one. */
    method String() returns (r: Result<string, JsonError>)
      requires Valid() && Peek('"')
      modifies this`pos
      ensures Valid() && pos > old(pos) && Follows(r, ReadString(old(Rest())[1..]), Rest())
    {
      Advance();
      ghost var s := Rest();
      var out := "";
      assert Onto(out, ReadString(s)) == ReadString(s) by {
        if ReadString(s).Ok? { assert "" + ReadString(s).value.0 == ReadString(s).value.0; }
      }
      while true
        invariant Valid() && pos > old(pos)
        invariant ReadString(s) == Onto(out, ReadString(Rest()))
        decreases |input| - pos
      {
        if pos == |input| {
          return Err(Malformed);
        }
        var c := input[pos];
        if c == '"' {
          Advance();
          assert out + [] == out;
          return Ok(out);
        } else if c == '\\' {
          Advance();
          var e := Escape();
          if e.Err? {
            return Err(e.error);
          }
          c := e.value;
        } else if c < ' ' {
          return Err(Malformed);
        } else {
          Advance();
        }
        OntoOne(out, c, ReadString(Rest()));
        out := out + [c];
      }
    }

    method Value(depth: nat, max: nat) returns (r: Result<JVal, JsonError>)
      requires Valid()
      modifies this`pos
      ensures Valid() && pos >= old(pos) && Follows(r, ReadValue(old(Rest()), depth, max), Rest())
      decreases |input| - pos, 1
    {
      if depth > max {
        return Err(TooDeep);
      }
      Ws();
      if Peek('{') {
        r := Object(depth, max);
      } else if Peek('[') {
        r := Array(depth, max);
      } else {
        r := Scalar();
      }
    }

    /** A string, a literal or a number. */
    method Scalar() returns (r: Result<JVal, JsonError>)
      requires Valid() && !Peek('{') && !Peek('[')
      modifies this`pos
      ensures Valid() && pos >= old(pos) && Follows(r, ReadScalar(old(Rest())), Rest())
    {
      if Peek('"') {
        var text := String();
        return if text.Ok? then Ok(JStr(text.value)) else Err(text.error);
      } else if Peek('t') {
        r := Literal("true", JBool(true));
      } else if Peek('f') {
        r := Literal("false", JBool(false));
      } else if Peek('n') {
        r := Literal("null", JNull);
      } else if Peek('-') || PeekDigit() {
        var raw := Number();
        return if raw.Ok? then Ok(JNum(raw.value)) else Err(raw.error);
      } else {
        return Err(Malformed);
      }
    }

    method Array(depth: nat, max: nat) returns (r: Result<JVal, JsonError>)
      requires Valid() && Peek('[')
      modifies this`pos
      ensures Valid() && pos > old(pos) && Follows(r, ReadArray(old(Rest())[1..], depth, max), Rest())
      decreases |input| - pos, 0
    {
      Advance();
      Ws();
      if Peek(']') {
        Advance();
        return Ok(JArr([]));
      }
      var items := Items(depth, max);
      return if items.Ok? then Ok(JArr(items.value)) else Err(items.error);
    }

    method Items(depth: nat, max: nat) returns (r: Result<seq<JVal>, JsonError>)
      requires Valid()
      modifies this`pos
      ensures Valid() && pos >= old(pos) && Follows(r, ReadItems(old(Rest()), depth, max), Rest())
      decreases |input| - pos, 2
    {
      ghost var s := Rest();
      var items := [];
      assert Onto(items, ReadItems(s, depth, max)) == ReadItems(s, depth, max) by {
        if ReadItems(s, depth, max).Ok? { assert items + ReadItems(s, depth, max).value.0 == ReadItems(s, depth, max).value.0; }
      }
      while true
        invariant Valid() && pos >= old(pos)
        invariant ReadItems(s, depth, max) == Onto(items, ReadItems(Rest(), depth, max))
        decreases |input| - pos
      {
        var v := Value(depth + 1, max);
        if v.Err? {
          return Err(v.error);
        }
        Ws();
        if Peek(',') {
          Advance();
          OntoOne(items, v.value, ReadItems(Rest(), depth, max));
          items := items + [v.value];
        } else if Peek(']') {
          Advance();
          return Ok(items + [v.value]);
        } else {
          return Err(Malformed);
        }
      }
    }

    method Object(depth: nat, max: nat) returns (r: Result<JVal, JsonError>)
      requires Valid() && Peek('{')
      modifies this`pos
      ensures Valid() && pos > old(pos) && Follows(r, ReadObject(old(Rest())[1..], depth, max), Rest())
      decreases |input| - pos, 0
    {
      Advance();
      Ws();
      if Peek('}') {
        Advance();
        return Ok(JObj([]));
      }
      var fields := Members(depth, max);
      return if fields.Ok? then Ok(JObj(fields.value)) else Err(fields.error);
    }

    method Key() returns (r: Result<string, JsonError>)
      requires Valid()
      modifies this`pos
      ensures Valid() && pos >= old(pos) && Follows(r, ReadKey(old(Rest())), Rest())
    {
      Ws();
      if !Peek('"') {
        return Err(NotAnObject);
      }
      r := String();
      if r.Ok? {
        Ws();
        if !Peek(':') {
          return Err(Malformed);
        }
        Advance();
      }
    }

    method Members(depth: nat, max: nat) returns (r: Result<seq<Field>, JsonError>)
      requires Valid()
      modifies this`pos
      ensures Valid() && pos >= old(pos) && Follows(r, ReadMembers(old(Rest()), depth, max), Rest())
      decreases |input| - pos, 2
    {
      ghost var s := Rest();
      var fields := [];
      assert Onto(fields, ReadMembers(s, depth, max)) == ReadMembers(s, depth, max) by {
        if ReadMembers(s, depth, max).Ok? { assert fields + ReadMembers(s, depth, max).value.0 == ReadMembers(s, depth, max).value.0; }
      }
      while true
        invariant Valid() && pos >= old(pos)
        invariant ReadMembers(s, depth, max) == Onto(fields, ReadMembers(Rest(), depth, max))
        decreases |input| - pos
      {
        ghost var here := Rest();
        var key := Key();
        if key.Err? {
          return Err(key.error);
        }
        var v := Value(depth + 1, max);
        if v.Err? {
          return Err(v.error);
        }
        var field := Field(key.value, v.value);
        Ws();
        if Peek(',') {
          Advance();
          OntoOne(fields, field, ReadMembers(Rest(), depth, max));
          fields := fields + [field];
        } else if Peek('}') {
          Advance();
          return Ok(fields + [field]);
        } else {
          return Err(Malformed);
        }
      }
    }
  }

  /** Accepts exactly the object texts of RFC 8259, and returns what they mean. */
  method ParseParamsObject(text: string, max: nat) returns (r: Result<JVal, JsonError>)
    ensures r == ParseObject(text, max)
    ensures forall v :: r == Ok(v) <==> IsObjectText(text, max, v)
  {
    var parser := new Parser(text);
    assert parser.Rest() == text;
    var value := parser.Value(0, max);
    if value.Err? {
      r := Err(value.error);
    } else {
      parser.Ws();
      if parser.pos != |text| {
        r := Err(Malformed);
      } else {
        r := if value.value.JObj? then Ok(value.value) else Err(NotAnObject);
      }
    }
    forall v ensures ParseObject(text, max) == Ok(v) <==> IsObjectText(text, max, v) {
      AcceptsExactlyObjectTexts(text, max, v);
    }
  }
}
