/**
 * The reader of crates/bitty-ai-endpoint/src/lib.rs:779-1079 as functions from the text
 * still to read to a value and the text after it. `JsonParser` is the same reader over a
 * mutable position; the theorems about which texts it accepts are in `JsonGrammar`.
 */
module JsonReader {
  import opened Results
  import opened Json

  datatype JsonError = Malformed | TooDeep | NotAnObject

  /** A value and the unread text, or why there is none. */
  type Reading<+T> = Result<(T, string), JsonError>

  function SkipWs(s: string): (rest: string)
    ensures |rest| <= |s|
  {
    if s != [] && IsWs(s[0]) then SkipWs(s[1..]) else s
  }

  /** How many digits `s` starts with. */
  function DigitRun(s: string): (n: nat)
    ensures n <= |s| && AllDigits(s[..n]) && (n < |s| ==> !IsDigit(s[n]))
  {
    if s != [] && IsDigit(s[0]) then
      var n := DigitRun(s[1..]);
      assert s[..n + 1] == [s[0]] + s[1..][..n];
      n + 1
    else 0
  }

  predicate At(s: string, i: nat, c: char) {
    i < |s| && s[i] == c
  }

  /** The text after the whole part of a number. */
  function AfterWhole(s: string): (r: Result<string, JsonError>)
    ensures r.Ok? ==> |r.value| < |s|
  {
    if At(s, 0, '0') then
      if 1 < |s| && IsDigit(s[1]) then Err(Malformed) else Ok(s[1..])
    else
      var n := DigitRun(s);
      if n == 0 then Err(Malformed) else Ok(s[n..])
  }

  function AfterFraction(s: string): (r: Result<string, JsonError>)
    ensures r.Ok? ==> |r.value| <= |s|
  {
    if At(s, 0, '.') then
      var n := DigitRun(s[1..]);
      if n == 0 then Err(Malformed) else Ok(s[1..][n..])
    else Ok(s)
  }

  function AfterExponent(s: string): (r: Result<string, JsonError>)
    ensures r.Ok? ==> |r.value| <= |s|
  {
    if At(s, 0, 'e') || At(s, 0, 'E') then
      var t := if At(s, 1, '+') || At(s, 1, '-') then s[2..] else s[1..];
      var n := DigitRun(t);
      if n == 0 then Err(Malformed) else Ok(t[n..])
    else Ok(s)
  }

  function AfterNumber(s: string): (r: Result<string, JsonError>)
    ensures r.Ok? ==> |r.value| < |s|
  {
    match AfterWhole(if At(s, 0, '-') then s[1..] else s)
    case Err(e) => Err(e)
    case Ok(t) =>
      match AfterFraction(t)
      case Err(e) => Err(e)
      case Ok(u) => AfterExponent(u)
  }

  /** The number token at the front of `s`, verbatim. */
  function ReadNumber(s: string): (r: Reading<string>)
    ensures r.Ok? ==> |r.value.1| < |s|
  {
    match AfterNumber(s)
    case Err(e) => Err(e)
    case Ok(rest) => Ok((s[..|s| - |rest|], rest))
  }

  function ReadHex4(s: string): (r: Reading<nat>)
    ensures r.Ok? ==> r.value.0 < 0x1_0000 && |r.value.1| == |s| - 4
  {
    if |s| >= 4 && IsHex4(s[..4]) then Ok((HexValue(s[..4]), s[4..])) else Err(Malformed)
  }

  /** After a `\u`: one scalar, or two escapes that pair up. */
  function ReadUnicode(s: string): (r: Reading<char>)
    ensures r.Ok? ==> |r.value.1| < |s|
  {
    match ReadHex4(s)
    case Err(e) => Err(e)
    case Ok((high, rest)) =>
      if IsHighSurrogate(high) then
        if |rest| >= 2 && rest[..2] == "\\u" then
          match ReadHex4(rest[2..])
          case Err(e) => Err(e)
          case Ok((low, rest')) =>
            if IsLowSurrogate(low) then Ok((PairScalar(high, low) as char, rest')) else Err(Malformed)
        else Err(Malformed)
      else if IsLowSurrogate(high) then Err(Malformed)
      else Ok((high as char, rest))
  }

  /** After a backslash. */
  function ReadEscape(s: string): (r: Reading<char>)
    ensures r.Ok? ==> |r.value.1| < |s|
  {
    if s == [] then Err(Malformed)
    else if s[0] in "\"\\/bfnrt" then Ok((EscapeMeaning(s[0]), s[1..]))
    else if s[0] == 'u' then ReadUnicode(s[1..])
    else Err(Malformed)
  }

  /** After an opening quote, up to and including the closing one. */
  function ReadString(s: string): (r: Reading<string>)
    ensures r.Ok? ==> |r.value.1| < |s|
    decreases |s|
  {
    if s == [] then Err(Malformed)
    else if s[0] == '"' then Ok(([], s[1..]))
    else if s[0] == '\\' then
      match ReadEscape(s[1..])
      case Err(e) => Err(e)
      case Ok((c, rest)) => Prepend(c, ReadString(rest))
    else if s[0] < ' ' then Err(Malformed)
    else Prepend(s[0], ReadString(s[1..]))
  }

  function Prepend(c: char, r: Reading<string>): Reading<string> {
    if r.Err? then r else Ok(([c] + r.value.0, r.value.1))
  }

  function ReadLiteral(s: string, word: string, v: JVal): (r: Reading<JVal>)
    ensures r.Ok? && word != [] ==> |r.value.1| < |s|
  {
    if word <= s then Ok((v, s[|word|..])) else Err(Malformed)
  }

  /** A string, a literal or a number. */
  function ReadScalar(t: string): (r: Reading<JVal>)
    ensures r.Ok? ==> |r.value.1| < |t|
  {
    if t == [] then Err(Malformed)
    else if t[0] == '"' then
      match ReadString(t[1..])
      case Err(e) => Err(e)
      case Ok((text, rest)) => Ok((JStr(text), rest))
    else if t[0] == 't' then ReadLiteral(t, "true", JBool(true))
    else if t[0] == 'f' then ReadLiteral(t, "false", JBool(false))
    else if t[0] == 'n' then ReadLiteral(t, "null", JNull)
    else if t[0] == '-' || IsDigit(t[0]) then
      match ReadNumber(t)
      case Err(e) => Err(e)
      case Ok((raw, rest)) => Ok((JNum(raw), rest))
    else Err(Malformed)
  }

  function ReadValue(s: string, depth: nat, max: nat): (r: Reading<JVal>)
    ensures r.Ok? ==> |r.value.1| < |s|
    decreases |s|, 0
  {
    if depth > max then Err(TooDeep)
    else
      var t := SkipWs(s);
      if t == [] then Err(Malformed)
      else if t[0] == '{' then ReadObject(t[1..], depth, max)
      else if t[0] == '[' then ReadArray(t[1..], depth, max)
      else ReadScalar(t)
  }

  /** After an opening bracket. */
  function ReadArray(s: string, depth: nat, max: nat): (r: Reading<JVal>)
    ensures r.Ok? ==> |r.value.1| < |s|
    decreases |s|, 2
  {
    var t := SkipWs(s);
    if At(t, 0, ']') then Ok((JArr([]), t[1..]))
    else
      match ReadItems(t, depth, max)
      case Err(e) => Err(e)
      case Ok((items, rest)) => Ok((JArr(items), rest))
  }

  function ReadItems(s: string, depth: nat, max: nat): (r: Reading<seq<JVal>>)
    ensures r.Ok? ==> |r.value.1| < |s|
    decreases |s|, 1
  {
    match ReadValue(s, depth + 1, max)
    case Err(e) => Err(e)
    case Ok((v, rest)) =>
      var t := SkipWs(rest);
      if At(t, 0, ',') then
        match ReadItems(t[1..], depth, max)
        case Err(e) => Err(e)
        case Ok((vs, rest')) => Ok(([v] + vs, rest'))
      else if At(t, 0, ']') then Ok(([v], t[1..]))
      else Err(Malformed)
  }

  /** After an opening brace. */
  function ReadObject(s: string, depth: nat, max: nat): (r: Reading<JVal>)
    ensures r.Ok? ==> |r.value.1| < |s|
    decreases |s|, 2
  {
    var t := SkipWs(s);
    if At(t, 0, '}') then Ok((JObj([]), t[1..]))
    else
      match ReadMembers(t, depth, max)
      case Err(e) => Err(e)
      case Ok((fields, rest)) => Ok((JObj(fields), rest))
  }

  function ReadMembers(s: string, depth: nat, max: nat): (r: Reading<seq<Field>>)
    ensures r.Ok? ==> |r.value.1| < |s|
    decreases |s|, 1
  {
    match ReadMember(s, depth, max)
    case Err(e) => Err(e)
    case Ok((field, rest)) =>
      var t := SkipWs(rest);
      if At(t, 0, ',') then
        match ReadMembers(t[1..], depth, max)
        case Err(e) => Err(e)
        case Ok((fields, rest')) => Ok(([field] + fields, rest'))
      else if At(t, 0, '}') then Ok(([field], t[1..]))
      else Err(Malformed)
  }

  /** A key, a colon and a value. */
  function ReadMember(s: string, depth: nat, max: nat): (r: Reading<Field>)
    ensures r.Ok? ==> |r.value.1| < |s|
    decreases |s|, 0
  {
    match ReadKey(s)
    case Err(e) => Err(e)
    case Ok((key, rest)) =>
      match ReadValue(rest, depth + 1, max)
      case Err(e) => Err(e)
      case Ok((v, rest')) => Ok((Field(key, v), rest'))
  }

  /** A key and its colon. */
  function ReadKey(s: string): (r: Reading<string>)
    ensures r.Ok? ==> |r.value.1| < |s|
  {
    var t := SkipWs(s);
    if !At(t, 0, '"') then Err(NotAnObject)
    else
      match ReadString(t[1..])
      case Err(e) => Err(e)
      case Ok((key, rest)) =>
        var u := SkipWs(rest);
        if At(u, 0, ':') then Ok((key, u[1..])) else Err(Malformed)
  }

  /** The whole text must be one object. */
  function ParseObject(text: string, max: nat): Result<JVal, JsonError> {
    match ReadValue(text, 0, max)
    case Err(e) => Err(e)
    case Ok((v, rest)) =>
      if SkipWs(rest) != [] then Err(Malformed)
      else if v.JObj? then Ok(v)
      else Err(NotAnObject)
  }
}
