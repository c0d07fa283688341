/**
 * JSON texts as RFC 8259 defines them, independent of any parser: a text is JSON exactly
 * when it is the printed form of a well-formed syntax tree. Text is a sequence of Unicode
 * scalar values.
 */
module Json {
  import opened Results

  /** The value model of crates/bitty-ai-endpoint/src/lib.rs:704-717. Numbers stay verbatim. */
  datatype JVal =
    | JNull
    | JBool(value: bool)
    | JNum(raw: string)
    | JStr(text: string)
    | JArr(items: seq<JVal>)
    | JObj(fields: seq<Field>)

  datatype Field = Field(key: string, value: JVal)

  // ---------------------------------------------------------------- lexical pieces

  predicate IsWs(c: char) { c in " \t\n\r" }
  predicate IsDigit(c: char) { '0' <= c <= '9' }
  predicate AllWs(s: string) { forall c :: c in s ==> IsWs(c) }
  predicate AllDigits(s: string) { forall c :: c in s ==> IsDigit(c) }

  /** The value of a hexadecimal digit, or 16. */
  function HexDigit(c: char): nat {
    if '0' <= c <= '9' then c as int - '0' as int
    else if 'a' <= c <= 'f' then c as int - 'a' as int + 10
    else if 'A' <= c <= 'F' then c as int - 'A' as int + 10
    else 16
  }

  predicate IsHex4(h: string) {
    |h| == 4 && HexDigit(h[0]) < 16 && HexDigit(h[1]) < 16 && HexDigit(h[2]) < 16 && HexDigit(h[3]) < 16
  }

  function HexValue(h: string): (n: nat)
    requires IsHex4(h)
    ensures n < 0x1_0000
  {
    ((HexDigit(h[0]) * 16 + HexDigit(h[1])) * 16 + HexDigit(h[2])) * 16 + HexDigit(h[3])
  }

  predicate IsHighSurrogate(n: nat) { 0xD800 <= n < 0xDC00 }
  predicate IsLowSurrogate(n: nat) { 0xDC00 <= n < 0xE000 }

  /** The scalar a surrogate pair stands for (section 7 of RFC 8259). */
  function PairScalar(high: nat, low: nat): (n: nat)
    requires IsHighSurrogate(high) && IsLowSurrogate(low)
    ensures 0x1_0000 <= n < 0x11_0000
  {
    0x1_0000 + (high - 0xD800) * 0x400 + (low - 0xDC00)
  }

  // ---------------------------------------------------------------- strings

  /** One unit of string syntax; a surrogate escape occurs only inside a pair. */
  datatype Piece =
    | Raw(c: char)
    | Escape(letter: char)
    | Unicode(hex: string)
    | Pair(high: string, low: string)

  predicate PieceOk(p: Piece) {
    match p
    case Raw(c) => c >= ' ' && c != '"' && c != '\\'
    case Escape(letter) => letter in "\"\\/bfnrt"
    case Unicode(h) => IsHex4(h) && !IsHighSurrogate(HexValue(h)) && !IsLowSurrogate(HexValue(h))
    case Pair(h, l) => IsHex4(h) && IsHex4(l) && IsHighSurrogate(HexValue(h)) && IsLowSurrogate(HexValue(l))
  }

  function PieceText(p: Piece): (s: string)
    ensures s != []
  {
    match p
    case Raw(c) => [c]
    case Escape(letter) => ['\\', letter]
    case Unicode(h) => "\\u" + h
    case Pair(h, l) => "\\u" + (h + ("\\u" + l))
  }

  /** The control character a one-letter escape names. */
  function EscapeMeaning(letter: char): char {
    if letter == 'b' then '\U{0008}'
    else if letter == 'f' then '\U{000C}'
    else if letter == 'n' then '\n'
    else if letter == 'r' then '\r'
    else if letter == 't' then '\t'
    else letter
  }

  function PieceChar(p: Piece): char
    requires PieceOk(p)
  {
    match p
    case Raw(c) => c
    case Escape(letter) => EscapeMeaning(letter)
    case Unicode(h) => HexValue(h) as char
    case Pair(h, l) => PairScalar(HexValue(h), HexValue(l)) as char
  }

  predicate PiecesOk(ps: seq<Piece>) { forall p :: p in ps ==> PieceOk(p) }

  function PiecesText(ps: seq<Piece>): string {
    if ps == [] then [] else PieceText(ps[0]) + PiecesText(ps[1..])
  }

  function PiecesChars(ps: seq<Piece>): string
    requires PiecesOk(ps)
  {
    if ps == [] then [] else [PieceChar(ps[0])] + PiecesChars(ps[1..])
  }

  function QuotedText(ps: seq<Piece>): string { "\"" + (PiecesText(ps) + "\"") }

  // ---------------------------------------------------------------- numbers (section 6 of RFC 8259)

  datatype Exponent = Exponent(letter: char, sign: string, digits: string)
  datatype Number = Number(minus: bool, whole: string, fraction: Option<string>, exponent: Option<Exponent>)

  predicate SomeDigits(s: string) { s != [] && AllDigits(s) }

  predicate NumberOk(n: Number) {
    && SomeDigits(n.whole) && (n.whole[0] == '0' ==> n.whole == "0")
    && (n.fraction.Some? ==> SomeDigits(n.fraction.value))
    && (n.exponent.Some? ==> ExponentOk(n.exponent.value))
  }

  predicate ExponentOk(e: Exponent) {
    (e.letter == 'e' || e.letter == 'E') && (e.sign == "" || e.sign == "+" || e.sign == "-") && SomeDigits(e.digits)
  }

  function SignText(minus: bool): string {
    if minus then "-" else []
  }

  function FractionText(f: Option<string>): string {
    if f.Some? then "." + f.value else []
  }

  function ExponentText(e: Option<Exponent>): string {
    if e.Some? then [e.value.letter] + (e.value.sign + e.value.digits) else []
  }

  function NumberText(n: Number): string {
    SignText(n.minus) + (n.whole + (FractionText(n.fraction) + ExponentText(n.exponent)))
  }

  // ---------------------------------------------------------------- values

  datatype Syntax =
    | SNull
    | STrue
    | SFalse
    | SNum(number: Number)
    | SStr(pieces: seq<Piece>)
    | SArr(inner: string, items: Items)
    | SObj(inner: string, members: Members)

  datatype Items = NoItems | Item(before: string, value: Syntax, after: string, rest: Items)

  datatype Members =
    | NoMembers
    | Member(before: string, key: seq<Piece>, colonBefore: string, colonAfter: string, value: Syntax, after: string, rest: Members)

  predicate SyntaxOk(x: Syntax) {
    match x
    case SNum(n) => NumberOk(n)
    case SStr(ps) => PiecesOk(ps)
    case SArr(inner, items) => AllWs(inner) && ItemsOk(items)
    case SObj(inner, members) => AllWs(inner) && MembersOk(members)
    case _ => true
  }

  predicate ItemsOk(x: Items) {
    x.Item? ==> AllWs(x.before) && AllWs(x.after) && SyntaxOk(x.value) && ItemsOk(x.rest)
  }

  predicate MembersOk(x: Members) {
    x.Member? ==>
      && AllWs(x.before) && AllWs(x.colonBefore) && AllWs(x.colonAfter) && AllWs(x.after)
      && PiecesOk(x.key) && SyntaxOk(x.value) && MembersOk(x.rest)
  }

  function Text(x: Syntax): string {
    match x
    case SNull => "null"
    case STrue => "true"
    case SFalse => "false"
    case SNum(n) => NumberText(n)
    case SStr(ps) => QuotedText(ps)
    case SArr(inner, items) => "[" + (if items.NoItems? then inner + "]" else ItemsText(items))
    case SObj(inner, members) => "{" + (if members.NoMembers? then inner + "}" else MembersText(members))
  }

  function ItemsText(x: Items): string
    requires x.Item?
  {
    x.before + (Text(x.value) + (x.after + (if x.rest.NoItems? then "]" else "," + ItemsText(x.rest))))
  }

  function MembersText(x: Members): string
    requires x.Member?
  {
    x.before + (QuotedText(x.key) + (x.colonBefore + (":" + (x.colonAfter + (Text(x.value) + (x.after +
      (if x.rest.NoMembers? then "}" else "," + MembersText(x.rest))))))))
  }

  function Meaning(x: Syntax): JVal
    requires SyntaxOk(x)
  {
    match x
    case SNull => JNull
    case STrue => JBool(true)
    case SFalse => JBool(false)
    case SNum(n) => JNum(NumberText(n))
    case SStr(ps) => JStr(PiecesChars(ps))
    case SArr(_, items) => JArr(ItemsMeaning(items))
    case SObj(_, members) => JObj(MembersMeaning(members))
  }

  function ItemsMeaning(x: Items): seq<JVal>
    requires ItemsOk(x)
  {
    if x.NoItems? then [] else [Meaning(x.value)] + ItemsMeaning(x.rest)
  }

  function MembersMeaning(x: Members): seq<Field>
    requires MembersOk(x)
  {
    if x.NoMembers? then [] else [Field(PiecesChars(x.key), Meaning(x.value))] + MembersMeaning(x.rest)
  }

  function Max(a: nat, b: nat): nat { if a >= b then a else b }

  /** How many containers the deepest value sits in. */
  function Depth(x: Syntax): nat {
    match x
    case SArr(_, items) => if items.NoItems? then 0 else 1 + ItemsDepth(items)
    case SObj(_, members) => if members.NoMembers? then 0 else 1 + MembersDepth(members)
    case _ => 0
  }

  function ItemsDepth(x: Items): nat {
    if x.NoItems? then 0 else Max(Depth(x.value), ItemsDepth(x.rest))
  }

  function MembersDepth(x: Members): nat {
    if x.NoMembers? then 0 else Max(Depth(x.value), MembersDepth(x.rest))
  }

  /** `text` is an RFC 8259 object text meaning `v`, nested at most `max` deep. */
  ghost predicate IsObjectText(text: string, max: nat, v: JVal) {
    exists before, x, after :: ObjectTextOf(text, max, v, before, x, after)
  }

  ghost predicate ObjectTextOf(text: string, max: nat, v: JVal, before: string, x: Syntax, after: string) {
    && AllWs(before) && AllWs(after) && SyntaxOk(x) && x.SObj? && Depth(x) <= max
    && text == before + (Text(x) + after) && v == Meaning(x)
  }
}
