/**
 * Exactly which texts the reader accepts: the printed forms of well-formed syntax trees
 * that nest no deeper than the bound, each read as its meaning.
 */
module JsonGrammar {
  import opened Results
  import opened Json
  import opened JsonReader

  // ---------------------------------------------------------------- whitespace and digits

  predicate StartsWithoutWs(t: string) { t == [] || !IsWs(t[0]) }

  lemma {:induction false} SkipOver(ws: string, t: string)
    requires AllWs(ws)
    ensures SkipWs(ws + t) == SkipWs(t)
  {
    if ws != [] {
      assert ws[0] in ws;
      assert (ws + t)[1..] == ws[1..] + t;
      SkipOver(ws[1..], t);
    } else {
      assert ws + t == t;
    }
  }

  /** What is skipped is whitespace, and what is left does not start with any. */
  lemma {:induction false} SkipSplits(s: string) returns (ws: string)
    ensures AllWs(ws) && s == ws + SkipWs(s) && StartsWithoutWs(SkipWs(s))
  {
    hide IsWs;
    if s != [] && IsWs(s[0]) {
      var more := SkipSplits(s[1..]);
      ws := [s[0]] + more;
      Assoc([s[0]], more, SkipWs(s));
      assert s == [s[0]] + s[1..];
    } else {
      ws := [];
    }
  }

  lemma {:induction false} DigitRunOver(digits: string, t: string)
    requires AllDigits(digits) && (t == [] || !IsDigit(t[0]))
    ensures DigitRun(digits + t) == |digits|
  {
    if digits != [] {
      assert digits[0] in digits;
      assert (digits + t)[1..] == digits[1..] + t;
      DigitRunOver(digits[1..], t);
    } else {
      assert digits + t == t;
    }
  }

  // ---------------------------------------------------------------- text followed by text

  lemma {:induction false} Assoc(a: string, b: string, c: string)
    ensures a + b + c == a + (b + c)
  {
  }

  function PieceThen(p: Piece, t: string): string {
    match p
    case Raw(c) => [c] + t
    case Escape(letter) => ['\\', letter] + t
    case Unicode(h) => "\\u" + (h + t)
    case Pair(h, l) => "\\u" + (h + ("\\u" + (l + t)))
  }

  /** The pieces, the closing quote, then `t`. */
  function PiecesThen(ps: seq<Piece>, t: string): string {
    if ps == [] then "\"" + t else PieceThen(ps[0], PiecesThen(ps[1..], t))
  }

  lemma {:induction false} PieceFollowed(p: Piece, t: string)
    ensures PieceText(p) + t == PieceThen(p, t)
  {
    match p
    case Raw(_) =>
    case Escape(_) =>
    case Unicode(h) => Assoc("\\u", h, t);
    case Pair(h, l) =>
      Assoc("\\u", h + ("\\u" + l), t);
      Assoc(h, "\\u" + l, t);
      Assoc("\\u", l, t);
  }

  lemma {:induction false} QuotedFollowed(ps: seq<Piece>, t: string)
    ensures QuotedText(ps) + t == "\"" + PiecesThen(ps, t)
  {
    Assoc("\"", PiecesText(ps) + "\"", t);
    Assoc(PiecesText(ps), "\"", t);
    PiecesFollowed(ps, t);
  }

  lemma {:induction false} PiecesFollowed(ps: seq<Piece>, t: string)
    ensures PiecesText(ps) + ("\"" + t) == PiecesThen(ps, t)
  {
    if ps == [] {
      assert [] + ("\"" + t) == "\"" + t;
    } else {
      Assoc(PieceText(ps[0]), PiecesText(ps[1..]), "\"" + t);
      PiecesFollowed(ps[1..], t);
      PieceFollowed(ps[0], PiecesThen(ps[1..], t));
    }
  }

  function FractionThen(f: Option<string>, t: string): string {
    if f.Some? then "." + (f.value + t) else t
  }

  function ExponentThen(e: Option<Exponent>, t: string): string {
    if e.Some? then [e.value.letter] + (e.value.sign + (e.value.digits + t)) else t
  }

  function NumberThen(n: Number, t: string): string {
    SignText(n.minus) + (n.whole + FractionThen(n.fraction, ExponentThen(n.exponent, t)))
  }

  lemma {:induction false} FractionFollowed(f: Option<string>, t: string)
    ensures FractionText(f) + t == FractionThen(f, t)
  {
    if f.Some? { Assoc(".", f.value, t); } else { assert [] + t == t; }
  }

  lemma {:induction false} ExponentFollowed(e: Option<Exponent>, t: string)
    ensures ExponentText(e) + t == ExponentThen(e, t)
  {
    if e.Some? {
      Assoc([e.value.letter], e.value.sign + e.value.digits, t);
      Assoc(e.value.sign, e.value.digits, t);
    } else {
      assert [] + t == t;
    }
  }

  lemma {:induction false} NumberFollowed(n: Number, t: string)
    ensures NumberText(n) + t == NumberThen(n, t)
  {
    var f, e := FractionText(n.fraction), ExponentText(n.exponent);
    Assoc(SignText(n.minus), n.whole + (f + e), t);
    Assoc(n.whole, f + e, t);
    Assoc(f, e, t);
    ExponentFollowed(n.exponent, t);
    FractionFollowed(n.fraction, ExponentThen(n.exponent, t));
  }

  function TextThen(x: Syntax, t: string): string
    decreases x, 0
  {
    match x
    case SNum(n) => NumberThen(n, t)
    case SStr(ps) => "\"" + PiecesThen(ps, t)
    case SArr(inner, items) => "[" + (if items.NoItems? then inner + ("]" + t) else ItemsThen(items, t))
    case SObj(inner, members) => "{" + (if members.NoMembers? then inner + ("}" + t) else MembersThen(members, t))
    case _ => Text(x) + t
  }

  /** The close of a list of items, or its continuation. */
  function MoreItems(rest: Items, t: string): string
    decreases rest, 1
  {
    if rest.NoItems? then "]" + t else "," + ItemsThen(rest, t)
  }

  function ItemsThen(x: Items, t: string): string
    requires x.Item?
    decreases x, 0
  {
    x.before + TextThen(x.value, x.after + MoreItems(x.rest, t))
  }

  function MoreMembers(rest: Members, t: string): string
    decreases rest, 1
  {
    if rest.NoMembers? then "}" + t else "," + MembersThen(rest, t)
  }

  /** A key and its colon, then `t`. */
  function KeyThen(before: string, key: seq<Piece>, colonBefore: string, t: string): string {
    before + ("\"" + PiecesThen(key, colonBefore + (":" + t)))
  }

  function MembersThen(x: Members, t: string): string
    requires x.Member?
    decreases x, 0
  {
    KeyThen(x.before, x.key, x.colonBefore, x.colonAfter + TextThen(x.value, x.after + MoreMembers(x.rest, t)))
  }

  lemma {:induction false} TextFollowed(x: Syntax, t: string)
    ensures Text(x) + t == TextThen(x, t)
    decreases x
  {
    match x
    case SNum(n) => NumberFollowed(n, t);
    case SStr(ps) => QuotedFollowed(ps, t);
    case SArr(inner, items) =>
      if items.NoItems? {
        Assoc("[", inner + "]", t);
        Assoc(inner, "]", t);
      } else {
        Assoc("[", ItemsText(items), t);
        ItemsFollowed(items, t);
      }
    case SObj(inner, members) =>
      if members.NoMembers? {
        Assoc("{", inner + "}", t);
        Assoc(inner, "}", t);
      } else {
        Assoc("{", MembersText(members), t);
        MembersFollowed(members, t);
      }
    case _ =>
  }

  lemma {:induction false} ItemsFollowed(x: Items, t: string)
    requires x.Item?
    ensures ItemsText(x) + t == ItemsThen(x, t)
    decreases x
  {
    var close := if x.rest.NoItems? then "]" else "," + ItemsText(x.rest);
    Assoc(x.before, Text(x.value) + (x.after + close), t);
    Assoc(Text(x.value), x.after + close, t);
    Assoc(x.after, close, t);
    if x.rest.Item? {
      Assoc(",", ItemsText(x.rest), t);
      ItemsFollowed(x.rest, t);
    }
    TextFollowed(x.value, x.after + (close + t));
  }

  lemma {:induction false} MembersFollowed(x: Members, t: string)
    requires x.Member?
    ensures MembersText(x) + t == MembersThen(x, t)
    decreases x
  {
    var close := if x.rest.NoMembers? then "}" else "," + MembersText(x.rest);
    var fromValue := Text(x.value) + (x.after + close);
    var fromColon := ":" + (x.colonAfter + fromValue);
    Assoc(x.before, QuotedText(x.key) + (x.colonBefore + fromColon), t);
    Assoc(QuotedText(x.key), x.colonBefore + fromColon, t);
    Assoc(x.colonBefore, fromColon, t);
    Assoc(":", x.colonAfter + fromValue, t);
    Assoc(x.colonAfter, fromValue, t);
    Assoc(Text(x.value), x.after + close, t);
    Assoc(x.after, close, t);
    if x.rest.Member? {
      Assoc(",", MembersText(x.rest), t);
      MembersFollowed(x.rest, t);
    }
    TextFollowed(x.value, x.after + (close + t));
    QuotedFollowed(x.key, x.colonBefore + (fromColon + t));
  }

  // ---------------------------------------------------------------- strings

  lemma {:induction false} Hex4Reads(h: string, t: string)
    requires IsHex4(h)
    ensures ReadHex4(h + t) == Ok((HexValue(h), t))
  {
    assert (h + t)[..4] == h;
    assert (h + t)[4..] == t;
  }

  lemma {:induction false} TailOf(c: char, t: string)
    ensures ([c] + t)[1..] == t
  {
  }

  lemma {:induction false} AfterBackslash(t: string)
    ensures ("\\u" + t)[1..] == ['u'] + t && ("\\u" + t)[..2] == "\\u" && ("\\u" + t)[2..] == t
  {
  }

  lemma {:induction false} PairReads(h: string, l: string, t: string)
    requires PieceOk(Pair(h, l))
    ensures ReadUnicode(h + ("\\u" + (l + t))) == Ok((PieceChar(Pair(h, l)), t))
  {
    Hex4Reads(h, "\\u" + (l + t));
    AfterBackslash(l + t);
    Hex4Reads(l, t);
  }

  /** Every escape reads as the character it stands for; every valid pair has one. */
  lemma {:induction false} EscapeReads(p: Piece, t: string)
    requires PieceOk(p) && !p.Raw?
    ensures PieceThen(p, t)[0] == '\\' && ReadEscape(PieceThen(p, t)[1..]) == Ok((PieceChar(p), t))
  {
    match p
    case Escape(letter) =>
      assert PieceThen(p, t)[1..] == [letter] + t;
      TailOf(letter, t);
    case Unicode(h) =>
      AfterBackslash(h + t);
      TailOf('u', h + t);
      Hex4Reads(h, t);
    case Pair(h, l) =>
      AfterBackslash(h + ("\\u" + (l + t)));
      TailOf('u', h + ("\\u" + (l + t)));
      PairReads(h, l, t);
  }

  /** A printed string reads back, stopping exactly after its closing quote. */
  lemma {:induction false} StringReads(ps: seq<Piece>, t: string)
    requires PiecesOk(ps)
    ensures ReadString(PiecesThen(ps, t)) == Ok((PiecesChars(ps), t))
  {
    if ps == [] {
      TailOf('"', t);
    } else {
      var p, tail := ps[0], PiecesThen(ps[1..], t);
      assert PieceOk(p);
      StringReads(ps[1..], t);
      if p.Raw? {
        TailOf(p.c, tail);
      } else {
        EscapeReads(p, tail);
      }
    }
  }

  lemma {:induction false} HeadAndTail(s: string)
    requires s != []
    ensures s == [s[0]] + s[1..]
  {
  }

  lemma {:induction false} SplitAt(s: string, n: nat)
    requires n <= |s|
    ensures s == s[..n] + s[n..]
  {
  }

  /** What the reader takes after `\\u` is four hexadecimal digits, or two such groups that pair. */
  lemma {:induction false} UnicodeSyntax(u: string) returns (p: Piece)
    requires ReadUnicode(u).Ok?
    ensures PieceOk(p) && (p.Unicode? || p.Pair?) && ReadUnicode(u).value.0 == PieceChar(p)
    ensures "\\u" + u == PieceThen(p, ReadUnicode(u).value.1)
  {
    hide HexDigit, PairScalar;
    var h, t := u[..4], u[4..];
    SplitAt(u, 4);
    if IsHighSurrogate(HexValue(h)) {
      p := Pair(h, t[2..][..4]);
      SplitAt(t, 2);
      SplitAt(t[2..], 4);
    } else {
      p := Unicode(h);
    }
  }

  lemma {:induction false} EscapeSyntax(s: string) returns (p: Piece)
    requires ReadEscape(s).Ok?
    ensures PieceOk(p) && !p.Raw? && ReadEscape(s).value.0 == PieceChar(p)
    ensures ['\\'] + s == PieceThen(p, ReadEscape(s).value.1)
  {
    hide EscapeMeaning, ReadUnicode;
    HeadAndTail(s);
    if s[0] in "\"\\/bfnrt" {
      p := Escape(s[0]);
      Assoc(['\\'], [s[0]], s[1..]);
    } else {
      p := UnicodeSyntax(s[1..]);
      Assoc(['\\'], ['u'], s[1..]);
      hide PieceThen, PieceOk, PieceChar;
    }
  }

  /** Whatever the string reader accepts is a printed string. */
  lemma {:induction false} StringSyntax(s: string) returns (ps: seq<Piece>)
    requires ReadString(s).Ok?
    ensures PiecesOk(ps) && PiecesChars(ps) == ReadString(s).value.0
    ensures s == PiecesThen(ps, ReadString(s).value.1)
    decreases |s|
  {
    HeadAndTail(s);
    if s[0] == '"' {
      ps := [];
    } else {
      var p, tail;
      if s[0] == '\\' {
        p := EscapeSyntax(s[1..]);
        tail := ReadEscape(s[1..]).value.1;
      } else {
        p, tail := Raw(s[0]), s[1..];
      }
      var more := StringSyntax(tail);
      ps := [p] + more;
      assert ps[1..] == more;
    }
  }

  // ---------------------------------------------------------------- numbers

  /** What may follow a value: nothing, whitespace, a comma or a closing bracket. */
  predicate Delimited(t: string) { t == [] || IsWs(t[0]) || t[0] in ",]}" }

  lemma {:induction false} NoDigitFollows(t: string)
    requires Delimited(t)
    ensures t == [] || !IsDigit(t[0])
  {
  }

  lemma {:induction false} WholeReads(whole: string, t: string)
    requires SomeDigits(whole) && (whole[0] == '0' ==> whole == "0") && (t == [] || !IsDigit(t[0]))
    ensures AfterWhole(whole + t) == Ok(t)
  {
    assert whole[0] in whole && (whole + t)[0] == whole[0];
    assert (whole + t)[|whole|..] == t;
    if whole[0] != '0' {
      DigitRunOver(whole, t);
    } else {
      TailOf('0', t);
    }
  }

  lemma {:induction false} FractionReads(f: Option<string>, t: string)
    requires f.Some? ==> SomeDigits(f.value)
    requires t == [] || (!IsDigit(t[0]) && t[0] != '.')
    ensures AfterFraction(FractionThen(f, t)) == Ok(t)
  {
    if f.Some? {
      TailOf('.', f.value + t);
      DigitRunOver(f.value, t);
      assert (f.value + t)[|f.value|..] == t;
    }
  }

  lemma {:induction false} SignedExponent(letter: char, sign: string, u: string)
    requires (letter == 'e' || letter == 'E') && (sign == "+" || sign == "-") && DigitRun(u) > 0
    ensures AfterExponent([letter] + (sign + u)) == Ok(u[DigitRun(u)..])
  {
    hide DigitRun;
    var s := [letter] + (sign + u);
    assert s[0] == letter && s[1] == sign[0] && s[2..] == u;
  }

  lemma {:induction false} UnsignedExponent(letter: char, u: string)
    requires (letter == 'e' || letter == 'E') && u != [] && IsDigit(u[0]) && DigitRun(u) > 0
    ensures AfterExponent([letter] + ("" + u)) == Ok(u[DigitRun(u)..])
  {
    hide DigitRun;
    var s := [letter] + ("" + u);
    assert s[0] == letter && s[1] == u[0] && s[1..] == u;
  }

  lemma {:induction false} ExponentReads(e: Option<Exponent>, t: string)
    requires e.Some? ==> ExponentOk(e.value)
    requires Delimited(t)
    ensures AfterExponent(ExponentThen(e, t)) == Ok(t)
  {
    if e.Some? {
      var x := e.value;
      var u := x.digits + t;
      assert IsDigit(u[0]) by { assert x.digits[0] in x.digits && u[0] == x.digits[0]; }
      assert u[|x.digits|..] == t;
      NoDigitFollows(t);
      DigitRunOver(x.digits, t);
      hide AfterExponent, DigitRun, Delimited;
      if x.sign == "" { UnsignedExponent(x.letter, u); } else { SignedExponent(x.letter, x.sign, u); }
    }
  }

  /** A printed number is read whole, and no further. */
  lemma {:induction false} NumberReads(n: Number, t: string)
    requires NumberOk(n) && Delimited(t)
    ensures ReadNumber(NumberThen(n, t)) == Ok((NumberText(n), t))
  {
    NumberEnds(n, t);
    NumberFollowed(n, t);
    assert (NumberText(n) + t)[..|NumberText(n)|] == NumberText(n);
  }

  lemma {:induction false} NumberEnds(n: Number, t: string)
    requires NumberOk(n) && Delimited(t)
    ensures AfterNumber(NumberThen(n, t)) == Ok(t)
  {
    var e := ExponentThen(n.exponent, t);
    var f := FractionThen(n.fraction, e);
    assert e == [] || (!IsDigit(e[0]) && e[0] != '.');
    assert f == [] || !IsDigit(f[0]);
    SignReads(n.minus, n.whole, f);
    WholeReads(n.whole, f);
    FractionReads(n.fraction, e);
    ExponentReads(n.exponent, t);
  }

  lemma {:induction false} SignReads(minus: bool, whole: string, t: string)
    requires SomeDigits(whole)
    ensures var s := SignText(minus) + (whole + t);
            At(s, 0, '-') == minus && (if minus then s[1..] else s) == whole + t
  {
    assert whole[0] in whole && (whole + t)[0] == whole[0];
    if minus { TailOf('-', whole + t); } else { assert [] + (whole + t) == whole + t; }
  }

  lemma {:induction false} NumberSyntax(s: string) returns (n: Number)
    requires ReadNumber(s).Ok?
    ensures NumberOk(n) && s == NumberThen(n, ReadNumber(s).value.1) && NumberText(n) == ReadNumber(s).value.0
  {
    var rest := ReadNumber(s).value.1;
    var minus := At(s, 0, '-');
    var u := if minus then s[1..] else s;
    var whole := WholeSyntax(u);
    var fraction := FractionSyntax(AfterWhole(u).value);
    var exponent := ExponentSyntax(AfterFraction(AfterWhole(u).value).value);
    n := Number(minus, whole, fraction, exponent);
    if minus { HeadAndTail(s); } else { assert SignText(minus) + u == u; }
    NumberFollowed(n, rest);
    assert (NumberText(n) + rest)[..|s| - |rest|] == NumberText(n);
  }

  lemma {:induction false} WholeSyntax(s: string) returns (whole: string)
    requires AfterWhole(s).Ok?
    ensures SomeDigits(whole) && (whole[0] == '0' ==> whole == "0") && s == whole + AfterWhole(s).value
  {
    var n := if At(s, 0, '0') then 1 else DigitRun(s);
    whole := s[..n];
    SplitAt(s, n);
    assert whole[0] == s[0];
    if At(s, 0, '0') { assert whole == "0"; }
  }

  lemma {:induction false} FractionSyntax(s: string) returns (f: Option<string>)
    requires AfterFraction(s).Ok?
    ensures (f.Some? ==> SomeDigits(f.value)) && s == FractionThen(f, AfterFraction(s).value)
  {
    f := None;
    if At(s, 0, '.') {
      var n := DigitRun(s[1..]);
      f := Some(s[1..][..n]);
      HeadAndTail(s);
      SplitAt(s[1..], n);
    }
  }

  lemma {:induction false} ExponentSyntax(s: string) returns (e: Option<Exponent>)
    requires AfterExponent(s).Ok?
    ensures e.Some? ==> ExponentOk(e.value)
    ensures s == ExponentThen(e, AfterExponent(s).value)
  {
    e := None;
    if At(s, 0, 'e') || At(s, 0, 'E') {
      var signed := At(s, 1, '+') || At(s, 1, '-');
      var sign := if signed then [s[1]] else "";
      var t := if signed then s[2..] else s[1..];
      var n := DigitRun(t);
      e := Some(Exponent(s[0], sign, t[..n]));
      HeadAndTail(s);
      SplitAt(t, n);
      if signed {
        HeadAndTail(s[1..]);
        assert s[1..][1..] == t;
      } else {
        assert sign + t == t;
      }
    }
  }

  // ---------------------------------------------------------------- every printed tree is read as its meaning

  lemma {:induction false} TextStart(x: Syntax, t: string)
    requires SyntaxOk(x)
    ensures TextThen(x, t) != [] && !IsWs(TextThen(x, t)[0]) && TextThen(x, t)[0] !in ",]}"
  {
    if x.SNum? {
      var n := x.number;
      assert n.whole[0] in n.whole;
      assert TextThen(x, t)[0] == (if n.minus then '-' else n.whole[0]);
    }
  }

  lemma {:induction false} SkipNone(s: string)
    requires StartsWithoutWs(s)
    ensures SkipWs(s) == s
  {
  }

  /** Reading does not depend on leading whitespace. */
  lemma {:induction false} LeadingWsIsIgnored(ws: string, s: string, depth: nat, max: nat)
    requires AllWs(ws)
    ensures ReadValue(ws + s, depth, max) == ReadValue(s, depth, max)
    ensures ReadItems(ws + s, depth, max) == ReadItems(s, depth, max)
    ensures ReadMembers(ws + s, depth, max) == ReadMembers(s, depth, max)
  {
    SkipOver(ws, s);
    assert ReadValue(ws + s, depth + 1, max) == ReadValue(s, depth + 1, max);
    assert ReadKey(ws + s) == ReadKey(s);
    assert ReadMember(ws + s, depth, max) == ReadMember(s, depth, max);
  }

  lemma {:induction false} SkippingFirstIsTheSame(s: string, depth: nat, max: nat)
    ensures ReadItems(SkipWs(s), depth, max) == ReadItems(s, depth, max)
    ensures ReadMembers(SkipWs(s), depth, max) == ReadMembers(s, depth, max)
  {
    var ws := SkipSplits(s);
    LeadingWsIsIgnored(ws, SkipWs(s), depth, max);
  }

  lemma {:induction false} LiteralReads(x: Syntax, t: string, depth: nat, max: nat)
    requires x in {SNull, STrue, SFalse} && depth <= max
    ensures ReadValue(TextThen(x, t), depth, max) == Ok((Meaning(x), t))
  {
    var s := TextThen(x, t);
    SkipNone(s);
    assert Text(x) <= s && s[|Text(x)|..] == t;
  }

  lemma {:induction false} NumberStart(n: Number, t: string)
    requires SomeDigits(n.whole)
    ensures var s := NumberThen(n, t); s != [] && (s[0] == '-' || IsDigit(s[0]))
  {
    var tail := FractionThen(n.fraction, ExponentThen(n.exponent, t));
    SignReads(n.minus, n.whole, tail);
    assert n.whole[0] in n.whole && (n.whole + tail)[0] == n.whole[0];
  }

  lemma {:induction false} NumberValueReads(n: Number, t: string, depth: nat, max: nat)
    requires NumberOk(n) && Delimited(t) && depth <= max
    ensures ReadValue(NumberThen(n, t), depth, max) == Ok((JNum(NumberText(n)), t))
  {
    NumberStart(n, t);
    NumberReads(n, t);
    DigitFirstReads(NumberThen(n, t), depth, max);
  }

  lemma {:induction false} DigitFirstReads(s: string, depth: nat, max: nat)
    requires s != [] && (s[0] == '-' || IsDigit(s[0])) && depth <= max && ReadNumber(s).Ok?
    ensures ReadValue(s, depth, max) == Ok((JNum(ReadNumber(s).value.0), ReadNumber(s).value.1))
  {
    SkipNone(s);
  }

  lemma {:induction false} StringValueReads(ps: seq<Piece>, t: string, depth: nat, max: nat)
    requires PiecesOk(ps) && depth <= max
    ensures ReadValue("\"" + PiecesThen(ps, t), depth, max) == Ok((JStr(PiecesChars(ps)), t))
  {
    SkipNone("\"" + PiecesThen(ps, t));
    TailOf('"', PiecesThen(ps, t));
    StringReads(ps, t);
  }

  lemma {:induction false} ValueReads(x: Syntax, t: string, depth: nat, max: nat)
    requires SyntaxOk(x) && Delimited(t) && depth + Depth(x) <= max
    ensures ReadValue(TextThen(x, t), depth, max) == Ok((Meaning(x), t))
    decreases x
  {
    if x.SArr? {
      ArrayReads(x, t, depth, max);
    } else if x.SObj? {
      ObjectReads(x, t, depth, max);
    } else if x.SNum? {
      NumberValueReads(x.number, t, depth, max);
    } else if x.SStr? {
      StringValueReads(x.pieces, t, depth, max);
    } else {
      LiteralReads(x, t, depth, max);
    }
  }

  lemma {:induction false} ArrayReads(x: Syntax, t: string, depth: nat, max: nat)
    requires SyntaxOk(x) && x.SArr? && depth + Depth(x) <= max
    ensures ReadValue(TextThen(x, t), depth, max) == Ok((Meaning(x), t))
    decreases x, 0
  {
    SkipNone(TextThen(x, t));
    if x.items.NoItems? {
      TailOf('[', x.inner + ("]" + t));
      SkipOver(x.inner, "]" + t);
      SkipNone("]" + t);
      TailOf(']', t);
    } else {
      TailOf('[', ItemsThen(x.items, t));
      ItemsRead(x.items, t, depth, max);
      SkippingFirstIsTheSame(ItemsThen(x.items, t), depth, max);
      ItemsStart(x.items, t);
    }
  }

  lemma {:induction false} ItemsStart(x: Items, t: string)
    requires x.Item? && ItemsOk(x)
    ensures !At(SkipWs(ItemsThen(x, t)), 0, ']')
  {
    var s := TextThen(x.value, x.after + MoreItems(x.rest, t));
    TextStart(x.value, x.after + MoreItems(x.rest, t));
    SkipOver(x.before, s);
    SkipNone(s);
  }

  lemma {:induction false} DelimitedAfter(ws: string, t: string)
    requires AllWs(ws) && t != [] && t[0] in ",]}"
    ensures Delimited(ws + t) && SkipWs(ws + t) == t
  {
    assert ws != [] ==> ws[0] in ws && (ws + t)[0] == ws[0];
    SkipOver(ws, t);
    SkipNone(t);
  }

  lemma {:induction false} ItemsRead(x: Items, t: string, depth: nat, max: nat)
    requires x.Item? && ItemsOk(x) && depth + 1 + ItemsDepth(x) <= max
    ensures ReadItems(ItemsThen(x, t), depth, max) == Ok((ItemsMeaning(x), t))
    decreases x
  {
    var more := MoreItems(x.rest, t);
    DelimitedAfter(x.after, more);
    ValueReads(x.value, x.after + more, depth + 1, max);
    LeadingWsIsIgnored(x.before, TextThen(x.value, x.after + more), depth + 1, max);
    assert ReadValue(ItemsThen(x, t), depth + 1, max) == Ok((Meaning(x.value), x.after + more));
    if x.rest.NoItems? {
      TailOf(']', t);
      assert ItemsMeaning(x) == [Meaning(x.value)];
    } else {
      TailOf(',', ItemsThen(x.rest, t));
      ItemsRead(x.rest, t, depth, max);
    }
  }

  lemma {:induction false} ObjectReads(x: Syntax, t: string, depth: nat, max: nat)
    requires SyntaxOk(x) && x.SObj? && depth + Depth(x) <= max
    ensures ReadValue(TextThen(x, t), depth, max) == Ok((Meaning(x), t))
    decreases x, 0
  {
    SkipNone(TextThen(x, t));
    if x.members.NoMembers? {
      TailOf('{', x.inner + ("}" + t));
      SkipOver(x.inner, "}" + t);
      SkipNone("}" + t);
      TailOf('}', t);
    } else {
      TailOf('{', MembersThen(x.members, t));
      MembersRead(x.members, t, depth, max);
      SkippingFirstIsTheSame(MembersThen(x.members, t), depth, max);
      MembersStart(x.members, t);
    }
  }

  lemma {:induction false} MembersStart(x: Members, t: string)
    requires x.Member? && MembersOk(x)
    ensures !At(SkipWs(MembersThen(x, t)), 0, '}')
  {
    var tail := x.colonAfter + TextThen(x.value, x.after + MoreMembers(x.rest, t));
    var s := "\"" + PiecesThen(x.key, x.colonBefore + (":" + tail));
    SkipOver(x.before, s);
    SkipNone(s);
  }

  lemma {:induction false} KeyReads(before: string, key: seq<Piece>, colonBefore: string, t: string)
    requires AllWs(before) && PiecesOk(key) && AllWs(colonBefore)
    ensures ReadKey(KeyThen(before, key, colonBefore, t)) == Ok((PiecesChars(key), t))
  {
    var tail := PiecesThen(key, colonBefore + (":" + t));
    SkipOver(before, "\"" + tail);
    SkipNone("\"" + tail);
    TailOf('"', tail);
    StringReads(key, colonBefore + (":" + t));
    SkipOver(colonBefore, ":" + t);
    SkipNone(":" + t);
    TailOf(':', t);
  }

  lemma {:induction false} MembersRead(x: Members, t: string, depth: nat, max: nat)
    requires x.Member? && MembersOk(x) && depth + 1 + MembersDepth(x) <= max
    ensures ReadMembers(MembersThen(x, t), depth, max) == Ok((MembersMeaning(x), t))
    decreases x
  {
    var more := MoreMembers(x.rest, t);
    var value := TextThen(x.value, x.after + more);
    KeyReads(x.before, x.key, x.colonBefore, x.colonAfter + value);
    DelimitedAfter(x.after, more);
    ValueReads(x.value, x.after + more, depth + 1, max);
    LeadingWsIsIgnored(x.colonAfter, value, depth + 1, max);
    var field := Field(PiecesChars(x.key), Meaning(x.value));
    assert ReadMember(MembersThen(x, t), depth, max) == Ok((field, x.after + more));
    if x.rest.NoMembers? {
      TailOf('}', t);
      assert MembersMeaning(x) == [field];
    } else {
      TailOf(',', MembersThen(x.rest, t));
      MembersRead(x.rest, t, depth, max);
    }
  }

  // ---------------------------------------------------------------- whatever is read is a printed tree

  lemma {:induction false} ValueSyntax(s: string, depth: nat, max: nat) returns (before: string, x: Syntax)
    requires ReadValue(s, depth, max).Ok?
    ensures AllWs(before) && SyntaxOk(x) && depth + Depth(x) <= max
    ensures Meaning(x) == ReadValue(s, depth, max).value.0
    ensures s == before + TextThen(x, ReadValue(s, depth, max).value.1)
    decreases |s|, 0
  {
    hide ReadScalar, IsWs;
    before := SkipSplits(s);
    var t := SkipWs(s);
    HeadAndTail(t);
    if t[0] == '{' {
      x := ObjectSyntax(t[1..], depth, max);
    } else if t[0] == '[' {
      x := ArraySyntax(t[1..], depth, max);
    } else {
      x := ScalarSyntax(t);
    }
  }

  lemma {:induction false} ScalarSyntax(t: string) returns (x: Syntax)
    requires ReadScalar(t).Ok?
    ensures SyntaxOk(x) && Depth(x) == 0 && Meaning(x) == ReadScalar(t).value.0
    ensures t == TextThen(x, ReadScalar(t).value.1)
  {
    hide ReadNumber, ReadString, NumberOk, PieceOk;
    HeadAndTail(t);
    if t[0] == '"' {
      var ps := StringSyntax(t[1..]);
      x := SStr(ps);
    } else if t[0] == '-' || IsDigit(t[0]) {
      var n := NumberSyntax(t);
      x := SNum(n);
    } else {
      x := if t[0] == 't' then STrue else if t[0] == 'f' then SFalse else SNull;
      SplitAt(t, |Text(x)|);
    }
  }

  lemma {:induction false} ArraySyntax(s: string, depth: nat, max: nat) returns (x: Syntax)
    requires ReadArray(s, depth, max).Ok? && depth <= max
    ensures SyntaxOk(x) && x.SArr? && depth + Depth(x) <= max
    ensures Meaning(x) == ReadArray(s, depth, max).value.0
    ensures "[" + s == TextThen(x, ReadArray(s, depth, max).value.1)
    decreases |s|, 2
  {
    var ws := SkipSplits(s);
    var t, rest := SkipWs(s), ReadArray(s, depth, max).value.1;
    if At(t, 0, ']') {
      x := SArr(ws, NoItems);
      HeadAndTail(t);
    } else {
      var items := ItemsSyntax(t, depth, max);
      x := SArr([], items.(before := ws + items.before));
      Assoc(ws, items.before, TextThen(items.value, items.after + MoreItems(items.rest, rest)));
    }
  }

  lemma {:induction false} ItemsSyntax(s: string, depth: nat, max: nat) returns (items: Items)
    requires ReadItems(s, depth, max).Ok?
    ensures items.Item? && ItemsOk(items) && depth + 1 + ItemsDepth(items) <= max
    ensures ItemsMeaning(items) == ReadItems(s, depth, max).value.0
    ensures s == ItemsThen(items, ReadItems(s, depth, max).value.1)
    decreases |s|, 1
  {
    var before, x := ValueSyntax(s, depth + 1, max);
    var tail := ReadValue(s, depth + 1, max).value.1;
    var after := SkipSplits(tail);
    var t := SkipWs(tail);
    HeadAndTail(t);
    if At(t, 0, ',') {
      var more := ItemsSyntax(t[1..], depth, max);
      items := Item(before, x, after, more);
    } else {
      items := Item(before, x, after, NoItems);
    }
  }

  lemma {:induction false} ObjectSyntax(s: string, depth: nat, max: nat) returns (x: Syntax)
    requires ReadObject(s, depth, max).Ok? && depth <= max
    ensures SyntaxOk(x) && x.SObj? && depth + Depth(x) <= max
    ensures Meaning(x) == ReadObject(s, depth, max).value.0
    ensures "{" + s == TextThen(x, ReadObject(s, depth, max).value.1)
    decreases |s|, 2
  {
    var ws := SkipSplits(s);
    var t, rest := SkipWs(s), ReadObject(s, depth, max).value.1;
    if At(t, 0, '}') {
      x := SObj(ws, NoMembers);
      HeadAndTail(t);
    } else {
      var m := MembersSyntax(t, depth, max);
      x := SObj([], m.(before := ws + m.before));
      var tail := m.colonAfter + TextThen(m.value, m.after + MoreMembers(m.rest, rest));
      Assoc(ws, m.before, "\"" + PiecesThen(m.key, m.colonBefore + (":" + tail)));
    }
  }

  lemma {:induction false} KeySyntax(s: string) returns (before: string, key: seq<Piece>, colonBefore: string)
    requires ReadKey(s).Ok?
    ensures AllWs(before) && PiecesOk(key) && AllWs(colonBefore) && PiecesChars(key) == ReadKey(s).value.0
    ensures s == KeyThen(before, key, colonBefore, ReadKey(s).value.1)
  {
    before := SkipSplits(s);
    var t := SkipWs(s);
    HeadAndTail(t);
    key := StringSyntax(t[1..]);
    var tail := ReadString(t[1..]).value.1;
    colonBefore := SkipSplits(tail);
    HeadAndTail(SkipWs(tail));
  }

  lemma {:induction false} MembersSyntax(s: string, depth: nat, max: nat) returns (m: Members)
    requires ReadMembers(s, depth, max).Ok?
    ensures m.Member? && MembersOk(m) && depth + 1 + MembersDepth(m) <= max
    ensures MembersMeaning(m) == ReadMembers(s, depth, max).value.0
    ensures s == MembersThen(m, ReadMembers(s, depth, max).value.1)
    decreases |s|, 1
  {
    hide IsWs, PieceOk, SyntaxOk;
    var before, key, colonBefore := KeySyntax(s);
    var afterColon := ReadKey(s).value.1;
    var colonAfter, x := ValueSyntax(afterColon, depth + 1, max);
    var tail := ReadValue(afterColon, depth + 1, max).value.1;
    var after := SkipSplits(tail);
    var t := SkipWs(tail);
    HeadAndTail(t);
    if At(t, 0, ',') {
      var more := MembersSyntax(t[1..], depth, max);
      m := Member(before, key, colonBefore, colonAfter, x, after, more);
    } else {
      m := Member(before, key, colonBefore, colonAfter, x, after, NoMembers);
    }
  }

  // ---------------------------------------------------------------- the theorem

  lemma {:induction false} SkipsAway(ws: string)
    ensures SkipWs(ws) == [] <==> AllWs(ws)
  {
    var skipped := SkipSplits(ws);
    if AllWs(ws) {
      assert ws + [] == ws;
      SkipOver(ws, []);
    }
  }

  /**
   * The reader accepts exactly the RFC 8259 object texts without unpaired surrogate
   * escapes whose values nest within the bound, and returns what they mean.
   */
  lemma {:induction false} AcceptsExactlyObjectTexts(text: string, max: nat, v: JVal)
    ensures ParseObject(text, max) == Ok(v) <==> IsObjectText(text, max, v)
  {
    if ParseObject(text, max) == Ok(v) {
      AcceptedIsObjectText(text, max);
    }
    if IsObjectText(text, max, v) {
      var before, x, after :| ObjectTextOf(text, max, v, before, x, after);
      ObjectTextIsAccepted(before, x, after, max);
    }
  }

  lemma {:induction false} AcceptedIsObjectText(text: string, max: nat)
    requires ParseObject(text, max).Ok?
    ensures IsObjectText(text, max, ParseObject(text, max).value)
  {
    var before, x := ValueSyntax(text, 0, max);
    var after := ReadValue(text, 0, max).value.1;
    SkipsAway(after);
    TextFollowed(x, after);
    assert ObjectTextOf(text, max, ParseObject(text, max).value, before, x, after);
  }

  lemma {:induction false} ObjectTextIsAccepted(before: string, x: Syntax, after: string, max: nat)
    requires AllWs(before) && AllWs(after) && SyntaxOk(x) && x.SObj? && Depth(x) <= max
    ensures ParseObject(before + (Text(x) + after), max) == Ok(Meaning(x))
  {
    TextFollowed(x, after);
    ObjectReads(x, after, 0, max);
    LeadingWsIsIgnored(before, TextThen(x, after), 0, max);
    SkipsAway(after);
  }
}
