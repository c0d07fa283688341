/**
 * UTF-8 (section 4 of RFC 3629) and its lossy reading: each maximal invalid run stands for
 * one replacement, as Rust's `utf8_chunks` cuts the bytes.
 */
module Utf8 {
  import opened Bytes
  import opened Results

  predicate Cont(b: seq<Byte>, i: nat) { i < |b| && 0x80 <= b[i] <= 0xBF }

  /** The second byte is one the first allows. */
  predicate Second(b: seq<Byte>) {
    && Cont(b, 1)
    && (b[0] == 0xE0 ==> 0xA0 <= b[1]) && (b[0] == 0xED ==> b[1] <= 0x9F)
    && (b[0] == 0xF0 ==> 0x90 <= b[1]) && (b[0] == 0xF4 ==> b[1] <= 0x8F)
  }

  /** How many bytes the first character takes, or zero when there is none. */
  function Width(b: seq<Byte>): (n: nat)
    ensures n <= |b|
  {
    if b == [] then 0
    else if b[0] < 0x80 then 1
    else if 0xC2 <= b[0] <= 0xDF && Second(b) then 2
    else if 0xE0 <= b[0] <= 0xEF && Second(b) && Cont(b, 2) then 3
    else if 0xF0 <= b[0] <= 0xF4 && Second(b) && Cont(b, 2) && Cont(b, 3) then 4
    else 0
  }

  function FirstChar(b: seq<Byte>): char
    requires Width(b) > 0
  {
    var n := Width(b);
    if n == 1 then b[0] as char
    else
      var first: int, second: int := b[0], b[1] - 0x80;
      if n == 2 then ((first - 0xC0) * 64 + second) as char
      else
        var third: int := b[2] - 0x80;
        if n == 3 then ((first - 0xE0) * 4096 + second * 64 + third) as char
        else
          var fourth: int := b[3] - 0x80;
          ((first - 0xF0) * 262144 + second * 4096 + third * 64 + fourth) as char
  }

  /** The length of the invalid run at the front: the longest start of a character, or one byte. */
  function InvalidLen(b: seq<Byte>): (n: nat)
    requires b != [] && Width(b) == 0
    ensures 1 <= n <= |b|
  {
    if 0xE0 <= b[0] <= 0xEF && Second(b) then 2
    else if 0xF0 <= b[0] <= 0xF4 && Second(b) then if Cont(b, 2) then 3 else 2
    else 1
  }

  predicate IsUtf8(b: seq<Byte>)
    decreases |b|
  {
    b == [] || (Width(b) > 0 && IsUtf8(b[Width(b)..]))
  }

  /** The characters, with `None` for each invalid run. */
  function Lossy(b: seq<Byte>): seq<Option<char>>
    decreases |b|
  {
    if b == [] then []
    else if Width(b) > 0 then [Some(FirstChar(b))] + Lossy(b[Width(b)..])
    else [None] + Lossy(b[InvalidLen(b)..])
  }

  /** The first character or invalid run, and the bytes after it. */
  function Next(b: seq<Byte>): (r: (Option<char>, seq<Byte>))
    requires b != []
    ensures |r.1| < |b|
  {
    if Width(b) > 0 then (Some(FirstChar(b)), b[Width(b)..]) else (None, b[InvalidLen(b)..])
  }

  lemma {:induction false} LossySplits(b: seq<Byte>)
    requires b != []
    ensures Lossy(b) == [Next(b).0] + Lossy(Next(b).1)
  {
  }

  predicate IsAscii(s: string) { forall i :: 0 <= i < |s| ==> s[i] < '\U{0080}' }

  function Octets(s: string): seq<Byte>
    requires IsAscii(s)
  {
    seq(|s|, i requires 0 <= i < |s| => s[i] as int)
  }

  /** ASCII text is UTF-8 and is read as itself. */
  lemma {:induction false} AsciiReads(s: string)
    requires IsAscii(s)
    ensures IsUtf8(Octets(s)) && Lossy(Octets(s)) == seq(|s|, i requires 0 <= i < |s| => Some(s[i]))
  {
    if s != [] {
      var b := Octets(s);
      assert b[1..] == Octets(s[1..]);
      AsciiReads(s[1..]);
      var all := seq(|s|, i requires 0 <= i < |s| => Some(s[i]));
      assert all == [Some(s[0])] + seq(|s[1..]|, i requires 0 <= i < |s[1..]| => Some(s[1..][i]));
    }
  }

  // ---------------------------------------------------------------- against the encoder

  /** A character's bytes, by the table of section 3 of RFC 3629. */
  function EncodeChar(c: char): (e: seq<Byte>)
    ensures 0 < |e| <= 4
  {
    var n := c as int;
    if n < 0x80 then [n]
    else if n < 0x800 then [0xC0 + n / 64, 0x80 + n % 64]
    else if n < 0x10000 then [0xE0 + n / 4096, 0x80 + n / 64 % 64, 0x80 + n % 64]
    else [0xF0 + n / 262144, 0x80 + n / 4096 % 64, 0x80 + n / 64 % 64, 0x80 + n % 64]
  }

  function EncodeText(s: string): seq<Byte> {
    if s == [] then [] else EncodeChar(s[0]) + EncodeText(s[1..])
  }

  /** The decoder reads every encoded character, and no further. */
  lemma {:induction false} CharReads(c: char, t: seq<Byte>)
    ensures var b := EncodeChar(c) + t;
      Width(b) == |EncodeChar(c)| && FirstChar(b) == c && b[Width(b)..] == t
  {
    var n := c as int;
    if n < 0x800 {
      ShortReads(c, t);
    } else if n < 0x10000 {
      ThreeReads(c, t);
    } else {
      FourReads(c, t);
    }
  }

  lemma {:induction false} ShortReads(c: char, t: seq<Byte>)
    requires c < '\U{0800}'
    ensures var b := EncodeChar(c) + t;
      Width(b) == |EncodeChar(c)| && FirstChar(b) == c && b[Width(b)..] == t
  {
    var e := EncodeChar(c);
    var b := e + t;
    assert b[0] == e[0] && b[|e|..] == t;
    if |e| == 2 {
      assert b[1] == e[1] && Second(b);
    }
  }

  lemma {:induction false} ThreeReads(c: char, t: seq<Byte>)
    requires '\U{0800}' <= c < '\U{10000}'
    ensures var b := EncodeChar(c) + t;
      Width(b) == |EncodeChar(c)| && FirstChar(b) == c && b[Width(b)..] == t
  {
    var e := EncodeChar(c);
    var b := e + t;
    assert b[0] == e[0] && b[1] == e[1] && b[2] == e[2] && b[3..] == t;
    ThreePieces(c as int);
    assert Second(b) && Cont(b, 2);
  }

  lemma {:induction false} FourReads(c: char, t: seq<Byte>)
    requires '\U{10000}' <= c
    ensures var b := EncodeChar(c) + t;
      Width(b) == |EncodeChar(c)| && FirstChar(b) == c && b[Width(b)..] == t
  {
    var e := EncodeChar(c);
    var b := e + t;
    assert b[0] == e[0] && b[1] == e[1] && b[2] == e[2] && b[3] == e[3] && b[4..] == t;
    FourPieces(c as int);
    assert Second(b) && Cont(b, 2) && Cont(b, 3);
  }

  lemma {:induction false} ThreePieces(n: int)
    requires 0x800 <= n < 0x10000
    ensures n == n / 4096 * 4096 + n / 64 % 64 * 64 + n % 64 && n / 4096 < 16
    ensures n / 4096 == 0 ==> n / 64 % 64 >= 32
    ensures n < 0xD800 && n / 4096 == 13 ==> n / 64 % 64 < 32
  {
  }

  lemma {:induction false} FourPieces(n: int)
    requires 0x10000 <= n < 0x110000
    ensures n == n / 262144 * 262144 + n / 4096 % 64 * 4096 + n / 64 % 64 * 64 + n % 64 && n / 262144 < 5
    ensures n / 262144 == 0 ==> n / 4096 % 64 >= 16
    ensures n / 262144 == 4 ==> n / 4096 % 64 < 16
  {
    var q := n / 64;
    var r := q / 64;
    assert n / 4096 == r && n / 262144 == r / 64;
    assert n == q * 64 + n % 64 && q == r * 64 + q % 64 && r == r / 64 * 64 + r % 64;
  }

  /** Digits in base 64 are read off a number one way. */
  lemma {:induction false} PiecesAre(w: int, x: int, y: int, z: int)
    requires 0 <= w && 0 <= x < 64 && 0 <= y < 64 && 0 <= z < 64
    ensures var n := w * 262144 + x * 4096 + y * 64 + z;
      n / 262144 == w && n / 4096 % 64 == x && n / 64 % 64 == y && n % 64 == z
  {
    var n := w * 262144 + x * 4096 + y * 64 + z;
    LastPiece(w * 4096 + x * 64 + y, z);
    LastPiece(w * 64 + x, y);
    LastPiece(w, x);
    assert n / 4096 == n / 64 / 64 && n / 262144 == n / 4096 / 64;
  }

  lemma {:induction false} LastPiece(q: int, z: int)
    requires 0 <= q && 0 <= z < 64
    ensures (q * 64 + z) / 64 == q && (q * 64 + z) % 64 == z
  {
  }

  lemma {:induction false} TwoShape(b: seq<Byte>)
    requires Width(b) == 2
    ensures b[..2] == EncodeChar(FirstChar(b))
  {
    PiecesAre(0, 0, b[0] - 0xC0, b[1] - 0x80);
  }

  lemma {:induction false} ThreeShape(b: seq<Byte>)
    requires Width(b) == 3
    ensures b[..3] == EncodeChar(FirstChar(b))
  {
    var x: int, y: int, z: int := b[0] - 0xE0, b[1] - 0x80, b[2] - 0x80;
    var n: int := x * 4096 + y * 64 + z;
    assert 0x800 <= n < 0x10000 && FirstChar(b) as int == n;
    PiecesAre(0, x, y, z);
    assert n / 4096 % 64 == n / 4096;
  }

  lemma {:induction false} FourShape(b: seq<Byte>)
    requires Width(b) == 4
    ensures b[..4] == EncodeChar(FirstChar(b))
  {
    var w: int, x: int, y: int, z: int := b[0] - 0xF0, b[1] - 0x80, b[2] - 0x80, b[3] - 0x80;
    var n: int := w * 262144 + x * 4096 + y * 64 + z;
    assert 0x10000 <= n < 0x110000 && FirstChar(b) as int == n;
    PiecesAre(w, x, y, z);
  }

  /** Whatever it reads as a character are that character's bytes. */
  lemma {:induction false} CharShape(b: seq<Byte>)
    requires Width(b) > 0
    ensures b[..Width(b)] == EncodeChar(FirstChar(b))
  {
    var k := Width(b);
    if k == 2 {
      TwoShape(b);
    } else if k == 3 {
      ThreeShape(b);
    } else if k == 4 {
      FourShape(b);
    }
  }

  /** Encoded text is UTF-8 and is read as itself. */
  lemma {:induction false} TextReads(s: string)
    ensures IsUtf8(EncodeText(s)) && Lossy(EncodeText(s)) == seq(|s|, i requires 0 <= i < |s| => Some(s[i]))
  {
    hide Width, FirstChar, EncodeChar;
    if s != [] {
      CharReads(s[0], EncodeText(s[1..]));
      TextReads(s[1..]);
      var all := seq(|s|, i requires 0 <= i < |s| => Some(s[i]));
      assert all == [Some(s[0])] + seq(|s[1..]|, i requires 0 <= i < |s[1..]| => Some(s[1..][i]));
    }
  }

  /** And UTF-8 is nothing but encoded text. */
  lemma {:induction false} Utf8IsText(b: seq<Byte>) returns (s: string)
    requires IsUtf8(b)
    ensures b == EncodeText(s)
    decreases |b|
  {
    hide Width, FirstChar, EncodeChar;
    if b == [] {
      return "";
    }
    var rest := Utf8IsText(b[Width(b)..]);
    CharShape(b);
    s := [FirstChar(b)] + rest;
    assert s[1..] == rest && b == b[..Width(b)] + b[Width(b)..];
  }

  /** The first `k` bytes start a character without completing it. */
  ghost predicate Begins(b: seq<Byte>, k: nat) { k <= |b| && exists c :: StartOf(b, k, c) }

  predicate StartOf(b: seq<Byte>, k: nat, c: char) { k <= |b| && k < |EncodeChar(c)| && EncodeChar(c)[..k] == b[..k] }

  lemma {:induction false} CompletedBegins(b: seq<Byte>, k: nat, e: seq<Byte>)
    requires k <= |b| && k < |e| && Width(e) == |e| && e[..k] == b[..k]
    ensures Begins(b, k)
  {
    CharShape(e);
    assert e[..|e|] == e;
    assert StartOf(b, k, FirstChar(e));
  }

  lemma {:induction false} StartReads(b: seq<Byte>, k: nat, c: char)
    requires StartOf(b, k, c)
    ensures var e := EncodeChar(c); Width(e) == |e| && forall i :: 0 <= i < k ==> e[i] == b[i]
  {
    hide Width, EncodeChar;
    CharReads(c, []);
    assert EncodeChar(c) + [] == EncodeChar(c);
    assert forall i :: 0 <= i < k ==> EncodeChar(c)[i] == EncodeChar(c)[..k][i] == b[..k][i];
  }

  lemma {:induction false} StartsAreShort(b: seq<Byte>, k: nat, c: char)
    requires b != [] && Width(b) == 0 && StartOf(b, k, c)
    ensures k <= InvalidLen(b)
  {
    hide EncodeChar;
    StartReads(b, k, c);
    var e := EncodeChar(c);
    if k >= 2 {
      assert e[0] == b[0] && e[1] == b[1] && Second(e) && Second(b);
    }
    if k >= 3 {
      assert e[2] == b[2] && Cont(b, 2);
    }
  }

  /** An invalid run is the longest start of a character there is, or a single byte. */
  lemma {:induction false} InvalidRunIsMaximal(b: seq<Byte>)
    requires b != [] && Width(b) == 0
    ensures var n := InvalidLen(b); (n > 1 ==> Begins(b, n)) && !Begins(b, n + 1)
  {
    hide EncodeChar, FirstChar;
    var n := InvalidLen(b);
    if n == 3 {
      CompletedBegins(b, 3, b[..3] + [0x80]);
    } else if n == 2 && b[0] < 0xF0 {
      CompletedBegins(b, 2, b[..2] + [0x80]);
    } else if n == 2 {
      CompletedBegins(b, 2, b[..2] + [0x80, 0x80]);
    }
    var more := n + 1;
    forall c ensures !StartOf(b, more, c) {
      if StartOf(b, more, c) {
        StartsAreShort(b, more, c);
        assert false;
      }
    }
  }

  /** There is a first character exactly when the bytes start with one's encoding. */
  lemma {:induction false} FirstCharIsThere(b: seq<Byte>, c: char)
    ensures Width(b) > 0 && FirstChar(b) == c <==> EncodeChar(c) <= b
  {
    hide Width, FirstChar, EncodeChar;
    if Width(b) > 0 && FirstChar(b) == c {
      CharShape(b);
    }
    if EncodeChar(c) <= b {
      CharReads(c, b[|EncodeChar(c)|..]);
      assert b == EncodeChar(c) + b[|EncodeChar(c)|..];
    }
  }
}
