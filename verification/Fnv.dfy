/**
 * FNV-1a-64 (crates/bitty-ai-host/src/cache_disclosure.rs:156-161 and 426-438) and the
 * fingerprint of several components (507-566), over 64-bit words as numbers below 2^64.
 */
module Fnv {
  import opened Bytes
  import opened Results

  const FNV_OFFSET_BASIS := 0xcbf29ce484222325
  const FNV_PRIME := 0x0100_0000_01b3
  const FNV_PRIME_INVERSE := 0xce965057aff6957b
  const WORDS := 0x1_0000_0000_0000_0000

  type Word = w: int | 0 <= w < WORDS

  /** Exclusive or of the low `bits` bits. */
  function Xor(a: nat, b: nat, bits: nat): nat {
    if bits == 0 then 0 else 2 * Xor(a / 2, b / 2, bits - 1) + (a + b) % 2
  }

  function PowerOfTwo(bits: nat): nat { if bits == 0 then 1 else 2 * PowerOfTwo(bits - 1) }

  /** Exclusive or stays in range and undoes itself. */
  lemma {:induction false} XorUndoes(a: nat, b: nat, bits: nat)
    requires a < PowerOfTwo(bits)
    ensures Xor(a, b, bits) < PowerOfTwo(bits) && Xor(Xor(a, b, bits), b, bits) == a
  {
    if bits > 0 {
      XorUndoes(a / 2, b / 2, bits - 1);
      var y, r := Xor(a / 2, b / 2, bits - 1), (a + b) % 2;
      Halves(y, r, b);
      Parity(a, b);
    }
  }

  lemma {:induction false} Halves(y: nat, r: nat, b: nat)
    requires r < 2
    ensures (2 * y + r) / 2 == y && (2 * y + r + b) % 2 == (r + b) % 2
  {
  }

  lemma {:induction false} Parity(a: nat, b: nat)
    ensures ((a + b) % 2 + b) % 2 == a % 2 && a == 2 * (a / 2) + a % 2
  {
  }

  lemma {:induction false} XorSymmetric(a: nat, b: nat, bits: nat)
    ensures Xor(a, b, bits) == Xor(b, a, bits)
  {
    if bits > 0 {
      XorSymmetric(a / 2, b / 2, bits - 1);
    }
  }

  lemma {:induction false} ByteIsEightBits()
    ensures PowerOfTwo(8) == 256
  {
    assert PowerOfTwo(2) == 4 && PowerOfTwo(4) == 16 && PowerOfTwo(6) == 64;
  }

  /** A byte mixed into the low end of a word. */
  function Mix(w: Word, b: Byte): Word {
    ByteIsEightBits();
    XorUndoes(w % 256, b, 8);
    LowByteReplaced(w, Xor(w % 256, b, 8));
    w / 256 * 256 + Xor(w % 256, b, 8)
  }

  lemma {:induction false} LowByteReplaced(w: Word, x: nat)
    requires x < 256
    ensures 0 <= w / 256 * 256 + x < WORDS
    ensures (w / 256 * 256 + x) / 256 == w / 256 && (w / 256 * 256 + x) % 256 == x
  {
    var high := w / 256;
    assert high <= WORDS / 256 - 1;
  }

  function Step(w: Word, b: Byte): Word { (Mix(w, b) * FNV_PRIME) % WORDS }

  /** The word before a step. */
  function Unstep(w: Word, b: Byte): Word { Mix((w * FNV_PRIME_INVERSE) % WORDS, b) }

  lemma {:induction false} MixUndoes(w: Word, b: Byte)
    ensures Mix(Mix(w, b), b) == w
  {
    ByteIsEightBits();
    XorUndoes(w % 256, b, 8);
    LowByteReplaced(w, Xor(w % 256, b, 8));
  }

  /** The prime is invertible modulo 2^64. */
  lemma {:induction false} PrimeInverts(w: Word)
    ensures ((w * FNV_PRIME) % WORDS * FNV_PRIME_INVERSE) % WORDS == w
    ensures ((w * FNV_PRIME_INVERSE) % WORDS * FNV_PRIME) % WORDS == w
  {
    var k := FNV_PRIME * FNV_PRIME_INVERSE / WORDS;
    assert FNV_PRIME * FNV_PRIME_INVERSE == 1 + k * WORDS;
    var p, q := (w * FNV_PRIME) / WORDS, (w * FNV_PRIME_INVERSE) / WORDS;
    Wraps((w * FNV_PRIME) % WORDS * FNV_PRIME_INVERSE, w * k - p * FNV_PRIME_INVERSE, w);
    Wraps((w * FNV_PRIME_INVERSE) % WORDS * FNV_PRIME, w * k - q * FNV_PRIME, w);
  }

  lemma {:induction false} Wraps(x: int, turns: int, w: Word)
    requires x == turns * WORDS + w
    ensures x % WORDS == w
  {
  }

  /** Each step is a bijection of the 64-bit state. */
  lemma {:induction false} StepIsBijective(w: Word, b: Byte)
    ensures Unstep(Step(w, b), b) == w && Step(Unstep(w, b), b) == w
  {
    PrimeInverts(Mix(w, b));
    MixUndoes(w, b);
    PrimeInverts(w);
    MixUndoes((w * FNV_PRIME_INVERSE) % WORDS, b);
  }

  /** Different bytes take one state to different states. */
  lemma {:induction false} StepSeparates(w: Word, b: Byte, c: Byte)
    requires Step(w, b) == Step(w, c)
    ensures b == c
  {
    PrimeInverts(Mix(w, b));
    PrimeInverts(Mix(w, c));
    var low := w % 256;
    ByteIsEightBits();
    XorUndoes(b, low, 8);
    XorUndoes(c, low, 8);
    XorSymmetric(low, b, 8);
    XorSymmetric(low, c, 8);
  }

  function Fold(w: Word, bytes: seq<Byte>): Word {
    if bytes == [] then w else Step(Fold(w, bytes[..|bytes| - 1]), bytes[|bytes| - 1])
  }

  function Digest(bytes: seq<Byte>): Word { Fold(FNV_OFFSET_BASIS, bytes) }

  lemma {:induction false} MixesTheLetterA()
    ensures Mix(FNV_OFFSET_BASIS, 0x61) == 0xcbf29ce484222344
  {
    assert Xor(1, 3, 3) == 2;
    assert Xor(4, 12, 5) == 8;
    assert Xor(18, 48, 7) == 34;
    assert Xor(0x25, 0x61, 8) == 0x44;
    assert FNV_OFFSET_BASIS % 256 == 0x25;
  }

  /** The reference values of the empty text and of the text "a". */
  lemma {:induction false} ReferenceDigests()
    ensures Digest([]) == 0xcbf29ce484222325 && Digest([0x61]) == 0xaf63dc4c8601ec8c
  {
    hide Xor, Mix;
    MixesTheLetterA();
    var a := [0x61];
    assert a[..0] == [] && Fold(FNV_OFFSET_BASIS, a) == Step(FNV_OFFSET_BASIS, a[0]);
  }

  method Fnv1a64(bytes: seq<Byte>) returns (hash: Word)
    ensures hash == Digest(bytes)
  {
    hide Step;
    hash := FNV_OFFSET_BASIS;
    for i := 0 to |bytes|
      invariant hash == Fold(FNV_OFFSET_BASIS, bytes[..i])
    {
      assert bytes[..i + 1][..i] == bytes[..i];
      hash := Step(hash, bytes[i]);
    }
    assert bytes[..|bytes|] == bytes;
  }

  lemma {:induction false} FoldAppend(w: Word, a: seq<Byte>, b: seq<Byte>)
    ensures Fold(w, a + b) == Fold(Fold(w, a), b)
  {
    hide Step;
    if b == [] {
      assert a + b == a;
    } else {
      FoldAppend(w, a, b[..|b| - 1]);
      assert (a + b)[..|a + b| - 1] == a + b[..|b| - 1];
    }
  }

  /** The same bytes keep different states different. */
  lemma {:induction false} FoldSeparates(v: Word, w: Word, bytes: seq<Byte>)
    requires Fold(v, bytes) == Fold(w, bytes)
    ensures v == w
  {
    hide Step, Unstep;
    if bytes != [] {
      var n := |bytes| - 1;
      StepIsBijective(Fold(v, bytes[..n]), bytes[n]);
      StepIsBijective(Fold(w, bytes[..n]), bytes[n]);
      FoldSeparates(v, w, bytes[..n]);
    }
  }

  /** Two texts of one length that differ in exactly one byte never share a digest. */
  lemma {:induction false} OneByteIsEnough(a: seq<Byte>, b: seq<Byte>, i: nat)
    requires |a| == |b| && i < |a| && a[i] != b[i]
    requires forall k :: 0 <= k < |a| && k != i ==> a[k] == b[k]
    ensures Digest(a) != Digest(b)
  {
    hide Step;
    var before, after := a[..i], a[i + 1..];
    assert before == b[..i] && after == b[i + 1..];
    assert a == before + [a[i]] + after && b == before + [b[i]] + after;
    var w := Fold(FNV_OFFSET_BASIS, before);
    FoldAppend(FNV_OFFSET_BASIS, before + [a[i]], after);
    FoldAppend(FNV_OFFSET_BASIS, before + [b[i]], after);
    FoldOne(FNV_OFFSET_BASIS, before, a[i]);
    FoldOne(FNV_OFFSET_BASIS, before, b[i]);
    if Digest(a) == Digest(b) {
      FoldSeparates(Step(w, a[i]), Step(w, b[i]), after);
      StepSeparates(w, a[i], b[i]);
      assert false;
    }
  }

  lemma {:induction false} FoldOne(w: Word, bytes: seq<Byte>, b: Byte)
    ensures Fold(w, bytes + [b]) == Step(Fold(w, bytes), b)
  {
    assert (bytes + [b])[..|bytes|] == bytes;
  }

  // ---------------------------------------------------------------- several components

  datatype Fingerprint = Fingerprint(digest: Word, inputLen: nat)
  datatype FingerprintError = MissingInput | UnknownComponent(index: nat)

  function Framed(cs: seq<seq<Byte>>): seq<Byte> {
    if cs == [] then [] else LengthPrefixed(cs[0]) + Framed(cs[1..])
  }

  function TotalLen(cs: seq<seq<Byte>>): nat {
    if cs == [] then 0 else |cs[0]| + TotalLen(cs[1..])
  }

  /** Each component is shorter than 2^64 bytes, as any slice is. */
  ghost predicate Addressable(cs: seq<seq<Byte>>) {
    forall i :: 0 <= i < |cs| ==> |cs[i]| <= U64_MAX
  }

  lemma {:induction false} FrameSplits(c: seq<Byte>, x: seq<Byte>, d: seq<Byte>, y: seq<Byte>)
    requires |c| <= U64_MAX && |d| <= U64_MAX && LengthPrefixed(c) + x == LengthPrefixed(d) + y
    ensures c == d && x == y
  {
    Capacities();
    LittleEndianRoundTrip(|c|, 8);
    LittleEndianRoundTrip(|d|, 8);
    var s := LengthPrefixed(c) + x;
    assert s[..8] == LittleEndian(|c|, 8) && s[..8] == LittleEndian(|d|, 8);
    assert c == s[8..8 + |c|] == d;
    assert x == s[8 + |c|..] == y;
  }

  /** Regrouping or reordering components always changes the framed text. */
  lemma {:induction false} FramedIsInjective(a: seq<seq<Byte>>, b: seq<seq<Byte>>)
    requires Addressable(a) && Addressable(b) && Framed(a) == Framed(b)
    ensures a == b
  {
    hide LengthPrefixed;
    if a != [] && b != [] {
      FrameSplits(a[0], Framed(a[1..]), b[0], Framed(b[1..]));
      FramedIsInjective(a[1..], b[1..]);
      assert a == [a[0]] + a[1..] && b == [b[0]] + b[1..];
    } else {
      FrameIsNotEmpty(a);
      FrameIsNotEmpty(b);
    }
  }

  lemma {:induction false} FrameIsNotEmpty(cs: seq<seq<Byte>>)
    ensures cs != [] ==> Framed(cs) != []
  {
  }

  ghost function Known(components: seq<Option<seq<Byte>>>): seq<seq<Byte>>
    requires forall i :: 0 <= i < |components| ==> components[i].Some?
  {
    seq(|components|, i requires 0 <= i < |components| => components[i].value)
  }

  ghost predicate FirstUnknown(components: seq<Option<seq<Byte>>>, k: nat) {
    k < |components| && components[k].None? && forall i :: 0 <= i < k ==> components[i].Some?
  }

  lemma {:induction false} TotalAppend(cs: seq<seq<Byte>>, c: seq<Byte>)
    ensures TotalLen(cs + [c]) == TotalLen(cs) + |c| && Framed(cs + [c]) == Framed(cs) + LengthPrefixed(c)
  {
    hide LengthPrefixed;
    if cs == [] {
      assert [] + [c] == [c] && [c][1..] == [] && LengthPrefixed(c) + [] == [] + LengthPrefixed(c);
    } else {
      TotalAppend(cs[1..], c);
      assert (cs + [c])[1..] == cs[1..] + [c];
      assert LengthPrefixed(cs[0]) + (Framed(cs[1..]) + LengthPrefixed(c))
        == LengthPrefixed(cs[0]) + Framed(cs[1..]) + LengthPrefixed(c);
    }
  }

  /** The fingerprint of a list of components is the digest of their framed text. */
  method OfComponents(components: seq<Option<seq<Byte>>>) returns (r: Result<Fingerprint, FingerprintError>)
    ensures match r
      case Err(UnknownComponent(k)) => FirstUnknown(components, k)
      case Err(MissingInput) =>
        (forall i :: 0 <= i < |components| ==> components[i].Some?) && TotalLen(Known(components)) == 0
      case Ok(f) =>
        && (forall i :: 0 <= i < |components| ==> components[i].Some?)
        && f.inputLen == TotalLen(Known(components)) > 0
        && f.digest == Digest(Framed(Known(components)))
  {
    hide Step, LengthPrefixed;
    var total := 0;
    for i := 0 to |components|
      invariant forall j :: 0 <= j < i ==> components[j].Some?
      invariant total == TotalLen(Known(components[..i]))
    {
      if components[i].None? {
        return Err(UnknownComponent(i));
      }
      TotalAppend(Known(components[..i]), components[i].value);
      assert Known(components[..i + 1]) == Known(components[..i]) + [components[i].value];
      total := total + |components[i].value|;
    }
    assert components[..|components|] == components;
    if total == 0 {
      return Err(MissingInput);
    }
    var hash := FNV_OFFSET_BASIS;
    for i := 0 to |components|
      invariant hash == Fold(FNV_OFFSET_BASIS, Framed(Known(components[..i])))
    {
      var c := components[i].value;
      ghost var before := Framed(Known(components[..i]));
      TotalAppend(Known(components[..i]), c);
      assert Known(components[..i + 1]) == Known(components[..i]) + [c];
      hash := MixAll(hash, LittleEndian(|c|, 8));
      hash := MixAll(hash, c);
      FrameFolds(Fold(FNV_OFFSET_BASIS, before), c);
      FoldAppend(FNV_OFFSET_BASIS, before, LengthPrefixed(c));
    }
    return Ok(Fingerprint(hash, total));
  }

  lemma {:induction false} FrameFolds(w: Word, c: seq<Byte>)
    ensures Fold(w, LengthPrefixed(c)) == Fold(Fold(w, LittleEndian(|c|, 8)), c)
  {
    FoldAppend(w, LittleEndian(|c|, 8), c);
  }

  method MixAll(start: Word, bytes: seq<Byte>) returns (hash: Word)
    ensures hash == Fold(start, bytes)
  {
    hide Step;
    hash := start;
    for i := 0 to |bytes|
      invariant hash == Fold(start, bytes[..i])
    {
      assert bytes[..i + 1][..i] == bytes[..i];
      hash := Step(hash, bytes[i]);
    }
    assert bytes[..|bytes|] == bytes;
  }
}
