/**
 Base64 (yona_Std_Encoding__base64Encode and base64Decode in src/compiled_runtime.c)
 against section 4 of RFC 4648, and exactly when decoding undoes encoding.
*/
module Base64 {
  import opened Encoding
  import opened Sequences

  const UPPER: string := "ABCDEFGHIJKLMNOPQRSTUVWXYZ"
  const LOWER: string := "abcdefghijklmnopqrstuvwxyz"
  const B64_TABLE: string := UPPER + LOWER + "0123456789+/"

  function Digit(n: nat): (c: Char)
    requires n < 64
  {
    if n < 26 then Ch('A') + n
    else if n < 52 then Ch('a') + (n - 26)
    else if n < 62 then Ch('0') + (n - 52)
    else if n == 62 then Ch('+') else Ch('/')
  }

  // b64_table, by position.
  lemma TableIs(n: nat)
    requires n < 64
    ensures Digit(n) == Ch(B64_TABLE[n])
  {
  }

  // b64_decode_char: -1 outside the alphabet.
  function Value(c: Char): (n: int)
    ensures -1 <= n < 64
  {
    if Ch('A') <= c <= Ch('Z') then c - Ch('A')
    else if Ch('a') <= c <= Ch('z') then c - Ch('a') + 26
    else if Ch('0') <= c <= Ch('9') then c - Ch('0') + 52
    else if c == Ch('+') then 62
    else if c == Ch('/') then 63
    else -1
  }

  // ---------------------------------------------------------------------
  // Encoding
  // ---------------------------------------------------------------------

  const PAD: Char := Ch('=')

  // Up to three bytes as four characters.
  function Quad(s: Text): Text
    requires 0 < |s| <= 3
  {
    var a: Byte := s[0];
    var b: Byte := if |s| > 1 then s[1] else 0;
    var c: Byte := if |s| > 2 then s[2] else 0;
    [Digit(a / 4), Digit(a % 4 * 16 + b / 16),
     if |s| > 1 then Digit(b % 16 * 4 + c / 64) else PAD,
     if |s| > 2 then Digit(c % 64) else PAD]
  }

  function Encode(s: Text): Text {
    if s == [] then [] else if |s| <= 3 then Quad(s) else Quad(s[..3]) + Encode(s[3..])
  }

  lemma TripleDigits(a: Byte, b: Byte, c: Byte)
    ensures var triple := a * 65536 + b * 256 + c;
            && triple / 262144 % 64 == a / 4
            && triple / 4096 % 64 == a % 4 * 16 + b / 16
            && triple / 64 % 64 == b % 16 * 4 + c / 64
            && triple % 64 == c % 64
  {
    var triple := a * 65536 + b * 256 + c;
    assert a == a / 4 * 4 + a % 4 && b == b / 16 * 16 + b % 16 && c == c / 64 * 64 + c % 64;
    assert triple == (((a / 4) * 64 + (a % 4 * 16 + b / 16)) * 64 + (b % 16 * 4 + c / 64)) * 64 + c % 64;
    Split(triple, ((a / 4) * 64 + (a % 4 * 16 + b / 16)) * 64 + (b % 16 * 4 + c / 64), c % 64);
    Split(triple / 64, (a / 4) * 64 + (a % 4 * 16 + b / 16), b % 16 * 4 + c / 64);
    Split(triple / 64 / 64, a / 4, a % 4 * 16 + b / 16);
    Nested(triple);
  }

  lemma Split(n: nat, q: nat, d: nat)
    requires n == q * 64 + d && d < 64
    ensures n / 64 == q && n % 64 == d
  {
  }

  lemma Nested(n: nat)
    ensures n / 64 / 64 == n / 4096 && n / 64 / 64 / 64 == n / 262144
  {
  }

  // The four characters for the bytes at i, through one 24-bit word.
  method EncodeAt(s: Text, i: nat, ghost n: nat) returns (quad: Text)
    requires i < |s| && n == (if |s| - i < 3 then |s| - i else 3)
    ensures quad == Quad(s[i..i + n])
  {
    var a: int := s[i];
    var b: int := if i + 1 < |s| then s[i + 1] else 0;
    var c: int := if i + 2 < |s| then s[i + 2] else 0;
    var triple := a * 65536 + b * 256 + c;
    TripleDigits(a, b, c);
    return [Digit(triple / 262144 % 64), Digit(triple / 4096 % 64),
            if i + 1 < |s| then Digit(triple / 64 % 64) else PAD,
            if i + 2 < |s| then Digit(triple % 64) else PAD];
  }

  method Base64Encode(s: Text) returns (r: Text)
    ensures r == Encode(s)
  {
    r := [];
    var i := 0;
    while i < |s|
      invariant i <= |s| && r + Encode(s[i..]) == Encode(s)
    {
      var n := if |s| - i < 3 then |s| - i else 3;
      var quad := EncodeAt(s, i, n);
      NextQuad(s, i, n);
      Regroup(r, quad, Encode(s[i + n..]));
      r := r + quad;
      i := i + n;
    }
  }

  lemma NextQuad(s: Text, i: nat, n: nat)
    requires i < |s| && n == (if |s| - i < 3 then |s| - i else 3)
    ensures Encode(s[i..]) == Quad(s[i..i + n]) + Encode(s[i + n..])
  {
    Step(s, i, n);
    assert s[i..][..n] == s[i..i + n];
    if |s| - i <= 3 { assert s[i..] == s[i..i + n]; }
  }

  // ---------------------------------------------------------------------
  // Section 4 of RFC 4648: the bits of the input in groups of six
  // ---------------------------------------------------------------------

  // Bit j of a byte, from the most significant.
  function BitOf(b: Byte, j: nat): nat {
    if j == 0 then b / 128
    else if j == 1 then b / 64 % 2
    else if j == 2 then b / 32 % 2
    else if j == 3 then b / 16 % 2
    else if j == 4 then b / 8 % 2
    else if j == 5 then b / 4 % 2
    else if j == 6 then b / 2 % 2
    else b % 2
  }

  // The input as one string of bits, with zeros after its end.
  function Bit(s: Text, p: nat): nat {
    if p / 8 < |s| then BitOf(s[p / 8], p % 8) else 0
  }

  // Group k of six bits.
  function SextetAt(s: Text, k: nat): nat {
    Bit(s, 6 * k) * 32 + Bit(s, 6 * k + 1) * 16 + Bit(s, 6 * k + 2) * 8
    + Bit(s, 6 * k + 3) * 4 + Bit(s, 6 * k + 4) * 2 + Bit(s, 6 * k + 5)
  }

  // Whole groups of four characters: one for each group of bits that holds some of the
  // input's, and padding for the others.
  ghost predicate IsBase64(s: Text, text: Text) {
    && |text| == (|s| + 2) / 3 * 4
    && forall k: nat :: k < |text| ==> IsCharacter(s, k, text[k])
  }

  ghost predicate IsCharacter(s: Text, k: nat, c: Char) {
    if 6 * k < 8 * |s| then SextetAt(s, k) < 64 && c == Digit(SextetAt(s, k)) else c == PAD
  }

  lemma LowHalves(b: Byte)
    ensures b == b / 2 * 2 + b % 2 && b / 2 == b / 4 * 2 + b / 2 % 2 && b / 4 == b / 8 * 2 + b / 4 % 2
  {
  }

  lemma MiddleHalves(b: Byte)
    ensures b / 8 == b / 16 * 2 + b / 8 % 2 && b / 16 == b / 32 * 2 + b / 16 % 2
  {
  }

  lemma HighHalves(b: Byte)
    ensures b / 32 == b / 64 * 2 + b / 32 % 2 && b / 64 == b / 128 * 2 + b / 64 % 2
  {
  }

  lemma Remainders(b: Byte)
    ensures b == b / 4 * 4 + b % 4 && b == b / 16 * 16 + b % 16 && b == b / 64 * 64 + b % 64
  {
  }

  // Runs of bits of a byte, as numbers.
  lemma HighBits(b: Byte)
    ensures BitOf(b, 0) * 2 + BitOf(b, 1) == b / 64
    ensures BitOf(b, 0) * 8 + BitOf(b, 1) * 4 + BitOf(b, 2) * 2 + BitOf(b, 3) == b / 16
    ensures BitOf(b, 0) * 32 + BitOf(b, 1) * 16 + BitOf(b, 2) * 8 + BitOf(b, 3) * 4 + BitOf(b, 4) * 2 + BitOf(b, 5)
            == b / 4
  {
    LowHalves(b);
    MiddleHalves(b);
    HighHalves(b);
  }

  lemma LowBits(b: Byte)
    ensures BitOf(b, 6) * 2 + BitOf(b, 7) == b % 4
    ensures BitOf(b, 4) * 8 + BitOf(b, 5) * 4 + BitOf(b, 6) * 2 + BitOf(b, 7) == b % 16
    ensures BitOf(b, 2) * 32 + BitOf(b, 3) * 16 + BitOf(b, 4) * 8 + BitOf(b, 5) * 4 + BitOf(b, 6) * 2 + BitOf(b, 7)
            == b % 64
  {
    LowHalves(b);
    MiddleHalves(b);
    HighHalves(b);
    Remainders(b);
  }

  function ByteOr0(s: Text, i: nat): Byte { if i < |s| then s[i] else 0 }

  lemma BitAt(s: Text, i: nat, j: nat)
    requires j < 8
    ensures Bit(s, 8 * i + j) == BitOf(ByteOr0(s, i), j)
  {
    assert (8 * i + j) / 8 == i && (8 * i + j) % 8 == j;
  }

  lemma FirstBits(s: Text)
    ensures SextetAt(s, 0) == ByteOr0(s, 0) / 4
  {
    BitAt(s, 0, 0); BitAt(s, 0, 1); BitAt(s, 0, 2); BitAt(s, 0, 3); BitAt(s, 0, 4); BitAt(s, 0, 5);
    HighBits(ByteOr0(s, 0));
  }

  lemma SecondBits(s: Text)
    ensures SextetAt(s, 1) == ByteOr0(s, 0) % 4 * 16 + ByteOr0(s, 1) / 16
  {
    BitAt(s, 0, 6); BitAt(s, 0, 7); BitAt(s, 1, 0); BitAt(s, 1, 1); BitAt(s, 1, 2); BitAt(s, 1, 3);
    LowBits(ByteOr0(s, 0));
    HighBits(ByteOr0(s, 1));
  }

  lemma ThirdBits(s: Text)
    ensures SextetAt(s, 2) == ByteOr0(s, 1) % 16 * 4 + ByteOr0(s, 2) / 64
  {
    BitAt(s, 1, 4); BitAt(s, 1, 5); BitAt(s, 1, 6); BitAt(s, 1, 7); BitAt(s, 2, 0); BitAt(s, 2, 1);
    LowBits(ByteOr0(s, 1));
    HighBits(ByteOr0(s, 2));
  }

  lemma LastBits(s: Text)
    ensures SextetAt(s, 3) == ByteOr0(s, 2) % 64
  {
    BitAt(s, 2, 2); BitAt(s, 2, 3); BitAt(s, 2, 4); BitAt(s, 2, 5); BitAt(s, 2, 6); BitAt(s, 2, 7);
    LowBits(ByteOr0(s, 2));
  }

  lemma BitShifts(s: Text, p: nat)
    requires |s| >= 3
    ensures Bit(s, p + 24) == Bit(s[3..], p)
  {
    assert (p + 24) / 8 == p / 8 + 3 && (p + 24) % 8 == p % 8;
    if p / 8 + 3 < |s| { assert s[p / 8 + 3] == s[3..][p / 8]; }
  }

  lemma SextetShifts(s: Text, k: nat)
    requires |s| >= 3
    ensures SextetAt(s, k + 4) == SextetAt(s[3..], k)
  {
    BitShifts(s, 6 * k);
    BitShifts(s, 6 * k + 1);
    BitShifts(s, 6 * k + 2);
    BitShifts(s, 6 * k + 3);
    BitShifts(s, 6 * k + 4);
    BitShifts(s, 6 * k + 5);
  }

  lemma QuadIsBase64(s: Text, k: nat)
    requires s != [] && k < 4
    ensures IsCharacter(s, k, Quad(if |s| <= 3 then s else s[..3])[k])
  {
    FirstBits(s);
    SecondBits(s);
    ThirdBits(s);
    LastBits(s);
  }

  lemma {:induction false} EncodeLength(s: Text)
    ensures |Encode(s)| == (|s| + 2) / 3 * 4
  {
    if |s| > 3 { EncodeLength(s[3..]); }
  }

  lemma LaterCharacter(s: Text, k: nat)
    requires |s| > 3 && 4 <= k < |Encode(s)| && k - 4 < |Encode(s[3..])|
    requires IsCharacter(s[3..], k - 4, Encode(s[3..])[k - 4])
    ensures IsCharacter(s, k, Encode(s)[k])
  {
    CharacterShifts(s, k - 4, Encode(s[3..])[k - 4]);
    AfterPrefix(Quad(s[..3]), Encode(s[3..]), k);
  }

  lemma AfterPrefix(q: Text, rest: Text, k: nat)
    requires |q| == 4 && 4 <= k < 4 + |rest|
    ensures (q + rest)[k] == rest[k - 4]
  {
  }

  lemma CharacterShifts(s: Text, k: nat, c: Char)
    requires |s| > 3 && IsCharacter(s[3..], k, c)
    ensures IsCharacter(s, k + 4, c)
  {
    SextetShifts(s, k);
  }

  lemma {:induction false} EncodeCharacter(s: Text, k: nat)
    requires k < |Encode(s)|
    ensures IsCharacter(s, k, Encode(s)[k])
    decreases |s|
  {
    if k < 4 {
      QuadIsBase64(s, k);
    } else {
      EncodeCharacter(s[3..], k - 4);
      LaterCharacter(s, k);
    }
  }

  // base64Encode matches section 4 of RFC 4648 on every input.
  lemma EncodeIsBase64(s: Text)
    ensures IsBase64(s, Encode(s))
  {
    EncodeLength(s);
    forall k: nat | k < |Encode(s)| ensures IsCharacter(s, k, Encode(s)[k]) {
      EncodeCharacter(s, k);
    }
  }

  // ---------------------------------------------------------------------
  // Decoding
  // ---------------------------------------------------------------------

  // The 32-bit word from four values. A value of -1 is sign-extended before it is
  // shifted and merged, and so sets every bit from its own place up.
  function Word(a: int, b: int, c: int, d: int): nat
    requires 0 <= a < 64 && 0 <= b < 64 && -1 <= c < 64 && -1 <= d < 64
  {
    if d < 0 then 0xFFFF_FFFF
    else if c < 0 then 0xFFFF_FFC0 + d
    else a * 262144 + b * 4096 + c * 64 + d
  }

  function AtLeastZero(n: int): int { if n < 0 then 0 else n }

  // Up to four characters as bytes.
  function Unquad(q: Text): Buffer
    requires 0 < |q| <= 4
  {
    var a := Value(q[0]);
    var b := if |q| > 1 then Value(q[1]) else 0;
    var c := if |q| > 2 then Value(q[2]) else 0;
    var d := if |q| > 3 then Value(q[3]) else 0;
    var triple := Word(AtLeastZero(a), AtLeastZero(b), c, d);
    [triple / 65536 % 256]
    + (if |q| > 2 && q[2] != PAD then [triple / 256 % 256] else [])
    + (if |q| > 3 && q[3] != PAD then [triple % 256] else [])
  }

  function Decode(s: Text): Buffer {
    if s == [] then [] else if |s| <= 4 then Unquad(s) else Unquad(s[..4]) + Decode(s[4..])
  }

  method Base64Decode(s: Text) returns (r: Buffer)
    ensures r == Stored(Decode(s))
  {
    r := [];
    var i := 0;
    while i < |s|
      invariant i <= |s| && r + Decode(s[i..]) == Decode(s)
    {
      var n := if |s| - i < 4 then |s| - i else 4;
      var bytes := DecodeAt(s, i, n);
      NextUnquad(s, i, n);
      Regroup(r, bytes, Decode(s[i + n..]));
      r := r + bytes;
      i := i + n;
    }
    r := Stored(r);
  }

  // The bytes for the characters at i.
  method DecodeAt(s: Text, i: nat, ghost n: nat) returns (bytes: Buffer)
    requires i < |s| && n == (if |s| - i < 4 then |s| - i else 4)
    ensures bytes == Unquad(s[i..i + n])
  {
    var a := Value(s[i]);
    var b := if i + 1 < |s| then Value(s[i + 1]) else 0;
    var c := if i + 2 < |s| then Value(s[i + 2]) else 0;
    var d := if i + 3 < |s| then Value(s[i + 3]) else 0;
    if a < 0 { a := 0; }
    if b < 0 { b := 0; }
    var triple := Word(a, b, c, d);
    bytes := [triple / 65536 % 256];
    if i + 2 < |s| && s[i + 2] != PAD { bytes := bytes + [triple / 256 % 256]; }
    if i + 3 < |s| && s[i + 3] != PAD { bytes := bytes + [triple % 256]; }
  }

  lemma NextUnquad(s: Text, i: nat, n: nat)
    requires i < |s| && n == (if |s| - i < 4 then |s| - i else 4)
    ensures Decode(s[i..]) == Unquad(s[i..i + n]) + Decode(s[i + n..])
  {
    Step(s, i, n);
    assert s[i..][..n] == s[i..i + n];
    if |s| - i <= 4 { assert s[i..] == s[i..i + n]; }
  }

  // ---------------------------------------------------------------------
  // Round trip
  // ---------------------------------------------------------------------

  lemma ValueOfDigit(n: nat)
    requires n < 64
    ensures Value(Digit(n)) == n && Digit(n) != PAD
  {
  }

  lemma Shift8(n: nat, q: nat, d: nat)
    requires n == q * 256 + d && d < 256
    ensures n / 256 == q && n % 256 == d
  {
  }

  lemma WordOfDigits(a: Byte, b: Byte, c: Byte)
    ensures var w := Word(a / 4, a % 4 * 16 + b / 16, b % 16 * 4 + c / 64, c % 64);
            w / 65536 % 256 == a && w / 256 % 256 == b && w % 256 == c
  {
    var w := Word(a / 4, a % 4 * 16 + b / 16, b % 16 * 4 + c / 64, c % 64);
    Remainders(a);
    Remainders(b);
    Remainders(c);
    assert w == (a * 256 + b) * 256 + c;
    Shift8(w, a * 256 + b, c);
    Shift8(w / 256, a, b);
    assert w / 65536 == w / 256 / 256;
  }

  // Three bytes come back; a shorter group comes back as bytes of all ones.
  lemma UnquadQuad(s: Text)
    requires 0 < |s| <= 3
    ensures Unquad(Quad(s)) == if |s| == 3 then s else Ones(|s|)
  {
    if |s| == 3 {
      WholeGroup(s);
    } else {
      ShortGroup(s);
    }
  }

  lemma WholeGroup(s: Text)
    requires |s| == 3
    ensures Unquad(Quad(s)) == s
  {
    var a: Byte, b: Byte, c: Byte := s[0], s[1], s[2];
    ValueOfDigit(a / 4);
    ValueOfDigit(a % 4 * 16 + b / 16);
    ValueOfDigit(b % 16 * 4 + c / 64);
    ValueOfDigit(c % 64);
    WordOfDigits(a, b, c);
  }

  function Ones(n: nat): Text { seq(n, _ => 255) }

  lemma ShortGroup(s: Text)
    requires 0 < |s| < 3
    ensures Unquad(Quad(s)) == Ones(|s|)
  {
    assert Value(PAD) == -1;
    if |s| == 2 {
      var b: Byte := s[1];
      ValueOfDigit(b % 16 * 4);
    }
  }

  // The bytes of the last group, when it is not whole.
  function Tail(s: Text): Text { s[|s| - |s| % 3..] }

  ghost predicate AllOnes(s: Buffer) { forall i :: 0 <= i < |s| ==> s[i] == 255 }

  lemma DecodeConcat(q: Text, rest: Text)
    requires |q| == 4
    ensures Decode(q + rest) == Unquad(q) + Decode(rest)
  {
    assert (q + rest)[..4] == q && (q + rest)[4..] == rest;
    if rest == [] { assert q + rest == q; }
  }

  lemma FirstGroup(s: Text)
    requires |s| > 3
    ensures Decode(Encode(s)) == s[..3] + Decode(Encode(s[3..]))
  {
    UnquadQuad(s[..3]);
    DecodeConcat(Quad(s[..3]), Encode(s[3..]));
  }

  // The text with the bytes beyond the last whole group turned into bytes of all ones.
  function TailLost(s: Text): Text { s[..|s| - |s| % 3] + Ones(|s| % 3) }

  lemma TailLostLater(s: Text)
    requires |s| > 3
    ensures s[..3] + TailLost(s[3..]) == TailLost(s)
  {
    assert |s| % 3 == (|s| - 3) % 3;
    assert s[..3] + s[3..][..|s| - 3 - |s| % 3] == s[..|s| - |s| % 3];
  }

  // That is what comes back.
  lemma {:induction false} DecodeEncode(s: Text)
    ensures Decode(Encode(s)) == TailLost(s)
  {
    if 0 < |s| <= 3 {
      UnquadQuad(s);
    } else if |s| > 3 {
      DecodeEncode(s[3..]);
      FirstGroup(s);
      TailLostLater(s);
    }
  }

  // Decoding undoes encoding if and only if the bytes beyond the last whole group are
  // all ones: there are none when the length is divisible by three.
  lemma RoundTripIff(s: Text)
    ensures Read(Stored(Decode(Encode(s)))) == s <==> AllOnes(Tail(s))
    ensures |Read(Stored(Decode(Encode(s))))| == |s|
  {
    DecodeEncode(s);
    ReadText(TailLost(s));
    NothingLostIff(s);
  }

  lemma NothingLostIff(s: Text)
    ensures TailLost(s) == s <==> AllOnes(Tail(s))
    ensures |TailLost(s)| == |s|
  {
    assert s == s[..|s| - |s| % 3] + Tail(s);
    SamePrefix(s[..|s| - |s| % 3], Ones(|s| % 3), Tail(s));
    OnesIff(Tail(s));
  }

  lemma OnesIff(s: Text)
    ensures Ones(|s|) == s <==> AllOnes(s)
  {
    if Ones(|s|) == s {
      forall i | 0 <= i < |s| ensures s[i] == 255 { assert Ones(|s|)[i] == 255; }
    }
  }

  lemma SamePrefix(p: Text, a: Text, b: Text)
    ensures p + a == p + b <==> a == b
  {
    assert (p + a)[|p|..] == a && (p + b)[|p|..] == b;
  }

  // ---------------------------------------------------------------------
  // The buffer of base64Decode: three quarters of the text's length, and a terminator
  // ---------------------------------------------------------------------

  // No byte is left out for padding.
  predicate Unpadded(s: Text) { forall i :: 0 <= i < |s| && i % 4 >= 2 ==> s[i] != PAD }

  function FullLength(n: nat): nat { 3 * (n / 4) + (if n % 4 == 0 then 0 else if n % 4 == 3 then 2 else 1) }

  lemma {:induction false} DecodeLength(s: Text)
    ensures |Decode(s)| <= FullLength(|s|) && (|Decode(s)| == FullLength(|s|) <==> Unpadded(s))
    decreases |s|
  {
    if 0 < |s| <= 4 {
      assert |s| > 2 ==> 2 % 4 >= 2 && 3 % 4 >= 2;
    } else if |s| > 4 {
      DecodeLength(s[4..]);
      UnpaddedSplit(s);
      assert FullLength(|s|) == 3 + FullLength(|s| - 4);
    }
  }

  lemma UnpaddedSplit(s: Text)
    requires |s| > 4
    ensures Unpadded(s) <==> s[2] != PAD && s[3] != PAD && Unpadded(s[4..])
  {
    if s[2] != PAD && s[3] != PAD && Unpadded(s[4..]) {
      forall i | 0 <= i < |s| && i % 4 >= 2 ensures s[i] != PAD {
        if i >= 4 { assert s[i] == s[4..][i - 4] && (i - 4) % 4 == i % 4; }
      }
    }
    if Unpadded(s) {
      forall i | 0 <= i < |s[4..]| && i % 4 >= 2 ensures s[4..][i] != PAD {
        assert s[4..][i] == s[i + 4] && (i + 4) % 4 == i % 4;
      }
    }
  }

  // What is decoded fits if and only if the last group has more than one character or
  // some byte is left out for padding.
  lemma DecodeFitsIff(s: Text)
    ensures |Stored(Decode(s))| <= 3 * |s| / 4 + 1 <==> |s| % 4 != 1 || !Unpadded(s)
  {
    DecodeLength(s);
  }
}
