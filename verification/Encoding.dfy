/**
 Std\Encoding (src/compiled_runtime.c): hexadecimal, URL and base64 text. A text is a
 C string, the bytes before the first NUL; a decoder fills a buffer, which may hold
 NUL bytes besides the last. Masks and shifts are written as arithmetic.
*/
module Encoding {
  import opened Sequences


  type Byte = n: nat | n < 256

  type Char = n: nat | 0 < n < 256 witness 1

  type Text = seq<Char>

  type Buffer = seq<Byte>

  // What strlen and every later reader see of a buffer.
  function Read(b: Buffer): Text {
    if b == [] || b[0] == 0 then [] else [b[0]] + Read(b[1..])
  }

  // A buffer with its terminator.
  function Stored(b: Buffer): Buffer { b + [0] }

  // A buffer is read as a whole exactly when no byte before its terminator is NUL.
  lemma {:induction false} ReadWholeIff(b: Buffer)
    ensures Read(Stored(b)) == Read(b)
    ensures Read(b) == b <==> forall k :: 0 <= k < |b| ==> b[k] != 0
    ensures |Read(b)| <= |b| && forall k :: 0 <= k < |Read(b)| ==> Read(b)[k] == b[k]
    ensures |Read(b)| < |b| ==> b[|Read(b)|] == 0
  {
    if b != [] {
      ReadWholeIff(b[1..]);
      assert Stored(b)[1..] == Stored(b[1..]);
      assert b == [b[0]] + b[1..];
      if forall k :: 0 <= k < |b| ==> b[k] != 0 {
        assert forall k :: 0 <= k < |b[1..]| ==> b[1..][k] == b[k + 1];
      }
    }
  }

  lemma ReadText(s: Text)
    ensures Read(s) == s && Read(Stored(s)) == s
  {
    ReadWholeIff(s);
  }

  function Ch(c: char): (n: nat) { c as int }

  const HEX_CHARS: string := "0123456789abcdef"

  function HexChar(n: nat): (c: Char)
    requires n < 16
  {
    if n < 10 then Ch('0') + n else Ch('a') + (n - 10)
  }

  // hex_chars, by position.
  lemma HexCharsIs(n: nat)
    requires n < 16
    ensures HexChar(n) == Ch(HEX_CHARS[n])
  {
  }

  function HexVal(c: Byte): (n: nat)
    ensures n < 16
  {
    if Ch('0') <= c <= Ch('9') then c - Ch('0')
    else if Ch('a') <= c <= Ch('f') then c - Ch('a') + 10
    else if Ch('A') <= c <= Ch('F') then c - Ch('A') + 10
    else 0
  }

  lemma Step<T>(s: seq<T>, i: nat, n: nat)
    requires i + n <= |s|
    ensures s[i..][n..] == s[i + n..] && |s[i..]| == |s| - i
    ensures forall k :: 0 <= k < n ==> s[i..][k] == s[i + k]
  {
  }

  // ---------------------------------------------------------------------
  // Hexadecimal
  // ---------------------------------------------------------------------

  function HexPair(b: Byte): Text { [HexChar(b / 16), HexChar(b % 16)] }

  function Hex(s: Text): Text {
    if s == [] then [] else HexPair(s[0]) + Hex(s[1..])
  }

  // A last byte without a partner is dropped.
  function Unhex(s: Text): Buffer {
    if |s| < 2 then [] else [HexVal(s[0]) * 16 + HexVal(s[1])] + Unhex(s[2..])
  }

  method HexEncode(s: Text) returns (r: Text)
    ensures r == Hex(s)
  {
    r := [];
    for i := 0 to |s|
      invariant r + Hex(s[i..]) == Hex(s)
    {
      Step(s, i, 1);
      Regroup(r, HexPair(s[i]), Hex(s[i + 1..]));
      var b: Byte := s[i];
      r := r + [HexChar(b / 16), HexChar(b % 16)];
    }
  }

  lemma NextPair(s: Text, i: nat, r: Buffer)
    requires 2 * i + 2 <= |s| && r + Unhex(s[2 * i..]) == Unhex(s)
    ensures r + [HexVal(s[2 * i]) * 16 + HexVal(s[2 * i + 1])] + Unhex(s[2 * (i + 1)..]) == Unhex(s)
  {
    Step(s, 2 * i, 2);
    Regroup(r, [HexVal(s[2 * i]) * 16 + HexVal(s[2 * i + 1])], Unhex(s[2 * i + 2..]));
  }

  method HexDecode(s: Text) returns (r: Buffer)
    ensures r == Stored(Unhex(s))
  {
    r := [];
    for i := 0 to |s| / 2
      invariant r + Unhex(s[2 * i..]) == Unhex(s)
    {
      NextPair(s, i, r);
      r := r + [HexVal(s[2 * i]) * 16 + HexVal(s[2 * i + 1])];
    }
    r := Stored(r);
  }

  lemma {:induction false} UnhexHex(s: Text)
    ensures Unhex(Hex(s)) == s && |Hex(s)| == 2 * |s|
  {
    if s != [] {
      UnhexHex(s[1..]);
      assert Hex(s)[2..] == Hex(s[1..]);
    }
  }

  lemma HexRoundTrip(s: Text)
    ensures Read(Stored(Unhex(Hex(s)))) == s && |Hex(s)| == 2 * |s|
  {
    UnhexHex(s);
    ReadText(s);
  }

  predicate LowerHex(c: Char) { Ch('0') <= c <= Ch('9') || Ch('a') <= c <= Ch('f') }

  // A pair of lower-case digits other than "00".
  predicate HexByte(c: Char, d: Char) {
    LowerHex(c) && LowerHex(d) && !(c == Ch('0') && d == Ch('0'))
  }

  lemma PairImage(c: Char, d: Char)
    ensures var v := HexVal(c) * 16 + HexVal(d);
            (v != 0 && HexPair(v) == [c, d]) <==> HexByte(c, d)
  {
    var v := HexVal(c) * 16 + HexVal(d);
    assert v / 16 == HexVal(c) && v % 16 == HexVal(d);
  }

  /**
   Encoding undoes decoding exactly on text of whole pairs of lower-case digits none of
   which is "00": there the decoded text ends.
  */
  lemma HexImageIff(t: Text)
    ensures Hex(Read(Stored(Unhex(t)))) == t <==> |t| % 2 == 0 && AllPairs(t)
  {
    ReadWholeIff(Unhex(t));
    HexReadIff(t);
  }

  lemma {:induction false} HexReadIff(t: Text)
    ensures Hex(Read(Unhex(t))) == t <==> |t| % 2 == 0 && AllPairs(t)
    decreases |t|
  {
    if |t| >= 2 {
      HexReadIff(t[2..]);
      PairImage(t[0], t[1]);
      PairsAfterFirst(t);
      FirstPair(t);
    }
  }

  lemma FirstPair(t: Text)
    requires |t| >= 2
    ensures Hex(Read(Unhex(t))) == t
            <==> HexVal(t[0]) * 16 + HexVal(t[1]) != 0 && HexPair(HexVal(t[0]) * 16 + HexVal(t[1])) == [t[0], t[1]]
                 && Hex(Read(Unhex(t[2..]))) == t[2..]
  {
    var v, rest := HexVal(t[0]) * 16 + HexVal(t[1]), Unhex(t[2..]);
    assert Unhex(t) == [v] + rest;
    if v != 0 {
      ReadFirst(v, rest);
      HexFirst(v, Read(rest));
      SplitPair(t, HexPair(v), Hex(Read(rest)));
    }
  }

  lemma ReadFirst(v: Char, rest: Buffer)
    ensures Read([v] + rest) == [v] + Read(rest)
  {
    assert ([v] + rest)[1..] == rest;
  }

  lemma HexFirst(v: Char, rest: Text)
    ensures Hex([v] + rest) == HexPair(v) + Hex(rest)
  {
    assert ([v] + rest)[1..] == rest;
  }

  lemma SplitPair(t: Text, pair: Text, tail: Text)
    requires |t| >= 2 && |pair| == 2
    ensures pair + tail == t <==> pair == [t[0], t[1]] && tail == t[2..]
  {
    if pair + tail == t { assert tail == (pair + tail)[2..]; }
    if pair == [t[0], t[1]] && tail == t[2..] { assert pair + tail == t; }
  }

  ghost predicate AllPairs(t: Text) {
    forall k {:trigger t[2 * k]} :: 0 <= 2 * k < |t| - 1 ==> HexByte(t[2 * k], t[2 * k + 1])
  }

  lemma PairsAfterFirst(t: Text)
    requires |t| >= 2
    ensures AllPairs(t) <==> HexByte(t[0], t[1]) && AllPairs(t[2..])
  {
    var rest := t[2..];
    if AllPairs(t) {
      assert HexByte(t[2 * 0], t[1]);
      forall k {:trigger rest[2 * k]} | 0 <= 2 * k < |rest| - 1 ensures HexByte(rest[2 * k], rest[2 * k + 1]) {
        assert HexByte(t[2 * (k + 1)], t[2 * (k + 1) + 1]);
      }
    }
    if HexByte(t[0], t[1]) && AllPairs(rest) {
      forall k {:trigger t[2 * k]} | 0 <= 2 * k < |t| - 1 ensures HexByte(t[2 * k], t[2 * k + 1]) {
        if k > 0 { assert HexByte(rest[2 * (k - 1)], rest[2 * (k - 1) + 1]); }
      }
    }
  }

  // ---------------------------------------------------------------------
  // URL
  // ---------------------------------------------------------------------

  predicate Unreserved(c: Char) {
    || Ch('a') <= c <= Ch('z') || Ch('A') <= c <= Ch('Z') || Ch('0') <= c <= Ch('9')
    || c == Ch('-') || c == Ch('_') || c == Ch('.') || c == Ch('~')
  }

  function UrlByte(c: Char): Text {
    if Unreserved(c) then [c] else [Ch('%')] + HexPair(c)
  }

  function Url(s: Text): Text {
    if s == [] then [] else UrlByte(s[0]) + Url(s[1..])
  }

  function Unurl(s: Text): Buffer {
    if s == [] then []
    else if s[0] == Ch('%') && 2 < |s| then [HexVal(s[1]) * 16 + HexVal(s[2])] + Unurl(s[3..])
    else if s[0] == Ch('+') then [Ch(' ')] + Unurl(s[1..])
    else [s[0]] + Unurl(s[1..])
  }

  method UrlEncode(s: Text) returns (r: Text)
    ensures r == Url(s)
  {
    r := [];
    for i := 0 to |s|
      invariant r + Url(s[i..]) == Url(s)
    {
      Step(s, i, 1);
      Regroup(r, UrlByte(s[i]), Url(s[i + 1..]));
      if Unreserved(s[i]) {
        r := r + [s[i]];
      } else {
        var b: Byte := s[i];
        r := r + ([Ch('%')] + [HexChar(b / 16), HexChar(b % 16)]);
      }
    }
  }

  method UrlDecode(s: Text) returns (r: Buffer)
    ensures r == Stored(Unurl(s))
  {
    r := [];
    var i := 0;
    while i < |s|
      invariant i <= |s| && r + Unurl(s[i..]) == Unurl(s)
    {
      ghost var before := r;
      if s[i] == Ch('%') && i + 2 < |s| {
        Step(s, i, 3);
        Regroup(r, [HexVal(s[i + 1]) * 16 + HexVal(s[i + 2])], Unurl(s[i + 3..]));
        r := r + [HexVal(s[i + 1]) * 16 + HexVal(s[i + 2])];
        i := i + 3;
      } else {
        Step(s, i, 1);
        var c: Byte := if s[i] == Ch('+') then Ch(' ') else s[i];
        Regroup(r, [c], Unurl(s[i + 1..]));
        r := r + [c];
        i := i + 1;
      }
    }
    r := Stored(r);
  }

  lemma {:induction false} UnurlUrl(s: Text)
    ensures Unurl(Url(s)) == s
  {
    if s != [] {
      UnurlUrl(s[1..]);
      if Unreserved(s[0]) {
        assert Url(s)[1..] == Url(s[1..]);
      } else {
        assert Url(s)[3..] == Url(s[1..]);
      }
    }
  }

  lemma UrlRoundTrip(s: Text)
    ensures Read(Stored(Unurl(Url(s)))) == s
  {
    UnurlUrl(s);
    ReadText(s);
  }

  // The escape at the front of t stands for a NUL byte.
  predicate NulEscape(t: Text) { |t| > 2 && t[0] == Ch('%') && HexVal(t[1]) == 0 == HexVal(t[2]) }

  // What is left of t after k of its characters and escapes.
  function UrlRest(t: Text, k: nat): Text
    decreases k
  {
    if k == 0 || t == [] then t else UrlRest(if t[0] == Ch('%') && 2 < |t| then t[3..] else t[1..], k - 1)
  }

  // Decoding yields one byte for each of them.
  lemma {:induction false} UnurlAt(t: Text, k: nat)
    ensures k < |Unurl(t)| <==> UrlRest(t, k) != []
    ensures k < |Unurl(t)| ==> (Unurl(t)[k] == 0 <==> NulEscape(UrlRest(t, k)))
    decreases k
  {
    if k > 0 && t != [] { UnurlAt(if t[0] == Ch('%') && 2 < |t| then t[3..] else t[1..], k - 1); }
  }

  // The decoded text is all that was decoded exactly when no escape stands for NUL.
  lemma UrlWholeIff(t: Text)
    ensures Read(Stored(Unurl(t))) == Unurl(t) <==> forall k: nat :: !NulEscape(UrlRest(t, k))
  {
    var d := Unurl(t);
    ReadWholeIff(d);
    var end := |Read(d)|;
    if end < |d| {
      UnurlAt(t, end);
      assert NulEscape(UrlRest(t, end));
    }
    forall k: nat ensures NulEscape(UrlRest(t, k)) <==> k < |Unurl(t)| && Unurl(t)[k] == 0 { UnurlAt(t, k); }
  }

  // Encoded text is made of unreserved characters and percent triplets only.
  lemma {:induction false} UrlIsSafe(s: Text, k: nat)
    requires k < |Url(s)|
    ensures Unreserved(Url(s)[k]) || Url(s)[k] == Ch('%')
  {
    if k < |UrlByte(s[0])| {
      assert Url(s)[k] == UrlByte(s[0])[k];
    } else {
      UrlIsSafe(s[1..], k - |UrlByte(s[0])|);
    }
  }
}
