/**
 UTF-8 in the lexer (src/Lexer.cpp): decoding at a position, the size by which a
 character advances, and the encoder for escapes in string literals. A source is a
 string of bytes; bit masks and shifts are written as arithmetic.
*/
module Utf8 {

  datatype Peeked = Char(ch: nat) | Bad

  function Code(c: char): nat { c as int }

  // Appends the low six bits of n continuation bytes.
  function Continue(src: string, i: nat, n: nat, acc: nat): Peeked
    requires i + n <= |src|
    decreases n
  {
    if n == 0 then Char(acc)
    else if 0x80 <= Code(src[i]) < 0xC0 then Continue(src, i + 1, n - 1, acc * 64 + (Code(src[i]) - 0x80))
    else Bad
  }

  // Bytes in the sequence a lead byte announces; 0 for a byte that cannot lead.
  function LeadLength(b: nat): nat {
    if b < 0x80 then 1
    else if 0xC0 <= b < 0xE0 then 2
    else if 0xE0 <= b < 0xF0 then 3
    else if 0xF0 <= b < 0xF8 then 4
    else 0
  }

  // At the end of the source the character is NUL.
  function Peek(src: string, i: nat): (r: Peeked)
    ensures r.Char? && r.ch != 0 ==> i < |src|
    ensures r.Char? && i < |src| ==> i + Size(r.ch) <= |src|
  {
    if i >= |src| then Char(0)
    else
      var b := Code(src[i]);
      var len := LeadLength(b);
      if len == 1 then Char(b)
      else if len == 0 || i + len > |src| then Bad
      else
        var lead := if len == 2 then b - 0xC0 else if len == 3 then b - 0xE0 else b - 0xF0;
        ContinueBound(src, i + 1, len - 1, lead);
        Continue(src, i + 1, len - 1, lead)
  }

  function Size(ch: nat): nat {
    if ch < 0x80 then 1 else if ch < 0x800 then 2 else if ch < 0x10000 then 3 else 4
  }

  lemma ContinueBound(src: string, i: nat, n: nat, acc: nat)
    requires i + n <= |src| && n <= 3
    ensures var r := Continue(src, i, n, acc);
            r.Char? ==>
              r.ch < (acc + 1) * (if n == 0 then 1 else if n == 1 then 64 else if n == 2 then 4096 else 262144)
  {
  }

  // The encoder for an escape's value, of up to eight hexadecimal digits.
  function Encode(v: nat): string {
    if v < 0x80 then [v as char]
    else if v < 0x800 then [(0xC0 + v / 64) as char, (0x80 + v % 64) as char]
    else if v < 0x10000 then [(0xE0 + v / 4096) as char, (0x80 + v / 64 % 64) as char, (0x80 + v % 64) as char]
    else [(0xF0 + v / 262144 % 16) as char, (0x80 + v / 4096 % 64) as char,
          (0x80 + v / 64 % 64) as char, (0x80 + v % 64) as char]
  }

  // ---------------------------------------------------------------------
  // Round trips
  // ---------------------------------------------------------------------

  lemma ThreeDigits(v: nat)
    ensures v == v / 64 * 64 + v % 64
    ensures v / 64 == v / 4096 * 64 + v / 64 % 64
    ensures v / 4096 == v / 262144 * 64 + v / 4096 % 64
  {
  }

  ghost predicate StandsAt(s: string, n: nat, v: nat) {
    n + |Encode(v)| <= |s| && forall k :: 0 <= k < |Encode(v)| ==> s[n + k] == Encode(v)[k]
  }

  lemma DecodesShort(s: string, n: nat, v: nat)
    requires StandsAt(s, n, v) && v < 0x10000
    ensures Peek(s, n) == Char(v)
  {
    ThreeDigits(v);
    assert s[n] == Encode(v)[0];
    if v >= 0x800 {
      assert s[n + 1] == Encode(v)[1] && s[n + 2] == Encode(v)[2];
      assert Peek(s, n) == Continue(s, n + 1, 2, v / 4096);
    } else if v >= 0x80 {
      assert s[n + 1] == Encode(v)[1];
      assert Peek(s, n) == Continue(s, n + 1, 1, v / 64);
    }
  }

  lemma DecodesLong(s: string, n: nat, v: nat)
    requires StandsAt(s, n, v) && v >= 0x10000
    ensures Peek(s, n) == Char(v) <==> v < 0x200000
  {
    ThreeDigits(v);
    assert s[n] == Encode(v)[0] && s[n + 1] == Encode(v)[1] && s[n + 2] == Encode(v)[2] && s[n + 3] == Encode(v)[3];
    if v / 262144 % 16 < 8 {
      assert Peek(s, n) == Continue(s, n + 1, 3, v / 262144 % 16);
    }
  }

  // The decoder takes the encoding of v, wherever it stands, back to v if and only if
  // v has at most 21 bits, as every code point does.
  lemma DecodesEncodingIff(before: string, v: nat, after: string)
    ensures Peek(before + Encode(v) + after, |before|) == Char(v) <==> v < 0x200000
    ensures v < 0x200000 ==> Size(v) == |Encode(v)|
  {
    var s := before + Encode(v) + after;
    assert StandsAt(s, |before|, v);
    if v < 0x10000 { DecodesShort(s, |before|, v); } else { DecodesLong(s, |before|, v); }
  }

  // Reading code points from i to the end, each step as far as advance_char goes.
  ghost predicate Reads(src: string, i: nat, cps: seq<nat>)
    decreases |cps|
  {
    if cps == [] then i == |src|
    else i < |src| && Peek(src, i) == Char(cps[0]) && Reads(src, i + Size(cps[0]), cps[1..])
  }

  function EncodeAll(cps: seq<nat>): string {
    if cps == [] then "" else Encode(cps[0]) + EncodeAll(cps[1..])
  }

  lemma {:induction false} ReadsEncoded(before: string, cps: seq<nat>)
    requires forall k :: 0 <= k < |cps| ==> cps[k] < 0x200000
    ensures Reads(before + EncodeAll(cps), |before|, cps)
    decreases |cps|
  {
    if cps != [] {
      DecodesEncodingIff(before, cps[0], EncodeAll(cps[1..]));
      assert before + Encode(cps[0]) + EncodeAll(cps[1..]) == before + EncodeAll(cps);
      ReadsEncoded(before + Encode(cps[0]), cps[1..]);
    }
  }

  lemma ReadsTwo(src: string, i: nat)
    requires i < |src| && LeadLength(Code(src[i])) == 2 && Peek(src, i).Char?
    ensures var v := Peek(src, i).ch;
            Size(v) <= 2 && i + 2 <= |src| && (Size(v) == 2 <==> src[i..i + 2] == Encode(v))
  {
    ThreeDigits(Peek(src, i).ch);
  }

  lemma ReadsThree(src: string, i: nat)
    requires i < |src| && LeadLength(Code(src[i])) == 3 && Peek(src, i).Char?
    ensures var v := Peek(src, i).ch;
            Size(v) <= 3 && i + 3 <= |src| && (Size(v) == 3 <==> src[i..i + 3] == Encode(v))
  {
    ThreeDigits(Peek(src, i).ch);
  }

  lemma FourDigits(a: nat, b: nat, c: nat, d: nat, v: nat)
    requires a < 8 && b < 64 && c < 64 && d < 64 && v == ((a * 64 + b) * 64 + c) * 64 + d
    ensures v < 0x200000 && v / 262144 % 16 == a && v / 4096 % 64 == b && v / 64 % 64 == c && v % 64 == d
  {
    ThreeDigits(v);
  }

  lemma ContinueThree(src: string, i: nat, acc: nat)
    requires i + 3 <= |src| && Continue(src, i, 3, acc).Char?
    ensures forall k :: i <= k < i + 3 ==> 0x80 <= Code(src[k]) < 0xC0
    ensures Continue(src, i, 3, acc).ch
            == ((acc * 64 + Code(src[i]) - 0x80) * 64 + Code(src[i + 1]) - 0x80) * 64 + Code(src[i + 2]) - 0x80
  {
  }

  lemma ReadsFour(src: string, i: nat)
    requires i < |src| && LeadLength(Code(src[i])) == 4 && Peek(src, i).Char?
    ensures var v := Peek(src, i).ch;
            Size(v) <= 4 && i + 4 <= |src| && (Size(v) == 4 <==> src[i..i + 4] == Encode(v))
  {
    var a, v := Code(src[i]) - 0xF0, Peek(src, i).ch;
    ContinueThree(src, i + 1, a);
    FourDigits(a, Code(src[i + 1]) - 0x80, Code(src[i + 2]) - 0x80, Code(src[i + 3]) - 0x80, v);
  }

  // A character read from the source advances by its whole sequence, and encodes back
  // to those bytes, if and only if the sequence is the shortest one for it. An overlong
  // sequence advances by less.
  lemma ReadsShortestIff(src: string, i: nat)
    requires i < |src| && Peek(src, i).Char?
    ensures var v := Peek(src, i).ch;
            var len := LeadLength(Code(src[i]));
            Size(v) <= len && i + len <= |src| && (Size(v) == len <==> src[i..i + len] == Encode(v))
  {
    var len := LeadLength(Code(src[i]));
    if len == 2 { ReadsTwo(src, i); }
    if len == 3 { ReadsThree(src, i); }
    if len == 4 { ReadsFour(src, i); }
  }
}
