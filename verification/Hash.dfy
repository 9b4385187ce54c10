/**
 The runtime's two hash functions: the splitmix64 finalizer on words
 (yona_Prelude__Hash_Int__hash and hamt_hash) and FNV-1a on NUL-terminated strings
 (yona_Prelude__Hash_String__hash), on 64-bit words that wrap.
*/
module Hash {

  // ---------------------------------------------------------------------
  // Words
  // ---------------------------------------------------------------------

  function Fold30(x: bv64): bv64 { x ^ (x >> 30) }
  function Fold27(x: bv64): bv64 { x ^ (x >> 27) }
  function Fold31(x: bv64): bv64 { x ^ (x >> 31) }

  function Scale1(x: bv64): bv64 { x * 0xbf58476d1ce4e5b9 }
  function Scale2(x: bv64): bv64 { x * 0x94d049bb133111eb }

  // The FNV prime.
  function Scale3(x: bv64): bv64 { x * 1099511628211 }

  function HashInt(x: bv64): bv64 { Fold31(Scale2(Fold27(Scale1(Fold30(x))))) }

  function Unfold30(y: bv64): bv64 { y ^ (y >> 30) ^ (y >> 60) }
  function Unfold27(y: bv64): bv64 { y ^ (y >> 27) ^ (y >> 54) }
  function Unfold31(y: bv64): bv64 { y ^ (y >> 31) ^ (y >> 62) }

  // Multiplication by the factors' inverses modulo 2^64.
  function Unscale1(y: bv64): bv64 { y * 0x96de1b173f119089 }
  function Unscale2(y: bv64): bv64 { y * 0x319642b2d24d8ec3 }

  function Unscale3(y: bv64): bv64 { y * 0xce965057aff6957b }

  function UnhashInt(y: bv64): bv64 { Unfold30(Unscale1(Unfold27(Unscale2(Unfold31(y))))) }

  lemma XorShiftInverts(x: bv64)
    ensures var y := x ^ (x >> 30); y ^ (y >> 30) ^ (y >> 60) == x
    ensures var y := x ^ (x >> 27); y ^ (y >> 27) ^ (y >> 54) == x
    ensures var y := x ^ (x >> 31); y ^ (y >> 31) ^ (y >> 62) == x
    ensures var y := x ^ (x >> 30) ^ (x >> 60); y ^ (y >> 30) == x
    ensures var y := x ^ (x >> 27) ^ (x >> 54); y ^ (y >> 27) == x
    ensures var y := x ^ (x >> 31) ^ (x >> 62); y ^ (y >> 31) == x
  {
  }

  lemma FoldInverts(x: bv64)
    ensures Unfold30(Fold30(x)) == x && Fold30(Unfold30(x)) == x
    ensures Unfold27(Fold27(x)) == x && Fold27(Unfold27(x)) == x
    ensures Unfold31(Fold31(x)) == x && Fold31(Unfold31(x)) == x
  {
    XorShiftInverts(x);
    assert Unfold30(x ^ (x >> 30)) == x;
    assert Fold30(x ^ (x >> 30) ^ (x >> 60)) == x;
    assert Unfold27(x ^ (x >> 27)) == x;
    assert Fold27(x ^ (x >> 27) ^ (x >> 54)) == x;
    assert Unfold31(x ^ (x >> 31)) == x;
    assert Fold31(x ^ (x >> 31) ^ (x >> 62)) == x;
  }

  lemma ProductInverts(x: bv64)
    ensures (x * 0xbf58476d1ce4e5b9) * 0x96de1b173f119089 == x
    ensures (x * 0x96de1b173f119089) * 0xbf58476d1ce4e5b9 == x
    ensures (x * 0x94d049bb133111eb) * 0x319642b2d24d8ec3 == x
    ensures (x * 0x319642b2d24d8ec3) * 0x94d049bb133111eb == x
    ensures (x * 1099511628211) * 0xce965057aff6957b == x
    ensures (x * 0xce965057aff6957b) * 1099511628211 == x
  {
  }

  lemma ScaleInverts(x: bv64)
    ensures Unscale1(Scale1(x)) == x && Scale1(Unscale1(x)) == x
    ensures Unscale2(Scale2(x)) == x && Scale2(Unscale2(x)) == x
    ensures Unscale3(Scale3(x)) == x && Scale3(Unscale3(x)) == x
  {
    ProductInverts(x);
    assert Unscale1(x * 0xbf58476d1ce4e5b9) == x;
    assert Scale1(x * 0x96de1b173f119089) == x;
    assert Unscale2(x * 0x94d049bb133111eb) == x;
    assert Scale2(x * 0x319642b2d24d8ec3) == x;
    assert Unscale3(x * 1099511628211) == x;
    assert Scale3(x * 0xce965057aff6957b) == x;
  }

  // HashInt is a bijection on 64-bit words: distinct keys never collide, and
  // every word is some key's hash.
  lemma HashIntBijective(x: bv64)
    ensures UnhashInt(HashInt(x)) == x && HashInt(UnhashInt(x)) == x
  {
    var a := Scale1(Fold30(x));
    var b := Scale2(Fold27(a));
    FoldInverts(x);
    FoldInverts(a);
    FoldInverts(b);
    ScaleInverts(Fold30(x));
    ScaleInverts(Fold27(a));
    var c := Unscale2(Unfold31(x));
    var d := Unscale1(Unfold27(c));
    FoldInverts(c);
    FoldInverts(d);
    ScaleInverts(Unfold31(x));
    ScaleInverts(Unfold27(c));
  }

  lemma HashIntInjective(x: bv64, y: bv64)
    requires HashInt(x) == HashInt(y)
    ensures x == y
  {
    HashIntBijective(x);
    HashIntBijective(y);
  }

  // ---------------------------------------------------------------------
  // Strings
  // ---------------------------------------------------------------------

  const OFFSET_BASIS: bv64 := 14695981039346656037

  function Blend(h: bv64, byte: bv8): bv64 { h ^ (byte as bv64) }

  function Step(h: bv64, byte: bv8): bv64 { Scale3(Blend(h, byte)) }

  function Unstep(h: bv64, byte: bv8): bv64 { Blend(Unscale3(h), byte) }

  function HashFrom(h: bv64, s: seq<bv8>): bv64
    decreases s
  {
    if s == [] then h else HashFrom(Step(h, s[0]), s[1..])
  }

  // The bytes before the terminator.
  function Text(buffer: seq<bv8>): seq<bv8> {
    if buffer == [] || buffer[0] == 0 then [] else [buffer[0]] + Text(buffer[1..])
  }

  method HashString(s: array<bv8>) returns (h: bv64)
    requires 0 in s[..]
    ensures h == HashFrom(OFFSET_BASIS, Text(s[..]))
  {
    h := OFFSET_BASIS;
    var i := 0;
    assert s[0..] == s[..];
    while s[i] != 0
      invariant i < s.Length && 0 in s[i..]
      invariant HashFrom(h, Text(s[i..])) == HashFrom(OFFSET_BASIS, Text(s[..]))
      decreases s.Length - i
    {
      assert s[i..][1..] == s[i + 1..] && s[i..][0] == s[i];
      assert Text(s[i..])[1..] == Text(s[i + 1..]);
      h := Step(h, s[i]);
      i := i + 1;
    }
  }

  lemma XorTwice(h: bv64, byte: bv8)
    ensures (h ^ (byte as bv64)) ^ (byte as bv64) == h
  {
  }

  lemma BlendInverts(h: bv64, byte: bv8)
    ensures Blend(Blend(h, byte), byte) == h
  {
    XorTwice(h, byte);
    assert Blend(h ^ (byte as bv64), byte) == h;
  }

  // For a fixed byte a step is a bijection of the state.
  lemma StepInverts(h: bv64, byte: bv8)
    ensures Unstep(Step(h, byte), byte) == h && Step(Unstep(h, byte), byte) == h
  {
    ScaleInverts(h);
    ScaleInverts(Blend(h, byte));
    BlendInverts(h, byte);
    BlendInverts(Unscale3(h), byte);
  }

  // For a fixed state a step is injective in the byte.
  lemma StepSeparates(h: bv64, b: bv8, c: bv8)
    requires Step(h, b) == Step(h, c)
    ensures b == c
  {
    ScaleInverts(Blend(h, b));
    ScaleInverts(Blend(h, c));
    assert h ^ (b as bv64) == h ^ (c as bv64);
  }

  // A whole string maps distinct states to distinct states.
  lemma {:induction false} HashFromSeparates(g: bv64, h: bv64, s: seq<bv8>)
    requires HashFrom(g, s) == HashFrom(h, s)
    ensures g == h
    decreases s
  {
    if s != [] {
      HashFromSeparates(Step(g, s[0]), Step(h, s[0]), s[1..]);
      StepInverts(g, s[0]);
      StepInverts(h, s[0]);
    }
  }

  // Strings of one length that differ in exactly one byte never collide.
  lemma {:induction false} OneByteChangesHash(h: bv64, s: seq<bv8>, t: seq<bv8>, k: nat)
    requires k < |s| == |t| && s[k] != t[k]
    requires forall i :: 0 <= i < |s| && i != k ==> s[i] == t[i]
    ensures HashFrom(h, s) != HashFrom(h, t)
    decreases s
  {
    if k == 0 {
      assert s[1..] == t[1..];
      if HashFrom(h, s) == HashFrom(h, t) {
        HashFromSeparates(Step(h, s[0]), Step(h, t[0]), s[1..]);
        StepSeparates(h, s[0], t[0]);
      }
    } else {
      OneByteChangesHash(Step(h, s[0]), s[1..], t[1..], k - 1);
    }
  }

  // ---------------------------------------------------------------------
  // Five-bit fragments: the slots a key takes in a hash array mapped trie
  // ---------------------------------------------------------------------

  const WIDTH := 32
  const LEVELS := 13

  type Slot = n: nat | n < WIDTH

  function Drop5(h: bv64): bv64 { h >> 5 }

  // h >> (5 * level).
  function Shifted(h: bv64, level: nat): bv64
    decreases level
  {
    if level == 0 then h else Drop5(Shifted(h, level - 1))
  }

  function LowBits(h: bv64): Slot { ((h & 31) as bv5) as int }

  function Fragment(key: bv64, level: nat): Slot { LowBits(Shifted(HashInt(key), level)) }

  lemma ShiftedOut(h: bv64)
    ensures Shifted(h, LEVELS) == 0
  {
  }

  lemma Bits5(a: bv5, b: bv5)
    requires a as int == b as int
    ensures a == b
  {
  }

  lemma SplitWord(a: bv64, b: bv64)
    requires a & 31 == b & 31 && a >> 5 == b >> 5
    ensures a == b
  {
  }

  lemma SameLowBits(a: bv64, b: bv64)
    requires LowBits(a) == LowBits(b)
    ensures a & 31 == b & 31
  {
    Bits5((a & 31) as bv5, (b & 31) as bv5);
  }

  lemma SameDrop(a: bv64, b: bv64)
    requires Drop5(a) == Drop5(b)
    ensures a >> 5 == b >> 5
  {
  }

  lemma OneLevel(a: bv64, b: bv64)
    requires LowBits(a) == LowBits(b) && Drop5(a) == Drop5(b)
    ensures a == b
  {
    SameLowBits(a, b);
    SameDrop(a, b);
    SplitWord(a, b);
  }

  lemma LevelBelow(g: bv64, h: bv64, n: nat)
    requires n > 0 && Shifted(g, n) == Shifted(h, n) && LowBits(Shifted(g, n - 1)) == LowBits(Shifted(h, n - 1))
    ensures Shifted(g, n - 1) == Shifted(h, n - 1)
  {
    OneLevel(Shifted(g, n - 1), Shifted(h, n - 1));
  }

  ghost predicate Agree(g: bv64, h: bv64, n: nat)
    decreases n
  {
    n == 0 || (LowBits(Shifted(g, n - 1)) == LowBits(Shifted(h, n - 1)) && Agree(g, h, n - 1))
  }

  lemma {:induction false} SameFragments(g: bv64, h: bv64, n: nat)
    requires Shifted(g, n) == Shifted(h, n) && Agree(g, h, n)
    ensures g == h
    decreases n
  {
    if n > 0 {
      LevelBelow(g, h, n);
      SameFragments(g, h, n - 1);
    }
  }

  lemma {:induction false} Disagree(j: bv64, k: bv64, n: nat)
    requires !Agree(HashInt(j), HashInt(k), n)
    ensures exists l: nat :: l < n && Fragment(j, l) != Fragment(k, l)
    decreases n
  {
    if Fragment(j, n - 1) == Fragment(k, n - 1) {
      Disagree(j, k, n - 1);
    }
  }

  // Thirteen levels tell any two keys apart.
  lemma FragmentsSeparate(j: bv64, k: bv64)
    requires j != k
    ensures exists l: nat :: l < LEVELS && Fragment(j, l) != Fragment(k, l)
  {
    if Agree(HashInt(j), HashInt(k), LEVELS) {
      ShiftedOut(HashInt(j));
      ShiftedOut(HashInt(k));
      SameFragments(HashInt(j), HashInt(k), LEVELS);
      HashIntInjective(j, k);
    } else {
      Disagree(j, k, LEVELS);
    }
  }
}
