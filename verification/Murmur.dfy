/**
 MurmurHash3 for 32-bit machines: the hash of a key and a seed, on 32-bit words
 and little-endian blocks; that every step can be undone; and what this says about
 collisions.

 Each rotation, multiplication and shift-and-xor is paired with the operation that
 undoes it; a round, the tail and the final mixing are undone by undoing their parts
 in the opposite order.
 */
module Murmur {

  function Rotl(x: bv32, r: bv6): bv32
    requires 0 < r < 32
  {
    (x << r) | (x >> (32 - r))
  }

  function Rotr(x: bv32, r: bv6): bv32
    requires 0 < r < 32
  {
    (x >> r) | (x << (32 - r))
  }

  // ---------- the steps ----------

  function Xor(x: bv32, y: bv32): bv32 { x ^ y }

  function TimesC1(x: bv32): bv32 { x * 0xcc9e2d51 }
  function TimesC2(x: bv32): bv32 { x * 0x1b873593 }
  function TimesF1(x: bv32): bv32 { x * 0x85ebca6b }
  function TimesF2(x: bv32): bv32 { x * 0xc2b2ae35 }

  /** The end of a round. */
  function Scale(x: bv32): bv32 { x * 5 + 0xe6546b64 }

  function Fold16(x: bv32): bv32 { x ^ (x >> 16) }
  function Fold13(x: bv32): bv32 { x ^ (x >> 13) }

  /** What happens to a block before it meets the hash. */
  function Mix(k: bv32): bv32 { TimesC2(Rotl(TimesC1(k), 15)) }

  function Round(h: bv32, k: bv32): bv32 { Scale(Rotl(Xor(h, Mix(k)), 13)) }

  function Fmix(h: bv32): bv32 { Fold16(TimesF2(Fold13(TimesF1(Fold16(h))))) }

  // ---------- and back ----------

  function OverC1(x: bv32): bv32 { x * 0xdee13bb1 }
  function OverC2(x: bv32): bv32 { x * 0x56ed309b }
  function OverF1(x: bv32): bv32 { x * 0xa5cb9243 }
  function OverF2(x: bv32): bv32 { x * 0x7ed1b41d }
  function Unscale(x: bv32): bv32 { (x - 0xe6546b64) * 0xcccccccd }
  function Unfold13(x: bv32): bv32 { x ^ (x >> 13) ^ (x >> 26) }

  function Unmix(m: bv32): bv32 { OverC1(Rotr(OverC2(m), 15)) }

  function UnroundHash(r: bv32, k: bv32): bv32 { Xor(Rotr(Unscale(r), 13), Mix(k)) }

  function UnroundBlock(r: bv32, h: bv32): bv32 { Unmix(Xor(Rotr(Unscale(r), 13), h)) }

  function Unfmix(h: bv32): bv32 { Refold16(OverF1(Unfold13(OverF2(Refold16(h))))) }

  lemma RotateBack15(x: bv32)
    ensures Rotr(Rotl(x, 15), 15) == x && Rotl(Rotr(x, 15), 15) == x
  {
  }

  lemma RotateBack13(x: bv32)
    ensures Rotr(Rotl(x, 13), 13) == x && Rotl(Rotr(x, 13), 13) == x
  {
  }

  // The multipliers are odd, so each has an inverse modulo 2^32; the foldings are undone bit by bit.

  lemma C1Forth(x: bv32)
    ensures OverC1(x * 0xcc9e2d51) == x
  {
  }

  lemma C1Back(x: bv32)
    ensures TimesC1(x * 0xdee13bb1) == x
  {
  }

  lemma C1Undone(x: bv32)
    ensures OverC1(TimesC1(x)) == x
  {
    hide OverC1;
    C1Forth(x);
  }

  lemma C1Redone(x: bv32)
    ensures TimesC1(OverC1(x)) == x
  {
    hide TimesC1;
    C1Back(x);
  }

  lemma BackC1(x: bv32)
    ensures OverC1(TimesC1(x)) == x && TimesC1(OverC1(x)) == x
  {
    hide TimesC1, OverC1;
    C1Undone(x);
    C1Redone(x);
  }

  lemma C2Forth(x: bv32)
    ensures OverC2(x * 0x1b873593) == x
  {
  }

  lemma C2Back(x: bv32)
    ensures TimesC2(x * 0x56ed309b) == x
  {
  }

  lemma C2Undone(x: bv32)
    ensures OverC2(TimesC2(x)) == x
  {
    hide OverC2;
    C2Forth(x);
  }

  lemma C2Redone(x: bv32)
    ensures TimesC2(OverC2(x)) == x
  {
    hide TimesC2;
    C2Back(x);
  }

  lemma BackC2(x: bv32)
    ensures OverC2(TimesC2(x)) == x && TimesC2(OverC2(x)) == x
  {
    hide TimesC2, OverC2;
    C2Undone(x);
    C2Redone(x);
  }

  lemma F1Forth(x: bv32)
    ensures OverF1(x * 0x85ebca6b) == x
  {
  }

  lemma F1Back(x: bv32)
    ensures TimesF1(x * 0xa5cb9243) == x
  {
  }

  lemma F1Undone(x: bv32)
    ensures OverF1(TimesF1(x)) == x
  {
    hide OverF1;
    F1Forth(x);
  }

  lemma F1Redone(x: bv32)
    ensures TimesF1(OverF1(x)) == x
  {
    hide TimesF1;
    F1Back(x);
  }

  lemma BackF1(x: bv32)
    ensures OverF1(TimesF1(x)) == x && TimesF1(OverF1(x)) == x
  {
    hide TimesF1, OverF1;
    F1Undone(x);
    F1Redone(x);
  }

  lemma F2Forth(x: bv32)
    ensures OverF2(x * 0xc2b2ae35) == x
  {
  }

  lemma F2Back(x: bv32)
    ensures TimesF2(x * 0x7ed1b41d) == x
  {
  }

  lemma F2Undone(x: bv32)
    ensures OverF2(TimesF2(x)) == x
  {
    hide OverF2;
    F2Forth(x);
  }

  lemma F2Redone(x: bv32)
    ensures TimesF2(OverF2(x)) == x
  {
    hide TimesF2;
    F2Back(x);
  }

  lemma BackF2(x: bv32)
    ensures OverF2(TimesF2(x)) == x && TimesF2(OverF2(x)) == x
  {
    hide TimesF2, OverF2;
    F2Undone(x);
    F2Redone(x);
  }

  lemma ScaleForth(x: bv32)
    ensures Unscale(x * 5 + 0xe6546b64) == x
  {
  }

  lemma ScaleBack(x: bv32)
    ensures Scale((x - 0xe6546b64) * 0xcccccccd) == x
  {
  }

  lemma ScaleUndone(x: bv32)
    ensures Unscale(Scale(x)) == x
  {
    hide Unscale;
    ScaleForth(x);
  }

  lemma ScaleRedone(x: bv32)
    ensures Scale(Unscale(x)) == x
  {
    hide Scale;
    ScaleBack(x);
  }

  lemma BackScale(x: bv32)
    ensures Unscale(Scale(x)) == x && Scale(Unscale(x)) == x
  {
    hide Scale, Unscale;
    ScaleUndone(x);
    ScaleRedone(x);
  }

  lemma Fold13Forth(x: bv32)
    ensures Unfold13(x ^ (x >> 13)) == x
  {
  }

  lemma Fold13Back(x: bv32)
    ensures Fold13(x ^ (x >> 13) ^ (x >> 26)) == x
  {
  }

  lemma Fold13Undone(x: bv32)
    ensures Unfold13(Fold13(x)) == x
  {
    hide Unfold13;
    Fold13Forth(x);
  }

  lemma Fold13Redone(x: bv32)
    ensures Fold13(Unfold13(x)) == x
  {
    hide Fold13;
    Fold13Back(x);
  }

  lemma BackFold13(x: bv32)
    ensures Unfold13(Fold13(x)) == x && Fold13(Unfold13(x)) == x
  {
    hide Fold13, Unfold13;
    Fold13Undone(x);
    Fold13Redone(x);
  }

  /** Folding by half the width is its own inverse; `Refold16` is the second folding. */
  function Refold16(x: bv32): bv32 { x ^ (x >> 16) }

  lemma Fold16Forth(x: bv32)
    ensures Refold16(x ^ (x >> 16)) == x
  {
  }

  lemma BackFold16(x: bv32)
    ensures Refold16(Fold16(x)) == x
  {
    hide Refold16;
    Fold16Forth(x);
  }

  lemma Fold16Back(x: bv32)
    ensures Fold16(x ^ (x >> 16)) == x
  {
  }

  lemma AgainFold16(x: bv32)
    ensures Fold16(Refold16(x)) == x
  {
    hide Fold16;
    Fold16Back(x);
  }

  lemma XorTwice(h: bv32, m: bv32)
    ensures Xor(Xor(h, m), m) == h && Xor(Xor(h, m), h) == m
  {
  }

  lemma Unmixed(k: bv32)
    ensures Unmix(Mix(k)) == k
  {
    hide Rotl, Rotr, TimesC1, TimesC2, OverC1, OverC2;
    BackC2(Rotl(TimesC1(k), 15));
    RotateBack15(TimesC1(k));
    BackC1(k);
  }

  /** A round can be undone both ways: knowing the block, and knowing the hash before. */
  lemma Unrounded(h: bv32, k: bv32)
    ensures UnroundHash(Round(h, k), k) == h
    ensures UnroundBlock(Round(h, k), h) == k
  {
    hide Rotl, Rotr, Mix, Unmix, Scale, Unscale, Xor;
    BackScale(Rotl(Xor(h, Mix(k)), 13));
    RotateBack13(Xor(h, Mix(k)));
    XorTwice(h, Mix(k));
    Unmixed(k);
  }

  lemma Rerounded(r: bv32, k: bv32)
    ensures Round(UnroundHash(r, k), k) == r
  {
    hide Rotl, Rotr, Mix, Unmix, Scale, Unscale, Xor;
    XorTwice(Rotr(Unscale(r), 13), Mix(k));
    RotateBack13(Unscale(r));
    BackScale(r);
  }

  /** The finalization is a bijection. */
  lemma Unfmixed(h: bv32)
    ensures Unfmix(Fmix(h)) == h && Fmix(Unfmix(h)) == h
  {
    hide Fold16, Refold16, Fold13, Unfold13, TimesF1, TimesF2, OverF1, OverF2;
    var a := Fold16(h);
    var c := Fold13(TimesF1(a));
    BackFold16(TimesF2(c));
    BackF2(c);
    BackFold13(TimesF1(a));
    BackF1(a);
    BackFold16(h);
    var d := OverF2(Refold16(h));
    var b := OverF1(Unfold13(d));
    AgainFold16(b);
    BackF1(Unfold13(d));
    BackFold13(d);
    BackF2(Refold16(h));
    AgainFold16(h);
  }

  // ---------- the whole hash ----------

  /** Four bytes as a little-endian word. */
  function Word(a: bv8, b: bv8, c: bv8, d: bv8): bv32 {
    (a as bv32) | ((b as bv32) << 8) | ((c as bv32) << 16) | ((d as bv32) << 24)
  }

  function Block(key: seq<bv8>, i: nat): bv32
    requires 4 * i + 4 <= |key|
  {
    Word(key[4 * i], key[4 * i + 1], key[4 * i + 2], key[4 * i + 3])
  }

  /** The hash after the first n blocks. */
  function Body(key: seq<bv8>, n: nat, seed: bv32): bv32
    requires 4 * n <= |key|
  {
    if n == 0 then seed else Round(Body(key, n - 1, seed), Block(key, n - 1))
  }

  /** The bytes behind the last block, as a word. */
  function Tail(key: seq<bv8>): bv32 {
    var t := key[|key| / 4 * 4..];
    Word(Byte(t, 0), Byte(t, 1), Byte(t, 2), 0)
  }

  function Byte(t: seq<bv8>, i: nat): bv8 { if i < |t| then t[i] else 0 }

  /** MurmurHash3_x86_32. */
  function Hash(key: seq<bv8>, seed: bv32): bv32
    requires |key| < 0x8000_0000
  {
    var h := Body(key, |key| / 4, seed);
    Fmix(Xor(if |key| % 4 == 0 then h else Xor(h, Mix(Tail(key))), |key| as bv32))
  }

  lemma {:induction false} BodyBack(key: seq<bv8>, n: nat, seed: bv32)
    requires 4 * n <= |key|
    ensures UnBody(key, n, Body(key, n, seed)) == seed && Body(key, n, UnBody(key, n, seed)) == seed
  {
    hide Round, UnroundHash, Word;
    if n > 0 {
      Unrounded(Body(key, n - 1, seed), Block(key, n - 1));
      Rerounded(seed, Block(key, n - 1));
      BodyBack(key, n - 1, seed);
      BodyBack(key, n - 1, UnroundHash(seed, Block(key, n - 1)));
    }
  }

  /** The seed that leads to a given hash before the tail. */
  function UnBody(key: seq<bv8>, n: nat, h: bv32): bv32
    requires 4 * n <= |key|
  {
    if n == 0 then h else UnBody(key, n - 1, UnroundHash(h, Block(key, n - 1)))
  }

  /** The seed that gives the key this hash. */
  function SeedFor(key: seq<bv8>, hash: bv32): bv32
    requires |key| < 0x8000_0000
  {
    var h := Xor(Unfmix(hash), |key| as bv32);
    UnBody(key, |key| / 4, if |key| % 4 == 0 then h else Xor(h, Mix(Tail(key))))
  }

  /** For every key the hash is a bijection of the seed: seeds and hashes determine each other. */
  lemma SeedBijection(key: seq<bv8>, seed: bv32, hash: bv32)
    requires |key| < 0x8000_0000
    ensures SeedFor(key, Hash(key, seed)) == seed
    ensures Hash(key, SeedFor(key, hash)) == hash
  {
    hide Fmix, Unfmix, Mix, Body, UnBody, Tail, Xor;
    var n, len, m := |key| / 4, |key| as bv32, Mix(Tail(key));
    var h := Body(key, n, seed);
    var g := if |key| % 4 == 0 then h else Xor(h, m);
    Unfmixed(Xor(g, len));
    XorTwice(g, len);
    XorTwice(h, m);
    BodyBack(key, n, seed);
    var x := Xor(Unfmix(hash), len);
    var y := if |key| % 4 == 0 then x else Xor(x, m);
    BodyBack(key, n, y);
    XorTwice(x, m);
    XorTwice(Unfmix(hash), len);
    Unfmixed(hash);
  }

  lemma WordBytes(a: bv8, b: bv8, c: bv8, d: bv8, a': bv8, b': bv8, c': bv8, d': bv8)
    requires Word(a, b, c, d) == Word(a', b', c', d')
    ensures a == a' && b == b' && c == c' && d == d'
  {
  }

  /** Equal blocks before and behind: the hash remembers one differing block. */
  lemma {:induction false} BodyDiffers(a: seq<bv8>, b: seq<bv8>, i: nat, n: nat, seed: bv32)
    requires |a| == |b| && 4 * n <= |a| && i < n
    requires forall j: nat | j < n && j != i :: Block(a, j) == Block(b, j)
    requires Block(a, i) != Block(b, i)
    ensures Body(a, n, seed) != Body(b, n, seed)
  {
    hide Round, UnroundHash, UnroundBlock, Block;
    if n - 1 == i {
      BodySame(a, b, i, seed);
      Unrounded(Body(a, i, seed), Block(a, i));
      Unrounded(Body(b, i, seed), Block(b, i));
    } else {
      BodyDiffers(a, b, i, n - 1, seed);
      Unrounded(Body(a, n - 1, seed), Block(a, n - 1));
      Unrounded(Body(b, n - 1, seed), Block(b, n - 1));
    }
  }

  lemma {:induction false} BodySame(a: seq<bv8>, b: seq<bv8>, n: nat, seed: bv32)
    requires |a| == |b| && 4 * n <= |a|
    requires forall j: nat | j < n :: Block(a, j) == Block(b, j)
    ensures Body(a, n, seed) == Body(b, n, seed)
  {
    hide Round, Block;
    if n > 0 { BodySame(a, b, n - 1, seed); }
  }

  /** The finalization keeps different hashes different. */
  lemma FinishDiffers(g: bv32, h: bv32, len: bv32)
    requires g != h
    ensures Fmix(Xor(g, len)) != Fmix(Xor(h, len))
  {
    hide Fmix, Unfmix, Xor;
    Unfmixed(Xor(g, len));
    Unfmixed(Xor(h, len));
    XorTwice(g, len);
    XorTwice(h, len);
  }

  lemma BlockBytes(a: seq<bv8>, b: seq<bv8>, i: nat)
    requires |a| == |b| && 4 * i + 4 <= |a| && Block(a, i) == Block(b, i)
    ensures forall j | 4 * i <= j < 4 * i + 4 :: a[j] == b[j]
  {
    hide Word;
    WordBytes(a[4 * i], a[4 * i + 1], a[4 * i + 2], a[4 * i + 3], b[4 * i], b[4 * i + 1], b[4 * i + 2], b[4 * i + 3]);
    forall j | 4 * i <= j < 4 * i + 4 ensures a[j] == b[j] {
      assert j == 4 * i || j == 4 * i + 1 || j == 4 * i + 2 || j == 4 * i + 3;
    }
  }

  lemma DifferAt(a: seq<bv8>, b: seq<bv8>) returns (k: nat)
    requires |a| == |b| && a != b
    ensures k < |a| && a[k] != b[k]
  {
    k :| k < |a| && a[k] != b[k];
  }

  /** Two keys that differ only inside block i differ in the block's word. */
  lemma OneBlockDiffers(a: seq<bv8>, b: seq<bv8>, i: nat)
    requires |a| == |b| && 4 * i + 4 <= |a| && a != b
    requires forall j | 0 <= j < |a| && !(4 * i <= j < 4 * i + 4) :: a[j] == b[j]
    ensures Block(a, i) != Block(b, i)
  {
    hide Block;
    var k := DifferAt(a, b);
    if Block(a, i) == Block(b, i) { BlockBytes(a, b, i); }
  }

  lemma OtherBlocksSame(a: seq<bv8>, b: seq<bv8>, i: nat, j: nat)
    requires |a| == |b| && 4 * i + 4 <= |a| && 4 * j + 4 <= |a| && i != j
    requires forall k | 0 <= k < |a| && !(4 * i <= k < 4 * i + 4) :: a[k] == b[k]
    ensures Block(a, j) == Block(b, j)
  {
    hide Word;
  }

  lemma TailSame(a: seq<bv8>, b: seq<bv8>, i: nat)
    requires |a| == |b| && 4 * i + 4 <= |a|
    requires forall k | 0 <= k < |a| && !(4 * i <= k < 4 * i + 4) :: a[k] == b[k]
    ensures Tail(a) == Tail(b)
  {
    hide Word;
    assert a[|a| / 4 * 4..] == b[|b| / 4 * 4..];
  }

  lemma BodiesDiffer(a: seq<bv8>, b: seq<bv8>, i: nat, n: nat, seed: bv32)
    requires |a| == |b| && 4 * n <= |a| && i < n && a != b
    requires forall j | 0 <= j < |a| && !(4 * i <= j < 4 * i + 4) :: a[j] == b[j]
    ensures Body(a, n, seed) != Body(b, n, seed)
  {
    hide Body, Block;
    OneBlockDiffers(a, b, i);
    forall j: nat | j < n && j != i ensures Block(a, j) == Block(b, j) {
      OtherBlocksSame(a, b, i, j);
    }
    BodyDiffers(a, b, i, n, seed);
  }

  /** Different hashes before the same tail give different hashes. */
  lemma EndDiffers(g: bv32, h: bv32, m: bv32, tail: bool, len: bv32)
    requires g != h
    ensures Fmix(Xor(if tail then Xor(g, m) else g, len)) != Fmix(Xor(if tail then Xor(h, m) else h, len))
  {
    hide Fmix, Xor;
    XorTwice(g, m);
    XorTwice(h, m);
    FinishDiffers(if tail then Xor(g, m) else g, if tail then Xor(h, m) else h, len);
  }

  /** Keys of equal length that differ only inside one aligned block never collide. */
  lemma OneBlockNeverCollides(a: seq<bv8>, b: seq<bv8>, i: nat, seed: bv32)
    requires |a| == |b| < 0x8000_0000 && 4 * i + 4 <= |a| && a != b
    requires forall j | 0 <= j < |a| && !(4 * i <= j < 4 * i + 4) :: a[j] == b[j]
    ensures Hash(a, seed) != Hash(b, seed)
  {
    hide Fmix, Mix, Body, Xor, Block, Tail;
    var n := |a| / 4;
    BodiesDiffer(a, b, i, n, seed);
    TailSame(a, b, i);
    EndDiffers(Body(a, n, seed), Body(b, n, seed), Mix(Tail(a)), |a| % 4 != 0, |a| as bv32);
  }

  /** Keys of equal length that differ only in the tail never collide. */
  lemma TailNeverCollides(a: seq<bv8>, b: seq<bv8>, seed: bv32)
    requires |a| == |b| < 0x8000_0000 && a != b
    requires a[..|a| / 4 * 4] == b[..|b| / 4 * 4]
    ensures Hash(a, seed) != Hash(b, seed)
  {
    hide Fmix, Mix, Unmix, Body, Word, Xor, Tail;
    var n := |a| / 4;
    var h := Body(a, n, seed);
    BlocksBefore(a, b, n);
    BodySame(a, b, n, seed);
    TailsDiffer(a, b);
    Unmixed(Tail(a));
    Unmixed(Tail(b));
    XorTwice(h, Mix(Tail(a)));
    XorTwice(h, Mix(Tail(b)));
    FinishDiffers(Xor(h, Mix(Tail(a))), Xor(h, Mix(Tail(b))), |a| as bv32);
  }

  lemma BlocksBefore(a: seq<bv8>, b: seq<bv8>, n: nat)
    requires |a| == |b| && 4 * n <= |a| && a[..n * 4] == b[..n * 4]
    ensures forall j: nat | j < n :: Block(a, j) == Block(b, j)
  {
    hide Word;
    assert forall k | 0 <= k < n * 4 :: a[..n * 4][k] == a[k] && b[..n * 4][k] == b[k];
  }

  lemma TailsDiffer(a: seq<bv8>, b: seq<bv8>)
    requires |a| == |b| && a != b && a[..|a| / 4 * 4] == b[..|b| / 4 * 4]
    ensures |a| % 4 != 0 && Tail(a) != Tail(b)
  {
    hide Word;
    var n := |a| / 4 * 4;
    var s, t := a[n..], b[n..];
    assert a == a[..n] + s && b == b[..n] + t;
    if Tail(a) == Tail(b) {
      WordBytes(Byte(s, 0), Byte(s, 1), Byte(s, 2), 0, Byte(t, 0), Byte(t, 1), Byte(t, 2), 0);
    }
  }

  // ---------- as it is computed ----------

  /** The loop over the blocks, the fall-through switch over the tail, and the finalization. */
  method Compute(key: seq<bv8>, seed: bv32) returns (hash: bv32)
    requires |key| < 0x8000_0000
    ensures hash == Hash(key, seed)
  {
    hide Round, Fmix, Mix, Word, Xor;
    var nblocks := |key| / 4;
    var h := seed;
    var i := -nblocks;
    while i != 0
      invariant -nblocks <= i <= 0 && h == Body(key, nblocks + i, seed)
    {
      var at := 4 * (nblocks + i);
      h := Scramble(h, Word(key[at], key[at + 1], key[at + 2], key[at + 3]));
      i := i + 1;
    }
    if |key| % 4 != 0 {
      var k := ReadTail(key[nblocks * 4..]);
      h := MixIn(h, k);
    }
    h := Xor(h, |key| as bv32);
    hash := Finish(h);
  }

  method MixIn(h0: bv32, k0: bv32) returns (h: bv32)
    ensures h == Xor(h0, Mix(k0))
  {
    hide Rotl, TimesC1, TimesC2, Xor;
    var k := k0;
    k := TimesC1(k);
    k := Rotl(k, 15);
    k := TimesC2(k);
    h := Xor(h0, k);
  }

  method Scramble(h0: bv32, k: bv32) returns (h: bv32)
    ensures h == Round(h0, k)
  {
    hide Rotl, Mix, Scale, Xor;
    h := MixIn(h0, k);
    h := Rotl(h, 13);
    h := Scale(h);
  }

  lemma TailWord(b0: bv8, b1: bv8, b2: bv8)
    ensures ((b2 as bv32) << 16) ^ ((b1 as bv32) << 8) ^ (b0 as bv32) == Word(b0, b1, b2, 0)
  {
  }

  method ReadTail(t: seq<bv8>) returns (k: bv32)
    requires 0 < |t| < 4
    ensures k == Word(Byte(t, 0), Byte(t, 1), Byte(t, 2), 0)
  {
    hide Word;
    k := 0;
    if |t| == 3 {
      k := k ^ ((t[2] as bv32) << 16);
    }
    if |t| >= 2 {
      k := k ^ ((t[1] as bv32) << 8);
    }
    k := k ^ (t[0] as bv32);
    TailWord(Byte(t, 0), Byte(t, 1), Byte(t, 2));
  }

  method Finish(h0: bv32) returns (h: bv32)
    ensures h == Fmix(h0)
  {
    hide Fold16, Fold13, TimesF1, TimesF2;
    h := h0;
    h := Fold16(h);
    h := TimesF1(h);
    h := Fold13(h);
    h := TimesF2(h);
    h := Fold16(h);
  }

  // ---------- published values ----------

  const HELLO: seq<bv8> := [0x48, 0x65, 0x6c, 0x6c, 0x6f, 0x2c, 0x20, 0x77, 0x6f, 0x72, 0x6c, 0x64, 0x21]

  lemma HelloRounds()
    ensures Round(0x00000000, 0x6c6c6548) == 0xcb5bec36
    ensures Round(0xcb5bec36, 0x77202c6f) == 0x22b5bd6f
    ensures Round(0x22b5bd6f, 0x646c726f) == 0xa1590249
  {
    assert Mix(0x6c6c6548) == 0x0153080c;
    assert Mix(0x77202c6f) == 0x7d238cad;
    assert Mix(0x646c726f) == 0xa9bc9655;
  }

  lemma HelloEnd()
    ensures Mix(0x00000021) == 0xac5e5123
    ensures Fmix(0x0d075367) == 0xc0363e43
  {
  }

  lemma HelloBlocks()
    ensures Block(HELLO, 0) == 0x6c6c6548 && Block(HELLO, 1) == 0x77202c6f && Block(HELLO, 2) == 0x646c726f
    ensures Tail(HELLO) == 0x00000021
  {
  }

  /** The published hash of the thirteen bytes of "Hello, world!" with seed 0: three blocks, a tail of one byte, the finalization. */
  lemma HelloHash()
    ensures Hash(HELLO, 0) == 0xc0363e43
  {
    hide Round, Mix, Fmix, Block, Tail, Xor;
    HelloRounds();
    HelloEnd();
    HelloBlocks();
    assert Body(HELLO, 0, 0) == 0;
    assert Body(HELLO, 1, 0) == 0xcb5bec36;
    assert Body(HELLO, 2, 0) == 0x22b5bd6f;
    assert Body(HELLO, 3, 0) == 0xa1590249;
    HelloXor();
  }

  lemma HelloXor()
    ensures Xor(Xor(0xa1590249, 0xac5e5123), 13) == 0x0d075367
  {
  }
}
