/**
 The key arithmetic of lockfree_set.h.  A dummy node's key is its bucket number with the bits reversed; an
 element's key is its hash with the top bit set and the bits reversed.  In that order the elements of a
 bucket stay together while the table doubles.

 The first half states this on numbers.  The second half shows that the 32-bit code computes these numbers.
 */
module SplitOrder {
  import opened CppInts

  function Pow2(n: nat): (p: nat)
    ensures p > 0
  {
    if n == 0 then 1 else 2 * Pow2(n - 1)
  }

  /** The number whose w low bits are those of n in reverse order. */
  function Rev(n: nat, w: nat): (r: nat)
    ensures r < Pow2(w)
  {
    if w == 0 then 0 else (if n % 2 == 1 then Pow2(w - 1) else 0) + Rev(n / 2, w - 1)
  }

  /** Keys are 32 bits wide; a hash and a bucket number use the lower 31 of them. */
  function DummyKey(bucket: nat): nat { Rev(bucket, 32) }
  function RegularKey(hash: nat): nat { Rev(hash + Pow2(31), 32) }

  /** The bits of a hash that its key keeps. */
  function Low31(h: int): (r: nat)
    ensures r < Pow2(31)
  {
    h % Pow2(31)
  }

  /** The bucket without its highest bit. */
  function Parent(bucket: nat): nat {
    if bucket < 2 then 0 else bucket % 2 + 2 * Parent(bucket / 2)
  }

  lemma {:induction false} Pow2Adds(i: nat, j: nat)
    ensures Pow2(i + j) == Pow2(i) * Pow2(j)
  {
    if i > 0 { Pow2Adds(i - 1, j); }
  }

  /** n without its i low bits. */
  function High(n: nat, i: nat): nat
    decreases i
  {
    if i == 0 then n else High(n / 2, i - 1)
  }

  lemma {:induction false} NothingHigh(n: nat, i: nat)
    requires n < Pow2(i)
    ensures High(n, i) == 0
  {
    if i > 0 { NothingHigh(n / 2, i - 1); }
  }

  /** The remainder is made of the low bits. */
  lemma LowBits(n: nat, i: nat)
    ensures n % Pow2(i + 1) == n % 2 + 2 * (n / 2 % Pow2(i))
  {
    var p := Pow2(i);
    var q, r := n / 2 / p, n / 2 % p;
    assert n == (2 * p) * q + (n % 2 + 2 * r);
    ModIs(n, 2 * p, q, n % 2 + 2 * r);
  }

  /** Reversing i + j bits puts the reversed low part above the reversed high part. */
  lemma {:induction false} RevSplits(n: nat, i: nat, j: nat)
    ensures Rev(n, i + j) == Rev(n, i) * Pow2(j) + Rev(High(n, i), j)
  {
    if i > 0 {
      RevSplits(n / 2, i - 1, j);
      Pow2Adds(i - 1, j);
      Distribute(if n % 2 == 1 then Pow2(i - 1) else 0, Rev(n / 2, i - 1), Pow2(j));
    }
  }

  lemma Distribute(a: nat, b: nat, c: nat)
    ensures (a + b) * c == a * c + b * c
  {
  }

  lemma {:induction false} RevLow(n: nat, i: nat)
    ensures Rev(n % Pow2(i), i) == Rev(n, i)
  {
    if i > 0 {
      LowBits(n, i - 1);
      RevLow(n / 2, i - 1);
    }
  }

  /** One bit more on top is one bit more at the bottom of the reversal. */
  lemma {:induction false} RevHigh(n: nat, k: nat)
    requires n < Pow2(k)
    ensures Rev(n, k + 1) == 2 * Rev(n, k)
    ensures Rev(n + Pow2(k), k + 1) == 2 * Rev(n, k) + 1
  {
    if k > 0 { RevHigh(n / 2, k - 1); }
  }

  /** Reversing twice gives the number back. */
  lemma {:induction false} RevInvolution(n: nat, w: nat)
    requires n < Pow2(w)
    ensures Rev(Rev(n, w), w) == n
  {
    if w > 0 {
      RevInvolution(n / 2, w - 1);
      RevHigh(Rev(n / 2, w - 1), w - 1);
    }
  }

  lemma RevInjective(a: nat, b: nat, w: nat)
    requires a < Pow2(w) && b < Pow2(w) && Rev(a, w) == Rev(b, w)
    ensures a == b
  {
    RevInvolution(a, w);
    RevInvolution(b, w);
  }

  // ---------------------------------------------------------------- parents

  lemma {:induction false} ParentSmaller(b: nat)
    requires b > 0
    ensures Parent(b) < b
  {
    if b >= 2 { ParentSmaller(b / 2); }
  }

  lemma {:induction false} ParentPrecedes(b: nat, w: nat)
    requires 0 < b < Pow2(w)
    ensures Rev(Parent(b), w) < Rev(b, w)
  {
    if b == 1 {
      RevZero(w - 1);
      RevZero(w);
    } else {
      var p := Parent(b / 2);
      ParentPrecedes(b / 2, w - 1);
      assert Parent(b) % 2 == b % 2 && Parent(b) / 2 == p;
      assert Rev(b, w) == (if b % 2 == 1 then Pow2(w - 1) else 0) + Rev(b / 2, w - 1);
      assert Rev(Parent(b), w) == (if b % 2 == 1 then Pow2(w - 1) else 0) + Rev(p, w - 1);
    }
  }

  lemma {:induction false} RevZero(w: nat)
    ensures Rev(0, w) == 0
  {
    if w > 0 { RevZero(w - 1); }
  }

  // ---------------------------------------------------------------- buckets

  /** An element's key ends in a one, a dummy's in a zero. */
  lemma KeyBits(n: nat, k: nat)
    requires k == 31 && n < Pow2(k)
    ensures DummyKey(n) == 2 * Rev(n, k) && RegularKey(n) == 2 * Rev(n, k) + 1
  {
    RevHigh(n, k);
  }

  /** Dummy keys are even and element keys odd, so no element is ever taken for a dummy. */
  lemma DummiesAreEven(b: nat, h: nat)
    requires b < Pow2(31) && h < Pow2(31)
    ensures DummyKey(b) % 2 == 0 && RegularKey(h) % 2 == 1
  {
    KeyBits(b, 31);
    KeyBits(h, 31);
  }

  /** The reversed bucket number in front, the reversed rest of the hash behind. */
  lemma KeySplits(n: nat, i: nat, k: nat) returns (rest: nat)
    requires i <= k
    ensures rest < Pow2(k - i) && Rev(n, k) == Rev(n, i) * Pow2(k - i) + rest
    ensures n < Pow2(i) ==> rest == 0
  {
    rest := Rev(High(n, i), k - i);
    RevSplits(n, i, k - i);
    if n < Pow2(i) {
      NothingHigh(n, i);
      RevZero(k - i);
    }
  }

  /** Numbers a and b agree exactly if a * p + r falls into the block of length p that starts at b * p. */
  lemma SameBlock(a: nat, b: nat, p: nat, r: nat)
    requires r < p
    ensures a == b <==> b * p <= a * p + r < b * p + p
  {
    Multiple(p, a - b);
    assert p * (a - b) == a * p - b * p;
  }

  /** With 2^i buckets, the keys from the dummy of bucket b up to the next possible dummy are exactly those
      of the hashes that fall into bucket b. */
  lemma BucketIsInterval(h: nat, i: nat, b: nat)
    requires h < Pow2(31) && i <= 31 && b < Pow2(i)
    ensures h % Pow2(i) == b <==> DummyKey(b) < RegularKey(h) < DummyKey(b) + 2 * Pow2(31 - i)
  {
    Pow2Grows(i, 31);
    var r := KeySplits(h, i, 31);
    var zero := KeySplits(b, i, 31);
    KeyBits(h, 31);
    KeyBits(b, 31);
    SameBlock(Rev(h, i), Rev(b, i), Pow2(31 - i), r);
    RevLow(h, i);
    if Rev(h, i) == Rev(b, i) { RevInjective(h % Pow2(i), b, i); }
  }

  /** Dummies of a table with 2^i buckets are at least 2^(32-i) apart. */
  lemma DummiesApart(i: nat, b: nat, d: nat)
    requires i <= 31 && b < Pow2(i) && d < Pow2(i)
    ensures DummyKey(b) < DummyKey(d) ==> DummyKey(b) + 2 * Pow2(31 - i) <= DummyKey(d)
  {
    Pow2Grows(i, 31);
    var zero := KeySplits(b, i, 31);
    var zero' := KeySplits(d, i, 31);
    KeyBits(b, 31);
    KeyBits(d, 31);
    SameBlock(Rev(d, i), Rev(b, i), Pow2(31 - i), 0);
  }

  /** Between two consecutive dummies of a table of 2^i buckets lie exactly the keys congruent to the first. */
  lemma BetweenDummies(h: nat, i: nat, b: nat, d: nat)
    requires h < Pow2(31) && i <= 31 && b < Pow2(i) && d < Pow2(i) && DummyKey(b) < DummyKey(d)
    requires forall c :: 0 <= c < Pow2(i) ==> !(DummyKey(b) < DummyKey(c) < DummyKey(d))
    ensures DummyKey(b) < RegularKey(h) < DummyKey(d) <==> h % Pow2(i) == b
  {
    var c := h % Pow2(i);
    BucketIsInterval(h, i, c);
    BucketIsInterval(h, i, b);
    DummiesApart(i, b, d);
    DummiesApart(i, c, b);
    DummiesDiffer(i, c, b);
  }

  lemma DummiesDiffer(i: nat, b: nat, d: nat)
    requires i <= 32 && b < Pow2(i) && d < Pow2(i)
    ensures DummyKey(b) == DummyKey(d) ==> b == d
  {
    Pow2Grows(i, 32);
    if DummyKey(b) == DummyKey(d) { RevInjective(b, d, 32); }
  }

  lemma {:induction false} Pow2Grows(i: nat, j: nat)
    requires i <= j
    ensures Pow2(i) <= Pow2(j)
  {
    if i < j { Pow2Grows(i, j - 1); }
  }

  /** The dummy of an element's bucket precedes the element, for every size the table may have. */
  lemma DummyPrecedesElement(h: nat, i: nat)
    requires h < Pow2(31) && i <= 31
    ensures DummyKey(h % Pow2(i)) < RegularKey(h)
  {
    BucketIsInterval(h, i, h % Pow2(i));
  }

  // ---------------------------------------------------------------- the code

  function BinaryReverse(x: bv32): bv32 {
    var n := ((x & 0x55555555) << 1) | ((x >> 1) & 0x55555555);
    var n := ((n & 0x33333333) << 2) | ((n >> 2) & 0x33333333);
    var n := ((n & 0x0f0f0f0f) << 4) | ((n >> 4) & 0x0f0f0f0f);
    (n << 24) | ((n & 0xff00) << 8) | ((n >> 8) & 0xff00) | (n >> 24)
  }

  function GetLargestValue(x: bv32): bv32 {
    var n := x | (x >> 1);
    var n := n | (n >> 2);
    var n := n | (n >> 4);
    var n := n | (n >> 8);
    var n := n | (n >> 16);
    n - (n >> 1)
  }

  function CodeRegularKey(key: bv32): bv32 { BinaryReverse(key | 0x8000_0000) }
  function GetParent(bucket: bv32): bv32 { bucket - GetLargestValue(bucket) }

  /** Reversal bit by bit: the lowest bit becomes the highest, the rest is reversed and moves down by one. */
  function Mirror(x: bv32): bv32
    decreases x
  {
    if x == 0 then 0 else (Mirror(x >> 1) >> 1) | LowestOnTop(x)
  }

  function LowestOnTop(x: bv32): bv32 { if x & 1 != 0 then 0x8000_0000 else 0 }

  lemma {:induction false} ReverseMovesLowest(x: bv32)
    ensures BinaryReverse(x) == (BinaryReverse(x >> 1) >> 1) | LowestOnTop(x)
  {
  }

  lemma {:induction false} ReverseStep(x: bv32)
    requires x != 0 && BinaryReverse(x >> 1) == Mirror(x >> 1)
    ensures BinaryReverse(x) == Mirror(x)
  {
    ReverseMovesLowest(x);
  }

  /** binary_reverse reverses all 32 bits. */
  lemma {:induction false} CodeReverses(x: bv32)
    ensures BinaryReverse(x) == Mirror(x)
    decreases x
  {
    if x == 0 {
      assert BinaryReverse(0) == 0;
    } else {
      CodeReverses(x >> 1);
      ReverseStep(x);
    }
  }

  /** On numbers, too, the lowest bit becomes the highest. */
  lemma RevMovesLowest(n: nat, w: nat)
    requires 0 < w && n < Pow2(w)
    ensures Rev(n, w) == Rev(n / 2, w) / 2 + if n % 2 == 1 then Pow2(w - 1) else 0
  {
    RevHigh(n / 2, w - 1);
  }

  lemma {:induction false} CodeReverseInvolution(x: bv32)
    ensures BinaryReverse(BinaryReverse(x)) == x
  {
  }

  /** getLargestValue finds the highest bit. */
  lemma {:induction false} CodeFindsHighestBit(x: bv32)
    ensures x > 0 ==> IsHighest(x, GetLargestValue(x))
  {
  }

  /** get_parent clears it. */
  lemma {:induction false} CodeClearsHighestBit(x: bv32)
    ensures GetParent(x) == x & !GetLargestValue(x)
  {
  }

  /** The dummy of a bucket precedes the elements that fall into it, for every hash and every table size s that is a
      power of two. */
  lemma {:induction false} CodeDummyPrecedes(h: bv32, s: bv32)
    requires s != 0 && s & (s - 1) == 0
    ensures BinaryReverse(h & (s - 1)) < CodeRegularKey(h)
  {
  }

  /** Division of an int by 512, which truncates. */
  function Over512(x: bv32): bv32 { if x < 0x8000_0000 then x >> 9 else -(-x >> 9) }

  /** The segment size that the constructor chooses for an expected number of elements, any int. */
  function CodeSegmentSize(expected: bv32): bv32 {
    var s := GetLargestValue(Over512(expected)) << 1;
    if s < 8 then 8 else s
  }

  lemma {:induction false} SegmentSizeIsPower(expected: bv32)
    ensures var s := CodeSegmentSize(expected); 8 <= s <= 0x40_0000 && s & (s - 1) == 0
  {
  }

  /** 512 segments of that size are too many for an int exactly if 2^30 elements or more are expected. */
  lemma {:induction false} CellsFitAnInt(expected: bv32)
    ensures 512 * CodeSegmentSize(expected) < 0x8000_0000 <==> expected < 0x4000_0000 || expected >= 0x8000_0000
  {
  }

  /** The first expected size for which the product overflows. */
  lemma {:induction false} TooManyExpected()
    ensures CodeSegmentSize(0x4000_0000) == 0x40_0000 && 512 * CodeSegmentSize(0x4000_0000) == 0x8000_0000
  {
  }

  // ---------------------------------------------------------------- the code computes the numbers

  /** The number a 32-bit value stands for. */
  function Val(x: bv32): nat
    decreases x
  {
    if x == 0 then 0 else 2 * Val(x >> 1) + Bit(x)
  }

  function Bit(x: bv32): nat { if x & 1 != 0 then 1 else 0 }

  lemma ValHalf(x: bv32)
    ensures Val(x) == 2 * Val(x >> 1) + Bit(x)
  {
    ZeroHalf(x);
  }

  lemma {:induction false} ZeroHalf(x: bv32)
    ensures x == 0 ==> x >> 1 == 0 && x & 1 == 0
  {
  }

  lemma ValZero(x: bv32)
    ensures Val(x) == 0 <==> x == 0
    decreases x
  {
    EvenHalf(x);
    if x != 0 && x & 1 == 0 { ValZero(x >> 1); }
  }

  lemma {:induction false} EvenHalf(x: bv32)
    ensures x != 0 && x & 1 == 0 ==> x >> 1 != 0
  {
  }

  lemma {:induction false} ValBelow(x: bv32, y: bv32)
    requires Val(x) < Val(y)
    ensures x < y
    decreases Val(y)
  {
    ValHalf(x);
    ValHalf(y);
    var hx, hy := x >> 1, y >> 1;
    if Val(hx) < Val(hy) {
      ValBelow(hx, hy);
      LowerHalfFirst(x, y, hx, hy);
    } else {
      SameNumber(hx, hy);
      LowestBitLast(x, y);
    }
  }

  lemma {:induction false} SameNumber(x: bv32, y: bv32)
    requires Val(x) == Val(y)
    ensures x == y
    decreases Val(x)
  {
    ValHalf(x);
    ValHalf(y);
    ValZero(x);
    ValZero(y);
    SameHalves(x, y);
    if x != 0 { SameNumber(x >> 1, y >> 1); }
  }

  /** The order of the values is the order of the numbers they stand for. */
  lemma ValOrdered(x: bv32, y: bv32)
    ensures Val(x) < Val(y) <==> x < y
  {
    if Val(x) < Val(y) { ValBelow(x, y); } else { NotBelow(x, y); }
  }

  lemma NotBelow(x: bv32, y: bv32)
    requires Val(y) <= Val(x)
    ensures !(x < y)
  {
    if Val(y) < Val(x) {
      ValBelow(y, x);
      Asymmetric(x, y);
    } else {
      SameNumber(y, x);
    }
  }

  lemma {:induction false} Asymmetric(x: bv32, y: bv32)
    ensures !(x < y && y < x)
  {
  }

  lemma {:induction false} LowerHalfFirst(x: bv32, y: bv32, hx: bv32, hy: bv32)
    requires hx == x >> 1 && hy == y >> 1 && hx < hy
    ensures x < y
  {
  }

  lemma {:induction false} LowestBitLast(x: bv32, y: bv32)
    ensures x >> 1 == y >> 1 && Bit(x) == 0 && Bit(y) == 1 ==> x < y
  {
  }

  lemma {:induction false} SameHalves(x: bv32, y: bv32)
    ensures x >> 1 == y >> 1 && Bit(x) == Bit(y) ==> x == y
  {
  }

  predicate Parts(x: bv32, y: bv32, z: bv32) { x & y == 0 && x | y == z }

  /** A number is the sum of two parts that have no bit in common. */
  lemma {:induction false} ValParts(x: bv32, y: bv32, z: bv32)
    requires Parts(x, y, z)
    ensures Val(z) == Val(x) + Val(y)
    decreases z
  {
    PartsOfZero(x, y, z);
    if z != 0 {
      var hx, hy, hz := x >> 1, y >> 1, z >> 1;
      PartsHalve(x, y, z);
      ValParts(hx, hy, hz);
      PartsLowest(x, y, z);
      ValHalf(x);
      ValHalf(y);
      ValHalf(z);
    }
  }

  lemma {:induction false} PartsOfZero(x: bv32, y: bv32, z: bv32)
    ensures Parts(x, y, z) && z == 0 ==> x == 0 && y == 0
  {
  }

  lemma {:induction false} PartsHalve(x: bv32, y: bv32, z: bv32)
    ensures Parts(x, y, z) ==> Parts(x >> 1, y >> 1, z >> 1)
  {
  }

  lemma {:induction false} PartsLowest(x: bv32, y: bv32, z: bv32)
    ensures Parts(x, y, z) ==> Bit(z) == Bit(x) + Bit(y)
  {
  }

  /** Bit k has the value 2^k. */
  lemma {:induction false} ValBit(x: bv32, k: nat)
    requires k < 32 && x == 1 << k
    ensures Val(x) == Pow2(k)
  {
    ValHalf(x);
    BitHalves(x, k);
    if k > 0 { ValBit(x >> 1, k - 1); } else { assert x >> 1 == 0; }
  }

  lemma {:induction false} BitHalves(x: bv32, k: nat)
    requires k < 32 && x == 1 << k
    ensures k == 0 ==> x == 1
    ensures k > 0 ==> x >> 1 == 1 << (k - 1) && Bit(x) == 0
  {
  }

  lemma ValTop()
    ensures Val(0x8000_0000) == Pow2(31)
  {
    ValBit(0x8000_0000, 31);
  }

  lemma {:induction false} ValFits(x: bv32, k: nat)
    requires k <= 32 && (k < 32 ==> x < 1 << k)
    ensures Val(x) < Pow2(k)
    decreases k
  {
    ValHalf(x);
    FitsHalf(x, k);
    if k > 0 { ValFits(x >> 1, k - 1); }
  }

  lemma {:induction false} FitsHalf(x: bv32, k: nat)
    requires k <= 32 && (k < 32 ==> x < 1 << k)
    ensures k == 0 ==> x == 0
    ensures k > 0 ==> x >> 1 < 1 << (k - 1)
  {
  }

  lemma {:induction false} MirrorIsRev(x: bv32, w: nat)
    requires w == 32
    ensures Val(Mirror(x)) == Rev(Val(x), w)
    decreases x
  {
    ValFits(x, w);
    if x == 0 {
      RevZero(w);
    } else {
      MirrorIsRev(x >> 1, w);
      MirrorStep(x, Mirror(x >> 1), w);
    }
  }

  lemma MirrorStep(x: bv32, y: bv32, w: nat)
    requires w == 32 && Val(x) < Pow2(w) && Val(y) == Rev(Val(x >> 1), w)
    ensures Val((y >> 1) | LowestOnTop(x)) == Rev(Val(x), w)
  {
    ValHalf(x);
    LowestGoesUp(y, LowestOnTop(x));
    RevLastDigit(Val(x), Val(x >> 1), Bit(x), w);
  }

  lemma RevLastDigit(n: nat, h: nat, d: nat, w: nat)
    requires n == 2 * h + d && d < 2 && 0 < w && n < Pow2(w)
    ensures Rev(n, w) == Rev(h, w) / 2 + if d == 0 then 0 else Pow2(w - 1)
  {
    RevMovesLowest(n, w);
  }

  lemma LowestGoesUp(y: bv32, top: bv32)
    requires top == 0 || top == 0x8000_0000
    ensures Val((y >> 1) | top) == Val(y) / 2 + if top == 0 then 0 else Pow2(31)
  {
    ValHalf(y);
    LowerHalf(y, top);
    ValParts(y >> 1, top, (y >> 1) | top);
    ValTop();
  }

  lemma {:induction false} LowerHalf(y: bv32, top: bv32)
    ensures top == 0 || top == 0x8000_0000 ==> Parts(y >> 1, top, (y >> 1) | top)
  {
  }

  /** binary_reverse computes Rev. */
  lemma CodeIsRev(x: bv32)
    ensures Val(BinaryReverse(x)) == Rev(Val(x), 32)
  {
    CodeReverses(x);
    MirrorIsRev(x, 32);
  }

  /** regularKey computes RegularKey of the lower 31 bits, for every hash. */
  lemma CodeIsRegularKey(h: bv32)
    ensures Val(CodeRegularKey(h)) == RegularKey(Val(h) % Pow2(31))
  {
    var low := h & 0x7fff_ffff;
    LowAndTop(h);
    LowIs(h, low, 31);
    ValParts(low, 0x8000_0000, h | 0x8000_0000);
    ValTop();
    CodeIsRev(h | 0x8000_0000);
  }

  lemma {:induction false} LowAndTop(h: bv32)
    ensures Parts(h & 0x7fff_ffff, 0x8000_0000, h | 0x8000_0000)
    ensures Parts(h & 0x7fff_ffff, h & 0x8000_0000, h)
    ensures h & 0x8000_0000 == 0 || h & 0x8000_0000 == 0x8000_0000
    ensures h & 0x7fff_ffff < 1 << 31
  {
  }

  lemma LowIs(h: bv32, low: bv32, k: nat)
    requires k == 31 && low == h & 0x7fff_ffff
    ensures Val(low) == Val(h) % Pow2(k)
  {
    LowAndTop(h);
    ValFits(low, k);
    ValParts(low, h & 0x8000_0000, h);
    ValTop();
    ModIs(Val(h), Pow2(k), if h & 0x8000_0000 == 0 then 0 else 1, Val(low));
  }

  /** The highest bit of n. */
  function Highest(n: nat): nat {
    if n < 2 then n else 2 * Highest(n / 2)
  }

  lemma {:induction false} ParentDropsHighest(n: nat)
    ensures Parent(n) + Highest(n) == n
  {
    if n >= 2 { ParentDropsHighest(n / 2); }
  }

  predicate IsHighest(b: bv32, top: bv32) { top & (top - 1) == 0 && top & b == top && b >> 1 < top }

  lemma {:induction false} ValHighest(b: bv32, top: bv32)
    requires IsHighest(b, top)
    ensures Val(top) == Highest(Val(b))
    decreases b
  {
    ValHalf(b);
    ValHalf(top);
    HighestOfOne(b, top);
    HighestHalves(b, top);
    ValZero(b >> 1);
    if b >> 1 != 0 { ValHighest(b >> 1, top >> 1); }
  }

  lemma {:induction false} HighestOfOne(b: bv32, top: bv32)
    ensures IsHighest(b, top) && b >> 1 == 0 ==> b == 1 && top == 1
  {
  }

  lemma {:induction false} HighestHalves(b: bv32, top: bv32)
    ensures IsHighest(b, top) && b >> 1 != 0 ==> IsHighest(b >> 1, top >> 1) && Bit(top) == 0
  {
  }

  /** getLargestValue computes Highest. */
  lemma CodeIsHighest(b: bv32)
    ensures Val(GetLargestValue(b)) == Highest(Val(b))
  {
    CodeFindsHighestBit(b);
    if b > 0 { ValHighest(b, GetLargestValue(b)); } else { NothingHighest(); }
  }

  lemma {:induction false} NothingHighest()
    ensures GetLargestValue(0) == 0
  {
  }

  /** get_parent computes Parent. */
  lemma CodeIsParent(b: bv32)
    ensures Val(GetParent(b)) == Parent(Val(b))
  {
    CodeClearsHighestBit(b);
    LargestWithin(b);
    CodeIsHighest(b);
    DropsHighest(b, GetParent(b), GetLargestValue(b));
  }

  lemma DropsHighest(b: bv32, p: bv32, top: bv32)
    requires p == b & !top && top & b == top && Val(top) == Highest(Val(b))
    ensures Val(p) == Parent(Val(b))
  {
    ClearAndPut(b, top, p);
    ValParts(p, top, b);
    ParentDropsHighest(Val(b));
  }

  lemma {:induction false} LargestWithin(b: bv32)
    ensures GetLargestValue(b) & b == GetLargestValue(b)
  {
  }

  lemma {:induction false} ClearAndPut(b: bv32, t: bv32, p: bv32)
    requires p == b & !t && t & b == t
    ensures Parts(p, t, b)
  {
  }

  /** A parent precedes its bucket in both orders, for every 32-bit bucket. */
  lemma CodeParentPrecedes(b: bv32)
    requires b > 0
    ensures GetParent(b) < b && BinaryReverse(GetParent(b)) < BinaryReverse(b)
  {
    ValZero(b);
    CodeIsParent(b);
    LowerParent(b, GetParent(b));
    ReversedParent(b, GetParent(b), 32);
  }

  lemma LowerParent(b: bv32, p: bv32)
    requires Val(b) > 0 && Val(p) == Parent(Val(b))
    ensures p < b
  {
    ParentSmaller(Val(b));
    ValBelow(p, b);
  }

  lemma ReversedParent(b: bv32, p: bv32, w: nat)
    requires w == 32 && Val(b) > 0 && Val(p) == Parent(Val(b))
    ensures BinaryReverse(p) < BinaryReverse(b)
  {
    CodeIsRev(p);
    CodeIsRev(b);
    ValFits(b, w);
    ParentPrecedes(Val(b), w);
    ValBelow(BinaryReverse(p), BinaryReverse(b));
  }
}
