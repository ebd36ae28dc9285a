/**
 Which bucket an operation of the set looks for when the hash is negative: insert and remove take the remainder of an
 int and then make it unsigned, search takes that of an unsigned.  get_bucket reduces the number once more, so they
 read the same cell; but initialize_bucket and set_bucket get the number as it is.
 */
module BucketChoice {
  import opened CppInts
  import L = ListCore
  import S = SplitOrder
  import opened HashSet

  predicate IsInt(h: int) { -0x8000_0000 <= h < 0x8000_0000 }

  lemma Sizes()
    ensures S.Pow2(30) == 0x4000_0000 && S.Pow2(31) == 0x8000_0000 && S.Pow2(32) == 0x1_0000_0000
  {
    assert S.Pow2(15) == 0x8000;
    S.Pow2Adds(15, 15);
  }

  lemma SizeDivides(i: nat) returns (m: nat)
    requires i <= 31
    ensures 0x1_0000_0000 == m * S.Pow2(i) && S.Pow2(i) <= 0x8000_0000
  {
    Sizes();
    S.Pow2Grows(i, 31);
    S.Pow2Adds(32 - i, i);
    m := S.Pow2(32 - i);
  }

  lemma Shift(a: int, b: int, c: int)
    ensures a * (b * c) == (a * c) * b
  {
  }

  lemma Divides(i: nat, j: nat, c: int)
    requires i <= j
    ensures c * S.Pow2(j) % S.Pow2(i) == 0
  {
    var p, q := S.Pow2(i), S.Pow2(j - i);
    S.Pow2Adds(i, j - i);
    Shift(c, p, q);
    ProductMod(0, c * q, p);
  }

  /** The remainder of a negative number. */
  lemma NegativeMod(h: int, size: nat)
    requires h < 0 && size > 0
    ensures h % size == if -h % size == 0 then 0 else size - -h % size
  {
    var q, r := -h / size, -h % size;
    assert h == size * -q - r;
    if r > 0 { ModIs(h, size, -q - 1, size - r); } else { ModIs(h, size, -q, 0); }
  }

  lemma AddMultiple(h: int, m: int, size: nat)
    requires size > 0
    ensures (h + m * size) % size == h % size
  {
    var q, r := h / size, h % size;
    assert h + m * size == size * (q + m) + r;
    ModIs(h + m * size, size, q + m, r);
  }

  /** The numbers that the operations compute. */
  lemma BucketIs(kind: L.Kind, h: int, size: nat)
    requires IsInt(h) && 0 < size <= 0x8000_0000
    ensures h >= 0 ==> BucketFor(kind, h, size) == h % size
    ensures h < 0 && kind.Search? ==> BucketFor(kind, h, size) == (h + 0x1_0000_0000) % size
    ensures h < 0 && !kind.Search? ==>
      BucketFor(kind, h, size) == if -h % size == 0 then 0 else 0x1_0000_0000 - -h % size
  {
  }

  lemma Twice(a: int, size: nat)
    requires size > 0
    ensures a % size % size == a % size
  {
  }

  /** For a size that divides 2^32, the cell that get_bucket reads does not depend on the operation. */
  lemma SameCell(kind: L.Kind, h: int, size: nat, m: int)
    requires IsInt(h) && 0 < size <= 0x8000_0000 && 0x1_0000_0000 == m * size
    ensures BucketFor(kind, h, size) % size == h % size
  {
    BucketIs(kind, h, size);
    Twice(h, size);
    if h < 0 {
      var r := -h % size;
      NegativeMod(h, size);
      SmallMod(r, size);
      AddMultiple(h, m, size);
      AddMultiple(-r, m, size);
      Twice(h + m * size, size);
    }
  }

  lemma SmallMod(r: int, size: nat)
    requires 0 <= r < size
    ensures -r % size == if r == 0 then 0 else size - r
  {
    if r > 0 { ModIs(-r, size, -1, size - r); }
  }

  /** Whatever the hash, insert, remove and search read the same cell, as long as the size has not changed. */
  lemma CellsAgree(kind: L.Kind, h: int, i: nat)
    requires IsInt(h) && i <= 31
    ensures BucketFor(kind, h, S.Pow2(i)) % S.Pow2(i) == h % S.Pow2(i) == S.Low31(h) % S.Pow2(i)
  {
    var m := SizeDivides(i);
    SameCell(kind, h, S.Pow2(i), m);
    LowCell(h, i, 31);
  }

  lemma LowCell(h: int, i: nat, w: nat)
    requires w == 31 && i <= w
    ensures S.Low31(h) % S.Pow2(i) == h % S.Pow2(i)
  {
    Divides(i, w, 1);
    LowMod(h, S.Pow2(i), S.Pow2(w));
  }

  lemma LowMod(h: int, size: nat, big: nat)
    requires size > 0 && big > 0 && big % size == 0
    ensures h % big % size == h % size
  {
    var q := big / size;
    var c := h / big;
    assert h == c * big + h % big;
    assert c * big == (c * q) * size;
    AddMultiple(h % big, c * q, size);
  }

  /** But the number itself, which insert and remove hand to initialize_bucket, is outside the table exactly if the hash is
      negative and no multiple of the size. */
  lemma NumberOutside(kind: L.Kind, h: int, i: nat)
    requires IsInt(h) && i <= 31 && !kind.Search?
    ensures BucketFor(kind, h, S.Pow2(i)) >= S.Pow2(i) <==> h < 0 && h % S.Pow2(i) != 0
    ensures BucketFor(kind, h, S.Pow2(i)) >= S.Pow2(i) ==> BucketFor(kind, h, S.Pow2(i)) == 0x1_0000_0000 - -h % S.Pow2(i)
  {
    var m := SizeDivides(i);
    BucketIs(kind, h, S.Pow2(i));
    if h < 0 { NegativeMod(h, S.Pow2(i)); }
  }

  /** The logarithm of the largest size that a table with 2^limitBits cells can reach; with 2^31 cells it does not grow. */
  function SizeBits(limitBits: nat): nat { if limitBits <= 30 then limitBits else 1 }

  /** An int that is not negative, or a multiple of every size that the table can reach. */
  predicate GoodHash(h: int, limitBits: nat) {
    IsInt(h) && (h >= 0 || h % S.Pow2(SizeBits(limitBits)) == 0)
  }

  lemma GoodBucket(kind: L.Kind, h: int, i: nat, limitBits: nat)
    requires GoodHash(h, limitBits) && i <= SizeBits(limitBits)
    ensures BucketFor(kind, h, S.Pow2(i)) == S.Low31(h) % S.Pow2(i) && BucketFor(kind, h, S.Pow2(i)) < S.Pow2(i)
  {
    var m := SizeDivides(i);
    LowCell(h, i, 31);
    if h < 0 { MultipleOf(h, i, SizeBits(limitBits)); }
    GoodNumber(kind, h, S.Pow2(i), m);
  }

  lemma GoodNumber(kind: L.Kind, h: int, size: nat, m: int)
    requires IsInt(h) && 0 < size <= 0x8000_0000 && 0x1_0000_0000 == m * size
    requires h < 0 ==> h % size == 0 && -h % size == 0
    ensures BucketFor(kind, h, size) == h % size
  {
    BucketIs(kind, h, size);
    AddMultiple(h, m, size);
  }

  lemma MultipleOf(h: int, i: nat, j: nat)
    requires i <= j && h % S.Pow2(j) == 0
    ensures h % S.Pow2(i) == 0 && -h % S.Pow2(i) == 0
  {
    var big := S.Pow2(j);
    assert h == (h / big) * big;
    Divides(i, j, h / big);
    assert -h == (-(h / big)) * big;
    Divides(i, j, -(h / big));
  }

  /** The bound on the size, for every segment size that the constructor chooses: with the largest, the product is
      negative, and the table never grows. */
  lemma MaxSizeIs(k: nat)
    requires k <= 22
    ensures MaxSize(S.Pow2(k)) == if k <= 21 then S.Pow2(k + 9) else -0x8000_0000
  {
    Sizes();
    S.Pow2Adds(9, k);
    assert S.Pow2(9) == ARRAY_SIZE;
    if k <= 21 { S.Pow2Grows(k + 9, 30); } else { assert k + 9 == 31; }
  }
}
