/** ctz64: the lowest set bit by a de Bruijn multiplication, and bits of a word. */
module Ctz {
  const DEBRUIJN: bv64 := 0x03f79d71b4cb0a89

  function Table(i: bv64): bv64 {
    if i == 0 then 0 else if i == 1 then 1 else if i == 2 then 48 else if i == 3 then 2 else if i == 4 then 57
    else if i == 5 then 49 else if i == 6 then 28 else if i == 7 then 3 else if i == 8 then 61 else if i == 9 then 58
    else if i == 10 then 50 else if i == 11 then 42 else if i == 12 then 38 else if i == 13 then 29
    else if i == 14 then 17 else if i == 15 then 4 else if i == 16 then 62 else if i == 17 then 55
    else if i == 18 then 59 else if i == 19 then 36 else if i == 20 then 53 else if i == 21 then 51
    else if i == 22 then 43 else if i == 23 then 22 else if i == 24 then 45 else if i == 25 then 39
    else if i == 26 then 33 else if i == 27 then 30 else if i == 28 then 24 else if i == 29 then 18
    else if i == 30 then 12 else if i == 31 then 5 else if i == 32 then 63 else if i == 33 then 47
    else if i == 34 then 56 else if i == 35 then 27 else if i == 36 then 60 else if i == 37 then 41
    else if i == 38 then 37 else if i == 39 then 16 else if i == 40 then 54 else if i == 41 then 35
    else if i == 42 then 52 else if i == 43 then 21 else if i == 44 then 44 else if i == 45 then 32
    else if i == 46 then 23 else if i == 47 then 11 else if i == 48 then 46 else if i == 49 then 26
    else if i == 50 then 40 else if i == 51 then 15 else if i == 52 then 34 else if i == 53 then 20
    else if i == 54 then 31 else if i == 55 then 10 else if i == 56 then 25 else if i == 57 then 14
    else if i == 58 then 19 else if i == 59 then 9 else if i == 60 then 13 else if i == 61 then 8
    else if i == 62 then 7 else 6
  }

  /** Which power of two y is, for a power of two. */
  function Position(y: bv64): bv64 { Table((y * DEBRUIJN) >> 58) }

  function Ctz64(x: bv64): bv64 { Position(x & -x) }

  predicate BitAt(x: bv64, k: bv64) { k < 64 && x & (1 << k) != 0 }

  predicate Less(a: bv64, b: bv64) { a < b }

  lemma LowestBit(x: bv64) returns (k: bv64)
    requires x != 0
    ensures k < 64 && x & -x == 1 << k
  {
    var y := x & -x;
    k := (if y & 0xAAAAAAAAAAAAAAAA != 0 then 1 else 0) | (if y & 0xCCCCCCCCCCCCCCCC != 0 then 2 else 0)
       | (if y & 0xF0F0F0F0F0F0F0F0 != 0 then 4 else 0) | (if y & 0xFF00FF00FF00FF00 != 0 then 8 else 0)
       | (if y & 0xFFFF0000FFFF0000 != 0 then 16 else 0) | (if y & 0xFFFFFFFF00000000 != 0 then 32 else 0);
  }

  lemma LowIsLowest(x: bv64, k: bv64, j: bv64)
    requires k < 64 && j < 64 && x & -x == 1 << k
    ensures BitAt(x, k) && (j < k ==> !BitAt(x, j))
  {
  }

  lemma Position0(k: bv64)
    requires 0 <= k < 8
    ensures Position(1 << k) == k
  {
    if k == 0 { } else if k == 1 { } else if k == 2 { } else if k == 3 { } else if k == 4 { } else if k == 5 { }
    else if k == 6 { } else if k == 7 { }
  }

  lemma Position8(k: bv64)
    requires 8 <= k < 12
    ensures Position(1 << k) == k
  {
    if k == 8 { } else if k == 9 { } else if k == 10 { } else if k == 11 { }
  }

  lemma Position12(k: bv64)
    requires 12 <= k < 16
    ensures Position(1 << k) == k
  {
    if k == 12 { } else if k == 13 { } else if k == 14 { } else if k == 15 { }
  }

  lemma Position16(k: bv64)
    requires 16 <= k < 24
    ensures Position(1 << k) == k
  {
    if k == 16 { } else if k == 17 { } else if k == 18 { } else if k == 19 { } else if k == 20 { }
    else if k == 21 { } else if k == 22 { } else if k == 23 { }
  }

  lemma Position24(k: bv64)
    requires 24 <= k < 32
    ensures Position(1 << k) == k
  {
    if k == 24 { } else if k == 25 { } else if k == 26 { } else if k == 27 { } else if k == 28 { }
    else if k == 29 { } else if k == 30 { } else if k == 31 { }
  }

  lemma Position32(k: bv64)
    requires 32 <= k < 40
    ensures Position(1 << k) == k
  {
    if k == 32 { } else if k == 33 { } else if k == 34 { } else if k == 35 { } else if k == 36 { }
    else if k == 37 { } else if k == 38 { } else if k == 39 { }
  }

  lemma Position40(k: bv64)
    requires 40 <= k < 48
    ensures Position(1 << k) == k
  {
    if k == 40 { } else if k == 41 { } else if k == 42 { } else if k == 43 { } else if k == 44 { }
    else if k == 45 { } else if k == 46 { } else if k == 47 { }
  }

  lemma Position48(k: bv64)
    requires 48 <= k < 56
    ensures Position(1 << k) == k
  {
    if k == 48 { } else if k == 49 { } else if k == 50 { } else if k == 51 { } else if k == 52 { }
    else if k == 53 { } else if k == 54 { } else if k == 55 { }
  }

  lemma Position56(k: bv64)
    requires 56 <= k < 64
    ensures Position(1 << k) == k
  {
    if k == 56 { } else if k == 57 { } else if k == 58 { } else if k == 59 { } else if k == 60 { }
    else if k == 61 { } else if k == 62 { } else if k == 63 { }
  }

  /** The multiplier is a de Bruijn sequence: its table inverts every power of two. */
  lemma PositionOf(k: bv64)
    requires k < 64
    ensures Position(1 << k) == k
  {
    hide Position;
    if k < 8 { Position0(k); }
    else if k < 12 { Position8(k); }
    else if k < 16 { Position12(k); }
    else if k < 24 { Position16(k); }
    else if k < 32 { Position24(k); }
    else if k < 40 { Position32(k); }
    else if k < 48 { Position40(k); }
    else if k < 56 { Position48(k); }
    else { Position56(k); }
  }

  /** ctz64 is the position of the lowest set bit, for every nonzero word. */
  lemma CtzLowest(x: bv64, j: bv64)
    requires x != 0
    ensures Less(Ctz64(x), 64) && BitAt(x, Ctz64(x)) && (Less(j, Ctz64(x)) ==> !BitAt(x, j))
  {
    hide Position, BitAt;
    var k := LowestBit(x);
    PositionOf(k);
    if j < 64 { LowIsLowest(x, k, j); } else { LowIsLowest(x, k, 0); }
  }

  // ----- the bits of buckets -----

  const RUNQLEN: nat := 21

  /** A bucket number as a word, and back. */
  function Word(i: nat): bv64
    requires i < RUNQLEN
  {
    if i == 0 then 0 else if i == 1 then 1 else if i == 2 then 2 else if i == 3 then 3 else if i == 4 then 4
    else if i == 5 then 5 else if i == 6 then 6 else if i == 7 then 7 else if i == 8 then 8 else if i == 9 then 9
    else if i == 10 then 10 else if i == 11 then 11 else if i == 12 then 12 else if i == 13 then 13
    else if i == 14 then 14 else if i == 15 then 15 else if i == 16 then 16 else if i == 17 then 17
    else if i == 18 then 18 else if i == 19 then 19 else 20
  }

  function Num(k: bv64): nat {
    if k == 0 then 0 else if k == 1 then 1 else if k == 2 then 2 else if k == 3 then 3 else if k == 4 then 4
    else if k == 5 then 5 else if k == 6 then 6 else if k == 7 then 7 else if k == 8 then 8 else if k == 9 then 9
    else if k == 10 then 10 else if k == 11 then 11 else if k == 12 then 12 else if k == 13 then 13
    else if k == 14 then 14 else if k == 15 then 15 else if k == 16 then 16 else if k == 17 then 17
    else if k == 18 then 18 else if k == 19 then 19 else 20
  }

  lemma WordRange(i: nat)
    requires i < RUNQLEN
    ensures Less(Word(i), 21) && Num(Word(i)) == i
  {
    if i == 0 { } else if i == 1 { } else if i == 2 { } else if i == 3 { } else if i == 4 { } else if i == 5 { }
    else if i == 6 { } else if i == 7 { } else if i == 8 { } else if i == 9 { } else if i == 10 { }
    else if i == 11 { } else if i == 12 { } else if i == 13 { } else if i == 14 { } else if i == 15 { }
    else if i == 16 { } else if i == 17 { } else if i == 18 { } else if i == 19 { } else if i == 20 { }
  }

  lemma NumRange(k: bv64)
    requires Less(k, 21)
    ensures Num(k) < RUNQLEN && Word(Num(k)) == k
  {
    if k == 0 { } else if k == 1 { } else if k == 2 { } else if k == 3 { } else if k == 4 { } else if k == 5 { }
    else if k == 6 { } else if k == 7 { } else if k == 8 { } else if k == 9 { } else if k == 10 { }
    else if k == 11 { } else if k == 12 { } else if k == 13 { } else if k == 14 { } else if k == 15 { }
    else if k == 16 { } else if k == 17 { } else if k == 18 { } else if k == 19 { } else if k == 20 { }
  }

  lemma WordNext(i: nat)
    requires i + 1 < RUNQLEN
    ensures Less(Word(i), Word(i + 1))
  {
  }

  lemma LessTrans(a: bv64, b: bv64, c: bv64)
    requires Less(a, b) && Less(b, c)
    ensures Less(a, c) && a != b
  {
  }

  lemma {:induction false} WordOrder(i: nat, j: nat)
    requires i < j < RUNQLEN
    ensures Less(Word(i), Word(j))
  {
    hide Word, Less;
    WordNext(j - 1);
    if i < j - 1 {
      WordOrder(i, j - 1);
      LessTrans(Word(i), Word(j - 1), Word(j));
    }
  }

  function One(k: bv64): bv64 { if k < 64 then 1 << k else 0 }

  function Mask(i: nat): bv64
    requires i < RUNQLEN
  {
    One(Word(i))
  }

  predicate Hit(x: bv64, m: bv64) { x & m != 0 }

  function With(x: bv64, m: bv64): bv64 { x | m }

  function Without(x: bv64, m: bv64): bv64 { x & !m }

  predicate Bit(x: bv64, i: nat)
    requires i < RUNQLEN
  {
    Hit(x, Mask(i))
  }

  predicate Apart(a: bv64, b: bv64) { a & b == 0 && a != 0 && b != 0 }

  lemma OnesApart(i: bv64, j: bv64)
    requires Less(i, 21) && Less(j, 21) && i != j
    ensures Apart(One(i), One(j))
  {
  }

  lemma WithOther(x: bv64, a: bv64, b: bv64)
    requires Apart(a, b)
    ensures With(x, a) & b == x & b
  {
  }

  lemma WithoutOther(x: bv64, a: bv64, b: bv64)
    requires Apart(a, b)
    ensures Without(x, a) & b == x & b
  {
  }

  lemma ApartHits(x: bv64, a: bv64, b: bv64)
    requires Apart(a, b)
    ensures Hit(With(x, a), b) <==> Hit(x, b)
    ensures Hit(Without(x, a), b) <==> Hit(x, b)
  {
    hide With, Without, Apart;
    WithOther(x, a, b);
    WithoutOther(x, a, b);
  }

  lemma SelfHits(x: bv64, k: bv64)
    requires Less(k, 21)
    ensures Hit(With(x, One(k)), One(k)) && !Hit(Without(x, One(k)), One(k))
  {
  }

  /** Setting and clearing one bit leaves the others alone. */
  lemma BitChanged(x: bv64, i: nat, j: nat)
    requires i < RUNQLEN && j < RUNQLEN
    ensures Bit(With(x, Mask(i)), j) <==> i == j || Bit(x, j)
    ensures Bit(Without(x, Mask(i)), j) <==> i != j && Bit(x, j)
  {
    hide Word, Num, One, Hit, With, Without, Apart, Less;
    WordRange(i);
    WordRange(j);
    if i != j {
      OnesApart(Word(i), Word(j));
      ApartHits(x, Mask(i), Mask(j));
    } else {
      SelfHits(x, Word(i));
    }
  }

  /** Only bucket bits are set. */
  predicate Small(x: bv64) { x < 0x200000 }

  lemma SmallOne(x: bv64, k: bv64)
    requires Small(x) && Less(k, 21)
    ensures Small(With(x, One(k))) && Small(Without(x, One(k)))
  {
  }

  lemma SmallKept(x: bv64, i: nat)
    requires Small(x) && i < RUNQLEN
    ensures Small(With(x, Mask(i))) && Small(Without(x, Mask(i)))
  {
    hide Word, Num, One, With, Without, Less, Small;
    WordRange(i);
    SmallOne(x, Word(i));
  }

  lemma SmallBit(x: bv64, k: bv64)
    requires Small(x) && BitAt(x, k)
    ensures Less(k, 21)
  {
  }

  lemma BitIs(x: bv64, k: bv64)
    requires Less(k, 21)
    ensures Hit(x, One(k)) <==> BitAt(x, k)
  {
  }

  /** Among the bucket bits, ctz64 finds the lowest that is set. */
  lemma CtzBucket(x: bv64)
    requires x != 0 && Small(x)
    ensures var k := Num(Ctz64(x)); k < RUNQLEN && Bit(x, k) && forall j: nat :: j < k ==> !Bit(x, j)
  {
    hide Ctz64, Word, Num, One, Hit, Less, BitAt, Small;
    var k := Ctz64(x);
    CtzLowest(x, 0);
    SmallBit(x, k);
    NumRange(k);
    BitIs(x, k);
    forall j: nat | j < Num(k) ensures !Bit(x, j) {
      WordOrder(j, Num(k));
      WordRange(j);
      CtzLowest(x, Word(j));
      BitIs(x, Word(j));
    }
  }

  // ----- the bitmap of buckets -----

  datatype Bitmap = Bitmap(bits: bv64)

  const EMPTY: Bitmap := Bitmap(0)

  ghost predicate Has(b: Bitmap, i: nat)
    requires i < RUNQLEN
  {
    Bit(b.bits, i)
  }

  ghost predicate InRange(b: Bitmap) { Small(b.bits) }

  function Set(b: Bitmap, i: nat): Bitmap
    requires i < RUNQLEN
  {
    Bitmap(With(b.bits, Mask(i)))
  }

  function Clear(b: Bitmap, i: nat): Bitmap
    requires i < RUNQLEN
  {
    Bitmap(Without(b.bits, Mask(i)))
  }

  predicate IsEmpty(b: Bitmap) { b.bits == 0 }

  function First(b: Bitmap): nat { Num(Ctz64(b.bits)) }

  lemma BitmapChanged(b: Bitmap, i: nat, j: nat)
    requires InRange(b) && i < RUNQLEN && j < RUNQLEN
    ensures InRange(Set(b, i)) && (Has(Set(b, i), j) <==> i == j || Has(b, j))
    ensures InRange(Clear(b, i)) && (Has(Clear(b, i), j) <==> i != j && Has(b, j))
  {
    hide Bit, With, Without, Mask, Small;
    BitChanged(b.bits, i, j);
    SmallKept(b.bits, i);
  }

  lemma FirstIsLowest(b: Bitmap)
    requires InRange(b) && !IsEmpty(b)
    ensures First(b) < RUNQLEN && Has(b, First(b)) && forall j: nat :: j < First(b) ==> !Has(b, j)
  {
    hide Bit, Num, Ctz64, Small;
    CtzBucket(b.bits);
  }

  lemma EmptyHasNone(b: Bitmap, j: nat)
    requires IsEmpty(b) && j < RUNQLEN
    ensures !Has(b, j) && InRange(b)
  {
    hide Mask;
  }
}
