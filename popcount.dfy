/**
 * SWAR population count, as in popcount32 and popcount64 of the xlutil
 * package.  The Python code works on unbounded ints; its inputs are
 * unsigned 32-bit (resp. 64-bit) words, and every intermediate value of the
 * algorithm stays below 2^64, so the words are modelled as bv64.  The masks
 * `0xffffffff &` and `0xffffffffffffffff &` of the source are kept as
 * written; in bv64 the second is the wrap-around of the final product.
 *
 * The reference the results are proved against is Ones32 / Ones64, a count
 * of the set bits that splits a word into halves down to single bits.
 */
module PopCount {

  // ---------------------------------------------------------------------
  // Reference definition: the ones of a word are the ones of its low half
  // plus the ones of its high half.  OnesW(x) counts the set bits among the
  // W low-order bits of x.
  // ---------------------------------------------------------------------

  function Ones1(x: bv64): nat { if x & 1 == 1 then 1 else 0 }
  function Ones2(x: bv64): nat { Ones1(x) + Ones1(x >> 1) }
  function Ones4(x: bv64): nat { Ones2(x) + Ones2(x >> 2) }
  function Ones8(x: bv64): nat { Ones4(x) + Ones4(x >> 4) }
  function Ones16(x: bv64): nat { Ones8(x) + Ones8(x >> 8) }
  function Ones32(x: bv64): nat { Ones16(x) + Ones16(x >> 16) }
  function Ones64(x: bv64): nat { Ones32(x) + Ones32(x >> 32) }

  lemma Ones32ByBytes(n: bv64)
    ensures Ones32(n) == Ones8(n >> 0) + Ones8(n >> 8) + Ones8(n >> 16) + Ones8(n >> 24)
  {
  }

  lemma Ones64ByBytes(n: bv64)
    ensures Ones64(n) == Ones8(n >> 0) + Ones8(n >> 8) + Ones8(n >> 16) + Ones8(n >> 24)
                       + Ones8(n >> 32) + Ones8(n >> 40) + Ones8(n >> 48) + Ones8(n >> 56)
  {
  }

  // ---------------------------------------------------------------------
  // The algorithm (src/xlutil/__init__.py, popcount32 and popcount64)
  // ---------------------------------------------------------------------

  /** First step: each 2-bit field becomes the count of its ones (OCTO_FIVES). */
  function PairSums32(n: bv64): bv64 { n - ((n >> 1) & 0x55555555) }
  /** Second step: each 4-bit field becomes the count of its ones (OCTO_THREES). */
  function NibbleSums32(x: bv64): bv64 { (x & 0x33333333) + ((x >> 2) & 0x33333333) }
  /** Third step: each byte becomes the count of its ones (OCTO_FS). */
  function ByteSums32(x: bv64): bv64 { (x + (x >> 4)) & 0x0f0f0f0f }
  /** Last step: the byte counts are summed into the top byte (OCTO_ONES). */
  function Fold32(x: bv64): bv64 { (0xffffffff & (x * 0x01010101)) >> 24 }

  /** popcount32; the argument is a uint32. */
  function Popcount32(n: bv64): bv64
    requires n < 0x1_0000_0000
  {
    Fold32(ByteSums32(NibbleSums32(PairSums32(n))))
  }

  /** The same steps with the 64-bit masks HEXI_FIVES, HEXI_THREES, HEXI_FS, HEXI_ONES. */
  function PairSums64(n: bv64): bv64 { n - ((n >> 1) & 0x5555555555555555) }
  function NibbleSums64(x: bv64): bv64 { (x & 0x3333333333333333) + ((x >> 2) & 0x3333333333333333) }
  function ByteSums64(x: bv64): bv64 { (x + (x >> 4)) & 0x0f0f0f0f0f0f0f0f }
  function Fold64(x: bv64): bv64 { (0xffffffffffffffff & (x * 0x0101010101010101)) >> 56 }

  /** popcount64; the argument is a uint64. */
  function Popcount64(n: bv64): bv64
  {
    Fold64(ByteSums64(NibbleSums64(PairSums64(n))))
  }

  // ---------------------------------------------------------------------
  // Correctness
  // ---------------------------------------------------------------------

  /** The byte of x that starts at bit s. */
  function Byte(x: bv64, s: bv8): bv64
    requires s <= 56
  {
    (x >> s) & 0xff
  }

  /** The three counting steps applied to a single byte. */
  function ByteSwar(m: bv64): bv64
  {
    var m1 := (m & 0x55) + ((m >> 1) & 0x55);
    var m2 := (m1 & 0x33) + ((m1 >> 2) & 0x33);
    (m2 + (m2 >> 4)) & 0x0f
  }

  /** The byte counts before the last step. */
  function Swar64(n: bv64): bv64 { ByteSums64(NibbleSums64(PairSums64(n))) }
  function Swar32(n: bv64): bv64 { ByteSums32(NibbleSums32(PairSums32(n))) }

  /** The first step, subtraction form, equals the adding form. */
  function AddPairs64(x: bv64): bv64 { (x & 0x5555555555555555) + ((x >> 1) & 0x5555555555555555) }

  lemma PairSumsAdd(n: bv64)
    ensures PairSums64(n) == AddPairs64(n)
  {
  }

  lemma PairsLane(n: bv64, s: bv8)
    requires s <= 56 && s & 7 == 0
    ensures Byte(AddPairs64(n), s) == (Byte(n, s) & 0x55) + ((Byte(n, s) >> 1) & 0x55)
  {
  }

  lemma NibblesLane(n: bv64, s: bv8)
    requires s <= 56 && s & 7 == 0
    ensures Byte(NibbleSums64(n), s) == (Byte(n, s) & 0x33) + ((Byte(n, s) >> 2) & 0x33)
  {
  }

  lemma BytesLane(n: bv64, s: bv8)
    requires n & 0x8888888888888888 == 0
    requires s <= 56 && s & 7 == 0
    ensures Byte(ByteSums64(n), s) == (Byte(n, s) + (Byte(n, s) >> 4)) & 0x0f
  {
  }

  lemma NibbleSumsShape(n: bv64)
    ensures NibbleSums64(AddPairs64(n)) & 0x8888888888888888 == 0
  {
  }

  lemma Swar64ViaAdd(n: bv64)
    ensures Swar64(n) == ByteSums64(NibbleSums64(AddPairs64(n)))
  {
    PairSumsAdd(n);
  }

  lemma Swar64Shape(n: bv64)
    ensures Swar64(n) & 0xf0f0f0f0f0f0f0f0 == 0
  {
  }

  lemma AddSwarLane(n: bv64, s: bv8)
    requires s <= 56 && s & 7 == 0
    ensures Byte(ByteSums64(NibbleSums64(AddPairs64(n))), s) == ByteSwar(Byte(n, s))
  {
    NibbleSumsShape(n);
    PairsLane(n, s);
    NibblesLane(AddPairs64(n), s);
    BytesLane(NibbleSums64(AddPairs64(n)), s);
  }

  lemma Ones8Low(x: bv64)
    ensures Ones8(x & 0xff) == Ones8(x)
  {
  }

  lemma ByteSwarCounts(m: bv64)
    requires m < 256
    ensures ByteSwar(m) as int == Ones8(m)
    ensures ByteSwar(m) <= 8
  {
  }

  /** Each byte of Swar64(n) is the number of ones in the same byte of n. */
  lemma SwarLane(n: bv64, s: bv8)
    requires s <= 56 && s & 7 == 0
    ensures Byte(Swar64(n), s) as int == Ones8(n >> s)
    ensures Byte(Swar64(n), s) <= 8
  {
    Swar64ViaAdd(n);
    AddSwarLane(n, s);
    ByteSwarCounts(Byte(n, s));
    Ones8Low(n >> s);
  }

  lemma SwarLanes(n: bv64)
    ensures forall s: bv8 {:trigger Byte(Swar64(n), s)} :: s <= 56 && s & 7 == 0 ==>
      Byte(Swar64(n), s) as int == Ones8(n >> s) && Byte(Swar64(n), s) <= 8
  {
    forall s: bv8 | s <= 56 && s & 7 == 0
      ensures Byte(Swar64(n), s) as int == Ones8(n >> s) && Byte(Swar64(n), s) <= 8
    {
      SwarLane(n, s);
    }
  }

  /** On a uint32 the 32-bit masks select the same bits as the 64-bit ones. */
  lemma PairSums32Is64(n: bv64)
    requires n < 0x1_0000_0000
    ensures PairSums32(n) == PairSums64(n) && PairSums64(n) < 0x1_0000_0000
  {
  }

  lemma NibbleSums32Is64(x: bv64)
    requires x < 0x1_0000_0000
    ensures NibbleSums32(x) == NibbleSums64(x) && NibbleSums64(x) < 0x1_0000_0000
  {
  }

  lemma ByteSums32Is64(x: bv64)
    requires x < 0x1_0000_0000 && x & 0x8888888888888888 == 0
    ensures ByteSums32(x) == ByteSums64(x) && ByteSums64(x) < 0x1_0000_0000
  {
  }

  lemma Swar32Is64(n: bv64)
    requires n < 0x1_0000_0000
    ensures Swar32(n) == Swar64(n) && Swar64(n) < 0x1_0000_0000
  {
    PairSums32Is64(n);
    PairSumsAdd(n);
    NibbleSumsShape(n);
    var p := PairSums64(n);
    NibbleSums32Is64(p);
    ByteSums32Is64(NibbleSums64(p));
  }

  // Summing the byte counts.  A product by 0x0101...01 is the product by
  // 0x101, then by 0x10001, then by 0x100000001; as long as no byte
  // overflows, each of these adds bytes lane by lane.  The lane facts are
  // proved for an arbitrary word and then used, through the quantified
  // lemmas, for the partial products of the word being folded.

  function Add(a: bv64, b: bv64): bv64 { a + b }

  lemma Spread8Bound(z: bv64)
    requires z & 0xf0f0f0f0f0f0f0f0 == 0
    ensures (z * 0x101) & 0xe0e0e0e0e0e0e0e0 == 0
  {
  }

  lemma Spread16Bound(z: bv64)
    requires z & 0xe0e0e0e0e0e0e0e0 == 0
    ensures (z * 0x10001) & 0xc0c0c0c0c0c0c0c0 == 0
  {
  }

  lemma Spread16BoundAfter8(x: bv64)
    requires x & 0xf0f0f0f0f0f0f0f0 == 0
    ensures (x * 0x01010101) & 0xc0c0c0c0c0c0c0c0 == 0
  {
    Spread8Bound(x);
    Spread16Bound(x * 0x101);
  }

  lemma Spread8Lanes(z: bv64)
    requires z & 0xf0f0f0f0f0f0f0f0 == 0
    ensures Byte(z * 0x101, 8) == Add(Byte(z, 8), Byte(z, 0))
    ensures Byte(z * 0x101, 24) == Add(Byte(z, 24), Byte(z, 16))
    ensures Byte(z * 0x101, 40) == Add(Byte(z, 40), Byte(z, 32))
    ensures Byte(z * 0x101, 56) == Add(Byte(z, 56), Byte(z, 48))
  {
  }

  lemma Spread16Lanes(z: bv64)
    requires z & 0xe0e0e0e0e0e0e0e0 == 0
    ensures Byte(z * 0x10001, 24) == Add(Byte(z, 24), Byte(z, 8))
    ensures Byte(z * 0x10001, 56) == Add(Byte(z, 56), Byte(z, 40))
  {
  }

  lemma Spread32Lane(z: bv64)
    requires z & 0xc0c0c0c0c0c0c0c0 == 0
    ensures Byte(z * 0x100000001, 56) == Add(Byte(z, 56), Byte(z, 24))
  {
  }

  lemma AllSpread16Lanes()
    ensures forall z: bv64 {:trigger Byte(z, 8)} :: z & 0xe0e0e0e0e0e0e0e0 == 0 ==>
      Byte(z * 0x10001, 24) == Add(Byte(z, 24), Byte(z, 8)) &&
      Byte(z * 0x10001, 56) == Add(Byte(z, 56), Byte(z, 40))
  {
    forall z: bv64 | z & 0xe0e0e0e0e0e0e0e0 == 0
      ensures Byte(z * 0x10001, 24) == Add(Byte(z, 24), Byte(z, 8))
      ensures Byte(z * 0x10001, 56) == Add(Byte(z, 56), Byte(z, 40))
    {
      Spread16Lanes(z);
    }
  }

  lemma AllSpread32Lane()
    ensures forall z: bv64 {:trigger Byte(z, 24)} :: z & 0xc0c0c0c0c0c0c0c0 == 0 ==>
      Byte(z * 0x100000001, 56) == Add(Byte(z, 56), Byte(z, 24))
  {
    forall z: bv64 | z & 0xc0c0c0c0c0c0c0c0 == 0
      ensures Byte(z * 0x100000001, 56) == Add(Byte(z, 56), Byte(z, 24))
    {
      Spread32Lane(z);
    }
  }

  /** The last step of popcount32 adds the four byte counts pairwise. */
  lemma Fold32Tree(x: bv64)
    requires x & 0xf0f0f0f0f0f0f0f0 == 0
    ensures Fold32(x) == Add(Add(Byte(x, 24), Byte(x, 16)), Add(Byte(x, 8), Byte(x, 0)))
  {
    assert Fold32(x) == Byte(x * 0x01010101, 24);
    Spread8Bound(x);
    Spread8Lanes(x);
    AllSpread16Lanes();
  }

  /** The last step of popcount64 adds the eight byte counts pairwise. */
  lemma Fold64Tree(x: bv64)
    requires x & 0xf0f0f0f0f0f0f0f0 == 0
    ensures Fold64(x) == Add(Add(Add(Byte(x, 56), Byte(x, 48)), Add(Byte(x, 40), Byte(x, 32))),
                             Add(Add(Byte(x, 24), Byte(x, 16)), Add(Byte(x, 8), Byte(x, 0))))
  {
    assert Fold64(x) == Byte(x * 0x0101010101010101, 56);
    Spread8Bound(x);
    Spread16BoundAfter8(x);
    Spread8Lanes(x);
    AllSpread16Lanes();
    AllSpread32Lane();
  }

  // Adding small words does not wrap, so it agrees with adding their values.

  lemma AddNarrow(a: bv7, b: bv7)
    requires a <= 32 && b <= 32
    ensures (a + b) as int == a as int + b as int
  {
  }

  lemma Narrow(x: bv64)
    requires x < 128
    ensures (x as bv7) as int == x as int
  {
  }

  lemma NarrowSum(a: bv64, b: bv64)
    requires a <= 32 && b <= 32
    ensures (a + b) as bv7 == a as bv7 + b as bv7 && a + b <= 64
    ensures a <= 16 && b <= 16 ==> a + b <= 32
    ensures a <= 8 && b <= 8 ==> a + b <= 16
  {
  }

  lemma AddSmall(a: bv64, b: bv64)
    requires a <= 32 && b <= 32
    ensures Add(a, b) as int == a as int + b as int
    ensures a <= 16 && b <= 16 ==> Add(a, b) <= 32
    ensures a <= 8 && b <= 8 ==> Add(a, b) <= 16
  {
    NarrowSum(a, b);
    AddNarrow(a as bv7, b as bv7);
    Narrow(a);
    Narrow(b);
    Narrow(a + b);
  }

  lemma TreeAsInt4(a: bv64, b: bv64, c: bv64, d: bv64)
    requires a <= 8 && b <= 8 && c <= 8 && d <= 8
    ensures Add(Add(a, b), Add(c, d)) as int == a as int + b as int + c as int + d as int
    ensures Add(Add(a, b), Add(c, d)) <= 32
  {
    AddSmall(a, b);
    AddSmall(c, d);
    AddSmall(Add(a, b), Add(c, d));
  }

  lemma TreeAsInt8(a: bv64, b: bv64, c: bv64, d: bv64, e: bv64, f: bv64, g: bv64, h: bv64)
    requires a <= 8 && b <= 8 && c <= 8 && d <= 8 && e <= 8 && f <= 8 && g <= 8 && h <= 8
    ensures Add(Add(Add(a, b), Add(c, d)), Add(Add(e, f), Add(g, h))) as int
         == a as int + b as int + c as int + d as int + e as int + f as int + g as int + h as int
  {
    TreeAsInt4(a, b, c, d);
    TreeAsInt4(e, f, g, h);
    AddSmall(Add(Add(a, b), Add(c, d)), Add(Add(e, f), Add(g, h)));
  }

  // The two theorems.

  /** popcount32 returns the sum of the byte counts. */
  lemma Popcount32Sums(n: bv64)
    requires n < 0x1_0000_0000
    ensures var x := Swar64(n);
      Popcount32(n) as int == Byte(x, 0) as int + Byte(x, 8) as int + Byte(x, 16) as int + Byte(x, 24) as int
  {
    var x := Swar64(n);
    Swar32Is64(n);
    assert Popcount32(n) == Fold32(x);
    Swar64Shape(n);
    Fold32Tree(x);
    SwarLanes(n);
    var b0, b1, b2, b3 := Byte(x, 0), Byte(x, 8), Byte(x, 16), Byte(x, 24);
    TreeAsInt4(b3, b2, b1, b0);
  }

  /** The byte counts of n & 0xffffffff add up to its number of set bits. */
  lemma ByteCounts32(n: bv64)
    ensures var x := Swar64(n);
      Byte(x, 0) as int + Byte(x, 8) as int + Byte(x, 16) as int + Byte(x, 24) as int == Ones32(n)
  {
    SwarLanes(n);
    Ones32ByBytes(n);
  }

  /** For every uint32 n, popcount32(n) is the number of set bits of n. */
  lemma {:induction false} Popcount32Correct(n: bv64)
    requires n < 0x1_0000_0000
    ensures Popcount32(n) as int == Ones32(n)
  {
    Popcount32Sums(n);
    ByteCounts32(n);
  }

  /** popcount64 returns the sum of the byte counts. */
  lemma Popcount64Sums(n: bv64)
    ensures var x := Swar64(n);
      Popcount64(n) as int == Byte(x, 0) as int + Byte(x, 8) as int + Byte(x, 16) as int + Byte(x, 24) as int
                            + Byte(x, 32) as int + Byte(x, 40) as int + Byte(x, 48) as int + Byte(x, 56) as int
  {
    var x := Swar64(n);
    assert Popcount64(n) == Fold64(x);
    Swar64Shape(n);
    Fold64Tree(x);
    SwarLanes(n);
    var b0, b1, b2, b3 := Byte(x, 0), Byte(x, 8), Byte(x, 16), Byte(x, 24);
    var b4, b5, b6, b7 := Byte(x, 32), Byte(x, 40), Byte(x, 48), Byte(x, 56);
    TreeAsInt8(b7, b6, b5, b4, b3, b2, b1, b0);
  }

  /** The byte counts of n add up to its number of set bits. */
  lemma ByteCounts64(n: bv64)
    ensures var x := Swar64(n);
      Byte(x, 0) as int + Byte(x, 8) as int + Byte(x, 16) as int + Byte(x, 24) as int
      + Byte(x, 32) as int + Byte(x, 40) as int + Byte(x, 48) as int + Byte(x, 56) as int == Ones64(n)
  {
    SwarLanes(n);
    Ones64ByBytes(n);
  }

  /** For every uint64 n, popcount64(n) is the number of set bits of n. */
  lemma {:induction false} Popcount64Correct(n: bv64)
    ensures Popcount64(n) as int == Ones64(n)
  {
    Popcount64Sums(n);
    ByteCounts64(n);
  }
}
