/**
  Cache geometry (the set count and the bit layout of an address) and the
  address decoder that splits a 32-bit address into a tag and a set index.
 */
module Geometry {
  import opened Bits

  /** An unsigned 32-bit address. */
  type Addr = a: nat | a < 0x1_0000_0000

  /**
    The per-cache descriptor: total size in bytes, associativity, number of
    sets, the number of block-offset bits (the shift applied after masking)
    and the mask that selects the set-index bits.
   */
  datatype CacheGeometry = CacheGeometry(
    size: nat,
    associativity: nat,
    nSets: nat,
    indexMaskOffset: nat,
    indexMask: nat)

  /**
    What the geometry arithmetic needs: a power-of-two block size, at least
    one way, room for at least one set, and a size that fits a C int.
   */
  predicate ValidShape(size: int, blockSize: int, assoc: int) {
    blockSize >= 1 && IsPow2(blockSize) && assoc >= 1 && size >= 1 &&
    blockSize * assoc <= size < 0x8000_0000
  }

  /** Number of set-index bits: the ceiling of log2 of the set count. */
  function IndexBits(g: CacheGeometry): nat {
    CeilLog2(g.nSets)
  }

  /**
    g is a well-formed descriptor for blocks of blockSize bytes: the offset
    is log2 of the block size, index and offset fit in 31 bits, and the mask
    selects exactly the index bits above the block offset.
   */
  predicate Consistent(g: CacheGeometry, blockSize: nat) {
    g.nSets >= 1 && g.associativity >= 1 &&
    blockSize >= 1 && IsPow2(blockSize) &&
    g.indexMaskOffset == Log2(blockSize) &&
    IndexBits(g) + g.indexMaskOffset <= 31 &&
    g.indexMask == RangeMask(g.indexMaskOffset, IndexBits(g) + g.indexMaskOffset)
  }

  /**
    Derives a cache's geometry from its size, block size and associativity:
    the set count is size / (blockSize * assoc), the offset is log2 of the
    block size, and the mask is ((1 << (index + offset bits)) - 1) with the
    offset bits cleared (& ~(blockSize - 1)).
   */
  function InitCacheHelper(size: int, blockSize: int, assoc: int): (g: CacheGeometry)
    requires ValidShape(size, blockSize, assoc)
  {
    var nSets := size / (blockSize * assoc);
    var offset := Log2(blockSize);
    var indexPlusOffset := CeilLog2(nSets) + offset;
    IndexFitsInt(size, blockSize, assoc);
    CacheGeometry(size, assoc, nSets, offset,
                  BitAnd(Pow2(indexPlusOffset) - 1, Not32(blockSize - 1)))
  }

  /**
    The derived geometry has as many sets as whole sets of assoc blocks fit
    in the cache (at least one), and it is consistent: the mask selects
    exactly the index bits above the block offset.
   */
  lemma InitCacheHelperGeometry(size: int, blockSize: int, assoc: int)
    requires ValidShape(size, blockSize, assoc)
    ensures var g := InitCacheHelper(size, blockSize, assoc);
      g.size == size && g.associativity == assoc &&
      g.nSets * (blockSize * assoc) <= size < (g.nSets + 1) * (blockSize * assoc) &&
      Consistent(g, blockSize)
  {
    IndexFitsInt(size, blockSize, assoc);
    InitCacheHelperMask(size, blockSize, assoc);
  }

  lemma InitCacheHelperMask(size: int, blockSize: int, assoc: int)
    requires ValidShape(size, blockSize, assoc)
    ensures var g := InitCacheHelper(size, blockSize, assoc);
      g.indexMask == RangeMask(g.indexMaskOffset, IndexBits(g) + g.indexMaskOffset)
  {
    var nSets := size / (blockSize * assoc);
    var o := Log2(blockSize);
    var k := CeilLog2(nSets) + o;
    IndexFitsInt(size, blockSize, assoc);
    assert blockSize < 0x8000_0000 by { MulLeft(1, assoc, blockSize); }
    var mask := BitAnd(Pow2(k) - 1, Not32(blockSize - 1));
    assert InitCacheHelper(size, blockSize, assoc) == CacheGeometry(size, assoc, nSets, o, mask);
    MaskSelectsIndexBits(blockSize, k);
  }

  /**
    The set count of a valid shape is the number of whole sets that fit,
    at least one, and its index bits plus the offset bits fit in 31 bits.
   */
  lemma IndexFitsInt(size: int, blockSize: int, assoc: int)
    requires ValidShape(size, blockSize, assoc)
    ensures var n := size / (blockSize * assoc);
      n >= 1 && n * (blockSize * assoc) <= size < (n + 1) * (blockSize * assoc) &&
      CeilLog2(n) + Log2(blockSize) <= 31
  {
    var d := blockSize * assoc;
    var n := size / d;
    MulLeft(1, assoc, blockSize);
    WholeSets(size, d);
    FewerWays(blockSize, assoc, n, size);
    IndexBitsBound(n, blockSize, size);
  }

  lemma WholeSets(size: nat, d: nat)
    requires 1 <= d <= size
    ensures var n := size / d;
      n >= 1 && n * d <= size < (n + 1) * d
  {
    var n := size / d;
    DivModSplit(size, d);
    Distribute(n, 1, d);
    MulAtLeast(n, d);
  }

  lemma FewerWays(blockSize: nat, assoc: nat, n: nat, size: nat)
    requires assoc >= 1 && n * (blockSize * assoc) <= size
    ensures blockSize * n <= size
  {
    MulLeft(1, assoc, blockSize);
    MulLeft(blockSize, blockSize * assoc, n);
  }

  lemma IndexBitsBound(n: nat, blockSize: nat, size: nat)
    requires n >= 1 && blockSize >= 1 && IsPow2(blockSize)
    requires blockSize * n <= size < 0x8000_0000
    ensures CeilLog2(n) + Log2(blockSize) <= 31
  {
    var k := CeilLog2(n) + Log2(blockSize);
    assert Pow2(k) < WORD_RANGE by {
      var p := Pow2(CeilLog2(n));
      Pow2Add(CeilLog2(n), Log2(blockSize));
      CeilLog2Below(n);
      BelowTwiceBlocks(n, p, blockSize, size);
    }
    if k >= 32 {
      Pow2Monotone(32, k);
      Pow2Of32();
    }
  }

  /** Fewer than 2n blocks of b bytes, where n blocks fit below 2^31, fit below 2^32. */
  lemma BelowTwiceBlocks(n: nat, p: nat, b: nat, size: nat)
    requires n >= 1 && p < 2 * n && b * n <= size < 0x8000_0000
    ensures p * b < WORD_RANGE
  {
    MulLeft(p, 2 * n - 1, b);
    TwiceLess(n, b);
    assert n * b == b * n;
  }

  lemma Pow2Of32()
    ensures Pow2(32) == WORD_RANGE
  {
    assert Pow2(8) == 256;
    assert Pow2(16) == 0x1_0000 by {
      Pow2Add(8, 8);
    }
    Pow2Add(16, 16);
  }

  lemma Pow2Of30()
    ensures Pow2(30) == 0x4000_0000
  {
    Pow2Of32();
    assert Pow2(32) == 4 * Pow2(30);
  }

  /**
    The shift 1 << k of the mask, k being the index bits plus the offset
    bits, stays within a signed 32-bit int (k <= 30) exactly when one way of
    the cache, n blocks, takes at most 2^30 bytes. For a larger way k is 31,
    and 1 << 31 overflows the int.
   */
  lemma ShiftFitsInt(n: nat, blockSize: nat)
    requires n >= 1 && IsPow2(blockSize)
    ensures CeilLog2(n) + Log2(blockSize) <= 30 <==> n * blockSize <= 0x4000_0000
  {
    var c, o := CeilLog2(n), Log2(blockSize);
    Pow2Of30();
    if c + o <= 30 {
      Pow2Add(c, o);
      Pow2Monotone(c + o, 30);
      WayAtMost(n, Pow2(c), blockSize, Pow2(c + o));
    } else if c == 0 {
      Pow2Monotone(31, o);
      MulLeft(1, n, blockSize);
    } else {
      Pow2Add(c - 1, o);
      Pow2Monotone(30, c - 1 + o);
      WayAbove(n, Pow2(c - 1), blockSize, Pow2(c - 1 + o));
    }
  }

  lemma WayAtMost(n: nat, p: nat, b: nat, q: nat)
    requires n <= p && p * b == q && q <= 0x4000_0000
    ensures n * b <= 0x4000_0000
  {
    MulLeft(n, p, b);
  }

  lemma WayAbove(n: nat, p: nat, b: nat, q: nat)
    requires p < n && b >= 1 && p * b == q && q >= 0x4000_0000
    ensures n * b > 0x4000_0000
  {
    MulLeft(p + 1, n, b);
    Distribute(p, 1, b);
  }

  /** ((1 << k) - 1) & ~(blockSize - 1) keeps exactly bits log2(blockSize) .. k - 1. */
  lemma MaskSelectsIndexBits(blockSize: nat, k: nat)
    requires 1 <= blockSize < 0x8000_0000 && IsPow2(blockSize) && Log2(blockSize) <= k <= 31
    ensures BitAnd(Pow2(k) - 1, Not32(blockSize - 1)) == RangeMask(Log2(blockSize), k)
  {
    Pow2Of32();
    assert Not32(blockSize - 1) == RangeMask(Log2(blockSize), 32);
    BitAndOnesRange(k, 32, Log2(blockSize));
  }

  // ---------------------------------------------------------------------
  // Address decoder

  /** A decoded address: the tag and the set it maps to. */
  datatype Decoded = Decoded(tag: nat, index: nat)

  /**
    The tag is the address shifted right past the index and offset bits;
    the index is the masked address shifted right past the offset bits,
    reduced modulo the set count. It always names an existing set.
   */
  function Decode(g: CacheGeometry, blockSize: nat, addr: Addr): (d: Decoded)
    requires g.nSets >= 1
    ensures d.index < g.nSets
  {
    var shift := Pow2(CeilLog2(g.nSets) + Log2(blockSize));
    var masked := BitAnd(addr, g.indexMask);
    DivModBounds(addr, shift);
    DivModBounds(masked, Pow2(g.indexMaskOffset));
    var field := masked / Pow2(g.indexMaskOffset);
    DivModBounds(field, g.nSets);
    Decoded(addr / shift, field % g.nSets)
  }

  /**
    Decoding depends on the block number addr / blockSize only: the index
    is its low index bits reduced modulo the set count, the tag the rest.
   */
  lemma DecodeOfBlock(g: CacheGeometry, blockSize: nat, addr: Addr)
    requires Consistent(g, blockSize)
    ensures Decode(g, blockSize, addr).index == (addr / blockSize) % Pow2(IndexBits(g)) % g.nSets
    ensures Decode(g, blockSize, addr).tag == (addr / blockSize) / Pow2(IndexBits(g))
  {
    var d := Decode(g, blockSize, addr);
    var field := BitAnd(addr, g.indexMask) / Pow2(g.indexMaskOffset);
    assert d.index == field % g.nSets && d.tag == addr / Pow2(IndexBits(g) + Log2(blockSize));
    IndexOfBlock(g, blockSize, addr);
    TagOfBlock(g, blockSize, addr);
  }

  lemma IndexOfBlock(g: CacheGeometry, blockSize: nat, addr: Addr)
    requires Consistent(g, blockSize)
    ensures BitAnd(addr, g.indexMask) / Pow2(g.indexMaskOffset) == (addr / blockSize) % Pow2(IndexBits(g))
  {
    var ob := g.indexMaskOffset;
    BitAndField(addr, IndexBits(g) + ob, ob);
  }

  lemma TagOfBlock(g: CacheGeometry, blockSize: nat, addr: Addr)
    requires Consistent(g, blockSize)
    ensures addr / Pow2(IndexBits(g) + Log2(blockSize)) == (addr / blockSize) / Pow2(IndexBits(g))
  {
    var ib, ob := IndexBits(g), Log2(blockSize);
    Pow2Add(ib, ob);
    ShiftBy(addr, Pow2(ib + ob), Pow2(ib), Pow2(ob));
  }

  /** Shifting right by i + o bits is shifting by o bits, then by i bits. */
  lemma ShiftBy(addr: nat, pio: nat, pi: nat, po: nat)
    requires pi >= 1 && po >= 1 && pio == pi * po
    ensures addr / pio == addr / po / pi
  {
    DivDiv(addr, po, pi);
  }

  /** Two addresses in the same block (differing only in the offset bits) decode alike. */
  lemma SameBlockSameDecode(g: CacheGeometry, blockSize: nat, a: Addr, b: Addr)
    requires Consistent(g, blockSize)
    requires a / blockSize == b / blockSize
    ensures Decode(g, blockSize, a) == Decode(g, blockSize, b)
  {
    DecodeOfBlock(g, blockSize, a);
    DecodeOfBlock(g, blockSize, b);
  }

  /**
    With a power-of-two set count the decoder is a bijection on blocks:
    the block number is tag * nSets + index.
   */
  lemma {:induction false} BlockFromDecode(g: CacheGeometry, blockSize: nat, addr: Addr)
    requires Consistent(g, blockSize) && IsPow2(g.nSets)
    ensures var d := Decode(g, blockSize, addr);
      d.index == (addr / blockSize) % g.nSets &&
      addr / blockSize == d.tag * g.nSets + d.index
  {
    var d := Decode(g, blockSize, addr);
    DivModBounds(addr, blockSize);
    var blk := addr / blockSize;
    assert d.index == blk % g.nSets % g.nSets && d.tag == blk / g.nSets by {
      DecodeOfBlock(g, blockSize, addr);
      CeilLog2OfPow2(g.nSets);
    }
    ModOfRemainder(blk, g.nSets);
    DivModSplit(blk, g.nSets);
  }

  lemma ModOfRemainder(x: nat, n: nat)
    requires n > 0
    ensures x % n % n == x % n
  {
    DivModUnique(x % n, n, 0, x % n);
  }

  /** With a power-of-two set count, equal decodings mean the same block, and conversely. */
  lemma DecodeIdentifiesBlock(g: CacheGeometry, blockSize: nat, a: Addr, b: Addr)
    requires Consistent(g, blockSize) && IsPow2(g.nSets)
    ensures Decode(g, blockSize, a) == Decode(g, blockSize, b) <==> a / blockSize == b / blockSize
  {
    BlockFromDecode(g, blockSize, a);
    BlockFromDecode(g, blockSize, b);
    if a / blockSize == b / blockSize {
      SameBlockSameDecode(g, blockSize, a, b);
    }
  }

  /**
    Without a power-of-two set count the decoder is not one to one: block 0
    and block nSets both decode to tag 0 in set 0, so a reference to one of
    them right after the other counts as a hit.
   */
  lemma NonPow2SetsAlias(g: CacheGeometry, blockSize: nat)
    requires Consistent(g, blockSize) && !IsPow2(g.nSets)
    ensures g.nSets * blockSize < 0x1_0000_0000
    ensures (g.nSets * blockSize) / blockSize != 0 / blockSize
    ensures Decode(g, blockSize, 0) == Decode(g, blockSize, g.nSets * blockSize)
  {
    var n, c, o := g.nSets, IndexBits(g), Log2(blockSize);
    var p := Pow2(c);
    assert n < p by {
      NotPow2Below(n);
    }
    assert n * blockSize < 0x1_0000_0000 by {
      AddressOfBlock(n, p, blockSize, c, o);
    }
    var a: Addr := n * blockSize;
    assert a / blockSize == n && 0 / blockSize == 0 by {
      BlockNSharesSetZero(a, blockSize, n, p);
    }
    assert Decode(g, blockSize, 0) == Decode(g, blockSize, a) by {
      BlockNSharesSetZero(a, blockSize, n, p);
      SameFieldsSameDecode(g, blockSize, 0, a);
    }
  }

  /** Two addresses whose block numbers agree in the index field modulo the set count and in the tag decode alike. */
  lemma SameFieldsSameDecode(g: CacheGeometry, blockSize: nat, a: Addr, b: Addr)
    requires Consistent(g, blockSize)
    requires (a / blockSize) % Pow2(IndexBits(g)) % g.nSets == (b / blockSize) % Pow2(IndexBits(g)) % g.nSets
    requires (a / blockSize) / Pow2(IndexBits(g)) == (b / blockSize) / Pow2(IndexBits(g))
    ensures Decode(g, blockSize, a) == Decode(g, blockSize, b)
  {
    DecodeOfBlock(g, blockSize, a);
    DecodeOfBlock(g, blockSize, b);
  }

  /** A set count that is not a power of two lies strictly below the next power of two. */
  lemma NotPow2Below(n: nat)
    requires !IsPow2(n)
    ensures n < Pow2(CeilLog2(n))
  {
    if n == Pow2(CeilLog2(n)) {
      LogOfPow2(CeilLog2(n));
    }
  }

  /** Block n, with 1 <= n < p, lands like block 0: tag 0, set 0 of n. */
  lemma BlockNSharesSetZero(a: nat, blockSize: nat, n: nat, p: nat)
    requires 1 <= n < p && blockSize >= 1 && a == n * blockSize
    ensures a / blockSize == n && 0 / blockSize == 0
    ensures n % p % n == 0 && n / p == 0 && 0 % p % n == 0 && 0 / p == 0
  {
    DivModUnique(a, blockSize, n, 0);
    DivModUnique(n, p, 0, n);
    DivModUnique(n, n, 1, 0);
    DivModUnique(0, p, 0, 0);
    DivModUnique(0, n, 0, 0);
    DivModUnique(0, blockSize, 0, 0);
  }

  /** The first byte of block n, with n below 2^c and c + o at most 31, is a 32-bit address. */
  lemma AddressOfBlock(n: nat, p: nat, blockSize: nat, c: nat, o: nat)
    requires n < p == Pow2(c) && blockSize == Pow2(o) && c + o <= 31
    ensures n * blockSize < 0x1_0000_0000
  {
    Pow2Add(c, o);
    Pow2Monotone(c + o, 31);
    Pow2Of32();
    MulLeft(n, p, blockSize);
  }
}
