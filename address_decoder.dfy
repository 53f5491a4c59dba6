/** Splitting a 64-bit address into tag bits and set-index bits. The address is
    treated as an unsigned number below 2^64; shifts become divisions by powers
    of two and masks become remainders. */
module AddressDecoder {

  const ADDRESS_BITS: nat := 64
  /** 2^64: every address of the trace is below it. */
  const ADDRESS_LIMIT: nat := 0x1_0000_0000_0000_0000

  function Pow2(n: nat): (r: nat)
    ensures r >= 1
  {
    if n == 0 then 1 else 2 * Pow2(n - 1)
  }

  /** The tag: the 64 - sbits - bbits bits above the set index. */
  function FindTag(address: nat, sbits: nat, bbits: nat): (tag: nat)
    requires sbits + bbits <= ADDRESS_BITS
    ensures tag < Pow2(ADDRESS_BITS - sbits - bbits)
  {
    (address / Pow2(sbits + bbits)) % Pow2(ADDRESS_BITS - sbits - bbits)
  }

  /** The set index: the sbits bits just above the block offset. */
  function FindSet(address: nat, sbits: nat, bbits: nat): (setNumber: nat)
    ensures setNumber < Pow2(sbits)
  {
    (address / Pow2(bbits)) % Pow2(sbits)
  }

  /** The block number: the address with its block-offset bits shifted out. */
  function BlockNumber(address: nat, bbits: nat): nat {
    DivNonNegative(address, Pow2(bbits));
    address / Pow2(bbits)
  }

  lemma DivNonNegative(x: nat, d: nat)
    requires d > 0
    ensures x / d >= 0
  {
    assert x == d * (x / d) + x % d;
    MulMono(d, x / d, -1);
  }

  lemma {:induction false} Pow2Add(a: nat, b: nat)
    ensures Pow2(a + b) == Pow2(a) * Pow2(b)
  {
    if a > 0 {
      Pow2Add(a - 1, b);
      assert Pow2(a + b) == 2 * Pow2(a - 1 + b);
    }
  }

  lemma AddressLimitIsPow2()
    ensures Pow2(ADDRESS_BITS) == ADDRESS_LIMIT
  {
    assert Pow2(8) == 0x100;
    Pow2Add(8, 8);
    Pow2Add(16, 16);
    Pow2Add(32, 32);
  }

  lemma MulMono(d: int, a: int, b: int)
    requires d > 0
    ensures a <= b ==> d * a <= d * b
  {
    if a <= b {
      assert d * b - d * a == d * (b - a);
    }
  }

  lemma DivModUnique(x: int, d: int, q: int, r: int)
    requires d > 0 && 0 <= r < d && x == d * q + r
    ensures x / d == q && x % d == r
  {
    var k := x / d - q;
    assert d * k == r - x % d;
    MulMono(d, 1, k);
    MulMono(d, k, -1);
  }

  lemma ModSmall(x: nat, n: nat)
    requires x < n
    ensures x % n == x
  {
    DivModUnique(x, n, 0, x);
  }

  lemma DivDiv(x: nat, m: nat, n: nat)
    requires m > 0 && n > 0
    ensures x / m / n == x / (m * n)
  {
    var q, r := x / m, x % m;
    var q2, r2 := q / n, q % n;
    assert x == m * q + r;
    assert q == n * q2 + r2;
    MulDistrib(m, n * q2, r2);
    assert m * (n * q2) == (m * n) * q2;
    assert x == (m * n) * q2 + (m * r2 + r);
    assert m * r2 + r < m * n by {
      MulMono(m, r2, n - 1);
      MulDistrib(m, n - 1, 1);
    }
    MulNonNegative(m, r2);
    DivModUnique(x, m * n, q2, m * r2 + r);
  }

  lemma MulDistrib(d: int, a: int, b: int)
    ensures d * (a + b) == d * a + d * b
  {
  }

  lemma MulNonNegative(a: nat, b: nat)
    ensures a * b >= 0
  {
  }

  lemma DivBound(x: nat, m: nat, n: nat)
    requires m > 0 && n > 0 && x < m * n
    ensures x / m < n
  {
    assert x == m * (x / m) + x % m;
    MulMono(m, n, x / m);
  }

  /** Shifting out sbits + bbits bits is shifting out bbits bits and then sbits bits. */
  lemma TagShift(address: nat, sbits: nat, bbits: nat)
    ensures address / Pow2(sbits + bbits) == BlockNumber(address, bbits) / Pow2(sbits)
  {
    Pow2Add(bbits, sbits);
    DivDiv(address, Pow2(bbits), Pow2(sbits));
  }

  /** A 64-bit address has a block number of at most 64 - bbits bits. */
  lemma BlockNumberBound(address: nat, bbits: nat)
    requires bbits <= ADDRESS_BITS && address < ADDRESS_LIMIT
    ensures BlockNumber(address, bbits) < Pow2(ADDRESS_BITS - bbits)
  {
    AddressLimitIsPow2();
    Pow2Add(bbits, ADDRESS_BITS - bbits);
    DivBound(address, Pow2(bbits), Pow2(ADDRESS_BITS - bbits));
  }

  /** A number below low * high splits into a high part and a low part. */
  lemma SplitBelow(x: nat, low: nat, high: nat)
    requires low > 0 && high > 0 && x < low * high
    ensures x == (x / low) % high * low + x % low
  {
    DivBound(x, low, high);
    ModSmall(x / low, high);
    assert x == low * (x / low) + x % low;
  }

  /** Tag and set index together are the block number, split at bit sbits. */
  lemma {:induction false} DecodeSplitsBlockNumber(address: nat, sbits: nat, bbits: nat)
    requires sbits + bbits <= ADDRESS_BITS && address < ADDRESS_LIMIT
    ensures BlockNumber(address, bbits)
         == FindTag(address, sbits, bbits) * Pow2(sbits) + FindSet(address, sbits, bbits)
  {
    var block := BlockNumber(address, bbits);
    var low, high := Pow2(sbits), Pow2(ADDRESS_BITS - sbits - bbits);
    assert block < low * high by {
      BlockNumberBound(address, bbits);
      Pow2Add(sbits, ADDRESS_BITS - sbits - bbits);
      assert ADDRESS_BITS - bbits == sbits + (ADDRESS_BITS - sbits - bbits);
    }
    SplitBelow(block, low, high);
    TagShift(address, sbits, bbits);
  }

  /** Tag and set index depend on the address only through its block number,
      and they determine the block number: two addresses decode alike exactly
      when they lie in the same block. */
  lemma {:induction false} DecodeDeterminesBlock(a1: nat, a2: nat, sbits: nat, bbits: nat)
    requires sbits + bbits <= ADDRESS_BITS && a1 < ADDRESS_LIMIT && a2 < ADDRESS_LIMIT
    ensures FindTag(a1, sbits, bbits) == FindTag(a2, sbits, bbits)
            && FindSet(a1, sbits, bbits) == FindSet(a2, sbits, bbits)
        <==> BlockNumber(a1, bbits) == BlockNumber(a2, bbits)
  {
    DecodeSplitsBlockNumber(a1, sbits, bbits);
    DecodeSplitsBlockNumber(a2, sbits, bbits);
    TagShift(a1, sbits, bbits);
    TagShift(a2, sbits, bbits);
  }

  /** With no set-index and no block-offset bits the tag is the whole address
      and there is a single set. */
  lemma DecodeWithoutSetOrBlockBits(address: nat)
    requires address < ADDRESS_LIMIT
    ensures FindTag(address, 0, 0) == address && FindSet(address, 0, 0) == 0
  {
    AddressLimitIsPow2();
    ModSmall(address, Pow2(ADDRESS_BITS));
  }
}
