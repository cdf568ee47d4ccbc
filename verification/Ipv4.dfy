/** IPv4 addresses as unsigned 32-bit integers, CIDR blocks (prefix notation of
    section 3.1 of RFC 4632) and the hexadecimal object names built from them. */
module Ipv4 {

  const TWO32: int := 0x1_0000_0000

  type Addr = x: int | 0 <= x < 0x1_0000_0000

  function Pow2(n: nat): (r: nat)
    ensures r >= 1
  {
    if n == 0 then 1 else 2 * Pow2(n - 1)
  }

  /** Number of addresses in a block with the given prefix length. */
  function BlockSize(prefix: nat): (r: nat)
    requires prefix <= 32
    ensures r >= 1
  {
    Pow2(32 - prefix)
  }

  /** Go's uint32 addition. */
  function WrapAdd(a: int, b: int): (r: Addr)
    ensures 0 <= a + b < TWO32 ==> r == a + b
    ensures TWO32 <= a + b < 2 * TWO32 ==> r == a + b - TWO32
    ensures -TWO32 <= a + b < 0 ==> r == a + b + TWO32
  {
    (a + b) % TWO32
  }

  /** Go's `uint32(1) << s` for an unsigned shift count: bits pushed past the top are lost. */
  function ShiftOne(s: nat): (r: nat)
  {
    if s < 32 then Pow2(s) else 0
  }

  // ---------------------------------------------------------------- arithmetic

  lemma Pow2Add(a: nat, b: nat)
    ensures Pow2(a + b) == Pow2(a) * Pow2(b)
  {
    if a > 0 {
      Pow2Add(a - 1, b);
    }
  }

  lemma Pow2Is32()
    ensures Pow2(32) == TWO32
  {
    Pow2Add(16, 16);
    Pow2Add(8, 8);
    assert Pow2(8) == 256;
  }

  lemma QuotientUnique(d: nat, q: int, r: int, q': int, r': int)
    requires q * d + r == q' * d + r' && 0 <= r < d && 0 <= r' < d
    ensures q == q' && r == r'
  {
    if q < q' {
      assert (q' - q) * d == q' * d - q * d;
      MulMono(1, q' - q, d);
    } else if q > q' {
      assert (q - q') * d == q * d - q' * d;
      MulMono(1, q - q', d);
    }
  }

  lemma DivUnique(x: nat, d: nat, q: int, r: int)
    requires d > 0 && x == q * d + r && 0 <= r < d
    ensures x / d == q && x % d == r
  {
    DivParts(x, d);
    QuotientUnique(d, q, r, x / d, x % d);
  }

  lemma DivParts(x: nat, d: nat)
    requires d > 0
    ensures x == x / d * d + x % d && 0 <= x % d < d
  {
  }

  lemma RemainderBound(x: nat, d: nat)
    requires d > 0
    ensures 0 <= x % d <= x
  {
    DivParts(x, d);
    MulMono(0, x / d, d);
  }

  lemma MulMono(a: nat, b: nat, c: nat)
    requires a <= b
    ensures a * c <= b * c
  {
    assert (b - a) * c >= 0;
  }

  // ---------------------------------------------------------------- blocks

  /** First address of the block of `a` (the IP masked with the network mask). */
  function Masked(a: Addr, prefix: nat): (r: Addr)
    requires prefix <= 32
    ensures r <= a
  {
    RemainderBound(a, BlockSize(prefix));
    a - a % BlockSize(prefix)
  }

  /** `ipnet.Contains`: both addresses have the same first `prefix` bits. */
  predicate SameBlock(a: Addr, b: Addr, prefix: nat)
    requires prefix <= 32
  {
    a / BlockSize(prefix) == b / BlockSize(prefix)
  }

  predicate Aligned(a: Addr, prefix: nat)
    requires prefix <= 32
  {
    a % BlockSize(prefix) == 0
  }

  /** A block is exactly the interval of BlockSize addresses from its aligned base, and it
      does not run past the top of the address space. */
  lemma BlockIsInterval(base: Addr, a: Addr, prefix: nat)
    requires prefix <= 32 && Aligned(base, prefix)
    ensures base + BlockSize(prefix) <= TWO32
    ensures SameBlock(base, a, prefix) <==> base <= a < base + BlockSize(prefix)
  {
    var d, q := BlockSize(prefix), base / BlockSize(prefix);
    DivParts(base, d);
    BlockCount(prefix);
    BlockFits(q, d, Pow2(prefix));
    if base <= a < base + d {
      DivUnique(a, d, q, a - base);
    }
    DivParts(a, d);
  }

  lemma BlockCount(prefix: nat)
    requires prefix <= 32
    ensures Pow2(prefix) * BlockSize(prefix) == TWO32
  {
    Pow2Is32();
    Pow2Add(prefix, 32 - prefix);
  }

  lemma BlockFits(q: nat, d: nat, n: nat)
    requires d > 0 && q * d < n * d
    ensures q < n && q * d + d <= n * d
  {
    if q >= n {
      MulMono(n, q, d);
    }
    MulMono(q + 1, n, d);
    assert (q + 1) * d == q * d + d;
  }

  lemma MaskedIsAligned(a: Addr, prefix: nat)
    requires prefix <= 32
    ensures Aligned(Masked(a, prefix), prefix) && SameBlock(Masked(a, prefix), a, prefix)
  {
    var d := BlockSize(prefix);
    DivParts(a, d);
    DivUnique(Masked(a, prefix), d, a / d, 0);
  }

  /** A longer prefix only refines: alignment to the short one gives alignment to the long one,
      and a block of the long prefix stays inside one block of the short prefix. */
  lemma BlocksNest(p: nat, m: nat, base: Addr, a: Addr)
    requires p <= m <= 32
    ensures BlockSize(p) == Pow2(m - p) * BlockSize(m)
    ensures Aligned(base, p) ==> Aligned(base, m)
    ensures SameBlock(base, a, m) ==> SameBlock(base, a, p)
  {
    Pow2Add(m - p, 32 - m);
    var d, n := BlockSize(m), Pow2(m - p);
    DivDiv(base, d, n);
    DivDiv(a, d, n);
    if Aligned(base, p) {
      AlignedFiner(base, d, n);
    }
  }

  lemma AlignedFiner(x: nat, d: nat, n: nat)
    requires d > 0 && n > 0 && n * d > 0 && x % (n * d) == 0
    ensures x % d == 0
  {
    var q := x / (n * d);
    DivParts(x, n * d);
    assert q * (n * d) == (q * n) * d;
    DivUnique(x, d, q * n, 0);
  }

  lemma DivDiv(x: nat, d: nat, n: nat)
    requires d > 0 && n > 0
    ensures n * d > 0 && x / (n * d) == (x / d) / n
  {
    assert n * d > 0 by { MulMono(1, n, d); }
    var y, r := x / d, x % d;
    var z, s := y / n, y % n;
    assert x == y * d + r && y == z * n + s;
    assert x == z * (n * d) + (s * d + r) by {
      assert y * d == (z * n) * d + s * d;
    }
    MulMono(s, n - 1, d);
    assert (n - 1) * d == n * d - d;
    DivUnique(x, n * d, z, s * d + r);
  }

  // ---------------------------------------------------------------- names

  const HEX := "0123456789abcdef"

  /** The last `digits` hexadecimal digits of `x`, most significant first. */
  function Hex(x: nat, digits: nat): (s: string)
    ensures |s| == digits
  {
    if digits == 0 then "" else Hex(x / 16, digits - 1) + [HEX[x % 16]]
  }

  /** `ipToHex` on an IPv4 address. */
  function IpToHex(a: Addr): (s: string)
    ensures |s| == 8
  {
    Hex(a, 8)
  }

  /** A lower-case hexadecimal digit, and what it stands for. */
  predicate IsHexDigit(ch: char) { '0' <= ch <= '9' || 'a' <= ch <= 'f' }

  function DigitValue(ch: char): nat
    requires IsHexDigit(ch)
  {
    if '0' <= ch <= '9' then ch as int - '0' as int else ch as int - 'a' as int + 10
  }

  /** What a string of hexadecimal digits stands for, most significant first. */
  function HexValue(s: string): nat
    requires forall ch | ch in s :: IsHexDigit(ch)
  {
    if s == "" then 0 else 16 * HexValue(s[..|s| - 1]) + DigitValue(s[|s| - 1])
  }

  lemma DigitStandsFor(d: nat)
    requires d < 16
    ensures IsHexDigit(HEX[d]) && DigitValue(HEX[d]) == d
  {
  }

  lemma FirstDigitsBound(x: nat, n: nat)
    requires n > 0 && x < Pow2(4 * n)
    ensures x / 16 < Pow2(4 * (n - 1))
  {
    Pow2Add(4, 4 * (n - 1));
    assert Pow2(4) == 16;
  }

  lemma {:induction false} HexStandsFor(x: nat, digits: nat)
    requires x < Pow2(4 * digits)
    ensures (forall ch | ch in Hex(x, digits) :: IsHexDigit(ch)) && HexValue(Hex(x, digits)) == x
  {
    if digits > 0 {
      FirstDigitsBound(x, digits);
      HexStandsFor(x / 16, digits - 1);
      DigitStandsFor(x % 16);
      HexNext(x / 16, Hex(x / 16, digits - 1), x % 16);
    }
  }

  lemma HexNext(x: nat, first: string, d: nat)
    requires d < 16 && (forall ch | ch in first :: IsHexDigit(ch)) && HexValue(first) == x && IsHexDigit(HEX[d])
    requires DigitValue(HEX[d]) == d
    ensures (forall ch | ch in first + [HEX[d]] :: IsHexDigit(ch)) && HexValue(first + [HEX[d]]) == 16 * x + d
  {
    hide IsHexDigit, DigitValue;
    assert (first + [HEX[d]])[..|first|] == first;
  }

  /** The name suffix of an address is its eight lower-case hexadecimal digits. */
  lemma IpToHexValue(a: Addr)
    ensures (forall ch | ch in IpToHex(a) :: IsHexDigit(ch)) && HexValue(IpToHex(a)) == a
  {
    Pow2Is32();
    HexStandsFor(a, 8);
  }

  /** Two addresses with the same object-name suffix are the same address. */
  lemma IpToHexInjective(a: Addr, b: Addr)
    ensures IpToHex(a) == IpToHex(b) ==> a == b
  {
    hide IpToHex;
    IpToHexValue(a);
    IpToHexValue(b);
  }
}
