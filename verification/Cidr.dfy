/**
 CIDR blocks as the bypass policy keeps them: sixteen address bytes and a prefix length. A block
 denotes the addresses whose leading bits agree with it (RFC 4632 section 3.1, RFC 4291 section 2.3).
 */
module Cidrs {
  datatype Family = Inet4 | Inet6

  function Width(f: Family): nat { if f.Inet4? then 32 else 128 }

  function ByteCount(f: Family): nat { if f.Inet4? then 4 else 16 }

  datatype BinaryCidr = BinaryCidr(family: Family, address: seq<bv8>, prefix: nat)

  predicate WellFormed(c: BinaryCidr) {
    && |c.address| == 16 && c.prefix <= Width(c.family)
    && forall i | ByteCount(c.family) <= i < 16 :: c.address[i] == 0
  }

  // ----- bits and values

  /** Bit k of a byte, the most significant one first. */
  predicate ByteBit(b: bv8, k: nat)
    requires k < 8
  {
    BitAt(b, k) == 1
  }

  function BitAt(b: bv8, k: nat): (bit: bv8)
    requires k < 8
    ensures bit == 0 || bit == 1
  {
    (b >> (7 - k)) & 1
  }

  predicate AddressBit(address: seq<bv8>, i: nat)
    requires i / 8 < |address|
  {
    ByteBit(address[i / 8], i % 8)
  }

  function Bits(c: BinaryCidr): (bits: seq<bool>)
    requires WellFormed(c)
    ensures |bits| == Width(c.family)
  {
    seq(Width(c.family), i requires 0 <= i < Width(c.family) => AddressBit(c.address, i))
  }

  function Pow2(n: nat): (p: nat)
    ensures p > 0
  {
    if n == 0 then 1 else 2 * Pow2(n - 1)
  }

  function Digit(b: bool): nat { if b then 1 else 0 }

  /** The number that the bits write, most significant first. */
  function Value(bits: seq<bool>): nat {
    if bits == [] then 0 else 2 * Value(bits[..|bits| - 1]) + Digit(bits[|bits| - 1])
  }

  lemma {:induction false} ValueBound(bits: seq<bool>)
    ensures Value(bits) < Pow2(|bits|)
  {
    if bits != [] {
      ValueBound(bits[..|bits| - 1]);
    }
  }

  lemma {:induction false} ValueInjective(x: seq<bool>, y: seq<bool>)
    requires |x| == |y| && Value(x) == Value(y)
    ensures x == y
  {
    if x != [] {
      var m := |x| - 1;
      ValueInjective(x[..m], y[..m]);
      assert x == x[..m] + [x[m]] && y == y[..m] + [y[m]];
    }
  }

  function ToBits(v: nat, n: nat): (bits: seq<bool>)
    requires v < Pow2(n)
    ensures |bits| == n && Value(bits) == v
  {
    if n == 0 then []
    else
      var bits := ToBits(v / 2, n - 1) + [v % 2 == 1];
      assert bits[..n - 1] == ToBits(v / 2, n - 1);
      bits
  }

  lemma DivideTwice(v: nat, k: nat)
    ensures v / 2 / Pow2(k) == v / Pow2(k + 1)
  {
    var p := Pow2(k);
    var q, r := v / 2 / p, v / 2 % p;
    assert v / 2 == p * q + r;
    assert 2 * (p * q) == (2 * p) * q;
    QuotientUnique(v, 2 * p, q, 2 * r + v % 2);
  }

  lemma QuotientUnique(v: nat, d: nat, q: nat, r: nat)
    requires d > 0 && v == d * q + r && r < d
    ensures v / d == q && v % d == r
  {
    var k: int := v / d - q;
    assert v == d * (v / d) + v % d;
    assert d * k == r - v % d by {
      assert d * (v / d) == d * q + d * k;
    }
    assert k > 0 ==> d * k >= d;
    assert k < 0 ==> d * k <= -(d as int);
  }

  /** Dropping the last bits divides by a power of two. */
  lemma {:induction false} ValueOfPrefix(bits: seq<bool>, p: nat)
    requires p <= |bits|
    ensures Value(bits[..p]) == Value(bits) / Pow2(|bits| - p)
    decreases |bits|
  {
    if p == |bits| {
      assert bits[..p] == bits;
    } else {
      var shorter := bits[..|bits| - 1];
      ValueOfPrefix(shorter, p);
      assert shorter[..p] == bits[..p];
      assert Value(bits) / 2 == Value(shorter);
      DivideTwice(Value(bits), |bits| - 1 - p);
    }
  }

  lemma SameQuotientIffSamePrefix(x: seq<bool>, y: seq<bool>, p: nat)
    requires |x| == |y| && p <= |x|
    ensures Value(x) / Pow2(|x| - p) == Value(y) / Pow2(|x| - p) <==> x[..p] == y[..p]
  {
    ValueOfPrefix(x, p);
    ValueOfPrefix(y, p);
    if Value(x[..p]) == Value(y[..p]) {
      ValueInjective(x[..p], y[..p]);
    }
  }

  // ----- what a block denotes

  datatype Address = Address(family: Family, value: nat)

  predicate IsAddress(a: Address) { a.value < Pow2(Width(a.family)) }

  /** Membership by the numeric definition: the address and the block agree after dropping the host bits. */
  predicate Covers(c: BinaryCidr, a: Address)
    requires WellFormed(c)
  {
    && a.family == c.family && IsAddress(a)
    && a.value / Pow2(Width(c.family) - c.prefix) == Value(Bits(c)) / Pow2(Width(c.family) - c.prefix)
  }

  predicate Agree(x: seq<bool>, y: seq<bool>, p: nat)
    requires p <= |x| && p <= |y|
  {
    forall i | 0 <= i < p :: x[i] == y[i]
  }

  lemma CoversByBits(c: BinaryCidr, a: Address)
    requires WellFormed(c) && a.family == c.family && IsAddress(a)
    ensures Covers(c, a) <==> Agree(ToBits(a.value, Width(c.family)), Bits(c), c.prefix)
  {
    var x, y := ToBits(a.value, Width(c.family)), Bits(c);
    SameQuotientIffSamePrefix(x, y, c.prefix);
    if x[..c.prefix] == y[..c.prefix] {
      assert forall i | 0 <= i < c.prefix :: x[i] == x[..c.prefix][i] == y[..c.prefix][i] == y[i];
    }
    if Agree(x, y, c.prefix) {
      assert x[..c.prefix] == y[..c.prefix];
    }
  }

  function AddressOf(f: Family, bits: seq<bool>): (a: Address)
    requires |bits| == Width(f)
    ensures a.family == f && IsAddress(a) && ToBits(a.value, Width(f)) == bits
  {
    ValueBound(bits);
    ValueInjective(ToBits(Value(bits), Width(f)), bits);
    Address(f, Value(bits))
  }

  predicate Contains(outer: BinaryCidr, inner: BinaryCidr)
    requires WellFormed(outer) && WellFormed(inner)
  {
    && outer.family == inner.family && outer.prefix <= inner.prefix
    && Agree(Bits(outer), Bits(inner), outer.prefix)
  }

  /** The bit-by-bit comparison of two blocks. */
  method ContainsCidr(outer: BinaryCidr, inner: BinaryCidr) returns (contained: bool)
    requires WellFormed(outer) && WellFormed(inner)
    ensures contained == Contains(outer, inner)
  {
    if outer.family != inner.family || outer.prefix > inner.prefix {
      return false;
    }
    for bit := 0 to outer.prefix
      invariant Agree(Bits(outer), Bits(inner), bit)
    {
      if BitAt(outer.address[bit / 8], bit % 8) != BitAt(inner.address[bit / 8], bit % 8) {
        assert Bits(outer)[bit] != Bits(inner)[bit];
        return false;
      }
    }
    contained := true;
  }

  /** containsCidr(outer, inner) holds exactly when every address of inner is in outer. */
  lemma ContainsIffSubset(outer: BinaryCidr, inner: BinaryCidr)
    requires WellFormed(outer) && WellFormed(inner)
    ensures Contains(outer, inner) <==> forall a | Covers(inner, a) :: Covers(outer, a)
  {
    if Contains(outer, inner) {
      forall a | Covers(inner, a)
        ensures Covers(outer, a)
      {
        CoversByBits(inner, a);
        CoversByBits(outer, a);
      }
    } else {
      var a := AddressOutside(outer, inner);
    }
  }

  lemma AddressOutside(outer: BinaryCidr, inner: BinaryCidr) returns (a: Address)
    requires WellFormed(outer) && WellFormed(inner) && !Contains(outer, inner)
    ensures Covers(inner, a) && !Covers(outer, a)
  {
    var bits := Bits(inner);
    a := AddressOf(inner.family, bits);
    CoversByBits(inner, a);
    if outer.family == inner.family {
      CoversByBits(outer, a);
      if Agree(bits, Bits(outer), outer.prefix) {
        var flipped := bits[inner.prefix := !bits[inner.prefix]];
        a := AddressOf(inner.family, flipped);
        CoversByBits(inner, a);
        CoversByBits(outer, a);
        assert flipped[inner.prefix] != Bits(outer)[inner.prefix];
      }
    }
  }

  ghost predicate Meet(c: BinaryCidr, d: BinaryCidr)
    requires WellFormed(c) && WellFormed(d)
  {
    exists a :: Covers(c, a) && Covers(d, a)
  }

  lemma SharedAddressNests(c: BinaryCidr, d: BinaryCidr, a: Address)
    requires WellFormed(c) && WellFormed(d) && Covers(c, a) && Covers(d, a)
    ensures Contains(c, d) || Contains(d, c)
  {
    CoversByBits(c, a);
    CoversByBits(d, a);
  }

  lemma NestedMeets(outer: BinaryCidr, inner: BinaryCidr)
    requires WellFormed(outer) && WellFormed(inner) && Contains(outer, inner)
    ensures Meet(outer, inner)
  {
    var a := AddressOf(inner.family, Bits(inner));
    CoversByBits(inner, a);
    CoversByBits(outer, a);
    assert Covers(outer, a) && Covers(inner, a);
  }

  /** Any two blocks are nested or disjoint. */
  lemma NestedOrDisjoint(c: BinaryCidr, d: BinaryCidr)
    requires WellFormed(c) && WellFormed(d)
    ensures Meet(c, d) <==> Contains(c, d) || Contains(d, c)
  {
    if Contains(c, d) {
      NestedMeets(c, d);
    } else if Contains(d, c) {
      NestedMeets(d, c);
      var a :| Covers(d, a) && Covers(c, a);
      assert Meet(c, d);
    } else if Meet(c, d) {
      var a :| Covers(c, a) && Covers(d, a);
      SharedAddressNests(c, d, a);
      assert false;
    }
  }

  // ----- the address space of the TUN interface

  const TUN_PREFIX: seq<bv8> := [198, 18]
  const TUN_PREFIX_BITS := 15

  const TUN_SPACE := BinaryCidr(Inet4, TUN_PREFIX + [0, 0, 0, 0, 0, 0, 0, 0, 0, 0, 0, 0, 0, 0], TUN_PREFIX_BITS)

  lemma TunSpaceBits()
    ensures WellFormed(TUN_SPACE)
    ensures forall i | 0 <= i < TUN_PREFIX_BITS :: Bits(TUN_SPACE)[i] == AddressBit(TUN_PREFIX, i)
  {
  }

  lemma BitOf(c: BinaryCidr, i: nat)
    requires WellFormed(c) && i < Width(c.family)
    ensures Bits(c)[i] == ByteBit(c.address[i / 8], i % 8)
  {
  }

  /** The comparison of the bits shared with 198.18.0.0/15. */
  method OverlapsTunAddressSpace(c: BinaryCidr) returns (overlaps: bool)
    requires WellFormed(c)
    ensures overlaps <==> Meet(c, TUN_SPACE)
  {
    if c.family != Inet4 {
      NestedOrDisjoint(c, TUN_SPACE);
      return false;
    }
    var sharedPrefix := if c.prefix < TUN_PREFIX_BITS then c.prefix else TUN_PREFIX_BITS;
    overlaps := StartsWithBits(c, TUN_PREFIX, sharedPrefix);
    TunSpaceBits();
    assert overlaps <==> Agree(Bits(c), Bits(TUN_SPACE), sharedPrefix);
    NestedOrDisjoint(c, TUN_SPACE);
  }

  method StartsWithBits(c: BinaryCidr, pattern: seq<bv8>, count: nat) returns (same: bool)
    requires WellFormed(c) && count <= Width(c.family) && count <= 8 * |pattern|
    ensures same <==> forall i | 0 <= i < count :: Bits(c)[i] == AddressBit(pattern, i)
  {
    for bit := 0 to count
      invariant forall i | 0 <= i < bit :: Bits(c)[i] == AddressBit(pattern, i)
    {
      BitOf(c, bit);
      var left := BitAt(c.address[bit / 8], bit % 8);
      var right := BitAt(pattern[bit / 8], bit % 8);
      if left != right {
        assert Bits(c)[bit] != AddressBit(pattern, bit);
        return false;
      }
    }
    same := true;
  }

  // ----- values by bytes

  /** The number a byte stands for. */
  function ByteValue(b: bv8): nat {
    128 * Digit(ByteBit(b, 0)) + 64 * Digit(ByteBit(b, 1)) + 32 * Digit(ByteBit(b, 2)) + 16 * Digit(ByteBit(b, 3))
    + 8 * Digit(ByteBit(b, 4)) + 4 * Digit(ByteBit(b, 5)) + 2 * Digit(ByteBit(b, 6)) + Digit(ByteBit(b, 7))
  }

  /** The bits of the first n bytes. */
  function LeadingBits(address: seq<bv8>, n: nat): (bits: seq<bool>)
    requires n <= 8 * |address|
    ensures |bits| == n
  {
    seq(n, i requires 0 <= i < n => AddressBit(address, i))
  }

  lemma ValueSnoc(address: seq<bv8>, n: nat)
    requires n < 8 * |address|
    ensures Value(LeadingBits(address, n + 1)) ==
      2 * Value(LeadingBits(address, n)) + Digit(AddressBit(address, n))
  {
    var bits := LeadingBits(address, n + 1);
    assert bits[..n] == LeadingBits(address, n);
  }

  lemma ValueOfNibble(address: seq<bv8>, n: nat)
    requires n + 4 <= 8 * |address|
    ensures Value(LeadingBits(address, n + 4)) ==
      16 * Value(LeadingBits(address, n))
      + 8 * Digit(AddressBit(address, n)) + 4 * Digit(AddressBit(address, n + 1))
      + 2 * Digit(AddressBit(address, n + 2)) + Digit(AddressBit(address, n + 3))
  {
    ValueSnoc(address, n);
    ValueSnoc(address, n + 1);
    ValueSnoc(address, n + 2);
    ValueSnoc(address, n + 3);
  }

  lemma ValueOfEight(address: seq<bv8>, n: nat)
    requires n + 8 <= 8 * |address|
    ensures Value(LeadingBits(address, n + 8)) == 256 * Value(LeadingBits(address, n))
      + 128 * Digit(AddressBit(address, n)) + 64 * Digit(AddressBit(address, n + 1))
      + 32 * Digit(AddressBit(address, n + 2)) + 16 * Digit(AddressBit(address, n + 3))
      + 8 * Digit(AddressBit(address, n + 4)) + 4 * Digit(AddressBit(address, n + 5))
      + 2 * Digit(AddressBit(address, n + 6)) + Digit(AddressBit(address, n + 7))
  {
    ValueOfNibble(address, n);
    ValueOfNibble(address, n + 4);
  }

  /** The value of an address is its bytes read in network order. */
  lemma ValueOfBytes(address: seq<bv8>, i: nat)
    requires i < |address|
    ensures Value(LeadingBits(address, 8 * i + 8)) ==
      256 * Value(LeadingBits(address, 8 * i)) + ByteValue(address[i])
  {
    var n := 8 * i;
    assert forall k | n <= k < n + 8 :: k / 8 == i && k % 8 == k - n;
    ValueOfEight(address, n);
  }

  lemma TunBytes()
    ensures ByteValue(198) == 198 && ByteValue(18) == 18 && ByteValue(0) == 0
  {
  }

  lemma ValueOfFourBytes(c: BinaryCidr)
    requires WellFormed(c) && c.family == Inet4
    ensures Value(Bits(c)) ==
      256 * (256 * (256 * ByteValue(c.address[0]) + ByteValue(c.address[1])) + ByteValue(c.address[2]))
      + ByteValue(c.address[3])
  {
    var a := c.address;
    assert Value(LeadingBits(a, 8)) == ByteValue(a[0]) by {
      ValueOfBytes(a, 0);
      assert LeadingBits(a, 0) == [];
    }
    assert Value(LeadingBits(a, 16)) == 256 * Value(LeadingBits(a, 8)) + ByteValue(a[1]) by { ValueOfBytes(a, 1); }
    assert Value(LeadingBits(a, 24)) == 256 * Value(LeadingBits(a, 16)) + ByteValue(a[2]) by { ValueOfBytes(a, 2); }
    assert Value(LeadingBits(a, 32)) == 256 * Value(LeadingBits(a, 24)) + ByteValue(a[3]) by { ValueOfBytes(a, 3); }
    assert Bits(c) == LeadingBits(a, 32);
  }

  lemma TunSpaceValue()
    ensures Value(Bits(TUN_SPACE)) == 198 * 0x100_0000 + 18 * 0x1_0000
  {
    TunBytes();
    ValueOfFourBytes(TUN_SPACE);
  }

  /** 198.18.0.0/15 in numbers: the addresses from 198.18.0.0 to 198.19.255.255. */
  lemma TunSpaceInNumbers(a: Address)
    ensures Covers(TUN_SPACE, a) <==>
      a.family == Inet4 && 198 * 0x100_0000 + 18 * 0x1_0000 <= a.value < 198 * 0x100_0000 + 20 * 0x1_0000
  {
    TunSpaceValue();
    Pow2Values();
  }

  lemma Pow2Values()
    ensures Pow2(17) == 0x2_0000 && Pow2(32) == 0x1_0000_0000
  {
    Pow2Add(8, 8);
    Pow2Add(16, 1);
    Pow2Add(16, 16);
    assert Pow2(8) == 256;
  }

  lemma {:induction false} Pow2Add(m: nat, n: nat)
    ensures Pow2(m + n) == Pow2(m) * Pow2(n)
  {
    if n > 0 {
      Pow2Add(m, n - 1);
    }
  }

  // ----- masking

  function KeepLeading(b: bv8, r: nat): bv8
    requires 0 < r < 8
  {
    b & (0xff << (8 - r))
  }

  lemma MaskedByteLow(b: bv8, r: nat, k: nat)
    requires 0 < r < 4 && k < 8
    ensures ByteBit(KeepLeading(b, r), k) <==> k < r && ByteBit(b, k)
  {
    if r == 1 {
    } else if r == 2 {
    }
  }

  lemma MaskedByteHigh(b: bv8, r: nat, k: nat)
    requires 4 <= r < 8 && k < 8
    ensures ByteBit(KeepLeading(b, r), k) <==> k < r && ByteBit(b, k)
  {
    if r == 4 {
    } else if r == 5 {
    } else if r == 6 {
    }
  }

  /** The byte of a mask for r leading bits keeps exactly those bits. */
  lemma MaskedByte(b: bv8, r: nat, k: nat)
    requires 0 < r < 8 && k < 8
    ensures ByteBit(KeepLeading(b, r), k) <==> k < r && ByteBit(b, k)
  {
    if r < 4 {
      MaskedByteLow(b, r, k);
    } else {
      MaskedByteHigh(b, r, k);
    }
  }

  /** The address whose bits from `prefix` on are cleared in its first `bytes` bytes. */
  function MaskedAddress(address: seq<bv8>, bytes: nat, prefix: nat): (masked: seq<bv8>)
    requires bytes <= |address|
    ensures |masked| == |address|
  {
    seq(|address|, i requires 0 <= i < |address| =>
      if i < prefix / 8 || bytes <= i then address[i]
      else if i == prefix / 8 && prefix % 8 != 0 then KeepLeading(address[i], prefix % 8)
      else 0)
  }

  lemma MaskedBits(address: seq<bv8>, bytes: nat, prefix: nat, i: nat)
    requires bytes <= |address| && i < 8 * bytes
    ensures AddressBit(MaskedAddress(address, bytes, prefix), i) <==> i < prefix && AddressBit(address, i)
  {
    if i / 8 == prefix / 8 && prefix % 8 != 0 {
      MaskedByte(address[i / 8], prefix % 8, i % 8);
    } else if prefix / 8 <= i / 8 {
      assert !ByteBit(0, i % 8);
    }
  }

  /** parseCidr's masking: the last kept byte is and-ed, the rest of the address is filled with zeros. */
  method MaskAddress(address: array<bv8>, bytes: nat, prefix: nat)
    requires address.Length == 16 && bytes <= 16 && prefix <= 8 * bytes
    modifies address
    ensures address[..] == MaskedAddress(old(address[..]), bytes, prefix)
  {
    var fullBytes := prefix / 8;
    var remainingBits := prefix % 8;
    if remainingBits != 0 && fullBytes < bytes {
      address[fullBytes] := KeepLeading(address[fullBytes], remainingBits);
    }
    var clearFrom := fullBytes + (if remainingBits == 0 then 0 else 1);
    for i := clearFrom to bytes
      invariant forall j | 0 <= j < fullBytes || bytes <= j < 16 :: address[j] == old(address[j])
      invariant remainingBits != 0 ==> address[fullBytes] == KeepLeading(old(address[fullBytes]), remainingBits)
      invariant forall j | clearFrom <= j < i :: address[j] == 0
    {
      address[i] := 0;
    }
  }

  lemma RoundDownTwice(v: nat, bit: nat, p: nat)
    requires p > 0 && bit < 2
    ensures (2 * v + bit) - (2 * v + bit) % (2 * p) == 2 * (v - v % p)
  {
    var q, r := v / p, v % p;
    assert v == p * q + r;
    assert 2 * (p * q) == (2 * p) * q;
    QuotientUnique(2 * v + bit, 2 * p, q, 2 * r + bit);
  }

  /** A block whose host bits are zero has its value rounded down to a multiple of the block size. */
  lemma {:induction false} ClearedValue(bits: seq<bool>, masked: seq<bool>, prefix: nat)
    requires |bits| == |masked| && prefix <= |bits|
    requires forall i | 0 <= i < |bits| :: masked[i] <==> i < prefix && bits[i]
    ensures Value(masked) == Value(bits) - Value(bits) % Pow2(|bits| - prefix)
    decreases |bits|
  {
    if prefix == |bits| {
      assert masked == bits;
    } else {
      var n := |bits| - 1;
      ClearedValue(bits[..n], masked[..n], prefix);
      RoundDownTwice(Value(bits[..n]), Digit(bits[n]), Pow2(n - prefix));
    }
  }

  function Masked(c: BinaryCidr): (masked: BinaryCidr)
    requires WellFormed(c)
    ensures WellFormed(masked) && masked.family == c.family && masked.prefix == c.prefix
  {
    c.(address := MaskedAddress(c.address, ByteCount(c.family), c.prefix))
  }

  /** Masking rounds the value down to a multiple of 2^(W-prefix), and the block keeps its addresses. */
  lemma MaskingRoundsDown(c: BinaryCidr)
    requires WellFormed(c)
    ensures Value(Bits(Masked(c))) == Value(Bits(c)) - Value(Bits(c)) % Pow2(Width(c.family) - c.prefix)
    ensures forall a :: Covers(Masked(c), a) <==> Covers(c, a)
  {
    var masked := Masked(c);
    forall i | 0 <= i < Width(c.family)
      ensures Bits(masked)[i] <==> i < c.prefix && Bits(c)[i]
    {
      MaskedBits(c.address, ByteCount(c.family), c.prefix, i);
    }
    ClearedValue(Bits(c), Bits(masked), c.prefix);
    forall a
      ensures Covers(masked, a) <==> Covers(c, a)
    {
      if a.family == c.family && IsAddress(a) {
        CoversByBits(c, a);
        CoversByBits(masked, a);
      }
    }
  }

  lemma SameBitsSameByte(b: bv8, d: bv8)
    requires BitAt(b, 0) == BitAt(d, 0) && BitAt(b, 1) == BitAt(d, 1) && BitAt(b, 2) == BitAt(d, 2)
    requires BitAt(b, 3) == BitAt(d, 3) && BitAt(b, 4) == BitAt(d, 4) && BitAt(b, 5) == BitAt(d, 5)
    requires BitAt(b, 6) == BitAt(d, 6) && BitAt(b, 7) == BitAt(d, 7)
    ensures b == d
  {
  }

  /** Blocks with the same bits are the same block. */
  lemma SameBitsSameBlock(c: BinaryCidr, d: BinaryCidr)
    requires WellFormed(c) && WellFormed(d) && c.family == d.family && c.prefix == d.prefix && Bits(c) == Bits(d)
    ensures c == d
  {
    forall j | 0 <= j < ByteCount(c.family)
      ensures c.address[j] == d.address[j]
    {
      forall k | 0 <= k < 8
        ensures BitAt(c.address[j], k) == BitAt(d.address[j], k)
      {
        assert (8 * j + k) / 8 == j && (8 * j + k) % 8 == k;
        BitOf(c, 8 * j + k);
        BitOf(d, 8 * j + k);
      }
      SameBitsSameByte(c.address[j], d.address[j]);
    }
    assert c.address == d.address;
  }

  /** Masking again changes nothing. */
  lemma MaskingIsIdempotent(c: BinaryCidr)
    requires WellFormed(c)
    ensures Masked(Masked(c)) == Masked(c)
  {
    var once, twice := Masked(c), Masked(Masked(c));
    forall i | 0 <= i < Width(c.family)
      ensures Bits(twice)[i] == Bits(once)[i]
    {
      MaskedBits(c.address, ByteCount(c.family), c.prefix, i);
      MaskedBits(once.address, ByteCount(c.family), c.prefix, i);
    }
    assert Bits(twice) == Bits(once);
    SameBitsSameBlock(twice, once);
  }

  /** The block of one address. */
  predicate IsHost(c: BinaryCidr) { WellFormed(c) && c.prefix == Width(c.family) }

  lemma HostContainsOnlyItself(c: BinaryCidr, host: BinaryCidr)
    requires IsHost(c) && IsHost(host)
    ensures Contains(c, host) <==> c == host
    ensures Masked(host) == host
  {
    if Contains(c, host) {
      assert Bits(c) == Bits(host);
      SameBitsSameBlock(c, host);
    }
    assert MaskedAddress(host.address, ByteCount(host.family), host.prefix) == host.address;
  }

  /** The one address of a host block. */
  function HostAddress(c: BinaryCidr): Address
    requires IsHost(c)
  {
    AddressOf(c.family, Bits(c))
  }

  lemma HostCoversItsAddress(c: BinaryCidr, a: Address)
    requires IsHost(c)
    ensures Covers(c, a) <==> a == HostAddress(c)
  {
    assert Pow2(0) == 1;
  }
}
