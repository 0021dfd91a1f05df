/** Bitwise operations on words of `w` bits, bit by bit. */
module Bits {

  function Pow2(w: nat): nat {
    if w == 0 then 1 else 2 * Pow2(w - 1)
  }

  function And(w: nat, a: nat, b: nat): nat {
    if w == 0 then 0 else 2 * And(w - 1, a / 2, b / 2) + (if a % 2 == 1 && b % 2 == 1 then 1 else 0)
  }

  function AndNot(w: nat, a: nat, b: nat): nat {
    if w == 0 then 0 else 2 * AndNot(w - 1, a / 2, b / 2) + (if a % 2 == 1 && b % 2 == 0 then 1 else 0)
  }

  function Or(w: nat, a: nat, b: nat): nat {
    if w == 0 then 0 else 2 * Or(w - 1, a / 2, b / 2) + (if a % 2 == 1 || b % 2 == 1 then 1 else 0)
  }

  function Not(w: nat, a: nat): nat {
    if w == 0 then 0 else 2 * Not(w - 1, a / 2) + (1 - a % 2)
  }

  lemma {:induction false} InRange(w: nat, a: nat, b: nat)
    ensures And(w, a, b) < Pow2(w) && AndNot(w, a, b) < Pow2(w) && Or(w, a, b) < Pow2(w) && Not(w, a) < Pow2(w)
  {
    if w > 0 {
      InRange(w - 1, a / 2, b / 2);
    }
  }

  /** A word is the sum of its bits under a mask and its bits outside the mask. */
  lemma {:induction false} SplitByMask(w: nat, a: nat, m: nat)
    requires a < Pow2(w)
    ensures And(w, a, m) + AndNot(w, a, m) == a
  {
    if w > 0 {
      SplitByMask(w - 1, a / 2, m / 2);
    }
  }

  /** Adding bits outside the mask to a word that has none never carries: the sum is the bitwise or,
      and it has the same bits under the mask. */
  lemma {:induction false} AddOutsideMask(w: nat, n: nat, v: nat, m: nat)
    requires n < Pow2(w) && And(w, n, m) == n
    ensures n + AndNot(w, v, m) == Or(w, n, AndNot(w, v, m))
    ensures And(w, n + AndNot(w, v, m), m) == n
  {
    if w > 0 {
      assert (2 * And(w - 1, n / 2, m / 2)) / 2 == n / 2;
      AddOutsideMask(w - 1, n / 2, v / 2, m / 2);
      var x := AndNot(w, v, m);
      assert x / 2 == AndNot(w - 1, v / 2, m / 2);
      assert (n + x) / 2 == n / 2 + x / 2;
      assert (n + x) % 2 == n % 2 + x % 2;
    }
  }

  lemma {:induction false} AndTwice(w: nat, a: nat, m: nat)
    ensures And(w, And(w, a, m), m) == And(w, a, m)
  {
    if w > 0 {
      AndTwice(w - 1, a / 2, m / 2);
      assert And(w, a, m) / 2 == And(w - 1, a / 2, m / 2);
    }
  }

  /** Below an even mask, an odd number has the bits of the even number before it. */
  lemma AndOfSuccessor(w: nat, n: nat, m: nat)
    requires w > 0 && m % 2 == 0 && n % 2 == 0
    ensures And(w, n + 1, m) == And(w, n, m)
  {
    assert (n + 1) / 2 == n / 2;
  }

  lemma {:induction false} PowerSplits(a: nat, b: nat)
    ensures Pow2(a) > 0 && Pow2(a + b) == Pow2(a) * Pow2(b)
  {
    if a > 0 {
      PowerSplits(a - 1, b);
      assert Pow2(a + b) == 2 * (Pow2(a - 1) * Pow2(b)) == (2 * Pow2(a - 1)) * Pow2(b);
    }
  }

  /** A mask of ones above `j` zeros clears the last `j` bits: it rounds down to a multiple of their power. */
  lemma {:induction false} AndOfHighMask(w: nat, j: nat, a: nat)
    requires j <= w && a < Pow2(w)
    ensures Pow2(j) <= Pow2(w) && Pow2(j) > 0
    ensures And(w, a, Pow2(w) - Pow2(j)) == a - a % Pow2(j)
  {
    if w > 0 {
      AndOfHighMask(w - 1, if j == 0 then 0 else j - 1, a / 2);
      var m := Pow2(w) - Pow2(j);
      if j == 0 {
        assert m / 2 == Pow2(w - 1) - 1 && m % 2 == 1;
      } else {
        assert m == 2 * (Pow2(w - 1) - Pow2(j - 1));
        TwiceModulo(a, Pow2(j - 1));
      }
    }
  }

  lemma TwiceModulo(a: nat, p: nat)
    requires p > 0
    ensures a % (2 * p) == 2 * (a / 2 % p) + a % 2
  {
    var q, r := a / 2 / p, a / 2 % p;
    assert a / 2 == q * p + r;
    assert a == q * (2 * p) + (2 * r + a % 2);
    DivisionIsUnique(a, 2 * p, q, 2 * r + a % 2);
  }

  lemma DivisionIsUnique(a: int, d: int, q: int, r: int)
    requires a == q * d + r && 0 <= r < d
    ensures a / d == q && a % d == r
  {
    if a / d != q {
      Apart(d, a / d, q);
    }
  }

  /** Multiples of different numbers are at least one factor apart. */
  lemma Apart(d: int, q: int, q': int)
    requires d > 0 && q != q'
    ensures q * d - q' * d >= d || q' * d - q * d >= d
  {
    if q > q' {
      assert q * d - q' * d == (q - q') * d;
      AtLeastOne(d, q - q');
    } else {
      assert q' * d - q * d == (q' - q) * d;
      AtLeastOne(d, q' - q);
    }
  }

  lemma AtLeastOne(d: int, k: int)
    requires d > 0 && k > 0
    ensures k * d >= d
  {
  }

  /** Bits outside the mask are what the mask lacks to a word of ones. */
  lemma {:induction false} NotIsDifference(w: nat, a: nat)
    requires a < Pow2(w)
    ensures Not(w, a) == Pow2(w) - 1 - a
  {
    if w > 0 {
      NotIsDifference(w - 1, a / 2);
    }
  }

  /** The word with every bit outside the mask set is that of the largest sum. */
  lemma {:induction false} LastOfMask(w: nat, n: nat, m: nat)
    requires n < Pow2(w) && And(w, n, m) == n
    ensures Or(w, n, Not(w, m)) == n + Not(w, m)
    ensures And(w, Or(w, n, Not(w, m)), m) == n
    ensures forall a | 0 <= a < Pow2(w) && And(w, a, m) == n :: n <= a <= Or(w, n, Not(w, m))
  {
    if w > 0 {
      assert (2 * And(w - 1, n / 2, m / 2)) / 2 == n / 2;
      LastOfMask(w - 1, n / 2, m / 2);
      forall a | 0 <= a < Pow2(w) && And(w, a, m) == n
        ensures n <= a <= Or(w, n, Not(w, m))
      {
        assert And(w - 1, a / 2, m / 2) == n / 2;
        assert a / 2 < Pow2(w - 1);
      }
      var l := Or(w, n, Not(w, m));
      assert l / 2 == Or(w - 1, n / 2, Not(w - 1, m / 2));
    }
  }
}

/** IPv4 addresses as the Go net package keeps, compares and prints them. */
module IPv4 {
  import opened Wrappers
  import opened Text
  import opened Bits

  type byte = n: int | 0 <= n <= 255

  /** net.IP: 4 or 16 bytes, or any other slice of bytes; a failed parse gives the empty one. */
  type IP = seq<byte>

  /** The four bytes of an address or of a mask */
  type Quad = q: seq<byte> | |q| == 4 witness [0, 0, 0, 0]

  const V4_IN_V6_PREFIX: seq<byte> := [0, 0, 0, 0, 0, 0, 0, 0, 0, 0, 0xff, 0xff]

  /** net.IPv4: the 16-byte form */
  function To16(q: Quad): IP {
    V4_IN_V6_PREFIX + q
  }

  /** IP.To4 */
  function To4(ip: IP): Option<Quad> {
    if |ip| == 4 then Some(ip)
    else if |ip| == 16 && ip[..12] == V4_IN_V6_PREFIX then Some(ip[12..])
    else None
  }

  /** IP.Equal: the 4-byte and the 16-byte form of one address are equal. */
  predicate Equal(a: IP, b: IP) {
    if |a| == |b| then a == b
    else if |a| == 4 && |b| == 16 then b[..12] == V4_IN_V6_PREFIX && a == b[12..]
    else if |a| == 16 && |b| == 4 then a[..12] == V4_IN_V6_PREFIX && a[12..] == b
    else false
  }

  lemma EqualMeansSameQuad(q: Quad, b: IP)
    ensures Equal(To16(q), b) <==> To4(b) == Some(q)
  {
    assert To16(q)[..12] == V4_IN_V6_PREFIX && To16(q)[12..] == q;
    if |b| == 16 && To4(b) == Some(q) {
      assert b == b[..12] + b[12..];
    }
  }

  // ---------- Order ----------

  /** bytes.Compare */
  function Compare(a: seq<byte>, b: seq<byte>): int {
    if a == [] then (if b == [] then 0 else -1)
    else if b == [] then 1
    else if a[0] != b[0] then (if a[0] < b[0] then -1 else 1)
    else Compare(a[1..], b[1..])
  }

  /** The address as a 32-bit number */
  function Value(q: Quad): nat {
    var a: int, b: int, c: int, d: int := q[0], q[1], q[2], q[3];
    ((a * 256 + b) * 256 + c) * 256 + d
  }

  lemma {:induction false} CompareSamePrefix(p: seq<byte>, a: seq<byte>, b: seq<byte>)
    ensures Compare(p + a, p + b) == Compare(a, b)
  {
    if p == [] {
      assert p + a == a && p + b == b;
    } else {
      assert (p + a)[1..] == p[1..] + a && (p + b)[1..] == p[1..] + b;
      CompareSamePrefix(p[1..], a, b);
    }
  }

  lemma CompareSkip(a: seq<byte>, b: seq<byte>)
    requires a != [] && b != []
    ensures Compare(a, b) == if a[0] < b[0] then -1 else if a[0] > b[0] then 1 else Compare(a[1..], b[1..])
  {
  }

  /** Comparing addresses byte by byte agrees with comparing them as numbers. */
  lemma CompareIsNumeric(a: Quad, b: Quad)
    ensures Compare(To16(a), To16(b)) < 0 <==> Value(a) < Value(b)
    ensures Compare(To16(a), To16(b)) > 0 <==> Value(a) > Value(b)
  {
    CompareSamePrefix(V4_IN_V6_PREFIX, a, b);
    CompareSkip(a, b);
    CompareSkip(a[1..], b[1..]);
    CompareSkip(a[2..], b[2..]);
    CompareSkip(a[3..], b[3..]);
    assert a[1..][1..] == a[2..] && a[2..][1..] == a[3..] && a[3..][1..] == [];
    assert b[1..][1..] == b[2..] && b[2..][1..] == b[3..] && b[3..][1..] == [];
  }

  lemma ValueIsInjective(a: Quad, b: Quad)
    ensures Value(a) == Value(b) <==> a == b
  {
    if Value(a) == Value(b) {
      assert a[0] == b[0] && a[1] == b[1] && a[2] == b[2] && a[3] == b[3];
    }
  }

  // ---------- Subnets ----------

  function And8(a: byte, b: byte): byte {
    InRange(8, a, b);
    And(8, a, b)
  }

  function AndNot8(a: byte, b: byte): byte {
    InRange(8, a, b);
    AndNot(8, a, b)
  }

  /** a | ^b */
  function OrNot8(a: byte, b: byte): byte {
    InRange(8, a, Not(8, b));
    InRange(8, b, 0);
    Or(8, a, Not(8, b))
  }

  datatype Subnet = Subnet(ip: Quad, mask: Quad) {
    /** The network address has no bits outside the mask, as ParseCIDR leaves it. */
    predicate Canonical() {
      forall i | 0 <= i < 4 :: And8(ip[i], mask[i]) == ip[i]
    }

    predicate Contains(a: Quad) {
      forall i | 0 <= i < 4 :: And8(a[i], mask[i]) == ip[i]
    }

    function Broadcast(): Quad {
      [OrNot8(ip[0], mask[0]), OrNot8(ip[1], mask[1]), OrNot8(ip[2], mask[2]), OrNot8(ip[3], mask[3])]
    }
  }

  /** The broadcast address is the largest address of the subnet, the network address the smallest. */
  lemma BroadcastIsLast(s: Subnet, a: Quad)
    requires s.Canonical() && s.Contains(a)
    ensures s.Contains(s.Broadcast()) && Value(s.ip) <= Value(a) <= Value(s.Broadcast())
  {
    var b := s.Broadcast();
    forall i | 0 <= i < 4
      ensures And8(b[i], s.mask[i]) == s.ip[i] && s.ip[i] <= a[i] <= b[i]
    {
      assert Pow2(8) == 256;
      LastOfMask(8, s.ip[i], s.mask[i]);
      assert And8(a[i], s.mask[i]) == s.ip[i];
    }
  }

  // ---------- Dotted decimal ----------

  function PrintQuad(q: Quad): string {
    Join([FormatNat(q[0]), FormatNat(q[1]), FormatNat(q[2]), FormatNat(q[3])], '.')
  }

  /** Four decimal numbers up to 255, separated by dots */
  function ParseQuad(s: string): Option<Quad> {
    var parts := Split(s, '.');
    if |parts| != 4 then None
    else
      match (ParseUint(parts[0], 255), ParseUint(parts[1], 255), ParseUint(parts[2], 255), ParseUint(parts[3], 255))
      case (Some(a), Some(b), Some(c), Some(d)) => Some([a, b, c, d])
      case _ => None
  }

  /** The text of an address: its four bytes in decimal, most significant first, with dots between them */
  lemma DottedDecimal(q: Quad)
    ensures PrintQuad(q) ==
      FormatNat(q[0]) + "." + FormatNat(q[1]) + "." + FormatNat(q[2]) + "." + FormatNat(q[3])
  {
    hide FormatNat;
    var parts := [FormatNat(q[0]), FormatNat(q[1]), FormatNat(q[2]), FormatNat(q[3])];
    assert Join(parts[3..], '.') == parts[3];
    assert Join(parts[2..], '.') == parts[2] + "." + parts[3];
    assert Join(parts[1..], '.') == parts[1] + "." + (parts[2] + "." + parts[3]);
    assert Join(parts, '.') == parts[0] + "." + (parts[1] + "." + (parts[2] + "." + parts[3]));
  }

  lemma DigitsAreFree(n: nat, c: char)
    requires !IsDigit(c)
    ensures Free(FormatNat(n), c)
  {
  }

  lemma ParsePrintedQuad(q: Quad)
    ensures ParseQuad(PrintQuad(q)) == Some(q)
  {
    var parts := [FormatNat(q[0]), FormatNat(q[1]), FormatNat(q[2]), FormatNat(q[3])];
    forall i | 0 <= i < 4
      ensures Free(parts[i], '.') && ParseUint(parts[i], 255) == Some(q[i])
    {
      DigitsAreFree(q[i], '.');
      ParseUintOfFormat(q[i], 255);
    }
    assert forall p | p in parts :: Free(p, '.');
    SplitOfJoin(parts, '.');
    assert Split(PrintQuad(q), '.') == parts;
    assert ParseUint(parts[0], 255) == Some(q[0]) && ParseUint(parts[1], 255) == Some(q[1]);
    assert ParseUint(parts[2], 255) == Some(q[2]) && ParseUint(parts[3], 255) == Some(q[3]);
    assert [q[0], q[1], q[2], q[3]] == q;
  }

  /** The texts of IPv6 addresses, which this model leaves to any parser and printer; `FirstOfRange` is what an IPv6
      range prints as once its fourth byte has been counted up, or None for a text that is no such range. */
  datatype IPv6Text = IPv6Text(Parse: string -> IP, Print: IP -> string, FirstOfRange: string -> Option<string>)

  /** IP.String */
  function PrintIP(ip: IP, v6: IPv6Text): string {
    match To4(ip) case Some(q) => PrintQuad(q) case None => v6.Print(ip)
  }

  /** net.ParseIP: the first dot or colon decides which form it is; failure is the empty address. */
  function ParseIP(s: string, v6: IPv6Text): IP {
    var dot, colon := IndexFrom(s, '.', 0), IndexFrom(s, ':', 0);
    if dot < colon then (match ParseQuad(s) case Some(q) => To16(q) case None => [])
    else if colon < |s| then v6.Parse(s)
    else []
  }

  lemma ParsePrintedIP(q: Quad, v6: IPv6Text)
    ensures ParseIP(PrintQuad(q), v6) == To16(q) && PrintIP(To16(q), v6) == PrintQuad(q)
  {
    var s := PrintQuad(q);
    var parts := [FormatNat(q[0]), FormatNat(q[1]), FormatNat(q[2]), FormatNat(q[3])];
    assert s == parts[0] + "." + Join(parts[1..], '.');
    assert s[|parts[0]|] == '.';
    forall i | 0 <= i < 4
      ensures Free(parts[i], ':')
    {
      DigitsAreFree(q[i], ':');
    }
    JoinIsFree(parts, ':');
    ParsePrintedQuad(q);
    assert To16(q)[..12] == V4_IN_V6_PREFIX && To16(q)[12..] == q;
  }

  lemma {:induction false} JoinIsFree(parts: seq<string>, c: char)
    requires c != '.' && forall p | p in parts :: Free(p, c)
    ensures Free(Join(parts, '.'), c)
  {
    if |parts| >= 1 {
      assert parts[0] in parts;
    }
    if |parts| > 1 {
      JoinIsFree(parts[1..], c);
    }
  }

  // ---------- CIDR blocks (section 3.1 of RFC 4632) ----------

  type PrefixLength = n: int | 0 <= n <= 32

  const MASK_BYTES: seq<byte> := [0, 128, 192, 224, 240, 248, 252, 254, 255]

  function MaskByte(ones: PrefixLength, i: nat): byte {
    var k := ones - 8 * i;
    MASK_BYTES[if k < 0 then 0 else if k > 8 then 8 else k]
  }

  /** net.CIDRMask for 32 bits */
  function CIDRMask(ones: PrefixLength): Quad {
    [MaskByte(ones, 0), MaskByte(ones, 1), MaskByte(ones, 2), MaskByte(ones, 3)]
  }

  function Masked(q: Quad, mask: Quad): Quad {
    [And8(q[0], mask[0]), And8(q[1], mask[1]), And8(q[2], mask[2]), And8(q[3], mask[3])]
  }

  /** The network an address lies in */
  function NetworkOf(q: Quad, ones: PrefixLength): Subnet {
    Subnet(Masked(q, CIDRMask(ones)), CIDRMask(ones))
  }

  lemma NetworkIsCanonical(q: Quad, ones: PrefixLength)
    ensures NetworkOf(q, ones).Canonical() && NetworkOf(q, ones).Contains(q)
  {
    var s := NetworkOf(q, ones);
    forall i | 0 <= i < 4
      ensures And8(s.ip[i], s.mask[i]) == s.ip[i] && And8(q[i], s.mask[i]) == s.ip[i]
    {
      AndTwice(8, q[i], s.mask[i]);
    }
  }

  // ---------- Subnets as ranges of numbers ----------

  /** The number of addresses with a prefix of this length */
  function SizeOf(ones: PrefixLength): nat {
    Pow2(32 - ones)
  }

  /** The bits of the i-th byte that are outside the mask */
  function HostBits(ones: PrefixLength, i: nat): (j: nat)
    requires i < 4
    ensures j <= 8
  {
    if ones <= 8 * i then 8 else if ones >= 8 * i + 8 then 0 else 8 * i + 8 - ones
  }

  lemma BytePowers()
    ensures Pow2(0) == 1 && Pow2(1) == 2 && Pow2(2) == 4 && Pow2(3) == 8 && Pow2(4) == 16 && Pow2(5) == 32
    ensures Pow2(6) == 64 && Pow2(7) == 128 && Pow2(8) == 256 && Pow2(16) == 0x1_0000 && Pow2(24) == 0x100_0000
    ensures Pow2(32) == 0x1_0000_0000
  {
    assert Pow2(4) == 16;
    assert Pow2(8) == 256;
    PowerSplits(8, 8);
    PowerSplits(8, 16);
    PowerSplits(8, 24);
  }

  /** A byte of the mask has ones above its host bits, and rounds down to a multiple of their power. */
  lemma MaskByteByNumbers(ones: PrefixLength, i: nat, b: byte)
    requires i < 4
    ensures MaskByte(ones, i) == 256 - Pow2(HostBits(ones, i))
    ensures And8(b, MaskByte(ones, i)) == b - b % Pow2(HostBits(ones, i))
  {
    BytePowers();
    hide And, Pow2;
    AndOfHighMask(8, HostBits(ones, i), b);
  }

  /** Rounding a number down, when only one of its bytes is cut in two and those below it are dropped */
  lemma RoundDown(h: nat, b: nat, m: nat, low: nat, p: nat, s: nat)
    requires p > 0 && p * s == 256 && low < m
    ensures var v := (h * 256 + b) * m + low;
      v - v % (p * m) == (h * 256 + b - b % p) * m
  {
    var q, c := h * s + b / p, b % p;
    assert h * 256 == (h * s) * p by {
      assert h * (p * s) == (h * s) * p;
    }
    assert h * 256 + b == q * p + c;
    DropBelow(q, p, m, c, low);
  }

  lemma DropBelow(q: nat, p: nat, m: nat, c: nat, low: nat)
    requires c < p && low < m
    ensures var v := (q * p + c) * m + low;
      v - v % (p * m) == (q * p) * m
  {
    assert (q * p + c) * m == q * (p * m) + c * m;
    assert (c + 1) * m <= p * m;
    assert q * (p * m) == (q * p) * m;
    DivisionIsUnique((q * p + c) * m + low, p * m, q, c * m + low);
  }

  /** The byte that the prefix ends in; those before it are kept, those after it are dropped. */
  function CutByte(ones: PrefixLength): (k: nat)
    ensures k < 4 && 8 * k <= ones <= 8 * k + 8
  {
    if ones <= 8 then 0 else if ones <= 16 then 1 else if ones <= 24 then 2 else 3
  }

  lemma MaskedBytes(q: Quad, ones: PrefixLength, i: nat)
    requires i < 4
    ensures var m, k := Masked(q, CIDRMask(ones)), CutByte(ones);
      && Pow2(8 * k + 8 - ones) > 0
      && m[i] == if i < k then q[i] else if i > k then 0 else q[i] - q[i] % Pow2(8 * k + 8 - ones)
  {
    hide Pow2, And8, MaskByte;
    MaskByteByNumbers(ones, i, q[i]);
    PowerSplits(8 * CutByte(ones) + 8 - ones, 0);
    BytePowers();
  }

  /** The power of the host bits, from those of the byte the prefix ends in */
  lemma SizeSplits(ones: PrefixLength)
    ensures var k := CutByte(ones);
      var j := 8 * k + 8 - ones;
      && Pow2(j) > 0 && Pow2(j) * Pow2(8 - j) == 256
      && SizeOf(ones) ==
         Pow2(j) * (if k == 0 then 0x100_0000 else if k == 1 then 0x1_0000 else if k == 2 then 256 else 1)
  {
    var k := CutByte(ones);
    var j := 8 * k + 8 - ones;
    BytePowers();
    PowerSplits(j, 8 - j);
    PowerSplits(j, 24 - 8 * k);
    assert 32 - ones == j + (24 - 8 * k);
    hide Pow2;
  }

  lemma CutAt(k: nat, a: nat, b: nat, c: nat, d: nat, p: nat, s: nat)
    requires k < 4 && b < 256 && c < 256 && d < 256 && p > 0 && p * s == 256
    ensures var v := ((a * 256 + b) * 256 + c) * 256 + d;
      v - v % (p * (if k == 0 then 0x100_0000 else if k == 1 then 0x1_0000 else if k == 2 then 256 else 1)) ==
        if k == 0 then (a - a % p) * 0x100_0000
        else if k == 1 then (a * 256 + b - b % p) * 0x1_0000
        else if k == 2 then ((a * 256 + b) * 256 + c - c % p) * 256
        else ((a * 256 + b) * 256 + c) * 256 + d - d % p
  {
    if k == 0 {
      RoundDown(0, a, 0x100_0000, (b * 256 + c) * 256 + d, p, s);
      assert (0 * 256 + a) * 0x100_0000 + ((b * 256 + c) * 256 + d) == ((a * 256 + b) * 256 + c) * 256 + d;
    } else if k == 1 {
      RoundDown(a, b, 0x1_0000, c * 256 + d, p, s);
      assert (a * 256 + b) * 0x1_0000 + (c * 256 + d) == ((a * 256 + b) * 256 + c) * 256 + d;
    } else if k == 2 {
      RoundDown(a * 256 + b, c, 256, d, p, s);
    } else {
      RoundDown((a * 256 + b) * 256 + c, d, 1, 0, p, s);
    }
  }

  /** Masking an address rounds its number down to a multiple of the size of the subnet. */
  lemma MaskedByNumbers(q: Quad, ones: PrefixLength)
    ensures SizeOf(ones) > 0
    ensures Value(Masked(q, CIDRMask(ones))) == Value(q) - Value(q) % SizeOf(ones)
  {
    var k := CutByte(ones);
    var j := 8 * k + 8 - ones;
    forall i: nat | i < 4 {
      MaskedBytes(q, ones, i);
    }
    SizeSplits(ones);
    CutAt(k, q[0], q[1], q[2], q[3], Pow2(j), Pow2(8 - j));
    hide Pow2, SizeOf, CutByte, Masked, CIDRMask;
    var m := Masked(q, CIDRMask(ones));
    assert m[0] == if 0 < k then q[0] else q[0] - q[0] % Pow2(j);
  }

  /** The mask of a prefix has its ones first. */
  lemma MaskByNumbers(ones: PrefixLength)
    ensures Value(CIDRMask(ones)) == Pow2(32) - Pow2(32 - ones)
  {
    hide Pow2, Masked, CIDRMask, SizeOf;
    var all: Quad := [255, 255, 255, 255];
    AllOnes(ones);
    MaskedByNumbers(all, ones);
    MaskedOnes(ones);
    assert Value(all) == 0xFFFF_FFFF;
  }

  lemma AllOnes(ones: PrefixLength)
    ensures SizeOf(ones) == Pow2(32 - ones) && SizeOf(ones) > 0 && Pow2(32) == 0x1_0000_0000
    ensures 0xFFFF_FFFF % SizeOf(ones) == SizeOf(ones) - 1
  {
    BytePowers();
    PowerSplits(32 - ones, ones);
    PowerSplits(ones, 32 - ones);
    hide Pow2;
    assert ones + (32 - ones) == 32;
    LastRemainder(Pow2(ones), Pow2(32 - ones));
  }

  lemma LastRemainder(n: nat, p: nat)
    requires n > 0 && p > 0
    ensures n * p > 0 && (n * p - 1) % p == p - 1
  {
    assert n * p - 1 == (n - 1) * p + (p - 1);
    AtLeastOne(p, n);
    DivisionIsUnique(n * p - 1, p, n - 1, p - 1);
  }

  lemma SameQuotient(x: nat, y: nat, size: nat)
    requires size > 0
    ensures x - x % size == y - y % size <==> x / size == y / size
    ensures x - x % size == x / size * size
  {
    assert x == x / size * size + x % size && y == y / size * size + y % size;
    if x / size != y / size {
      Apart(size, x / size, y / size);
    }
  }

  lemma MaskedOnes(ones: PrefixLength)
    ensures Masked([255, 255, 255, 255], CIDRMask(ones)) == CIDRMask(ones)
  {
    hide And8, MaskByte;
    BytePowers();
    forall i: nat | i < 4
      ensures And8(255, MaskByte(ones, i)) == MaskByte(ones, i)
    {
      MaskByteByNumbers(ones, i, 255);
      LastOfPower(HostBits(ones, i));
    }
  }

  lemma LastOfPower(j: nat)
    requires j <= 8
    ensures Pow2(j) > 0 && 255 % Pow2(j) == Pow2(j) - 1
  {
    BytePowers();
    hide Pow2;
  }

  /** The subnet of an address is the range of numbers that share its quotient by the size of the subnet: from the
      network address, the largest multiple that is not above it, to the broadcast address. */
  lemma SubnetByNumbers(q: Quad, ones: PrefixLength, a: Quad)
    ensures var s, size := NetworkOf(q, ones), Pow2(32 - ones);
      && size > 0
      && (s.Contains(a) <==> Value(a) / size == Value(q) / size)
      && Value(s.ip) == Value(q) / size * size
      && Value(s.Broadcast()) == Value(q) / size * size + size - 1
  {
    var s := NetworkOf(q, ones);
    MaskedByNumbers(q, ones);
    MaskedByNumbers(a, ones);
    ValueIsInjective(Masked(a, s.mask), s.ip);
    assert s.Contains(a) <==> Masked(a, s.mask) == s.ip;
    BroadcastByNumbers(q, ones);
    hide Value, Pow2, Masked, CIDRMask, Subnet.Contains, Subnet.Broadcast;
    SameQuotient(Value(q), Value(a), SizeOf(ones));
  }

  lemma BroadcastByNumbers(q: Quad, ones: PrefixLength)
    ensures var s := NetworkOf(q, ones);
      Value(s.Broadcast()) == Value(s.ip) + Pow2(32 - ones) - 1
  {
    hide Pow2, CIDRMask, OrNot8, And8;
    var s := NetworkOf(q, ones);
    MaskByNumbers(ones);
    AllOnes(ones);
    BroadcastBytes(s, q, ones);
    hide NetworkOf;
    var b := s.Broadcast();
    assert b[0] == s.ip[0] as int + (255 - s.mask[0] as int) && b[1] == s.ip[1] as int + (255 - s.mask[1] as int);
    assert b[2] == s.ip[2] as int + (255 - s.mask[2] as int) && b[3] == s.ip[3] as int + (255 - s.mask[3] as int);
    hide Subnet.Broadcast;
  }

  lemma BroadcastBytes(s: Subnet, q: Quad, ones: PrefixLength)
    requires s == NetworkOf(q, ones)
    ensures s.mask == CIDRMask(ones)
    ensures forall i | 0 <= i < 4 :: OrNot8(s.ip[i], s.mask[i]) == s.ip[i] as int + (255 - s.mask[i] as int)
  {
    NetworkIsCanonical(q, ones);
    BytePowers();
    assert s.mask == CIDRMask(ones);
    hide Pow2, And, NetworkOf;
    forall i | 0 <= i < 4
      ensures OrNot8(s.ip[i], s.mask[i]) == s.ip[i] as int + (255 - s.mask[i] as int)
    {
      assert And8(s.ip[i], s.mask[i]) == s.ip[i];
      LastOfMask(8, s.ip[i], s.mask[i]);
      NotIsDifference(8, s.mask[i]);
    }
  }

  datatype Cidr = Cidr(address: Quad, ones: PrefixLength)

  /** The first slash separates the address from the prefix length. */
  function ParseCIDR(s: string): Option<Cidr> {
    var i := IndexFrom(s, '/', 0);
    if i == |s| then None
    else
      match (ParseQuad(s[..i]), ParseUint(s[i + 1..], 32))
      case (Some(q), Some(ones)) => Some(Cidr(q, ones))
      case _ => None
  }

  function PrintCIDR(c: Cidr): string {
    PrintQuad(c.address) + "/" + FormatNat(c.ones)
  }

  lemma ParsePrintedCIDR(c: Cidr)
    ensures ParseCIDR(PrintCIDR(c)) == Some(c)
  {
    var s, q := PrintCIDR(c), PrintQuad(c.address);
    var parts := [FormatNat(c.address[0]), FormatNat(c.address[1]), FormatNat(c.address[2]), FormatNat(c.address[3])];
    forall i | 0 <= i < 4
      ensures Free(parts[i], '/')
    {
      DigitsAreFree(c.address[i], '/');
    }
    JoinIsFree(parts, '/');
    assert s[|q|] == '/' && s[..|q|] == q && s[|q| + 1..] == FormatNat(c.ones);
    assert forall j | 0 <= j < |q| :: s[j] == q[j];
    assert IndexFrom(s, '/', 0) == |q|;
    ParsePrintedQuad(c.address);
    ParseUintOfFormat(c.ones, 32);
  }
}
