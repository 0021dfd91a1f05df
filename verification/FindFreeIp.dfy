/** The random search for a free address (network/util.go). */
module FreeAddresses {
  import opened Wrappers
  import opened Text
  import opened Bits
  import opened IPv4

  /** The byte of a draw that PutUint32 puts at index i, least significant first */
  function DrawByte(draw: uint32, i: nat): byte
    requires i < 4
  {
    if i == 0 then draw % 256
    else if i == 1 then draw / 256 % 256
    else if i == 2 then draw / 65536 % 256
    else draw / 16777216
  }

  function Pack(q: Quad): uint32 {
    var a: int, b: int, c: int, d: int := q[0], q[1], q[2], q[3];
    a + 256 * b + 65536 * c + 16777216 * d
  }

  lemma DrawOfPack(q: Quad, i: nat)
    requires i < 4
    ensures DrawByte(Pack(q), i) == q[i]
  {
    UnpackBytes(q[0], q[1], q[2], q[3]);
  }

  lemma UnpackBytes(a: int, b: int, c: int, d: int)
    requires 0 <= a < 256 && 0 <= b < 256 && 0 <= c < 256 && 0 <= d < 256
    ensures var draw := a + 256 * b + 65536 * c + 16777216 * d;
      draw % 256 == a && draw / 256 % 256 == b && draw / 65536 % 256 == c && draw / 16777216 == d
  {
    var draw := a + 256 * b + 65536 * c + 16777216 * d;
    assert draw / 256 == b + 256 * c + 65536 * d;
    assert draw / 65536 == c + 256 * d;
  }

  /** Adding bytes in Go wraps around. */
  function AddByte(a: byte, b: byte): byte {
    (a as int + b as int) % 256
  }

  /** The address a draw stands for, as the code adds it up byte by byte */
  function Trial(s: Subnet, draw: uint32): Quad {
    [AddByte(s.ip[0], AndNot8(DrawByte(draw, 0), s.mask[0])),
     AddByte(s.ip[1], AndNot8(DrawByte(draw, 1), s.mask[1])),
     AddByte(s.ip[2], AndNot8(DrawByte(draw, 2), s.mask[2])),
     AddByte(s.ip[3], AndNot8(DrawByte(draw, 3), s.mask[3]))]
  }

  /** In a canonical subnet the sums never carry, so every draw gives an address of the subnet ... */
  lemma TrialIsInSubnet(s: Subnet, draw: uint32)
    requires s.Canonical()
    ensures s.Contains(Trial(s, draw))
    ensures forall i | 0 <= i < 4 :: s.ip[i] as int + AndNot8(DrawByte(draw, i), s.mask[i]) as int < 256
  {
    var q := Trial(s, draw);
    forall i | 0 <= i < 4
      ensures s.ip[i] as int + AndNot8(DrawByte(draw, i), s.mask[i]) as int < 256
      ensures And8(q[i], s.mask[i]) == s.ip[i]
    {
      TrialByte(s.ip[i], DrawByte(draw, i), s.mask[i]);
    }
  }

  lemma TrialByte(n: byte, v: byte, m: byte)
    requires And8(n, m) == n
    ensures n as int + AndNot8(v, m) as int < 256
    ensures And8(AddByte(n, AndNot8(v, m)), m) == n
  {
    hide And, AndNot, Or, Pow2;
    ByteRange();
    AddOutsideMask(8, n, v, m);
    InRange(8, n, AndNot(8, v, m));
  }

  /** ... and every address of the subnet is the trial of some draw. */
  lemma EveryAddressIsDrawn(s: Subnet, q: Quad)
    requires s.Contains(q)
    ensures Trial(s, Pack(q)) == q
  {
    forall i: nat | i < 4
      ensures AddByte(s.ip[i], AndNot8(DrawByte(Pack(q), i), s.mask[i])) == q[i]
    {
      DrawOfPack(q, i);
      assert And8(q[i], s.mask[i]) == s.ip[i];
      DrawnByte(s.ip[i], q[i], s.mask[i]);
    }
    hide Pack, DrawByte, AndNot8, AddByte;
    var t := Trial(s, Pack(q));
    assert t[0] == q[0] && t[1] == q[1] && t[2] == q[2] && t[3] == q[3];
  }

  /** By numbers: with the bytes of a draw, least significant first, as an address, the trial is the network address
      plus what is left of that address when it is divided by the size of the subnet. */
  lemma TrialByNumbers(q: Quad, ones: PrefixLength, draw: uint32, d: Quad)
    requires draw == d[0] as int + 256 * d[1] as int + 65536 * d[2] as int + 16777216 * d[3] as int
    ensures var size := Pow2(32 - ones);
      size > 0 && Value(Trial(NetworkOf(q, ones), draw)) == Value(q) / size * size + Value(d) % size
  {
    var s := NetworkOf(q, ones);
    SubnetByNumbers(q, ones, q);
    MaskedByNumbers(d, ones);
    TrialBytes(s, q, ones, draw, d);
    hide Pow2, NetworkOf, CIDRMask, And8, AndNot8, DrawByte, AddByte, Trial;
    var t, m := Trial(s, draw), Masked(d, s.mask);
    assert t[0] as int == s.ip[0] as int + d[0] as int - m[0] as int;
    assert t[1] as int == s.ip[1] as int + d[1] as int - m[1] as int;
    assert t[2] as int == s.ip[2] as int + d[2] as int - m[2] as int;
    assert t[3] as int == s.ip[3] as int + d[3] as int - m[3] as int;
    hide Masked;
  }

  lemma TrialBytes(s: Subnet, q: Quad, ones: PrefixLength, draw: uint32, d: Quad)
    requires s == NetworkOf(q, ones)
    requires draw == d[0] as int + 256 * d[1] as int + 65536 * d[2] as int + 16777216 * d[3] as int
    ensures s.mask == CIDRMask(ones)
    ensures forall i | 0 <= i < 4 ::
      Trial(s, draw)[i] as int == s.ip[i] as int + d[i] as int - Masked(d, s.mask)[i] as int
  {
    NetworkIsCanonical(q, ones);
    assert s.mask == CIDRMask(ones);
    hide NetworkOf, CIDRMask, And8, AndNot8, DrawByte, AddByte, Trial, Subnet.Canonical;
    forall i: nat | i < 4
      ensures Trial(s, draw)[i] as int == s.ip[i] as int + d[i] as int - Masked(d, s.mask)[i] as int
    {
      TrialByteAt(s, draw, d, i);
    }
  }

  lemma TrialByteAt(s: Subnet, draw: uint32, d: Quad, i: nat)
    requires s.Canonical() && i < 4
    requires draw == d[0] as int + 256 * d[1] as int + 65536 * d[2] as int + 16777216 * d[3] as int
    ensures Trial(s, draw)[i] as int == s.ip[i] as int + d[i] as int - And8(d[i], s.mask[i]) as int
  {
    hide Pow2, And, AndNot, DrawByte, And8, AndNot8, Subnet.Canonical;
    TrialIsInSubnet(s, draw);
    DrawnAt(draw, d, i);
    OutsideMask(d[i], s.mask[i]);
  }

  lemma DrawnAt(draw: uint32, d: Quad, i: nat)
    requires i < 4
    requires draw == d[0] as int + 256 * d[1] as int + 65536 * d[2] as int + 16777216 * d[3] as int
    ensures DrawByte(draw, i) == d[i]
  {
    UnpackBytes(d[0], d[1], d[2], d[3]);
  }

  lemma OutsideMask(b: byte, m: byte)
    ensures AndNot8(b, m) as int == b as int - And8(b, m) as int
  {
    hide And, AndNot, Pow2;
    ByteRange();
    SplitByMask(8, b, m);
  }

  lemma DrawnByte(n: byte, a: byte, m: byte)
    requires And8(a, m) == n
    ensures AddByte(n, AndNot8(a, m)) == a
  {
    hide And, AndNot, Pow2;
    ByteRange();
    SplitByMask(8, a, m);
  }

  lemma ByteRange()
    ensures Pow2(8) == 256
  {
  }

  // ---------- Which draws are taken ----------

  /** The bounds as given, or the closest usable addresses */
  function StartOf(s: Subnet, start: Option<IP>): IP {
    match start
    case Some(ip) => ip
    case None => To16([s.ip[0], s.ip[1], s.ip[2], AddByte(s.ip[3], 1)])
  }

  function EndOf(s: Subnet, end: Option<IP>): IP {
    match end
    case Some(ip) => ip
    case None =>
      var b := s.Broadcast();
      To16([b[0], b[1], b[2], AddByte(b[3], 255)])
  }

  function AllLeases(s: Subnet, leases: seq<IP>): seq<IP> {
    leases + [s.ip, s.Broadcast()]
  }

  predicate Acceptable(q: Quad, leases: seq<IP>, start: IP, end: IP) {
    && Compare(To16(q), start) >= 0
    && Compare(To16(q), end) <= 0
    && forall lease | lease in leases :: !Equal(To16(q), lease)
  }

  /** FindFreeIP on the draws that the random source happens to give.  The code loops until a draw is
      acceptable; `hit` is the position of one, without which it would never return. */
  method FindFreeIP(subnet: Subnet, given: seq<IP>, first: Option<IP>, last: Option<IP>, draws: nat -> uint32,
                    ghost hit: nat)
    returns (ip: IP, tried: nat)
    requires Acceptable(Trial(subnet, draws(hit)), AllLeases(subnet, given),
                        StartOf(subnet, first), EndOf(subnet, last))
    ensures ip == To16(Trial(subnet, draws(tried))) && tried <= hit
    ensures Acceptable(Trial(subnet, draws(tried)), AllLeases(subnet, given),
                       StartOf(subnet, first), EndOf(subnet, last))
    ensures forall n | 0 <= n < tried ::
      !Acceptable(Trial(subnet, draws(n)), AllLeases(subnet, given), StartOf(subnet, first), EndOf(subnet, last))
  {
    hide Compare, Equal, To16;
    var broadcastIP := new byte[4];
    for i := 0 to 4
      invariant forall j | 0 <= j < i :: broadcastIP[j] == subnet.Broadcast()[j]
    {
      broadcastIP[i] := OrNot8(subnet.ip[i], subnet.mask[i]);
    }
    assert broadcastIP[..] == subnet.Broadcast();
    var leases := given + [subnet.ip, broadcastIP[..]];

    var start := if first.Some? then first.value
                 else To16([subnet.ip[0], subnet.ip[1], subnet.ip[2], AddByte(subnet.ip[3], 1)]);
    var end := if last.Some? then last.value
               else To16([broadcastIP[0], broadcastIP[1], broadcastIP[2], AddByte(broadcastIP[3], 255)]);
    assert start == StartOf(subnet, first) && end == EndOf(subnet, last) && leases == AllLeases(subnet, given);

    tried := 0;
    while true
      invariant tried <= hit
      invariant forall n | 0 <= n < tried :: !Acceptable(Trial(subnet, draws(n)), leases, start, end)
      decreases hit - tried
    {
      var trialB := new byte[4];
      for i := 0 to 4
        invariant forall j | 0 <= j < i :: trialB[j] == Trial(subnet, draws(tried))[j]
      {
        trialB[i] := AddByte(subnet.ip[i], AndNot8(DrawByte(draws(tried), i), subnet.mask[i]));
      }
      assert trialB[..] == Trial(subnet, draws(tried));
      var trial := To16(trialB[..]);

      if Compare(trial, start) < 0 || Compare(trial, end) > 0 {
        tried := tried + 1;
        continue;
      }
      var leased := false;
      for i := 0 to |leases|
        invariant !leased && forall j | 0 <= j < i :: !Equal(trial, leases[j])
      {
        if Equal(trial, leases[i]) {
          leased := true;
          break;
        }
      }
      if leased {
        tried := tried + 1;
        continue;
      }
      return trial, tried;
    }
  }

  // ---------- What is found ----------

  /** The address is not the network's own, not the broadcast address, and on no lease. */
  predicate Unused(s: Subnet, leases: seq<IP>, q: Quad) {
    q != s.ip && q != s.Broadcast() && forall lease | lease in leases :: To4(lease) != Some(q)
  }

  /** A bound as a caller can give it: not at all, as an address in its 16-byte form, or in its 4-byte form */
  datatype Limit = Unset | Full(address: Quad) | Short(address: Quad)

  function Given(limit: Limit): Option<IP> {
    match limit
    case Unset => None
    case Full(a) => Some(To16(a))
    case Short(a) => Some(a)
  }

  const ZERO: Quad := [0, 0, 0, 0]
  const BEYOND: int := 0x1_0000_0000

  /** The lowest and highest address of the search as numbers.  The code compares the 16-byte form of an address, which
      begins with ten zeros, with the bound byte by byte: a bound in its 4-byte form lies beyond all addresses,
      unless it is zero, when it lies before them. */
  function Lowest(s: Subnet, start: Limit): int {
    match start
    case Unset => Value(s.ip) + 1
    case Full(a) => Value(a)
    case Short(a) => if a == ZERO then 0 else BEYOND
  }

  function Highest(s: Subnet, end: Limit): int {
    match end
    case Unset => Value(s.Broadcast()) - 1
    case Full(a) => Value(a)
    case Short(a) => if a == ZERO then -1 else BEYOND
  }

  /** A subnet with a usable address: its network address does not end in 255 nor its broadcast address
      in 0, which is so for every prefix up to 31 bits. */
  predicate HasDefaults(s: Subnet) {
    s.ip[3] < 255 && s.Broadcast()[3] > 0
  }

  lemma LeasesExactly(s: Subnet, leases: seq<IP>, q: Quad)
    ensures (forall lease | lease in AllLeases(s, leases) :: !Equal(To16(q), lease)) <==> Unused(s, leases, q)
  {
    hide Equal;
    var all := AllLeases(s, leases);
    forall lease
      ensures Equal(To16(q), lease) <==> To4(lease) == Some(q)
    {
      EqualMeansSameQuad(q, lease);
    }
    assert all[|leases|] == s.ip && all[|leases| + 1] == s.Broadcast();
    assert forall lease :: lease in all <==> lease in leases || lease == s.ip || lease == s.Broadcast();
    assert To4(s.ip) == Some(s.ip) && To4(s.Broadcast()) == Some(s.Broadcast());
    if forall lease | lease in all :: !Equal(To16(q), lease) {
      assert s.ip in all && s.Broadcast() in all;
      assert forall lease | lease in leases :: lease in all && !Equal(To16(q), lease);
    }
  }

  /** How an address compares with a bound in its 4-byte form */
  lemma CompareWithShort(q: Quad, a: Quad)
    ensures Compare(To16(q), a) > 0 <==> a == ZERO
    ensures Compare(To16(q), a) < 0 <==> a != ZERO
  {
    var long := To16(q);
    assert long[0] == 0 && long[1] == 0 && long[2] == 0 && long[3] == 0;
    CompareSkip(long, a);
    CompareSkip(long[1..], a[1..]);
    CompareSkip(long[2..], a[2..]);
    CompareSkip(long[3..], a[3..]);
    assert long[1..][1..] == long[2..] && long[2..][1..] == long[3..] && long[3..][1..] == long[4..] != [];
    assert a[1..][1..] == a[2..] && a[2..][1..] == a[3..] && a[3..][1..] == [];
  }

  lemma ValueOfNext(q: Quad)
    requires q[3] < 255
    ensures Value([q[0], q[1], q[2], AddByte(q[3], 1)]) == Value(q) + 1
  {
  }

  lemma StartExactly(s: Subnet, start: Limit, q: Quad)
    requires HasDefaults(s)
    ensures Compare(To16(q), StartOf(s, Given(start))) >= 0 <==> Lowest(s, start) <= Value(q)
  {
    hide Compare, AddByte, OrNot8;
    if start.Short? {
      CompareWithShort(q, start.address);
    } else {
      var lo: Quad := if start.Full? then start.address else [s.ip[0], s.ip[1], s.ip[2], AddByte(s.ip[3], 1)];
      assert StartOf(s, Given(start)) == To16(lo);
      ValueOfNext(s.ip);
      assert Value(lo) == Lowest(s, start);
      hide Value, StartOf, Lowest, AddByte;
      CompareIsNumeric(q, lo);
    }
  }

  lemma EndExactly(s: Subnet, end: Limit, q: Quad)
    requires HasDefaults(s)
    ensures Compare(To16(q), EndOf(s, Given(end))) <= 0 <==> Value(q) <= Highest(s, end)
  {
    hide OrNot8, Compare;
    if end.Short? {
      CompareWithShort(q, end.address);
    } else {
      var b := s.Broadcast();
      var hi: Quad := if end.Full? then end.address else [b[0], b[1], b[2], AddByte(b[3], 255)];
      assert EndOf(s, Given(end)) == To16(hi);
      assert Value(hi) == Highest(s, end);
      hide Value, EndOf, Highest;
      CompareIsNumeric(q, hi);
    }
  }

  lemma AcceptableExactly(s: Subnet, leases: seq<IP>, start: Limit, end: Limit, q: Quad)
    requires HasDefaults(s)
    ensures Acceptable(q, AllLeases(s, leases), StartOf(s, Given(start)), EndOf(s, Given(end))) <==>
      Lowest(s, start) <= Value(q) <= Highest(s, end) && Unused(s, leases, q)
  {
    hide StartOf, EndOf, AllLeases, Compare, Equal;
    LeasesExactly(s, leases, q);
    StartExactly(s, start, q);
    EndExactly(s, end, q);
  }

  /** Every address that can be returned is an unused address of the subnet within the bounds. */
  lemma FoundIsFree(s: Subnet, leases: seq<IP>, start: Limit, end: Limit, draw: uint32)
    requires s.Canonical() && HasDefaults(s)
    requires Acceptable(Trial(s, draw), AllLeases(s, leases), StartOf(s, Given(start)), EndOf(s, Given(end)))
    ensures var q := Trial(s, draw);
      && s.Contains(q) && Unused(s, leases, q)
      && Lowest(s, start) <= Value(q) <= Highest(s, end)
      && Value(s.ip) < Value(q) < Value(s.Broadcast())
  {
    var q := Trial(s, draw);
    TrialIsInSubnet(s, draw);
    AcceptableExactly(s, leases, start, end, q);
    BroadcastIsLast(s, q);
    ValueIsInjective(s.ip, q);
    ValueIsInjective(q, s.Broadcast());
  }

  /** Some draw ends the search exactly when there is an unused address of the subnet within the bounds. */
  lemma SearchCanEndExactly(s: Subnet, leases: seq<IP>, start: Limit, end: Limit)
    requires s.Canonical() && HasDefaults(s)
    ensures
      (exists draw: uint32 ::
         Acceptable(Trial(s, draw), AllLeases(s, leases), StartOf(s, Given(start)), EndOf(s, Given(end))))
      <==>
      (exists q: Quad :: s.Contains(q) && Unused(s, leases, q) && Lowest(s, start) <= Value(q) <= Highest(s, end))
  {
    if draw: uint32 :|
      Acceptable(Trial(s, draw), AllLeases(s, leases), StartOf(s, Given(start)), EndOf(s, Given(end))) {
      FoundIsFree(s, leases, start, end, draw);
    }
    if q: Quad :| s.Contains(q) && Unused(s, leases, q) && Lowest(s, start) <= Value(q) <= Highest(s, end) {
      AcceptableExactly(s, leases, start, end, q);
      EveryAddressIsDrawn(s, q);
    }
  }

  /** A start given in its 4-byte form rejects every address exactly if it is not zero, and otherwise none. */
  lemma ShortStartExactly(s: Subnet, leases: seq<IP>, start: Quad, end: Limit, q: Quad)
    requires HasDefaults(s)
    ensures Acceptable(q, AllLeases(s, leases), StartOf(s, Given(Short(start))), EndOf(s, Given(end))) <==>
      start == ZERO && Value(q) <= Highest(s, end) && Unused(s, leases, q)
  {
    hide Acceptable, AllLeases, StartOf, EndOf, Highest, Unused;
    AcceptableExactly(s, leases, Short(start), end, q);
  }

  /** An end given in its 4-byte form rejects every address exactly if it is zero, and is otherwise ignored ... */
  lemma ShortEndExactly(s: Subnet, leases: seq<IP>, start: Limit, end: Quad, q: Quad)
    requires HasDefaults(s)
    ensures Acceptable(q, AllLeases(s, leases), StartOf(s, Given(start)), EndOf(s, Given(Short(end)))) <==>
      end != ZERO && Lowest(s, start) <= Value(q) && Unused(s, leases, q)
  {
    hide Acceptable, AllLeases, StartOf, EndOf, Lowest, Unused;
    AcceptableExactly(s, leases, start, Short(end), q);
  }

  /** ... so that the search can return every unused address of the subnet above it. */
  lemma FoundBeyondShortEnd(s: Subnet, leases: seq<IP>, start: Limit, end: Quad, q: Quad)
    requires s.Canonical() && HasDefaults(s) && end != ZERO
    requires s.Contains(q) && Unused(s, leases, q) && Lowest(s, start) <= Value(q)
    ensures exists draw: uint32 ::
      Trial(s, draw) == q
      && Acceptable(Trial(s, draw), AllLeases(s, leases), StartOf(s, Given(start)), EndOf(s, Given(Short(end))))
  {
    hide Acceptable, AllLeases, StartOf, EndOf, Lowest, Unused, Trial, Pack;
    ShortEndExactly(s, leases, start, end, q);
    EveryAddressIsDrawn(s, q);
    assert Trial(s, Pack(q)) == q;
  }
}
