/** The bridge network plugin: the address of the bridge, the addresses it hands to pods, and the address
    it reports for a pod (network/lxdbridge.go, getInetAddress in cri/runtime.go). */
module Bridge {
  import opened Wrappers
  import opened Text
  import opened ConfigStores
  import opened Records
  import opened Devices
  import opened IPv4
  import opened FreeAddresses
  import opened SandboxCodec
  import opened SandboxConcurrency
  import Lxf
  import Runtime

  const IPV4_ADDRESS := "ipv4.address"
  const DHCP_RANGES := "ipv4.dhcp.ranges"
  const INTERFACE_ADDRESS := "interface-address"

  /** A network as LXD keeps it */
  datatype Network = Network(kind: string, config: Config)

  /** The part of LXD that manages networks and their leases */
  class NetworkServer {
    var networks: map<string, Network>
    var leases: map<string, seq<string>>

    /** A reliable server loses no request. */
    const reliable: bool

    constructor (reliable: bool)
      ensures networks == map[] && leases == map[] && this.reliable == reliable
    {
      networks, leases, this.reliable := map[], map[], reliable;
    }

    method GetNetwork(name: string) returns (r: Result<Network>)
      ensures r.Ok? ==> name in networks && r.value == networks[name]
      ensures r.Err? ==> if r.error == NotFound then name !in networks else r.error == Unavailable && !reliable
    {
      var lost := Lost(reliable);
      if lost { return Err(Unavailable); }
      r := if name in networks then Ok(networks[name]) else Err(NotFound);
    }

    method GetNetworkLeases(name: string) returns (r: Result<seq<string>>)
      ensures r.Ok? ==> name in leases && r.value == leases[name]
      ensures r.Err? ==> if r.error == NotFound then name !in leases else r.error == Unavailable && !reliable
    {
      var lost := Lost(reliable);
      if lost { return Err(Unavailable); }
      r := if name in leases then Ok(leases[name]) else Err(NotFound);
    }

    /** CreateNetwork and UpdateNetwork */
    method PutNetwork(name: string, network: Network) returns (err: Option<Error>)
      modifies `networks
      ensures err.None? ==> networks == old(networks)[name := network]
      ensures err.Some? ==> networks == old(networks) && err.value == Unavailable && !reliable
    {
      var lost := Lost(reliable);
      if lost { return Some(Unavailable); }
      networks := networks[name := network];
      err := None;
    }
  }

  /** The first address after the network's own; Go's byte addition wraps. */
  function FirstAddress(c: Cidr): Cidr {
    var n := NetworkOf(c.address, c.ones).ip;
    Cidr([n[0], n[1], n[2], AddByte(n[3], 1)], c.ones)
  }

  /** The value ensureBridge gives to the address of the bridge */
  function BridgeAddress(cidr: string, v6: IPv6Text): Option<string> {
    if cidr == "" then Some("auto")
    else match ParseCIDR(cidr) case None => v6.FirstOfRange(cidr) case Some(c) => Some(PrintCIDR(FirstAddress(c)))
  }

  function BridgeConfig(address: string, nat': bool): Config {
    map[IPV4_ADDRESS := address, "ipv4.dhcp" := FormatBool(true), "ipv4.nat" := FormatBool(nat'),
        "ipv6.address" := "none", "raw.dnsmasq" := "port=0"]
  }

  /** The options of a bridge with this address, under the keys of LXD */
  ghost predicate HasOptions(config: Config, address: Option<string>, nat': bool) {
    && Some(Get(config, "ipv4.address")) == address
    && Get(config, "ipv4.dhcp") == "true" && Get(config, "ipv4.nat") == (if nat' then "true" else "false")
    && Get(config, "ipv6.address") == "none" && Get(config, "raw.dnsmasq") == "port=0"
  }

  /** Every other option is as it was. */
  ghost predicate OthersKept(before: Config, after: Config) {
    forall k | k !in {"ipv4.address", "ipv4.dhcp", "ipv4.nat", "ipv6.address", "raw.dnsmasq"} ::
      (k in after <==> k in before) && Get(after, k) == Get(before, k)
  }

  lemma BridgeOptions(address: string, nat': bool, before: Config)
    ensures HasOptions(before + BridgeConfig(address, nat'), Some(address), nat')
    ensures OthersKept(before, before + BridgeConfig(address, nat'))
  {
  }

  /** What a search in the bridge's network starts from: its subnet and the addresses that are taken,
      among them the bridge's own */
  datatype Search = Search(subnet: Subnet, taken: seq<IP>)

  function SearchOf(config: Config, leases: seq<string>, v6: IPv6Text): Option<Search> {
    if Get(config, DHCP_RANGES) != "" then None
    else
      match ParseCIDR(Get(config, IPV4_ADDRESS))
      case None => None
      case Some(c) =>
        Some(Search(NetworkOf(c.address, c.ones),
                    seq(|leases|, i requires 0 <= i < |leases| => ParseIP(leases[i], v6)) + [To16(c.address)]))
  }

  /** The bridge has an address of its own, and no ranges are set aside for DHCP. */
  predicate CanSearch(config: Config) {
    Get(config, "ipv4.dhcp.ranges") == "" && ParseCIDR(Get(config, "ipv4.address")).Some?
  }

  /** The pod can be given this address: it is one of the bridge's range but not the first or the last, not the bridge's
      own, and on no lease. */
  ghost predicate Usable(config: Config, leases: seq<string>, v6: IPv6Text, q: Quad) {
    var own := ParseCIDR(Get(config, "ipv4.address"));
    && own.Some? && Bits.Pow2(32 - own.value.ones) > 0
    && var size := Bits.Pow2(32 - own.value.ones);
    && Value(q) / size == Value(own.value.address) / size
    && Value(q) % size != 0 && Value(q) % size != size - 1
    && q != own.value.address
    && forall lease | lease in leases :: To4(ParseIP(lease, v6)) != Some(q)
  }

  lemma UnusedIsUsable(config: Config, leases: seq<string>, v6: IPv6Text, q: Quad)
    requires SearchOf(config, leases, v6).Some?
    requires var search := SearchOf(config, leases, v6).value;
      search.subnet.Contains(q) && Unused(search.subnet, search.taken, q)
    ensures Usable(config, leases, v6, q)
  {
    hide NetworkOf, Subnet.Contains, Subnet.Broadcast, Value, Bits.Pow2, To4, ParseIP, ParseCIDR, To16;
    var own := ParseCIDR(Get(config, IPV4_ADDRESS)).value;
    var search := SearchOf(config, leases, v6).value;
    var size := Bits.Pow2(32 - own.ones);
    SubnetByNumbers(own.address, own.ones, q);
    ValueIsInjective(q, search.subnet.ip);
    ValueIsInjective(q, search.subnet.Broadcast());
    NotAtTheEnds(Value(own.address), Value(q), size);
    assert search.taken[|leases|] == To16(own.address);
    assert To16(own.address) in search.taken;
    SameAddress(own.address);
    forall lease | lease in leases
      ensures To4(ParseIP(lease, v6)) != Some(q)
    {
      var i :| 0 <= i < |leases| && leases[i] == lease;
      assert search.taken[i] == ParseIP(lease, v6);
      assert ParseIP(lease, v6) in search.taken;
    }
  }

  lemma SameAddress(q: Quad)
    ensures To4(To16(q)) == Some(q)
  {
    assert To16(q)[..12] == V4_IN_V6_PREFIX && To16(q)[12..] == q;
  }

  lemma NotAtTheEnds(own: nat, v: nat, size: nat)
    requires size > 0 && v / size == own / size
    ensures v != own / size * size <==> v % size != 0
    ensures v != own / size * size + size - 1 <==> v % size != size - 1
  {
    assert v == v / size * size + v % size;
  }

  /** Writes every entry of `put` over `config`. */
  method Merge(config: Config, put: Config) returns (r: Config)
    ensures r == config + put
  {
    r := config;
    var todo := put.Keys;
    while todo != {}
      invariant todo <= put.Keys
      invariant r == config + map k | k in put && k !in todo :: put[k]
    {
      var k :| k in todo;
      r := r[k := put[k]];
      todo := todo - {k};
    }
  }

  class Plugin {
    const server: NetworkServer
    const bridge: string
    const nat': bool
    const createOnly: bool
    var cidr: string

    constructor (server: NetworkServer, bridge: string, cidr: string, nat': bool, createOnly: bool)
      ensures this.server == server && this.cidr == cidr && this.nat' == nat' && this.createOnly == createOnly
      ensures this.bridge == if bridge == "" then "lxebr0" else bridge
    {
      this.server, this.cidr, this.nat', this.createOnly := server, cidr, nat', createOnly;
      this.bridge := if bridge == "" then "lxebr0" else bridge;
    }

    /** Creates the bridge or brings its options up to date, unless it may only be created. */
    method EnsureBridge(v6: IPv6Text) returns (err: Option<Error>)
      modifies server`networks
      ensures err.Some? ==> server.networks == old(server.networks)
      ensures err.None? ==>
        BridgeAddress(cidr, v6).Some?
          && (bridge in old(server.networks) ==> old(server.networks)[bridge].kind == "bridge")
      ensures server.reliable ==> (err.None? <==>
        BridgeAddress(cidr, v6).Some?
          && (bridge in old(server.networks) ==> old(server.networks)[bridge].kind == "bridge"))
      ensures err.None? ==>
        var put := BridgeConfig(BridgeAddress(cidr, v6).value, nat');
        server.networks ==
          if bridge !in old(server.networks) then old(server.networks)[bridge := Network("bridge", put)]
          else if createOnly then old(server.networks)
          else old(server.networks)[bridge := Network("bridge", old(server.networks)[bridge].config + put)]
      ensures err.None? && (createOnly ==> bridge !in old(server.networks)) ==>
        var config := server.networks[bridge].config;
        && HasOptions(config, if cidr == "" then Some("auto") else BridgeAddress(cidr, v6), nat')
        && (bridge in old(server.networks) ==> OthersKept(old(server.networks)[bridge].config, config))
    {
      hide HasOptions, OthersKept, AddByte, PrintCIDR, ParseCIDR;
      var address;
      if cidr == "" {
        address := "auto";
      } else {
        var parsed := ParseCIDR(cidr);
        if parsed.Some? {
          var ip := NetworkOf(parsed.value.address, parsed.value.ones).ip;
          ip := ip[3 := AddByte(ip[3], 1)];
          address := PrintCIDR(Cidr(ip, parsed.value.ones));
          assert ip == FirstAddress(parsed.value).address;
        } else {
          var first := v6.FirstOfRange(cidr);
          if first.None? { return Some(Parse); }
          address := first.value;
        }
      }
      var put := BridgeConfig(address, nat');
      BridgeOptions(address, nat', map[]);
      assert map[] + put == put;
      if bridge in server.networks {
        BridgeOptions(address, nat', server.networks[bridge].config);
      }
      hide BridgeConfig;
      var network := server.GetNetwork(bridge);
      if network.Err? {
        if network.error == NotFound {
          err := server.PutNetwork(bridge, Network("bridge", put));
          return;
        }
        return Some(network.error);
      }
      if network.value.kind != "bridge" { return Some(Usage); }
      if createOnly { return None; }
      var config := Merge(network.value.config, put);
      err := server.PutNetwork(bridge, network.value.(config := config));
    }

    /** A new pod range moves the bridge to its first address; without one nothing happens. */
    method UpdateRuntimeConfig(podCidr: string, v6: IPv6Text) returns (err: Option<Error>)
      modifies `cidr, server`networks
      ensures podCidr == "" ==> err.None? && cidr == old(cidr) && server.networks == old(server.networks)
      ensures podCidr != "" ==> cidr == podCidr
      ensures podCidr != "" && server.reliable ==>
        (err.None? <==>
         && BridgeAddress(podCidr, v6).Some?
         && (bridge in old(server.networks) ==> old(server.networks)[bridge].kind == "bridge"))
      ensures podCidr != "" && err.None? && (createOnly ==> bridge !in old(server.networks)) ==>
        bridge in server.networks
          && Some(Get(server.networks[bridge].config, IPV4_ADDRESS)) == BridgeAddress(podCidr, v6)
      ensures err.Some? ==> server.networks == old(server.networks)
    {
      if podCidr == "" { return None; }
      cidr := podCidr;
      err := EnsureBridge(v6);
    }

    /** findFreeIP: an unused address of the bridge's network that is not the address of the bridge. */
    method FindFree(v6: IPv6Text, draws: nat -> uint32, ghost hit: nat) returns (r: Result<IP>)
      requires bridge in server.networks && bridge in server.leases ==>
        var search := SearchOf(server.networks[bridge].config, server.leases[bridge], v6);
        search.Some? ==>
          var s := search.value.subnet;
          Acceptable(Trial(s, draws(hit)), AllLeases(s, search.value.taken), StartOf(s, None), EndOf(s, None))
      ensures r.Ok? ==> bridge in server.networks && bridge in server.leases
      ensures server.reliable ==> (r.Ok? <==>
        bridge in server.networks && bridge in server.leases && CanSearch(server.networks[bridge].config))
      ensures r.Ok? ==> exists q: Quad ::
        r.value == To16(q) && Usable(server.networks[bridge].config, server.leases[bridge], v6, q)
    {
      var found := server.GetNetwork(bridge);
      if found.Err? { return Err(found.error); }
      var network := found.value;
      if Get(network.config, DHCP_RANGES) != "" { return Err(Usage); }
      var raw := server.GetNetworkLeases(bridge);
      if raw.Err? { return Err(raw.error); }
      var rawLeases := raw.value;
      var leases: seq<IP> := [];
      for i := 0 to |rawLeases|
        invariant |leases| == i && forall j | 0 <= j < i :: leases[j] == ParseIP(rawLeases[j], v6)
      {
        leases := leases + [ParseIP(rawLeases[i], v6)];
      }
      var address := ParseCIDR(Get(network.config, IPV4_ADDRESS));
      if address.None? { return Err(Parse); }
      var bridgeNet := NetworkOf(address.value.address, address.value.ones);
      leases := leases + [To16(address.value.address)];
      ghost var search := SearchOf(network.config, rawLeases, v6).value;
      assert leases == search.taken;
      var ip, tried := FindFreeIP(bridgeNet, leases, None, None, draws, hit);
      NetworkIsCanonical(address.value.address, address.value.ones);
      FreeUnlessTaken(bridgeNet, leases, draws(tried));
      UnusedIsUsable(network.config, rawLeases, v6, Trial(bridgeNet, draws(tried)));
      r := Ok(ip);
    }

    /** WhenCreated of the pod: a free address, kept as mode data and given to the network card. */
    method WhenCreated(v6: IPv6Text, draws: nat -> uint32, ghost hit: nat) returns (r: Result<NetworkResult>)
      requires bridge in server.networks && bridge in server.leases ==>
        var search := SearchOf(server.networks[bridge].config, server.leases[bridge], v6);
        search.Some? ==>
          var s := search.value.subnet;
          Acceptable(Trial(s, draws(hit)), AllLeases(s, search.value.taken), StartOf(s, None), EndOf(s, None))
      ensures r.Ok? ==>
        && bridge in server.networks && bridge in server.leases
        && exists q: Quad ::
             Usable(server.networks[bridge].config, server.leases[bridge], v6, q) && r.value == PodResult(q, bridge)
      ensures server.reliable ==> (r.Ok? <==>
        bridge in server.networks && bridge in server.leases && CanSearch(server.networks[bridge].config))
    {
      hide SearchOf, Acceptable, Trial, Usable, PrintQuad;
      var randIP := FindFree(v6, draws, hit);
      if randIP.Err? { return Err(randIP.error); }
      var text := PrintIP(randIP.value, v6);
      ghost var q: Quad :|
        randIP.value == To16(q) && Usable(server.networks[bridge].config, server.leases[bridge], v6, q);
      ParsePrintedIP(q, v6);
      r := Ok(NetworkResult(map[INTERFACE_ADDRESS := text], [Nic("", "eth0", "bridged", bridge, text)],
                            [Physical("eth0", ["dhcp"])]));
    }
  }

  /** What the plugin hands back for a pod with this address */
  function PodResult(q: Quad, bridge: string): NetworkResult {
    NetworkResult(map[INTERFACE_ADDRESS := PrintQuad(q)], [Nic("", "eth0", "bridged", bridge, PrintQuad(q))],
                  [Physical("eth0", ["dhcp"])])
  }

  /** Status of the pod network: the address kept in the mode data */
  function Status(data: map<string, string>, v6: IPv6Text): Result<IP> {
    if Get(data, INTERFACE_ADDRESS) == "" then Err(Parse)
    else
      var ip := ParseIP(Get(data, INTERFACE_ADDRESS), v6);
      if ip == [] then Err(Parse) else Ok(ip)
  }

  /** The address a pod status reports for a pod in bridge mode; empty if there is none */
  function ReportedAddress(y: Yaml, v6: IPv6Text, p: Profile): string
    requires ModeOf(p) == Bridged
  {
    match ModeDataOf(y, p)
    case None => ""
    case Some(data) => match Status(data, v6) case Err(_) => "" case Ok(ip) => PrintIP(ip, v6)
  }

  lemma FreeUnlessTaken(s: Subnet, taken: seq<IP>, draw: uint32)
    requires s.Canonical()
    requires Acceptable(Trial(s, draw), AllLeases(s, taken), StartOf(s, None), EndOf(s, None))
    ensures s.Contains(Trial(s, draw)) && Unused(s, taken, Trial(s, draw))
  {
    hide Compare, StartOf, EndOf;
    TrialIsInSubnet(s, draw);
    LeasesExactly(s, taken, Trial(s, draw));
  }

  /** For a range with a prefix of at most 31 bits, the bridge gets the address after the network's own, which is the
      largest multiple of the size of the range that is not above the given address.  The search runs over that very
      range, and yields neither of its ends nor the address of the bridge. */
  lemma BridgeAddressIsNetworkPlusOne(cidr: string, leases: seq<string>, v6: IPv6Text, nat': bool)
    requires ParseCIDR(cidr).Some? && ParseCIDR(cidr).value.ones <= 31
    ensures var c := ParseCIDR(cidr).value;
      var size, first := Bits.Pow2(32 - c.ones), FirstAddress(c).address;
      var address := BridgeAddress(cidr, v6);
      && size > 0 && Value(first) == Value(c.address) / size * size + 1
      && address == Some(PrintQuad(first) + "/" + FormatNat(c.ones))
      && var search := SearchOf(BridgeConfig(address.value, nat'), leases, v6);
      && search.Some?
      && (forall q: Quad :: search.value.subnet.Contains(q) <==> Value(q) / size == Value(c.address) / size)
      && forall q: Quad | search.value.subnet.Contains(q) && Unused(search.value.subnet, search.value.taken, q) ::
           Value(q) % size !in {0, 1, size - 1}
  {
    var c := ParseCIDR(cidr).value;
    var config := BridgeConfig(BridgeAddress(cidr, v6).value, nat');
    BridgeIsFirst(c);
    ParsePrintedCIDR(FirstAddress(c));
    assert Get(config, IPV4_ADDRESS) == PrintCIDR(FirstAddress(c)) && Get(config, DHCP_RANGES) == "";
    SearchInRange(c, config, leases, v6);
    hide Value, NetworkOf, FirstAddress, Subnet.Contains, Unused, ParseCIDR, SearchOf, BridgeConfig, PrintQuad;
  }

  lemma BridgeIsFirst(c: Cidr)
    requires c.ones <= 31
    ensures var size, first := Bits.Pow2(32 - c.ones), FirstAddress(c).address;
      && size > 0 && Value(first) == Value(c.address) / size * size + 1
      && FirstAddress(c).ones == c.ones
      && NetworkOf(first, c.ones) == NetworkOf(c.address, c.ones)
  {
    hide Value, NetworkOf, Bits.Pow2, Subnet.Contains, Subnet.Broadcast, AddByte;
    FirstAddressStaysInside(c);
    SubnetByNumbers(c.address, c.ones, c.address);
  }

  lemma SearchInRange(c: Cidr, config: Config, leases: seq<string>, v6: IPv6Text)
    requires c.ones <= 31 && Get(config, DHCP_RANGES) == ""
    requires ParseCIDR(Get(config, IPV4_ADDRESS)) == Some(FirstAddress(c))
    ensures var size, search := Bits.Pow2(32 - c.ones), SearchOf(config, leases, v6);
      && size > 0 && search.Some?
      && (forall q: Quad :: search.value.subnet.Contains(q) <==> Value(q) / size == Value(c.address) / size)
      && forall q: Quad | search.value.subnet.Contains(q) && Unused(search.value.subnet, search.value.taken, q) ::
           Value(q) % size !in {0, 1, size - 1}
  {
    var size, first := Bits.Pow2(32 - c.ones), FirstAddress(c);
    BridgeIsFirst(c);
    var search := SearchOf(config, leases, v6).value;
    assert search.subnet == NetworkOf(c.address, c.ones);
    hide Value, NetworkOf, FirstAddress, Subnet.Contains, Unused, PrintCIDR, ParseCIDR, SearchOf, Bits.Pow2;
    forall q: Quad
      ensures search.subnet.Contains(q) <==> Value(q) / size == Value(c.address) / size
    {
      SubnetByNumbers(c.address, c.ones, q);
    }
    forall q: Quad | search.subnet.Contains(q) && Unused(search.subnet, search.taken, q)
      ensures Value(q) % size !in {0, 1, size - 1}
    {
      UnusedIsUsable(config, leases, v6, q);
      UsableInRange(config, leases, v6, q, c);
    }
  }

  lemma UsableInRange(config: Config, leases: seq<string>, v6: IPv6Text, q: Quad, c: Cidr)
    requires c.ones <= 31 && ParseCIDR(Get(config, IPV4_ADDRESS)) == Some(FirstAddress(c))
    requires Usable(config, leases, v6, q)
    requires Value(q) / Bits.Pow2(32 - c.ones) == Value(c.address) / Bits.Pow2(32 - c.ones)
    ensures Value(q) % Bits.Pow2(32 - c.ones) !in {0, 1, Bits.Pow2(32 - c.ones) - 1}
  {
    BridgeIsFirst(c);
    ValueIsInjective(q, FirstAddress(c).address);
    hide Value, FirstAddress, ParseCIDR, Bits.Pow2, To4, ParseIP;
    NotThatAddress(Value(c.address), Value(q), Value(FirstAddress(c).address), Bits.Pow2(32 - c.ones));
  }

  lemma NotThatAddress(own: nat, v: nat, first: nat, size: nat)
    requires size > 0 && v / size == own / size && first == own / size * size + 1 && v != first
    ensures v % size != 1
  {
    assert v == v / size * size + v % size;
  }

  lemma LastMaskByteIsEven(ones: PrefixLength)
    requires ones <= 31
    ensures CIDRMask(ones)[3] % 2 == 0
  {
  }

  lemma MaskedByEvenIsEven(n: byte, m: byte)
    requires m % 2 == 0 && And8(n, m) == n
    ensures n % 2 == 0 && n < 255 && And8(AddByte(n, 1), m) == n
  {
    assert Bits.And(8, n, m) == 2 * Bits.And(7, n / 2, m / 2);
    Bits.AndOfSuccessor(8, n, m);
  }

  lemma FirstAddressStaysInside(c: Cidr)
    requires c.ones <= 31
    ensures NetworkOf(FirstAddress(c).address, c.ones) == NetworkOf(c.address, c.ones)
    ensures Value(FirstAddress(c).address) == Value(NetworkOf(c.address, c.ones).ip) + 1
  {
    var s := NetworkOf(c.address, c.ones);
    LastMaskByteIsEven(c.ones);
    NetworkIsCanonical(c.address, c.ones);
    hide CIDRMask, And8;
    assert forall i | 0 <= i < 4 :: And8(s.ip[i], s.mask[i]) == s.ip[i];
    MaskedByEvenIsEven(s.ip[3], s.mask[3]);
    var f := NetworkOf(FirstAddress(c).address, c.ones);
    assert f.ip == s.ip;
  }

  // ---------- The address of a pod ----------

  /** Once RunPodSandbox has saved the address it chose for a pod, the pod status reports exactly this address after
      any interleaving of further calls on this pod and all others: stops, creations and starts of containers, whose
      bridge networks bring no mode data, through every save and reload.  Nothing is assumed of what happened before
      and between, not even that no other update was lost. */
  lemma ChosenAddressIsReported(y: Yaml, v6: IPv6Text, profiles: map<string, Profile>, before: seq<Step>, create: Step,
                                between: seq<Step>, q: Quad, bridge: string, after: seq<Step>)
    requires y.Lawful() && create.Create?
    requires var sys := Run(y, Initial(profiles), before); create.id !in sys.calls && create.pod !in sys.used
    requires var sys := Run(y, Next(y, Run(y, Initial(profiles), before), create), between);
      && Accepted(sys, create.id) && sys.calls[create.id].pod == create.pod
      && sys.calls[create.id].todo == [Save(PodResult(q, bridge))] && sys.calls[create.id].s.network.mode == Bridged
      && OnlyKeepers(Next(y, sys, Update(create.id)), after, create.pod)
    ensures var sys := Run(y, Next(y, Run(y, Initial(profiles), before), create), between);
      var final := Run(y, Next(y, sys, Update(create.id)), after);
      create.pod in final.profiles ==>
        && ModeOf(final.profiles[create.pod]) == Bridged
        && ReportedAddress(y, v6, final.profiles[create.pod]) == PrintQuad(q)
  {
    hide Encode, Decode, Next, HoldsTag, Consistent, ReportedAddress;
    var first := Run(y, Initial(profiles), before);
    RunConsistent(y, Initial(profiles), before);
    NextConsistent(y, first, create);
    RunConsistent(y, Next(y, first, create), between);
    var sys := Run(y, Next(y, first, create), between);
    OnlyCreatorLacksTag(y, first, create.id, create.pod, create.s, create.saves, between);
    NextConsistent(y, sys, Update(create.id));
    var saved := Next(y, sys, Update(create.id));
    SavedAddress(y, v6, sys, create.id, q, bridge);
    NothingLostFrom(y, saved, after, create.pod);
    ModeDataIsKept(y, saved, after, create.pod);
    var final := Run(y, saved, after);
    if create.pod in final.profiles {
      SameReport(y, v6, saved.profiles[create.pod], final.profiles[create.pod]);
    }
  }

  /** The write that saves the address */
  lemma SavedAddress(y: Yaml, v6: IPv6Text, sys: System, id: nat, q: Quad, bridge: string)
    requires y.Lawful() && Accepted(sys, id) && OthersHoldTags(y, sys, sys.calls[id].pod, {id})
    requires sys.calls[id].todo == [Save(PodResult(q, bridge))] && sys.calls[id].s.network.mode == Bridged
    ensures var saved, pod := Next(y, sys, Update(id)), sys.calls[id].pod;
      && OthersHoldTags(y, saved, pod, {})
      && pod in saved.profiles && ModeOf(saved.profiles[pod]) == Bridged
      && ReportedAddress(y, v6, saved.profiles[pod]) == PrintQuad(q)
  {
    hide Encode, Decode;
    var data := PodResult(q, bridge).data;
    assert data[INTERFACE_ADDRESS] == PrintQuad(q);
    OthersHoldTagsNext(y, sys, Update(id), sys.calls[id].pod, {id});
    EncodedStateAndModeData(y, Change(sys.calls[id].todo[0], sys.calls[id].s));
    ReportOfData(y, v6, Encode(y, Change(sys.calls[id].todo[0], sys.calls[id].s)), q, bridge);
  }

  lemma SameReport(y: Yaml, v6: IPv6Text, p: Profile, p': Profile)
    requires ModeOf(p) == Bridged && ModeOf(p') == ModeOf(p) && ModeDataOf(y, p') == ModeDataOf(y, p)
    ensures ReportedAddress(y, v6, p') == ReportedAddress(y, v6, p)
  {
  }

  /** What is stored of a pod with this address: its network card has the address, and the default card is off. */
  lemma SavedPodHasAddress(y: Yaml, s: SandboxData, q: Quad, bridge: string)
    ensures var devices := Encode(y, WithoutDefaultNic(WithNetworkResult(s, PodResult(q, bridge)))).devices;
      && "nic-eth0" in devices && "ipv4.address" in devices["nic-eth0"]
      && devices["nic-eth0"]["ipv4.address"] == PrintQuad(q)
      && Get(devices["nic-eth0"], "type") == "nic" && Get(devices["nic-eth0"], "nictype") == "bridged"
      && Get(devices["nic-eth0"], "name") == "eth0" && Get(devices["nic-eth0"], "parent") == bridge
      && "eth0" in devices && Get(devices["eth0"], "type") == "none"
      && forall n | n in s.devices && n != "nic-eth0" && n != "eth0" ::
        n in devices && devices[n] == s.devices[n].ToOptions()
  {
    hide EncodeConfig, PrintQuad;
    var nic: Device := Nic("", "eth0", "bridged", bridge, PrintQuad(q));
    var nics: seq<Device> := PodResult(q, bridge).nics;
    assert nics == [] + [nic];
    DenoteAppend([], nic);
    assert nic.Name() == "nic-eth0";
    assert Denote([]) == map[];
  }

  // ---------- Running a pod on the bridge ----------

  /** The pod status reports this address, and the pod's card on the bridge has it. */
  ghost predicate HasAddress(y: Yaml, v6: IPv6Text, p: Profile, q: Quad, bridge: string) {
    && ModeOf(p) == Bridged && ReportedAddress(y, v6, p) == PrintQuad(q)
    && ModeDataOf(y, p) == Some(map["interface-address" := PrintQuad(q)])
    && "nic-eth0" in p.devices && Get(p.devices["nic-eth0"], "type") == "nic"
    && Get(p.devices["nic-eth0"], "ipv4.address") == PrintQuad(q) && Get(p.devices["nic-eth0"], "parent") == bridge
    && "eth0" in p.devices && Get(p.devices["eth0"], "type") == "none"
  }

  /** Its cloud-init document ends with a card that is configured by DHCP. */
  lemma SavedPodUsesDHCP(y: Yaml, s: SandboxData, q: Quad, bridge: string)
    ensures var p := Encode(y, WithoutDefaultNic(WithNetworkResult(s, PodResult(q, bridge))));
      Get(p.config, "user.network-config") == y.CloudInit(
        (if s.network.nameservers == [] || s.network.searches == [] then []
         else [Nameserver(s.network.nameservers, s.network.searches)]) + s.cloudInit + [Physical("eth0", ["dhcp"])])
  {
    hide Encode;
    CloudInitFormat(y, WithoutDefaultNic(WithNetworkResult(s, PodResult(q, bridge))));
    var own := s.cloudInit + [Physical("eth0", ["dhcp"])];
    var nameserver := [Nameserver(s.network.nameservers, s.network.searches)];
    assert [] + s.cloudInit + [Physical("eth0", ["dhcp"])] == own;
    assert nameserver + s.cloudInit + [Physical("eth0", ["dhcp"])] == nameserver + own;
  }

  lemma ResultGivesAddress(y: Yaml, v6: IPv6Text, s: SandboxData, q: Quad, bridge: string)
    requires y.Lawful() && s.network.mode == Bridged
    ensures HasAddress(y, v6, Encode(y, WithoutDefaultNic(WithNetworkResult(s, PodResult(q, bridge)))), q, bridge)
  {
    hide Encode, PrintQuad, ReportedAddress;
    var s' := WithoutDefaultNic(WithNetworkResult(s, PodResult(q, bridge)));
    assert PodResult(q, bridge).data == map["interface-address" := PrintQuad(q)];
    assert PodResult(q, bridge).data[INTERFACE_ADDRESS] == PrintQuad(q);
    assert s'.network.mode == Bridged && s'.network.modeData == PodResult(q, bridge).data;
    SavedPodHasAddress(y, s, q, bridge);
    hide WithNetworkResult, WithoutDefaultNic, PodResult;
    EncodedStateAndModeData(y, s');
    ReportOfData(y, v6, Encode(y, s'), q, bridge);
  }

  lemma ReportOfData(y: Yaml, v6: IPv6Text, p: Profile, q: Quad, bridge: string)
    requires ModeOf(p) == Bridged && ModeDataOf(y, p) == Some(PodResult(q, bridge).data)
    ensures ReportedAddress(y, v6, p) == PrintQuad(q)
  {
    hide ModeOf, ModeDataOf;
    var data := PodResult(q, bridge).data;
    assert data[INTERFACE_ADDRESS] == PrintQuad(q);
    ParsePrintedIP(q, v6);
    assert PrintQuad(q) != "" && To16(q) != [];
  }

  /** The pod status goes on reporting the address, whatever calls without mode data follow on this pod and any calls on
      others. */
  ghost predicate KeepsAddress(y: Yaml, v6: IPv6Text, profiles: map<string, Profile>, pod: string, q: Quad) {
    forall steps | OnlyKeepers(Initial(profiles), steps, pod) ::
      var final := Run(y, Initial(profiles), steps).profiles;
      pod in final ==> ModeOf(final[pod]) == Bridged && ReportedAddress(y, v6, final[pod]) == PrintQuad(q)
  }

  lemma AddressIsKept(y: Yaml, v6: IPv6Text, profiles: map<string, Profile>, pod: string, q: Quad)
    requires y.Lawful() && pod in profiles
    requires ModeOf(profiles[pod]) == Bridged && ReportedAddress(y, v6, profiles[pod]) == PrintQuad(q)
    ensures KeepsAddress(y, v6, profiles, pod, q)
  {
    hide Run, ModeOf, ModeDataOf, ReportedAddress, OnlyKeepers, HoldsTag;
    forall steps | OnlyKeepers(Initial(profiles), steps, pod)
      ensures var final := Run(y, Initial(profiles), steps).profiles;
        pod in final ==> ModeOf(final[pod]) == Bridged && ReportedAddress(y, v6, final[pod]) == PrintQuad(q)
    {
      NothingLostFrom(y, Initial(profiles), steps, pod);
      ModeDataIsKept(y, Initial(profiles), steps, pod);
      var final := Run(y, Initial(profiles), steps).profiles;
      if pod in final {
        SameReport(y, v6, profiles[pod], final[pod]);
      }
    }
  }

  /** RunPodSandbox with the bridge plugin, which has nothing to do when the pod starts: the pod gets a usable address
      of the bridge's range, its card has it, and the pod status reports it from then on. */
  method RunBridgedPod(plugin: Plugin, sb: Lxf.Sandbox, newId: string, now: int64, v6: IPv6Text, draws: nat -> uint32,
                       ghost hit: nat)
    returns (err: Option<Error>)
    requires sb.Valid() && sb.id == "" && newId != "" && sb.network.mode == Bridged && sb.client.yaml.Lawful()
    requires plugin.bridge in plugin.server.networks && plugin.bridge in plugin.server.leases ==>
      var search := SearchOf(plugin.server.networks[plugin.bridge].config, plugin.server.leases[plugin.bridge], v6);
      search.Some? ==>
        var s := search.value.subnet;
        Acceptable(Trial(s, draws(hit)), AllLeases(s, search.value.taken), StartOf(s, None), EndOf(s, None))
    modifies sb, sb.client.server`profiles, sb.client.server`requests
    ensures err.None? ==>
      && newId !in old(sb.client.server.profiles) && newId in sb.client.server.profiles
      && plugin.bridge in plugin.server.networks && plugin.bridge in plugin.server.leases
      && exists q: Quad ::
           && Usable(plugin.server.networks[plugin.bridge].config, plugin.server.leases[plugin.bridge], v6, q)
           && HasAddress(sb.client.yaml, v6, sb.client.server.profiles[newId], q, plugin.bridge)
           && KeepsAddress(sb.client.yaml, v6, sb.client.server.profiles, newId, q)
  {
    hide SearchOf, Acceptable, Trial, Usable, PrintQuad, Encode, WithNetworkResult, WithoutDefaultNic, HasAddress,
         KeepsAddress, PodResult, Lxf.Sandbox.Value;
    ghost var given := sb.Value();
    var created := plugin.WhenCreated(v6, draws, hit);
    assert given.network == sb.network by {
      NetworkOfValue(sb);
    }
    var res: Result<Option<NetworkResult>> := match created case Ok(r) => Ok(Some(r)) case Err(e) => Err(e);
    err := Runtime.RunPodSandbox(sb, newId, now, res, Ok(None));
    if err.None? {
      ghost var y, config, leases := sb.client.yaml, plugin.server.networks[plugin.bridge].config,
        plugin.server.leases[plugin.bridge];
      ghost var q: Quad :| Usable(config, leases, v6, q) && created.value == PodResult(q, plugin.bridge);
      ghost var s :=
        given.(state := Ready, createdAt := now, devices := given.devices["eth0" := NoDevice("eth0")]);
      ResultGivesAddress(y, v6, s, q, plugin.bridge);
      AddressOf(y, v6, sb.client.server.profiles[newId], q, plugin.bridge);
      AddressIsKept(y, v6, sb.client.server.profiles, newId, q);
    }
  }

  lemma NetworkOfValue(sb: Lxf.Sandbox)
    ensures sb.Value().network == sb.network
  {
  }

  lemma AddressOf(y: Yaml, v6: IPv6Text, p: Profile, q: Quad, bridge: string)
    requires HasAddress(y, v6, p, q, bridge)
    ensures ModeOf(p) == Bridged && ReportedAddress(y, v6, p) == PrintQuad(q)
  {
  }
}
