/** Proxy endpoints, printed as protocol:address:port (lxf/device/proxy.go). */
module ProxyEndpoints {
  import opened Wrappers
  import opened Text

  datatype Protocol = Undefined | TCP | UDP {
    function ToString(): string {
      match this
      case Undefined => "undefined"
      case TCP => "tcp"
      case UDP => "udp"
    }
  }

  function NewProtocol(s: string): Result<Protocol> {
    if s == "tcp" then Ok(TCP) else if s == "udp" then Ok(UDP) else Err(Parse)
  }

  datatype ProxyEndpoint = ProxyEndpoint(protocol: Protocol, address: string, port: int64) {
    function ToString(): string {
      protocol.ToString() + ":" + address + ":" + FormatInt(port)
    }

    /** What an endpoint needs so that its printed form can be read again */
    predicate Printable() {
      protocol != Undefined && Free(address, ':')
    }
  }

  function NewProxyEndpoint(s: string): Result<ProxyEndpoint> {
    var parts := Split(s, ':');
    if |parts| != 3 then Err(Parse)
    else match NewProtocol(parts[0])
      case Err(e) => Err(e)
      case Ok(protocol) =>
        match ParseInt(parts[2])
        case None => Err(Parse)
        case Some(port) => Ok(ProxyEndpoint(protocol, parts[1], port))
  }

  lemma FormatIntIsColonFree(n: int)
    ensures Free(FormatInt(n), ':')
  {
    var digits := FormatNat(if n < 0 then -n else n);
    assert forall i | 0 <= i < |digits| :: IsDigit(digits[i]);
  }

  /** The three parts of a printed endpoint, when its address has no colon */
  lemma PartsOfPrinted(e: ProxyEndpoint)
    requires Free(e.address, ':')
    ensures Split(e.ToString(), ':') == [e.protocol.ToString(), e.address, FormatInt(e.port)]
  {
    var p, port := e.protocol.ToString(), FormatInt(e.port);
    FormatIntIsColonFree(e.port);
    SplitOfFree(port, ':');
    SplitAtSeparator(e.address, ':', port);
    SplitAtSeparator(p, ':', e.address + ":" + port);
    assert e.ToString() == p + ":" + (e.address + ":" + port);
  }

  /** Printing is undone by parsing exactly for TCP and UDP endpoints with a colon-free address. */
  lemma PrintParse(e: ProxyEndpoint)
    ensures NewProxyEndpoint(e.ToString()) == Ok(e) <==> e.Printable()
  {
    if e.Printable() {
      PartsOfPrinted(e);
      ParseIntOfFormat(e.port);
    }
  }

  /** The text of an endpoint, and what it parses to */
  lemma EndpointFormat(address: string, port: int64)
    ensures ProxyEndpoint(TCP, address, port).ToString() == "tcp:" + address + ":" + FormatInt(port)
    ensures ProxyEndpoint(UDP, address, port).ToString() == "udp:" + address + ":" + FormatInt(port)
    ensures Free(address, ':') ==>
      && NewProxyEndpoint("tcp:" + address + ":" + FormatInt(port)) == Ok(ProxyEndpoint(TCP, address, port))
      && NewProxyEndpoint("udp:" + address + ":" + FormatInt(port)) == Ok(ProxyEndpoint(UDP, address, port))
  {
    hide FormatInt, NewProxyEndpoint;
    assert "tcp" + ":" == "tcp:" && "udp" + ":" == "udp:";
    PrintParse(ProxyEndpoint(TCP, address, port));
    PrintParse(ProxyEndpoint(UDP, address, port));
  }

  /** Whatever text was accepted, the canonical text of the endpoint is accepted for the same endpoint. */
  lemma ParsePrintParse(s: string)
    requires NewProxyEndpoint(s).Ok?
    ensures NewProxyEndpoint(NewProxyEndpoint(s).value.ToString()) == NewProxyEndpoint(s)
  {
    assert Split(s, ':')[1] in Split(s, ':');
    PrintParse(NewProxyEndpoint(s).value);
  }
}

/** The devices of a pod or container, and the option maps LXD keeps for them (lxf/device). */
module Devices {
  import opened Wrappers
  import opened Text
  import opened ConfigStores
  import opened ProxyEndpoints

  type Options = map<string, string>

  datatype Device =
    | Block(keyName: string, path: string, source: string)
    | Char(keyName: string, path: string, source: string)
    | Disk(keyName: string, path: string, source: string, pool: string, size: string, readonly: bool, optional: bool)
    | Nic(keyName: string, name: string, nicType: string, parent: string, ipv4Address: string)
    | NoDevice(keyName: string)
    | Proxy(keyName: string, listen: ProxyEndpoint, destination: ProxyEndpoint)
  {
    /** The name under which the device is stored: the given one, or one derived from its options */
    function Name(): string {
      match this
      case NoDevice(keyName) => keyName
      case Block(keyName, path, source) =>
        if keyName != "" then keyName else "unix-block-" + (if path == "" then source else path)
      case Char(keyName, path, source) =>
        if keyName != "" then keyName else "unix-char-" + (if path == "" then source else path)
      case Disk(keyName, path, source, _, _, _, _) =>
        if keyName != "" then keyName else "disk-" + (if path == "" then source else path)
      case Nic(keyName, name, _, _, _) => if keyName != "" then keyName else "nic-" + name
      case Proxy(keyName, listen, _) => if keyName != "" then keyName else "proxy-" + listen.ToString()
    }

    /** The option map LXD stores for the device */
    function ToOptions(): Options {
      match this
      case Block(_, path, source) => map["type" := "unix-block", "source" := source, "path" := path]
      case Char(_, path, source) => map["type" := "unix-char", "source" := source, "path" := path]
      case Disk(_, path, source, pool, size, readonly, optional) =>
        map["type" := "disk", "path" := path, "source" := source, "pool" := pool, "size" := size,
            "readonly" := FormatBool(readonly), "optional" := FormatBool(optional)]
      case Nic(_, name, nicType, parent, ipv4Address) =>
        map["type" := "nic", "name" := name, "nictype" := nicType, "parent" := parent, "ipv4.address" := ipv4Address]
      case NoDevice(_) => map["type" := "none"]
      case Proxy(_, listen, destination) =>
        map["type" := "proxy", "listen" := listen.ToString(), "connect" := destination.ToString()]
    }

    /** The same device with a name of its own */
    function WithKey(name: string): Device {
      this.(keyName := name)
    }

    /** Both endpoints of a proxy can be read again; every other device can. */
    predicate Storable() {
      Proxy? ==> listen.Printable() && destination.Printable()
    }
  }

  /** Detects the type of a stored device and loads its options. */
  function Detect(name: string, o: Options): Result<Device> {
    var kind := Get(o, "type");
    if kind == "unix-block" then Ok(Block(name, Get(o, "path"), Get(o, "source")))
    else if kind == "unix-char" then Ok(Char(name, Get(o, "path"), Get(o, "source")))
    else if kind == "disk" then
      Ok(Disk(name, Get(o, "path"), Get(o, "source"), Get(o, "pool"), Get(o, "size"),
              Get(o, "readonly") == "true", Get(o, "optional") == "true"))
    else if kind == "nic" then
      Ok(Nic(name, Get(o, "name"), Get(o, "nictype"), Get(o, "parent"), Get(o, "ipv4.address")))
    else if kind == "none" then Ok(NoDevice(name))
    else if kind == "proxy" then
      match NewProxyEndpoint(Get(o, "listen"))
      case Err(e) => Err(e)
      case Ok(listen) =>
        match NewProxyEndpoint(Get(o, "connect"))
        case Err(e) => Err(e)
        case Ok(destination) => Ok(Proxy(name, listen, destination))
    else Err(Parse)
  }

  /** A device read back is the device written, now carrying the name it was stored under. */
  lemma DetectOfOptions(d: Device, name: string)
    requires d.Storable()
    ensures Detect(name, d.ToOptions()) == Ok(d.WithKey(name))
  {
    hide NewProxyEndpoint, ProxyEndpoint.ToString, ProxyEndpoint.Printable;
    if d.Proxy? {
      PrintParse(d.listen);
      PrintParse(d.destination);
    }
  }

  /** The options as LXD documents them: under which key each field of a device is stored */
  lemma OptionsFormat(devices: map<string, Device>, n: string)
    requires n in devices
    ensures n in ToOptionMaps(devices)
    ensures var d, o := devices[n], ToOptionMaps(devices)[n];
      && Get(o, "type") == (match d case Block(_, _, _) => "unix-block" case Char(_, _, _) => "unix-char"
           case Disk(_, _, _, _, _, _, _) => "disk" case Nic(_, _, _, _, _) => "nic" case NoDevice(_) => "none"
           case Proxy(_, _, _) => "proxy")
      && (d.Block? || d.Char? || d.Disk? ==> Get(o, "path") == d.path && Get(o, "source") == d.source)
      && (d.Disk? ==>
        && Get(o, "pool") == d.pool && Get(o, "size") == d.size
        && (Get(o, "readonly") == "true" <==> d.readonly) && (Get(o, "optional") == "true" <==> d.optional))
      && (d.Nic? ==>
        && Get(o, "name") == d.name && Get(o, "nictype") == d.nicType && Get(o, "parent") == d.parent
        && Get(o, "ipv4.address") == d.ipv4Address)
      && (d.Proxy? ==> Get(o, "listen") == d.listen.ToString() && Get(o, "connect") == d.destination.ToString())
  {
    hide ProxyEndpoint.ToString;
  }

  /** Options load exactly if their type is one of six, and those of a proxy only if both endpoints parse. */
  lemma DetectsExactly(name: string, o: Options)
    ensures Detect(name, o).Ok? <==>
      || Get(o, "type") in {"unix-block", "unix-char", "disk", "nic", "none"}
      || (Get(o, "type") == "proxy" && NewProxyEndpoint(Get(o, "listen")).Ok?
          && NewProxyEndpoint(Get(o, "connect")).Ok?)
  {
    hide NewProxyEndpoint;
  }

  /** What the derived name of a device without a name shows: its path if it has one, or else its source; the name of
      a card; the endpoint a proxy listens on. */
  function Shown(d: Device): string {
    match d
    case Block(_, path, source) => if path != "" then path else source
    case Char(_, path, source) => if path != "" then path else source
    case Disk(_, path, source, _, _, _, _) => if path != "" then path else source
    case Nic(_, name, _, _, _) => name
    case NoDevice(_) => ""
    case Proxy(_, listen, _) => listen.ToString()
  }

  /** Two devices without names get the same name, so that one replaces the other, exactly if they are of one type and
      show the same; a device with a name gets that name. */
  lemma SharedNameExactly(a: Device, b: Device)
    ensures a.keyName != "" ==> a.Name() == a.keyName
    ensures a.keyName == "" ==>
      a.Name() == if a.NoDevice? then "" else Get(a.ToOptions(), "type") + "-" + Shown(a)
    ensures a.keyName == "" && b.keyName == "" ==>
      (a.Name() == b.Name() <==>
       Get(a.ToOptions(), "type") == Get(b.ToOptions(), "type") && Shown(a) == Shown(b))
  {
    DerivedName(a);
    DerivedName(b);
    hide Device.Name, Device.ToOptions, Shown;
    PrefixesDiffer(Get(a.ToOptions(), "type"), Shown(a), Get(b.ToOptions(), "type"), Shown(b));
  }

  lemma DerivedName(d: Device)
    ensures d.keyName != "" ==> d.Name() == d.keyName
    ensures d.keyName == "" ==>
      d.Name() == if d.NoDevice? then "" else Get(d.ToOptions(), "type") + "-" + Shown(d)
    ensures Get(d.ToOptions(), "type") in {"unix-block", "unix-char", "disk", "nic", "proxy", "none"}
    ensures d.NoDevice? <==> Get(d.ToOptions(), "type") == "none"
    ensures d.NoDevice? ==> Shown(d) == ""
  {
    hide ProxyEndpoint.ToString;
  }

  lemma PrefixesDiffer(s: string, x: string, t: string, y: string)
    requires s in {"unix-block", "unix-char", "disk", "nic", "proxy", "none"}
    requires t in {"unix-block", "unix-char", "disk", "nic", "proxy", "none"}
    ensures s + "-" + x == t + "-" + y <==> s == t && x == y
  {
    var a, b := s + "-" + x, t + "-" + y;
    if a == b {
      assert a[0] == s[0] && a[1] == s[1] && a[2] == s[2];
      assert b[0] == t[0] && b[1] == t[1] && b[2] == t[2];
      assert s[0] == 'u' ==> a[5] == s[5] && b[5] == t[5];
      assert a[|s| + 1..] == x && b[|t| + 1..] == y;
    }
  }

  lemma KeyIsNoOption(d: Device, name: string)
    ensures d.WithKey(name).ToOptions() == d.ToOptions()
  {
  }

  /** What is read back from any options can be stored again, under the name it was found under. */
  lemma DetectedIsStorable(name: string, o: Options)
    requires Detect(name, o).Ok?
    ensures Detect(name, o).value.Storable() && Detect(name, o).value.keyName == name
    ensures name != "" ==> Detect(name, o).value.Name() == name
  {
    var d := Detect(name, o).value;
    if d.Proxy? {
      ParsePrintParse(Get(o, "listen"));
      ParsePrintParse(Get(o, "connect"));
      PrintParse(d.listen);
      PrintParse(d.destination);
    }
  }

  // ---------- Lists of devices unique by name ----------

  ghost predicate UniqueNames(ds: seq<Device>) {
    ds == [] || (ds[0].Name() !in Denote(ds[1..]) && UniqueNames(ds[1..]))
  }

  /** The map a device list stands for; of several devices with one name the last counts. */
  function Denote(ds: seq<Device>): map<string, Device> {
    if ds == [] then map[] else map[ds[0].Name() := ds[0]] + Denote(ds[1..])
  }

  lemma {:induction false} DenoteLookup(ds: seq<Device>, name: string)
    ensures name in Denote(ds) <==> exists i :: 0 <= i < |ds| && ds[i].Name() == name
    ensures name in Denote(ds) ==> Denote(ds)[name].Name() == name && Denote(ds)[name] in ds
  {
    if ds != [] {
      DenoteLookup(ds[1..], name);
      if i :| 0 <= i < |ds| && ds[i].Name() == name {
        assert i > 0 ==> ds[1..][i - 1] == ds[i];
      }
    }
  }

  lemma {:induction false} UniqueNamesAreDistinct(ds: seq<Device>)
    ensures UniqueNames(ds) <==> forall i, j | 0 <= i < j < |ds| :: ds[i].Name() != ds[j].Name()
  {
    if ds != [] {
      UniqueNamesAreDistinct(ds[1..]);
      DenoteLookup(ds[1..], ds[0].Name());
      assert forall i | 0 < i < |ds| :: ds[i] == ds[1..][i - 1];
      assert forall i | 0 <= i < |ds| - 1 :: ds[1..][i] == ds[i + 1];
    }
  }

  /** The last device of a name is the one that counts. */
  lemma {:induction false} LastCounts(ds: seq<Device>, i: nat)
    requires i < |ds| && forall j | i < j < |ds| :: ds[j].Name() != ds[i].Name()
    ensures ds[i].Name() in Denote(ds) && Denote(ds)[ds[i].Name()] == ds[i]
  {
    hide Device.Name;
    if i == 0 {
      DenoteLookup(ds[1..], ds[0].Name());
      assert forall j | 0 <= j < |ds| - 1 :: ds[1..][j] == ds[j + 1];
    } else {
      assert ds[1..][i - 1] == ds[i] && forall j | i - 1 < j < |ds| - 1 :: ds[1..][j] == ds[j + 1];
      LastCounts(ds[1..], i - 1);
    }
  }

  lemma {:induction false} DenoteAppend(ds: seq<Device>, d: Device)
    ensures Denote(ds + [d]) == Denote(ds)[d.Name() := d]
  {
    if ds == [] {
      assert (ds + [d])[1..] == [];
    } else {
      DenoteAppend(ds[1..], d);
      assert (ds + [d])[1..] == ds[1..] + [d];
    }
  }

  /** Devices.Upsert as a function on the list */
  function Upserted(ds: seq<Device>, a: Device): seq<Device> {
    if ds == [] then [a]
    else if ds[0].Name() == a.Name() then [a] + ds[1..]
    else [ds[0]] + Upserted(ds[1..], a)
  }

  /** Devices.Upsert: overwrites the first device of the same name in place, or appends. */
  method Upsert(ds: seq<Device>, a: Device) returns (r: seq<Device>)
    ensures r == Upserted(ds, a)
    ensures (forall j | 0 <= j < |ds| :: ds[j].Name() != a.Name()) ==> r == ds + [a]
    ensures forall k | 0 <= k < |ds| && ds[k].Name() == a.Name()
                       && (forall j | 0 <= j < k :: ds[j].Name() != a.Name()) ::
      r == ds[k := a]
  {
    hide Device.Name;
    for k := 0 to |ds|
      invariant forall j | 0 <= j < k :: ds[j].Name() != a.Name()
    {
      if ds[k].Name() == a.Name() {
        UpsertedAt(ds, a, k);
        return ds[k := a];
      }
    }
    UpsertedAt(ds, a, |ds|);
    r := ds + [a];
  }

  lemma {:induction false} UpsertedAt(ds: seq<Device>, a: Device, k: nat)
    requires k <= |ds| && forall j | 0 <= j < k :: ds[j].Name() != a.Name()
    requires k < |ds| ==> ds[k].Name() == a.Name()
    ensures Upserted(ds, a) == if k < |ds| then ds[k := a] else ds + [a]
  {
    hide Device.Name;
    if k > 0 {
      assert forall j | 0 <= j < k - 1 :: ds[1..][j] == ds[j + 1];
      UpsertedAt(ds[1..], a, k - 1);
    }
  }

  lemma {:induction false} UpsertedMembers(ds: seq<Device>, a: Device)
    ensures forall d | d in Upserted(ds, a) :: d == a || d in ds
  {
    hide Device.Name;
    if ds != [] {
      UpsertedMembers(ds[1..], a);
    }
  }

  lemma StorableMembers(ds: seq<Device>)
    requires forall d | d in ds :: d.Storable()
    ensures forall n | n in Denote(ds) :: Denote(ds)[n].Storable()
  {
    forall n | n in Denote(ds)
      ensures Denote(ds)[n].Storable()
    {
      DenoteLookup(ds, n);
    }
  }

  lemma {:induction false} UpsertRefines(ds: seq<Device>, a: Device)
    requires UniqueNames(ds)
    ensures UniqueNames(Upserted(ds, a))
    ensures Denote(Upserted(ds, a)) == Denote(ds)[a.Name() := a]
  {
    hide Device.Name;
    if ds != [] {
      var d, rest := ds[0], ds[1..];
      if d.Name() == a.Name() {
        assert ([a] + rest)[1..] == rest;
      } else {
        UpsertRefines(rest, a);
        var tail := Upserted(rest, a);
        assert ([d] + tail)[1..] == tail;
        assert Denote(tail).Keys == Denote(rest).Keys + {a.Name()};
      }
    }
  }

  function UpsertAll(ds: seq<Device>, changes: seq<Device>): seq<Device>
    decreases |changes|
  {
    if changes == [] then ds else UpsertAll(Upserted(ds, changes[0]), changes[1..])
  }

  /** Any sequence of upserts keeps names unique and amounts to writing into a map. */
  lemma {:induction false} UpsertAllRefines(ds: seq<Device>, changes: seq<Device>)
    requires UniqueNames(ds)
    ensures UniqueNames(UpsertAll(ds, changes))
    ensures Denote(UpsertAll(ds, changes)) == Denote(ds) + Denote(changes)
    decreases |changes|
  {
    if changes != [] {
      var d := changes[0];
      UpsertRefines(ds, d);
      UpsertAllRefines(Upserted(ds, d), changes[1..]);
      UpdateThenAdd(Denote(ds), d.Name(), d, Denote(changes[1..]));
    }
  }

  lemma UpdateThenAdd<K, V>(m: map<K, V>, k: K, v: V, m': map<K, V>)
    ensures m[k := v] + m' == m + (map[k := v] + m')
  {
  }

  // ---------- Storing and loading ----------

  function ToOptionMaps(devices: map<string, Device>): map<string, Options> {
    map n | n in devices :: devices[n].ToOptions()
  }

  /** The loop that turns the device list into LXD's devices map */
  method StoreDevices(ds: seq<Device>) returns (stored: map<string, Options>)
    ensures stored == ToOptionMaps(Denote(ds))
  {
    hide Device.Name, Device.ToOptions;
    stored := map[];
    for i := 0 to |ds|
      invariant stored == ToOptionMaps(Denote(ds[..i]))
    {
      DenoteAppend(ds[..i], ds[i]);
      assert ds[..i] + [ds[i]] == ds[..i + 1];
      stored := stored[ds[i].Name() := ds[i].ToOptions()];
    }
    assert ds[..|ds|] == ds;
  }

  /** All devices of a devices map, by name */
  function DetectAll(stored: map<string, Options>): Result<map<string, Device>> {
    if forall n | n in stored :: Detect(n, stored[n]).Ok?
    then Ok(map n | n in stored :: Detect(n, stored[n]).value)
    else Err(Parse)
  }

  /** The loop that loads the devices map, which Go visits in any order: the result denotes the same
      map whatever the order, and it fails for every order if one device does not load. */
  method LoadDevices(stored: map<string, Options>) returns (r: Result<seq<Device>>)
    ensures r.Ok? <==> DetectAll(stored).Ok?
    ensures r.Ok? ==> UniqueNames(r.value)
    ensures r.Ok? && "" !in stored ==> Denote(r.value) == DetectAll(stored).value
    ensures r.Ok? ==> forall d | d in r.value :: d.Storable()
    ensures r.Err? ==> r.error == Parse
  {
    hide Detect, Device.Name, Device.Storable;
    var ds: seq<Device> := [];
    var todo := stored.Keys;
    ghost var done: map<string, Device> := map[];
    while todo != {}
      invariant todo <= stored.Keys && done.Keys == stored.Keys - todo
      invariant forall n | n in done :: Detect(n, stored[n]) == Ok(done[n])
      invariant UniqueNames(ds) && forall d | d in ds :: d.Storable()
      invariant "" !in stored ==> Denote(ds) == done
    {
      var name :| name in todo;
      match Detect(name, stored[name]) {
        case Err(e) =>
          DetectErrorIsParse(name, stored[name]);
          return Err(e);
        case Ok(d) =>
          LoadStep(ds, name, stored[name]);
          UpsertedMembers(ds, d);
          DetectedIsStorable(name, stored[name]);
          ds := Upsert(ds, d);
          done := done[name := d];
      }
      todo := todo - {name};
    }
    r := Ok(ds);
    assert DetectAll(stored).Ok? && DetectAll(stored).value == done;
  }

  lemma LoadStep(ds: seq<Device>, name: string, o: Options)
    requires UniqueNames(ds) && Detect(name, o).Ok?
    ensures UniqueNames(Upserted(ds, Detect(name, o).value))
    ensures name != "" ==> Denote(Upserted(ds, Detect(name, o).value)) == Denote(ds)[name := Detect(name, o).value]
  {
    DetectedIsStorable(name, o);
    UpsertRefines(ds, Detect(name, o).value);
  }

  lemma DetectErrorIsParse(name: string, o: Options)
    ensures Detect(name, o).Err? ==> Detect(name, o).error == Parse
  {
  }

  function WithKeys(devices: map<string, Device>): map<string, Device> {
    map n | n in devices :: devices[n].WithKey(n)
  }

  /** Storing a set of named devices and loading it again gives the same devices, each now carrying
      its name, and hence the same options under the same names. */
  lemma ReloadStored(devices: map<string, Device>)
    requires forall n | n in devices :: devices[n].Storable()
    ensures DetectAll(ToOptionMaps(devices)) == Ok(WithKeys(devices))
    ensures ToOptionMaps(WithKeys(devices)) == ToOptionMaps(devices)
  {
    hide Detect, Device.ToOptions, Device.WithKey, Device.Storable;
    var stored := ToOptionMaps(devices);
    forall n | n in devices
      ensures Detect(n, stored[n]) == Ok(devices[n].WithKey(n))
      ensures devices[n].WithKey(n).ToOptions() == devices[n].ToOptions()
    {
      DetectOfOptions(devices[n], n);
      KeyIsNoOption(devices[n], n);
    }
    assert DetectAll(stored).Ok?;
    assert DetectAll(stored).value == WithKeys(devices);
  }

  /** What was loaded is a fixed point of storing and loading. */
  lemma StoreLoaded(stored: map<string, Options>)
    requires DetectAll(stored).Ok?
    ensures WithKeys(DetectAll(stored).value) == DetectAll(stored).value
    ensures DetectAll(ToOptionMaps(DetectAll(stored).value)) == DetectAll(stored)
  {
    var loaded := DetectAll(stored).value;
    forall n | n in loaded
      ensures loaded[n].Storable() && loaded[n].WithKey(n) == loaded[n]
    {
      DetectedIsStorable(n, stored[n]);
    }
    ReloadStored(loaded);
  }

  lemma KeptNamesExactly(devices: map<string, Device>)
    ensures WithKeys(devices) == devices <==> forall n | n in devices :: devices[n].keyName == n
  {
    forall n | n in devices
      ensures devices[n].WithKey(n) == devices[n] <==> devices[n].keyName == n
    {
    }
    if WithKeys(devices) == devices {
      forall n | n in devices
        ensures devices[n].keyName == n
      {
        assert WithKeys(devices)[n] == devices[n];
      }
    }
  }
}
