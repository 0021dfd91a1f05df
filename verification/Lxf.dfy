/** The objects through which the runtime works on pods and containers: each call loads an object from
    LXD, changes its fields and saves it again (lxf/sandbox.go, lxf/lxf_sandbox.go, lxf/container.go,
    lxf/lxf_container.go, lxf/lxo/container.go). */
module Lxf {
  import opened Wrappers
  import opened Text
  import opened ConfigKeys
  import opened ConfigStores
  import opened Devices
  import opened Records
  import opened Lxd
  import CpuLimits
  import Lxo
  import Images
  import SandboxCodec
  import ContainerCodec

  /** What all objects of one client share */
  datatype Client = Client(server: Server, yaml: SandboxCodec.Yaml, remotes: Images.Remotes)

  // ---------- Pods ----------

  class Sandbox {
    const client: Client
    var id: string
    var tag: ETag
    var usedBy: seq<string>
    var metadata: SandboxCodec.SandboxMetadata
    var hostname: string
    var logDirectory: string
    var labels: map<string, string>
    var annotations: map<string, string>
    var config: Config
    var network: SandboxCodec.NetworkConfig
    var state: SandboxCodec.SandboxState
    var createdAt: int64
    var cloudInit: seq<SandboxCodec.CloudInitEntry>
    var devices: seq<Device>
    var containers: Option<seq<Container>>

    /** NewSandbox */
    constructor (client: Client)
      ensures this.client == client && id == "" && tag == NoETag && usedBy == [] && containers == None && Valid()
    {
      this.client, id, tag, usedBy, containers := client, "", NoETag, [], None;
      metadata, hostname, logDirectory := SandboxCodec.SandboxMetadata(0, "", "", ""), "", "";
      labels, annotations, config := map[], map[], map[];
      network := SandboxCodec.NetworkConfig([], [], SandboxCodec.NoNetwork, map[]);
      state, createdAt, cloudInit, devices := SandboxCodec.Ready, ZERO_TIME, [], [];
    }

    /** A pod with this content */
    constructor Loaded(client: Client, id: string, tag: ETag, usedBy: seq<string>, v: SandboxCodec.SandboxData,
                       devices: seq<Device>)
      ensures this.client == client && this.id == id && this.tag == tag && this.usedBy == usedBy
      ensures this.devices == devices && containers == None && Value() == v.(devices := Denote(devices))
    {
      this.client, this.id, this.tag, this.usedBy, containers := client, id, tag, usedBy, None;
      metadata, hostname, logDirectory := v.metadata, v.hostname, v.logDirectory;
      labels, annotations, config, network := v.labels, v.annotations, v.config, v.network;
      state, createdAt, cloudInit, this.devices := v.state, v.createdAt, v.cloudInit, devices;
    }

    ghost predicate Valid()
      reads `devices
    {
      UniqueNames(devices)
    }

    /** The content of the pod; the device list counts as the map it stands for. */
    function Value(): SandboxCodec.SandboxData
      reads `metadata, `hostname, `logDirectory, `labels, `annotations, `config, `network, `state, `createdAt,
            `cloudInit, `devices
    {
      SandboxCodec.SandboxData(metadata, hostname, logDirectory, labels, annotations, config, network, state,
                               createdAt, cloudInit, Denote(devices))
    }

    /** Fetches the ETag of the stored record, and nothing else. */
    method Refresh() returns (err: Option<Error>)
      modifies this`tag
      ensures err.None? ==> id in client.server.profiles && tag == ProfileTag(client.server.profiles[id])
      ensures err.None? ==> Readable(client, client.server.profiles[id])
      ensures err.Some? ==> tag == old(tag)
      ensures client.server.reliable && id in client.server.profiles && Readable(client, client.server.profiles[id])
              ==> err.None?
    {
      var r := GetSandbox(client, id);
      if r.Err? { return Some(r.error); }
      tag := r.value.tag;
      err := None;
    }

    /** Sandbox.apply: creates the profile, or replaces it if it is still the one this pod was loaded from. */
    method Save(newId: string) returns (err: Option<Error>)
      modifies this`id, client.server`profiles, client.server`requests
      ensures err.Some? ==> client.server.profiles == old(client.server.profiles)
      ensures old(id) == "" ==>
        && id == newId
        && client.server.requests == old(client.server.requests) + [PostProfile(newId)]
        && (err.None? ==> newId !in old(client.server.profiles))
      ensures old(id) != "" ==>
        && id == old(id)
        && (if tag == NoETag then err == Some(MissingETag) && client.server.requests == old(client.server.requests)
            else client.server.requests == old(client.server.requests) + [PutProfile(id)])
        && (err.None? ==> id in old(client.server.profiles) && tag == ProfileTag(old(client.server.profiles)[id]))
      ensures err.None? ==>
        client.server.profiles == old(client.server.profiles)[id := SandboxCodec.Encode(client.yaml, Value())]
      ensures client.server.reliable ==>
        (err.None? <==> if old(id) == "" then newId !in old(client.server.profiles)
                        else id in old(client.server.profiles) && tag == ProfileTag(old(client.server.profiles)[id]))
    {
      var record := ToProfile();
      if id == "" {
        id := newId;
        err := client.server.CreateProfile(id, record);
        return;
      }
      if tag == NoETag { return Some(MissingETag); }
      err := client.server.UpdateProfile(id, record, tag);
    }

    /** The profile that the pod is written to: fixed keys, then labels, annotations and foreign config, then
        the documents for cloud-init. */
    method ToProfile() returns (p: Profile)
      ensures p == SandboxCodec.Encode(client.yaml, Value())
    {
      hide SandboxCodec.FixedKeys, SandboxCodec.LastKeys, ConfigStore.Unreserved, Section, ToOptionMaps, Denote;
      var c := FixedConfig();
      c := WriteSection(c, LABELS, labels);
      c := WriteSection(c, ANNOTATIONS, annotations);
      c := WriteUnreserved(c, SandboxCodec.SANDBOX_STORE, config);
      c := WriteLast(c);
      var stored := StoreDevices(devices);
      p := Profile(c, stored);
    }

    method FixedConfig() returns (c: Config)
      ensures c == SandboxCodec.FixedKeys(client.yaml, Value())
    {
      hide FormatNat, FormatInt, FormatBool, Join, Denote;
      c := map[
        STATE := state.ToString(),
        IS_CRI := FormatBool(true),
        CREATED_AT := FormatInt(createdAt),
        META_ATTEMPT := FormatNat(metadata.attempt),
        META_NAME := metadata.name,
        META_NAMESPACE := metadata.namespace,
        META_UID := metadata.uid,
        HOSTNAME := hostname,
        LOG_DIRECTORY := logDirectory,
        NAMESERVERS := Join(network.nameservers, ','),
        SEARCHES := Join(network.searches, ','),
        NETWORK_MODE := network.mode.ToString()];
      c := c[MODE_DATA := client.yaml.Marshal(network.modeData)];
    }

    method WriteLast(config: Config) returns (c: Config)
      ensures c == config + SandboxCodec.LastKeys(client.yaml, Value())
    {
      hide Denote, SandboxCodec.VendorData, SandboxCodec.CloudInitDocument;
      var document := Document();
      c := config[CLOUD_INIT_NETWORK_CONFIG := client.yaml.CloudInit(document)];
      if hostname != "" {
        c := c[CLOUD_INIT_VENDOR_DATA := SandboxCodec.VendorData(hostname)];
      }
      c := c[SCHEMA := SCHEMA_PROFILE];
    }

    method Document() returns (document: seq<SandboxCodec.CloudInitEntry>)
      ensures document == SandboxCodec.CloudInitDocument(Value())
    {
      hide Denote;
      document := [];
      if |network.nameservers| > 0 && |network.searches| > 0 {
        document := document + [SandboxCodec.Nameserver(network.nameservers, network.searches)];
      }
      ghost var start := document;
      for i := 0 to |cloudInit|
        invariant document == start + cloudInit[..i]
      {
        document := document + [cloudInit[i]];
      }
    }

    method Prepare(now: int64)
      requires Valid()
      modifies `state, `createdAt, `devices
      ensures Valid() && Value() == AppliedData(old(Value()), id == "", now)
    {
      if id == "" {
        state, createdAt := SandboxCodec.Ready, now;
      }
      UpsertRefines(devices, NoDevice("eth0"));
      devices := Upsert(devices, NoDevice("eth0"));
    }

    /** Saves the pod and fetches the new ETag.  A pod without id is new: it is ready, and created now. */
    method Apply(newId: string, now: int64) returns (err: Option<Error>)
      requires Valid()
      modifies this, client.server`profiles, client.server`requests
      ensures Valid() && usedBy == old(usedBy) && containers == old(containers)
      ensures Value() == AppliedData(old(Value()), old(id) == "", now)
      ensures id == if old(id) == "" then newId else old(id)
      ensures err.None? ==>
        && client.server.profiles == old(client.server.profiles)[id := SandboxCodec.Encode(client.yaml, Value())]
        && tag == ProfileTag(client.server.profiles[id]) && Readable(client, client.server.profiles[id])
      ensures err.None? ==>
        if old(id) == "" then id !in old(client.server.profiles)
        else id in old(client.server.profiles) && old(tag) == ProfileTag(old(client.server.profiles)[id])
      ensures err.Some? ==>
        || client.server.profiles == old(client.server.profiles)
        || client.server.profiles == old(client.server.profiles)[id := SandboxCodec.Encode(client.yaml, Value())]
      ensures client.server.reliable && client.yaml.Lawful() && SandboxCodec.StorableDevices(Value()) ==>
        (err.None? <==>
         if old(id) == "" then newId !in old(client.server.profiles)
         else id in old(client.server.profiles) && old(tag) == ProfileTag(old(client.server.profiles)[id]))
    {
      hide SandboxCodec.Encode, SandboxCodec.Decode, SandboxCodec.StorableDevices, Readable, Value, AppliedData,
           UniqueNames;
      Prepare(now);
      err := Save(newId);
      if err.Some? { return; }
      if client.yaml.Lawful() && SandboxCodec.StorableDevices(Value()) {
        StoredIsReadable(client, Value());
      }
      err := Refresh();
    }

    /** Sandbox.Stop: no new ETag is fetched. */
    method Stop() returns (err: Option<Error>)
      requires id != ""
      modifies this`state, this`id, client.server`profiles, client.server`requests
      ensures Value() == SandboxCodec.StoppedData(old(Value())) && id == old(id)
      ensures err.None? ==>
        && id in old(client.server.profiles) && tag == ProfileTag(old(client.server.profiles)[id])
        && client.server.profiles == old(client.server.profiles)[id := SandboxCodec.Encode(client.yaml, Value())]
      ensures err.Some? ==> client.server.profiles == old(client.server.profiles)
      ensures client.server.requests == old(client.server.requests) + (if tag == NoETag then [] else [PutProfile(id)])
      ensures client.server.reliable && id in old(client.server.profiles)
              && tag == ProfileTag(old(client.server.profiles)[id])
              ==> err.None?
    {
      state := SandboxCodec.NotReady;
      err := Save("");
    }

    /** Returns nil as well if there is no such profile. */
    method Delete() returns (err: Option<Error>)
      modifies client.server`profiles, client.server`requests
      ensures client.server.requests == old(client.server.requests) + [RemoveProfile(id, client.server.InUse(id))]
      ensures err.None? ==> client.server.profiles == old(client.server.profiles) - {id}
      ensures err.Some? ==> client.server.profiles == old(client.server.profiles)
      ensures client.server.reliable && !client.server.InUse(id) ==> err.None?
    {
      err := client.server.DeleteProfile(id);
      if err == Some(NotFound) {
        err := None;
      }
    }

    /** Loads the containers of the pod once; later calls give the same objects. */
    method Containers() returns (r: Result<seq<Container>>)
      modifies `containers
      ensures old(containers).Some? ==> r == Ok(old(containers).value) && containers == old(containers)
      ensures old(containers).None? && r.Ok? ==>
        && containers == Some(r.value) && AreLoaded(r.value, client, usedBy) && fresh(r.value)
      ensures r.Err? ==> containers == None
      ensures client.server.reliable && old(containers).None? ==>
        (r.Ok? <==> forall n | n in usedBy ::
           n in client.server.containers && ContainerCodec.ReadableContainer(client.server.containers[n]))
    {
      hide IsLoadedContainer, IsCRIInstance, ContainerCodec.Decode;
      if containers.Some? { return Ok(containers.value); }
      var cl: seq<Container> := [];
      for i := 0 to |usedBy|
        invariant containers == None && AreLoaded(cl, client, usedBy[..i])
        invariant fresh(cl)
      {
        assert usedBy[i] in usedBy;
        var c := GetContainer(client, usedBy[i]);
        if c.Err? { return Err(c.error); }
        cl := cl + [c.value];
      }
      assert usedBy[..|usedBy|] == usedBy;
      LoadedAreReadable(cl, client, usedBy);
      containers := Some(cl);
      r := Ok(cl);
    }
  }

  /** The objects hold what was loaded from the containers of these names, one object for each. */
  ghost predicate AreLoaded(cl: seq<Container>, client: Client, names: seq<string>)
    reads cl, client.server`containers
  {
    && |cl| == |names|
    && (forall i | 0 <= i < |cl| ::
         && names[i] in client.server.containers && IsCRIInstance(client.server.containers[names[i]])
         && IsLoadedContainer(cl[i], client, names[i], client.server.containers[names[i]]))
    && (forall i, j | 0 <= i < j < |cl| :: cl[i] != cl[j])
  }

  lemma LoadedAreReadable(cl: seq<Container>, client: Client, names: seq<string>)
    requires AreLoaded(cl, client, names)
    ensures forall n | n in names ::
      n in client.server.containers && ContainerCodec.ReadableContainer(client.server.containers[n])
  {
    hide IsCRIInstance, ContainerCodec.Decode;
    forall i | 0 <= i < |names|
      ensures names[i] in client.server.containers
      ensures ContainerCodec.ReadableContainer(client.server.containers[names[i]])
    {
      assert IsLoadedContainer(cl[i], client, names[i], client.server.containers[names[i]]);
    }
  }

  /** Sandbox.Apply, before it saves */
  function AppliedData(s: SandboxCodec.SandboxData, isNew: bool, now: int64): SandboxCodec.SandboxData {
    SandboxCodec.WithoutDefaultNic(if isNew then s.(state := SandboxCodec.Ready, createdAt := now) else s)
  }

  /** The profile belongs to the runtime and loads. */
  predicate Readable(client: Client, p: Profile) {
    IsCRIProfile(p) && SandboxCodec.Decode(client.yaml, p).Ok?
  }

  lemma StoredIsReadable(client: Client, s: SandboxCodec.SandboxData)
    requires client.yaml.Lawful() && SandboxCodec.StorableDevices(s)
    ensures Readable(client, SandboxCodec.Encode(client.yaml, s))
  {
    hide SandboxCodec.Encode, SandboxCodec.Decode, SandboxCodec.StorableDevices, IsCRIProfile;
    SandboxCodec.DecodeEncode(client.yaml, s);
    SandboxCodec.WireFormat(client.yaml, s);
  }

  /** The object holds what was loaded from this profile.  A device without a name is the one thing whose
      place in the list depends on the order in which Go visits the devices. */
  ghost predicate IsLoaded(s: Sandbox, client: Client, id: string, p: Profile)
    reads s
  {
    && s.Valid() && s.client == client && s.id == id && s.tag == ProfileTag(p) && s.containers == None
    && var loaded := SandboxCodec.Decode(client.yaml, p);
    && loaded.Ok?
    && s.Value().(devices := loaded.value.devices) == loaded.value
    && ("" !in p.devices ==> s.Value() == loaded.value)
  }

  method ToSandbox(client: Client, name: string, stored: StoredProfile) returns (r: Result<Sandbox>)
    requires stored.tag == ProfileTag(stored.record)
    ensures r.Ok? <==> SandboxCodec.Decode(client.yaml, stored.record).Ok?
    ensures r.Ok? ==>
      fresh(r.value) && IsLoaded(r.value, client, name, stored.record) && r.value.usedBy == stored.usedBy
    ensures r.Err? ==> r.error == Parse
  {
    hide SandboxCodec.ParseAttempt, SandboxCodec.ParseTime, Stripped, ConfigStore.Unreserved, Split, DetectAll, Denote,
      Get, UniqueNames, SandboxCodec.GetNetworkMode, SandboxCodec.GetSandboxState;
    var c := stored.record.config;
    var attempt := SandboxCodec.ParseAttempt(c);
    if attempt.None? { return Err(Parse); }
    var createdAt := SandboxCodec.ParseTime(c, CREATED_AT);
    if createdAt.None? { return Err(Parse); }
    var metadata := SandboxCodec.SandboxMetadata(attempt.value, Get(c, META_NAME), Get(c, META_NAMESPACE),
      Get(c, META_UID));
    var labels := SandboxCodec.SANDBOX_STORE.StrippedPrefixMap(c, LABELS);
    var annotations := SandboxCodec.SANDBOX_STORE.StrippedPrefixMap(c, ANNOTATIONS);
    var config := SandboxCodec.SANDBOX_STORE.UnreservedMap(c);
    var modeData := client.yaml.Unmarshal(Get(c, MODE_DATA));
    if modeData.None? { return Err(Parse); }
    var network := SandboxCodec.NetworkConfig(Split(Get(c, NAMESERVERS), ','), Split(Get(c, SEARCHES), ','),
                                              SandboxCodec.GetNetworkMode(Get(c, NETWORK_MODE)), modeData.value);
    var devices := LoadDevices(stored.record.devices);
    if devices.Err? { return Err(devices.error); }
    var v := SandboxCodec.SandboxData(
      metadata, Get(c, HOSTNAME), Get(c, LOG_DIRECTORY), labels, annotations, config, network,
      SandboxCodec.GetSandboxState(Get(c, STATE)), createdAt.value, [], map[]);
    var s := new Sandbox.Loaded(client, name, stored.tag, stored.usedBy, v, devices.value);
    r := Ok(s);
  }

  method GetSandbox(client: Client, id: string) returns (r: Result<Sandbox>)
    ensures r.Ok? ==>
      && id in client.server.profiles && IsCRIProfile(client.server.profiles[id])
      && fresh(r.value) && IsLoaded(r.value, client, id, client.server.profiles[id])
      && (forall n :: n in r.value.usedBy <==>
            n in client.server.containers && id in client.server.containers[n].profiles)
      && (forall i, j | 0 <= i < j < |r.value.usedBy| :: r.value.usedBy[i] != r.value.usedBy[j])
    ensures r.Err? ==>
      match r.error
      case NotFound => id !in client.server.profiles || !IsCRIProfile(client.server.profiles[id])
      case Parse =>
        && id in client.server.profiles && IsCRIProfile(client.server.profiles[id])
        && SandboxCodec.Decode(client.yaml, client.server.profiles[id]).Err?
      case e => e == Unavailable && !client.server.reliable
  {
    hide SandboxCodec.Decode, IsCRIProfile;
    var p := client.server.GetProfile(id);
    if p.Err? { return Err(p.error); }
    if !IsCRIProfile(p.value.record) { return Err(NotFound); }
    r := ToSandbox(client, id, p.value);
  }

  // ---------- Containers ----------

  class Container {
    const client: Client
    var id: string
    var tag: ETag
    var metadata: ContainerCodec.ContainerMetadata
    var profiles: seq<string>
    var image: string
    var privileged: bool
    var environment: map<string, string>
    var labels: map<string, string>
    var annotations: map<string, string>
    var config: Config
    var createdAt: int64
    var startedAt: int64
    var finishedAt: int64
    var logPath: string
    var userData: string
    var metaData: string
    var networkConfig: string
    var resources: Option<ContainerCodec.Resources>
    var stateName: ContainerCodec.StateName
    var devices: seq<Device>
    var sandbox: Sandbox?

    /** A container with this content */
    constructor Loaded(client: Client, id: string, tag: ETag, v: ContainerCodec.ContainerData, devices: seq<Device>)
      ensures this.client == client && this.id == id && this.tag == tag && this.devices == devices && sandbox == null
      ensures Value() == v.(devices := Denote(devices))
    {
      this.client, this.id, this.tag, this.devices, sandbox := client, id, tag, devices, null;
      metadata, profiles, image, privileged := v.metadata, v.profiles, v.image, v.privileged;
      environment, labels, annotations, config := v.environment, v.labels, v.annotations, v.config;
      createdAt, startedAt, finishedAt, logPath := v.createdAt, v.startedAt, v.finishedAt, v.logPath;
      userData, metaData, networkConfig := v.userData, v.metaData, v.networkConfig;
      resources, stateName := v.resources, v.stateName;
    }

    /** NewContainer: the pod is the last profile. */
    constructor (client: Client, pod: string, additionalProfiles: seq<string>)
      ensures this.client == client && id == "" && tag == NoETag && sandbox == null && UniqueNames(devices)
      ensures profiles == additionalProfiles + [pod]
    {
      this.client, id, tag, devices, sandbox := client, "", NoETag, [], null;
      metadata, profiles := ContainerCodec.ContainerMetadata("", 0), additionalProfiles + [pod];
      image, privileged, environment, labels, annotations, config := "", false, map[], map[], map[], map[];
      createdAt, startedAt, finishedAt, logPath := ZERO_TIME, ZERO_TIME, ZERO_TIME, "";
      userData, metaData, networkConfig, resources := "", "", "", None;
      stateName := ContainerCodec.IsUnknown;
    }

    /** The content of the container; the device list counts as the map it stands for. */
    function Value(): ContainerCodec.ContainerData
      reads `metadata, `profiles, `image, `privileged, `environment, `labels, `annotations, `config, `createdAt,
            `startedAt, `finishedAt, `logPath, `userData, `metaData, `networkConfig, `resources, `stateName, `devices
    {
      ContainerCodec.ContainerData(
        metadata, profiles, image, privileged, environment, labels, annotations, config, createdAt, startedAt,
        finishedAt, logPath, userData, metaData, networkConfig, resources, stateName, Denote(devices))
    }

    /** Looks up the pod once; later calls give the same object. */
    method Parent() returns (r: Result<Sandbox>)
      modifies `sandbox
      ensures old(sandbox) != null ==> r == Ok(old(sandbox)) && sandbox == old(sandbox)
      ensures old(sandbox) == null && r.Ok? ==>
        fresh(r.value) && sandbox == r.value && IsParent(r.value, client, profiles)
      ensures r.Err? ==> sandbox == null && r.error in {NotFound, Parse, Convert, Unavailable}
      ensures client.server.reliable && old(sandbox) == null && profiles != [] ==>
        && (r.Ok? <==> HasReadableParent(client, profiles))
        && (r.Err? && r.error == NotFound <==> ParentGone(client, profiles))
    {
      hide SandboxCodec.Decode, IsCRIProfile;
      if sandbox == null {
        if |profiles| > 0 {
          r := GetSandbox(client, SandboxID(profiles));
          if r.Err? { return; }
          sandbox := r.value;
          return;
        }
        return Err(Convert);
      }
      r := Ok(sandbox);
    }

    /** Fetches the ETag of the stored record, and nothing else. */
    method Refresh() returns (err: Option<Error>)
      modifies this`tag
      ensures err.None? ==> id in client.server.containers && tag == InstanceTag(client.server.containers[id])
      ensures err.Some? ==> tag == old(tag)
      ensures client.server.reliable && id in client.server.containers
              && ContainerCodec.ReadableContainer(client.server.containers[id])
              ==> err.None?
    {
      hide ContainerCodec.Decode, IsCRIInstance;
      var r := GetContainer(client, id);
      if r.Err? { return Some(r.error); }
      tag := r.value.tag;
      err := None;
    }

    /** A container in a pod that uses the network of the host must be privileged. */
    method Validate() returns (err: Option<Error>)
      modifies `sandbox
      ensures old(sandbox) != null ==> sandbox == old(sandbox)
      ensures old(sandbox) == null && sandbox != null ==> fresh(sandbox) && IsParent(sandbox, client, profiles)
      ensures err.None? ==> sandbox != null && (sandbox.network.mode == SandboxCodec.Host ==> privileged)
      ensures err == Some(Usage) <==> sandbox != null && sandbox.network.mode == SandboxCodec.Host && !privileged
      ensures client.server.reliable && old(sandbox) == null && profiles != [] ==>
        && (err.None? <==> ParentAllows(client, profiles, privileged))
        && (err == Some(NotFound) <==> ParentGone(client, profiles))
    {
      hide IsParent, HasReadableParent, ParentGone, SandboxCodec.Decode;
      var s := Parent();
      if s.Err? { return Some(s.error); }
      if IsParent(s.value, client, profiles) {
        ParentNetwork(s.value, client, profiles);
      }
      if s.value.network.mode == SandboxCodec.Host {
        if !privileged { return Some(Usage); }
      }
      err := None;
    }

    /** makeContainerConfig: also marks a container without id as one that was never started. */
    method MakeConfig(now: int64) returns (r: Config)
      modifies `config, `createdAt
      ensures Value() == if id == "" then ContainerCodec.NewData(old(Value()), now) else old(Value())
      ensures var c := Value();
        r == Section(LABELS, c.labels) + Section(ANNOTATIONS, c.annotations) + ContainerCodec.FixedKeys(c)
             + Section(ENVIRONMENT, c.environment) + ContainerCodec.CloudInitKeys(c) + ContainerCodec.CpuKeys(c)
             + ContainerCodec.LimitKeys(c)
    {
      hide ContainerCodec.FixedKeys, ContainerCodec.CloudInitKeys, ContainerCodec.CpuKeys, ContainerCodec.LimitKeys,
           Section, Denote, ContainerCodec.NewData;
      if id == "" {
        MarkCreated(now);
      }
      FieldsOfValue();
      hide Value;
      r := map[];
      r := WriteSection(r, LABELS, labels);
      assert r == Section(LABELS, Value().labels);
      r := WriteSection(r, ANNOTATIONS, annotations);
      r := WriteFixed(r);
      r := WriteSection(r, ENVIRONMENT, environment);
      r := WriteCloudInit(r);
      if resources.Some? {
        r := WriteResources(r, resources.value);
      } else {
        NoResourceKeys(Value());
      }
    }

    lemma FieldsOfValue()
      ensures Value().labels == labels && Value().annotations == annotations && Value().environment == environment
      ensures Value().resources == resources
      ensures Value().config == config && Value().profiles == profiles && Value().devices == Denote(devices)
    {
      hide Denote;
    }

    method MarkCreated(now: int64)
      modifies `config, `createdAt
      ensures Value() == ContainerCodec.NewData(old(Value()), now)
    {
      hide Denote;
      config, createdAt := config[STATE := "created"], now;
    }

    method WriteFixed(r: Config) returns (r': Config)
      ensures r' == r + ContainerCodec.FixedKeys(Value())
    {
      hide FormatInt, FormatNat, FormatBool, Denote;
      r' := r[CREATED_AT := FormatInt(createdAt)];
      r' := r'[STARTED_AT := FormatInt(startedAt)];
      r' := r'[FINISHED_AT := FormatInt(finishedAt)];
      r' := r'[PRIVILEGED := FormatBool(privileged)];
      r' := r'[LOG_PATH := logPath];
      r' := r'[IS_CRI := FormatBool(true)];
      r' := r'[META_NAME := metadata.name];
      r' := r'[META_ATTEMPT := FormatNat(metadata.attempt)];
      r' := r'[BASE_IMAGE := image];
    }

    method WriteCloudInit(r: Config) returns (r': Config)
      ensures r' == r + ContainerCodec.CloudInitKeys(Value())
    {
      hide Denote, ContainerCodec.IfSet;
      r' := WriteIfSet(r, CLOUD_INIT_META_DATA, metaData);
      r' := WriteIfSet(r', CLOUD_INIT_USER_DATA, userData);
      r' := WriteIfSet(r', CLOUD_INIT_NETWORK_CONFIG, networkConfig);
      AddInTurn(r, ContainerCodec.IfSet(CLOUD_INIT_META_DATA, metaData),
                ContainerCodec.IfSet(CLOUD_INIT_USER_DATA, userData),
                ContainerCodec.IfSet(CLOUD_INIT_NETWORK_CONFIG, networkConfig));
    }

    method WriteResources(r: Config, resources: ContainerCodec.Resources) returns (r': Config)
      requires this.resources == Some(resources)
      ensures r' == r + ContainerCodec.CpuKeys(Value()) + ContainerCodec.LimitKeys(Value())
    {
      hide ContainerCodec.CpuKeys, ContainerCodec.AllowanceKey, ContainerCodec.MemoryKey, ContainerCodec.LimitKeys,
           Denote;
      r' := r;
      if resources.cpu.Some? {
        r' := WriteCpu(r', resources.cpu.value);
        r' := WriteAllowance(r', resources.cpu.value);
      } else {
        NoCpuKeys(Value());
      }
      if resources.memory.Some? {
        r' := WriteMemory(r', resources.memory.value);
      } else {
        NoMemoryKey(Value());
      }
      LimitsInTurn(r, Value());
    }

    method WriteAllowance(r: Config, cpu: ContainerCodec.Cpu) returns (r': Config)
      requires resources.Some? && resources.value.cpu == Some(cpu)
      ensures r' == r + ContainerCodec.AllowanceKey(Value())
    {
      hide Denote, CpuLimits.Allowance;
      r' := r;
      if cpu.quota.Some? && cpu.quota.value > 0 && cpu.period.Some? && cpu.period.value > 0 {
        r' := r'[LIMIT_CPU_ALLOWANCE := CpuLimits.Allowance(cpu.quota.value, cpu.period.value)];
      }
    }

    method WriteMemory(r: Config, memory: ContainerCodec.Memory) returns (r': Config)
      requires resources.Some? && resources.value.memory == Some(memory)
      ensures r' == r + ContainerCodec.MemoryKey(Value())
    {
      hide Denote, FormatInt;
      r' := r;
      if memory.limit.Some? && memory.limit.value > 0 {
        r' := r'[LIMIT_MEMORY := FormatInt(memory.limit.value)];
      }
    }

    method WriteCpu(r: Config, cpu: ContainerCodec.Cpu) returns (r': Config)
      requires resources.Some? && resources.value.cpu == Some(cpu)
      ensures r' == r + ContainerCodec.CpuKeys(Value())
    {
      hide Denote, FormatInt, FormatNat, ContainerCodec.NumberKey, ContainerCodec.CpuKeys;
      ghost var c := Value();
      r' := WriteNumber(r, CPU_SHARES, if cpu.shares.Some? then Some(FormatNat(cpu.shares.value)) else None);
      r' := WriteNumber(r', CPU_QUOTA, if cpu.quota.Some? then Some(FormatInt(cpu.quota.value)) else None);
      r' := WriteNumber(r', CPU_PERIOD, if cpu.period.Some? then Some(FormatNat(cpu.period.value)) else None);
      CpuInTurn(r, c);
    }

    /** Everything that is stored of the container */
    method ToInstance(now: int64) returns (record: Instance)
      modifies `config, `createdAt
      ensures Value() == if id == "" then ContainerCodec.NewData(old(Value()), now) else old(Value())
      ensures record == ContainerCodec.Encode(Value(), Stopped)
    {
      hide ContainerCodec.FixedKeys, ContainerCodec.CloudInitKeys, ContainerCodec.CpuKeys, ContainerCodec.LimitKeys,
           Section, Denote, ConfigStore.Unreserved, ToOptionMaps, ContainerCodec.NewData, ContainerCodec.Encode;
      var c := MakeConfig(now);
      FieldsOfValue();
      hide Value;
      Assembled(Value(), c);
      var stored := StoreDevices(devices);
      c := WriteUnreserved(c, ContainerCodec.CONTAINER_STORE, config);
      c := c[SCHEMA := SCHEMA_CONTAINER];
      record := Instance(c, stored, profiles, Stopped);
    }

    /** Container.apply: creates the container from its image, or replaces it if it is still the one this
        object was loaded from. */
    method Save(newId: string, now: int64) returns (err: Option<Error>)
      modifies `id, `config, `createdAt, client.server`containers, client.server`requests
      ensures old(id) != "" ==> id == old(id) && Value() == old(Value())
      ensures err.None? && old(id) == "" ==> id == newId && Value() == ContainerCodec.NewData(old(Value()), now)
      ensures err.None? && old(id) == "" ==>
        && id !in old(client.server.containers)
        && client.server.containers == old(client.server.containers)[id := ContainerCodec.Encode(Value(), Stopped)]
      ensures err.None? && old(id) != "" ==>
        && id in old(client.server.containers) && tag == InstanceTag(old(client.server.containers)[id])
        && client.server.containers ==
           old(client.server.containers)[id := ContainerCodec.Encode(Value(), old(client.server.containers)[id].status)]
      ensures err.Some? ==> client.server.containers == old(client.server.containers)
      ensures client.server.requests == old(client.server.requests)
        || client.server.requests ==
           old(client.server.requests) + [if old(id) == "" then PostContainer(newId) else PutContainer(id)]
      ensures client.server.reliable && old(id) != "" ==>
        (err.None? <==> HasImage(client, image) && tag != NoETag && id in old(client.server.containers)
                        && tag == InstanceTag(old(client.server.containers)[id]))
      ensures client.server.reliable && old(id) != "" && id in old(client.server.containers)
              && tag == InstanceTag(old(client.server.containers)[id]) ==>
        (err == Some(NotFound) <==> Images.ParseImage(client.remotes, image).Ok? && !HasImage(client, image))
    {
      hide ContainerCodec.Encode, ContainerCodec.NewData, Value, Images.ParseImage;
      Images.ParseImageError(client.remotes, image);
      var imageId := Images.ParseImage(client.remotes, image);
      if imageId.Err? { return Some(imageId.error); }
      var hash := Images.Hash(client.server, imageId.value);
      if hash.Err? { return Some(hash.error); }
      if hash.value.None? { return Some(NotFound); }
      var record := ToInstance(now);
      StatusIsNotEncoded(Value());
      if id == "" {
        id := newId;
        err := client.server.CreateContainer(id, record, hash.value.value);
        return;
      }
      if tag == NoETag { return Some(MissingETag); }
      err := client.server.UpdateContainer(id, record, tag);
    }

    lemma ProfilesOfValue()
      ensures Value().profiles == profiles
    {
      hide Denote;
    }

    /** Saves the container if it is valid, and fetches the new ETag. */
    method Apply(newId: string, now: int64) returns (err: Option<Error>)
      modifies `id, `tag, `config, `createdAt, `sandbox, client.server`containers, client.server`requests
      ensures old(id) != "" ==> id == old(id) && Value() == old(Value())
      ensures old(sandbox) != null ==> sandbox == old(sandbox)
      ensures old(sandbox) == null && sandbox != null ==> fresh(sandbox) && IsParent(sandbox, client, profiles)
      ensures err.None? ==> sandbox != null && (sandbox.network.mode == SandboxCodec.Host ==> privileged)
      ensures err.None? ==> id in client.server.containers && tag == InstanceTag(client.server.containers[id])
      ensures err.None? && old(id) == "" ==>
        && id == newId && id !in old(client.server.containers)
        && Value() == ContainerCodec.NewData(old(Value()), now)
        && client.server.containers == old(client.server.containers)[id := ContainerCodec.Encode(Value(), Stopped)]
      ensures err.None? && old(id) != "" ==>
        && id in old(client.server.containers) && old(tag) == InstanceTag(old(client.server.containers)[id])
        && client.server.containers ==
           old(client.server.containers)[id := ContainerCodec.Encode(Value(), old(client.server.containers)[id].status)]
      ensures err.Some? && old(id) == "" ==>
        || client.server.containers == old(client.server.containers)
        || client.server.containers ==
           old(client.server.containers)[newId :=
             ContainerCodec.Encode(ContainerCodec.NewData(old(Value()), now), Stopped)]
      ensures err.Some? && old(id) != "" ==>
        || client.server.containers == old(client.server.containers)
        || (id in old(client.server.containers) && client.server.containers ==
            old(client.server.containers)[id :=
              ContainerCodec.Encode(Value(), old(client.server.containers)[id].status)])
      ensures client.server.requests == old(client.server.requests)
        || client.server.requests ==
           old(client.server.requests) + [if old(id) == "" then PostContainer(newId) else PutContainer(id)]
      ensures client.server.reliable && old(id) != "" && old(sandbox) == null
              && ContainerCodec.StorableDevices(Value()) && profiles != []
              && id in old(client.server.containers) && old(tag) == InstanceTag(old(client.server.containers)[id]) ==>
        && (err.None? <==> ParentAllows(client, profiles, privileged) && HasImage(client, image))
        && (err.None? || err == Some(NotFound) <==> SaveIsQuiet(client, profiles, privileged, image))
    {
      hide ContainerCodec.Encode, ContainerCodec.NewData, Value, IsParent, ParentAllows, ParentGone,
           ContainerCodec.ReadableContainer, ContainerCodec.StorableDevices;
      err := Validate();
      if err.Some? { return; }
      err := Save(newId, now);
      if err.Some? { return; }
      if ContainerCodec.StorableDevices(Value()) && profiles != [] && old(id) != "" {
        ProfilesOfValue();
        ContainerCodec.StoredContainerIsReadable(Value(), client.server.containers[id].status);
        ContainerCodec.EncodedStatus(Value(), old(client.server.containers)[id].status);
      }
      err := Refresh();
    }

    /** Starts the container; then the mark of a container that was never started goes. */
    method Start(now: int64) returns (err: Option<Error>)
      requires id != ""
      modifies `id, `tag, `config, `createdAt, `startedAt, `sandbox, client.server`containers, client.server`requests
      ensures id == old(id)
      ensures Outcome(old(client.server.containers), client.server.containers, id, Running,
                      ContainerCodec.Encode(ContainerCodec.StartedData(old(Value()), now), Running), err.None?)
      ensures err.None? ==> Value() == ContainerCodec.StartedData(old(Value()), now)
      ensures err.None? ==>
        && Get(client.server.containers[id].config, "user.started_at") == FormatInt(now)
        && "user.state" !in client.server.containers[id].config
      ensures OnlyUpdates(old(client.server.requests), client.server.requests)
      ensures client.server.reliable && old(sandbox) == null && ContainerCodec.StorableDevices(old(Value()))
              && profiles != [] && id in old(client.server.containers)
              && ContainerCodec.ReadableContainer(old(client.server.containers)[id]) ==>
        (err.None? <==>
          && old(client.server.containers)[id].status == Stopped
          && ParentAllows(client, profiles, privileged) && HasImage(client, image))
    {
      hide ContainerCodec.Encode, ParentAllows, HasImage, Value, ContainerCodec.ReadableContainer, FormatInt,
           ContainerCodec.StorableDevices, ContainerCodec.StartedData;
      ContainerCodec.StartedTexts(Value(), now, Running);
      if id in client.server.containers && ContainerCodec.ReadableContainer(client.server.containers[id]) {
        ContainerCodec.StatusIsNotRead(client.server.containers[id], Running);
      }
      err := client.server.StartContainer(id);
      if err.Some? { return; }
      err := SaveStarted(now);
    }

    /** The part of Start after LXD has started the container */
    method SaveStarted(now: int64) returns (err: Option<Error>)
      requires id != "" && id in client.server.containers
      modifies `id, `tag, `config, `createdAt, `startedAt, `sandbox, client.server`containers, client.server`requests
      ensures id == old(id)
      ensures err.None? ==> Value() == ContainerCodec.StartedData(old(Value()), now)
      ensures var saved := old(client.server.containers)[id := ContainerCodec.Encode(
        ContainerCodec.StartedData(old(Value()), now), old(client.server.containers)[id].status)];
        client.server.containers == saved || (err.Some? && client.server.containers == old(client.server.containers))
      ensures client.server.requests == old(client.server.requests)
        || client.server.requests == old(client.server.requests) + [PutContainer(id)]
      ensures client.server.reliable && old(sandbox) == null && ContainerCodec.StorableDevices(old(Value()))
              && profiles != [] && ContainerCodec.ReadableContainer(old(client.server.containers)[id]) ==>
        (err.None? <==> ParentAllows(client, profiles, privileged) && HasImage(client, image))
    {
      hide ContainerCodec.Encode, ParentAllows, HasImage, SaveIsQuiet, IsParent, HasReadableParent, Value,
           ContainerCodec.ReadableContainer;
      err := Refresh();
      if err.Some? { return; }
      MarkStarted(now);
      ContainerCodec.EncodedStatus(Value(), client.server.containers[id].status);
      err := Apply("", now);
    }

    method MarkStarted(now: int64)
      modifies `config, `startedAt
      ensures startedAt == now && config == old(config) - {"user.state"}
      ensures Value() == ContainerCodec.StartedData(old(Value()), now)
    {
      hide Denote;
      config := config - {STATE};
      startedAt := now;
    }

    method MarkFinished(now: int64)
      modifies `finishedAt
      ensures finishedAt == now
      ensures Value() == ContainerCodec.StoppedData(old(Value()), now)
    {
      hide Denote;
      finishedAt := now;
    }

    /** Stops the container; one that does not exist counts as stopped. */
    method Stop(now: int64) returns (err: Option<Error>)
      requires id != ""
      modifies `id, `tag, `config, `createdAt, `finishedAt, `sandbox, client.server`containers, client.server`requests
      ensures id == old(id)
      ensures id in old(client.server.containers) ==>
        Outcome(old(client.server.containers), client.server.containers, id, Stopped,
                ContainerCodec.Encode(ContainerCodec.StoppedData(old(Value()), now), Stopped), err.None?)
      ensures id in old(client.server.containers) && err.None? ==>
        Get(client.server.containers[id].config, "user.finished_at") == FormatInt(now)
      ensures id !in old(client.server.containers) ==> client.server.containers == old(client.server.containers)
      ensures err == Some(NotFound) ==> id in client.server.containers && client.server.containers[id].status == Stopped
      ensures OnlyUpdates(old(client.server.requests), client.server.requests)
      ensures old(sandbox) == null && sandbox != null ==> HasReadableParent(client, profiles)
      ensures client.server.reliable && old(sandbox) == null && ContainerCodec.StorableDevices(old(Value()))
              && profiles != [] && id in old(client.server.containers)
              && ContainerCodec.ReadableContainer(old(client.server.containers)[id]) ==>
        (err.None? || err == Some(NotFound) <==> SaveIsQuiet(client, profiles, privileged, image))
    {
      hide ContainerCodec.Encode, ParentAllows, SaveIsQuiet, HasReadableParent, Value, ContainerCodec.StorableDevices,
           ContainerCodec.ReadableContainer, FormatInt;
      StoppedText(Value(), now);
      if id in client.server.containers && ContainerCodec.ReadableContainer(client.server.containers[id]) {
        ContainerCodec.StatusIsNotRead(client.server.containers[id], Stopped);
      }
      err := Lxo.StopContainer(client.server, id, 1);
      if err.Some? {
        if err.value == NotFound { return None; }
        return;
      }
      err := SaveFinished(now);
    }

    /** The part of Stop after LXD has stopped the container */
    method SaveFinished(now: int64) returns (err: Option<Error>)
      requires id != "" && id in client.server.containers
      modifies `id, `tag, `config, `createdAt, `finishedAt, `sandbox, client.server`containers, client.server`requests
      ensures id == old(id)
      ensures var saved := old(client.server.containers)[id := ContainerCodec.Encode(
        ContainerCodec.StoppedData(old(Value()), now), old(client.server.containers)[id].status)];
        client.server.containers == saved || (err.Some? && client.server.containers == old(client.server.containers))
      ensures client.server.containers[id].status == old(client.server.containers)[id].status
      ensures client.server.requests == old(client.server.requests)
        || client.server.requests == old(client.server.requests) + [PutContainer(id)]
      ensures old(sandbox) == null && sandbox != null ==> HasReadableParent(client, profiles)
      ensures client.server.reliable && old(sandbox) == null && ContainerCodec.StorableDevices(old(Value()))
              && profiles != [] && ContainerCodec.ReadableContainer(old(client.server.containers)[id]) ==>
        (err.None? || err == Some(NotFound) <==> SaveIsQuiet(client, profiles, privileged, image))
    {
      hide ContainerCodec.Encode, ParentAllows, HasImage, SaveIsQuiet, IsParent, HasReadableParent, Value,
        ContainerCodec.ReadableContainer;
      err := Refresh();
      if err.Some? { return; }
      MarkFinished(now);
      ContainerCodec.EncodedStatus(Value(), client.server.containers[id].status);
      err := Apply("", now);
      if sandbox != null && IsParent(sandbox, client, profiles) {
        ParentNetwork(sandbox, client, profiles);
      }
    }

    /** Returns nil as well if there is no such container. */
    method Delete() returns (err: Option<Error>)
      modifies client.server`containers, client.server`requests
      ensures client.server.requests == old(client.server.requests) +
        [RemoveContainer(id, if id in old(client.server.containers) then old(client.server.containers)[id].status
                             else Stopped)]
      ensures err.None? ==> client.server.containers == old(client.server.containers) - {id}
      ensures err.None? && id in old(client.server.containers) ==> old(client.server.containers)[id].status == Stopped
      ensures err.Some? ==> client.server.containers == old(client.server.containers)
      ensures err.Some? ==> err.value != NotFound
      ensures client.server.reliable ==>
        (err.None? <==> id !in old(client.server.containers) || old(client.server.containers)[id].status == Stopped)
    {
      err := client.server.DeleteContainer(id);
      if err == Some(NotFound) {
        err := None;
      }
    }
  }

  /** What a change of state and the save after it leave behind: the saved record if both went well; otherwise
      nothing, or only the new status, or the saved record if just the last look at it failed. */
  ghost predicate Outcome(before: map<string, Instance>, after: map<string, Instance>, id: string, status: Status,
                          saved: Instance, complete: bool)
  {
    if complete then id in before && after == before[id := saved]
    else
      || after == before
      || (id in before && (after == before[id := before[id].(status := status)] || after == before[id := saved]))
  }

  /** Only updates were sent, and no stop with force that does not follow one without. */
  ghost predicate OnlyUpdates(before: seq<Request>, after: seq<Request>) {
    && before <= after
    && forall j | |before| <= j < |after| ::
      && (after[j].PutState? || after[j].PutContainer?)
      && (after[j].PutState? && after[j].force ==> FollowsGentleStop(before, after, j))
  }

  ghost predicate FollowsGentleStop(before: seq<Request>, after: seq<Request>, j: nat)
    requires j < |after| && after[j].PutState?
  {
    j > |before| && after[j - 1] == PutState(after[j].name, false, false)
  }

  /** The record of a container, from the part of its config that comes before its own config */
  lemma Assembled(v: ContainerCodec.ContainerData, c: Config)
    requires c == Section(LABELS, v.labels) + Section(ANNOTATIONS, v.annotations) + ContainerCodec.FixedKeys(v)
                  + Section(ENVIRONMENT, v.environment) + ContainerCodec.CloudInitKeys(v) + ContainerCodec.CpuKeys(v)
                  + ContainerCodec.LimitKeys(v)
    ensures ContainerCodec.Encode(v, Stopped) ==
      Instance((c + ContainerCodec.CONTAINER_STORE.Unreserved(v.config))[SCHEMA := SCHEMA_CONTAINER],
               ToOptionMaps(v.devices), v.profiles, Stopped)
  {
    hide ContainerCodec.FixedKeys, ContainerCodec.CloudInitKeys, ContainerCodec.CpuKeys, ContainerCodec.LimitKeys,
         Section, ConfigStore.Unreserved, ToOptionMaps;
    var m := c + ContainerCodec.CONTAINER_STORE.Unreserved(v.config);
    assert m + map[SCHEMA := SCHEMA_CONTAINER] == m[SCHEMA := SCHEMA_CONTAINER];
  }

  lemma StoppedText(c: ContainerCodec.ContainerData, now: int64)
    ensures Get(ContainerCodec.Encode(ContainerCodec.StoppedData(c, now), Stopped).config, "user.finished_at") ==
      FormatInt(now)
  {
    hide ContainerCodec.Encode, FormatInt;
    ContainerCodec.TimeTexts(ContainerCodec.StoppedData(c, now), Stopped);
  }

  lemma StatusIsNotEncoded(c: ContainerCodec.ContainerData)
    ensures forall before, after ::
      ContainerCodec.Encode(c, before).(status := after) == ContainerCodec.Encode(c, after)
  {
    hide ContainerCodec.EncodeConfig;
  }

  method WriteIfSet(r: Config, key: string, value: string) returns (r': Config)
    ensures r' == r + ContainerCodec.IfSet(key, value)
  {
    r' := r;
    if value != "" {
      r' := r'[key := value];
    }
  }

  method WriteNumber(r: Config, key: string, text: Option<string>) returns (r': Config)
    ensures r' == r + ContainerCodec.NumberKey(key, text)
  {
    r' := r;
    if text.Some? {
      r' := r'[key := text.value];
    }
  }

  lemma AddInTurn(r: Config, a: Config, b: Config, c: Config)
    ensures r + a + b + c == r + (a + b + c)
  {
  }

  lemma CpuInTurn(r: Config, c: ContainerCodec.ContainerData)
    ensures r + ContainerCodec.SharesKey(c) + ContainerCodec.QuotaKey(c) + ContainerCodec.PeriodKey(c)
      == r + ContainerCodec.CpuKeys(c)
  {
    hide ContainerCodec.SharesKey, ContainerCodec.QuotaKey, ContainerCodec.PeriodKey;
  }

  lemma LimitsInTurn(r: Config, c: ContainerCodec.ContainerData)
    ensures r + ContainerCodec.CpuKeys(c) + ContainerCodec.AllowanceKey(c) + ContainerCodec.MemoryKey(c)
      == r + ContainerCodec.CpuKeys(c) + ContainerCodec.LimitKeys(c)
  {
    hide ContainerCodec.CpuKeys, ContainerCodec.AllowanceKey, ContainerCodec.MemoryKey;
  }

  lemma NoMemoryKey(c: ContainerCodec.ContainerData)
    requires c.resources.Some? && c.resources.value.memory == None
    ensures ContainerCodec.MemoryKey(c) == map[]
  {
  }

  lemma NoCpuKeys(c: ContainerCodec.ContainerData)
    requires c.resources.Some? && c.resources.value.cpu == None
    ensures ContainerCodec.CpuKeys(c) == map[] && ContainerCodec.AllowanceKey(c) == map[]
  {
  }

  lemma NoResourceKeys(c: ContainerCodec.ContainerData)
    requires c.resources == None
    ensures ContainerCodec.CpuKeys(c) == map[] && ContainerCodec.LimitKeys(c) == map[]
  {
  }

  /** The image of the container can be told and is there. */
  predicate HasImage(client: Client, image: string)
    reads client.server`aliases, client.server`images
  {
    var id := Images.ParseImage(client.remotes, image);
    id.Ok? && Images.HashOf(client.server.aliases, client.server.images, id.value).Some?
  }

  lemma HasImageExactly(client: Client, image: string)
    ensures HasImage(client, image) <==>
      && Images.ParseImage(client.remotes, image).Ok?
      && var id := Images.ParseImage(client.remotes, image).value;
         id.remote + "/" + id.alias in client.server.aliases || id.alias in client.server.images
  {
  }

  ghost predicate IsParent(s: Sandbox, client: Client, profiles: seq<string>)
    reads s, client.server`profiles
  {
    && profiles != [] && SandboxID(profiles) in client.server.profiles
    && IsCRIProfile(client.server.profiles[SandboxID(profiles)])
    && IsLoaded(s, client, SandboxID(profiles), client.server.profiles[SandboxID(profiles)])
  }

  predicate HasReadableParent(client: Client, profiles: seq<string>)
    reads client.server`profiles
  {
    && profiles != [] && SandboxID(profiles) in client.server.profiles
    && Readable(client, client.server.profiles[SandboxID(profiles)])
  }

  /** The pod of the container is there, and is not one of the host's network unless the container is privileged. */
  predicate ParentAllows(client: Client, profiles: seq<string>, privileged: bool)
    reads client.server`profiles
  {
    && HasReadableParent(client, profiles)
    && var pod := SandboxCodec.Decode(client.yaml, client.server.profiles[SandboxID(profiles)]).value;
       pod.network.mode == SandboxCodec.Host ==> privileged
  }

  /** The pod of the container is gone, as far as the runtime is concerned. */
  predicate ParentGone(client: Client, profiles: seq<string>)
    reads client.server`profiles
  {
    profiles != [] &&
    (SandboxID(profiles) in client.server.profiles ==> !IsCRIProfile(client.server.profiles[SandboxID(profiles)]))
  }

  /** Saving the container works, or fails in the one way that counts as success to its callers: because its pod or
      its image cannot be found. */
  predicate SaveIsQuiet(client: Client, profiles: seq<string>, privileged: bool, image: string)
    reads client.server`profiles
  {
    || ParentGone(client, profiles)
    || (ParentAllows(client, profiles, privileged) && Images.ParseImage(client.remotes, image).Ok?)
  }

  lemma ParentNetwork(s: Sandbox, client: Client, profiles: seq<string>)
    requires IsParent(s, client, profiles)
    ensures HasReadableParent(client, profiles)
    ensures s.network == SandboxCodec.Decode(client.yaml, client.server.profiles[SandboxID(profiles)]).value.network
  {
    hide SandboxCodec.Decode;
    assert s.Value().network == s.network;
  }

  ghost predicate IsLoadedContainer(c: Container, client: Client, id: string, i: Instance)
    reads c
  {
    && UniqueNames(c.devices) && c.client == client && c.id == id && c.tag == InstanceTag(i) && c.sandbox == null
    && ContainerCodec.StorableDevices(c.Value())
    && var loaded := ContainerCodec.Decode(i);
    && loaded.Ok?
    && c.Value().(devices := loaded.value.devices) == loaded.value
    && ("" !in i.devices ==> c.Value() == loaded.value)
  }

  method ToContainer(client: Client, name: string, i: Instance) returns (r: Result<Container>)
    ensures r.Ok? <==> ContainerCodec.Decode(i).Ok?
    ensures r.Ok? ==> fresh(r.value) && IsLoadedContainer(r.value, client, name, i)
    ensures r.Err? ==>
      r.error == if i.profiles == [] && ContainerCodec.Decode(i) == Err(Convert) then Convert else Parse
  {
    hide ContainerCodec.ParseAttempt, ContainerCodec.ParsePrivileged, ContainerCodec.ParseTime,
         ContainerCodec.ParseOptionalInt, ContainerCodec.ParseOptionalUint, Stripped, ConfigStore.Unreserved, DetectAll,
         Denote, Get, UniqueNames, ContainerCodec.StateNameOf;
    var c := i.config;
    var attempt := ContainerCodec.ParseAttempt(c);
    if attempt.None? { return Err(Parse); }
    var privileged := ContainerCodec.ParsePrivileged(c);
    if privileged.None? { return Err(Parse); }
    var createdAt := ContainerCodec.ParseTime(c, CREATED_AT);
    if createdAt.None? { return Err(Parse); }
    var startedAt := ContainerCodec.ParseTime(c, STARTED_AT);
    if startedAt.None? { return Err(Parse); }
    var finishedAt := ContainerCodec.ParseTime(c, FINISHED_AT);
    if finishedAt.None? { return Err(Parse); }
    var annotations := ContainerCodec.CONTAINER_STORE.StrippedPrefixMap(c, ANNOTATIONS);
    var labels := ContainerCodec.CONTAINER_STORE.StrippedPrefixMap(c, LABELS);
    var config := ContainerCodec.CONTAINER_STORE.UnreservedMap(c);
    var environment := Strip(c, ENVIRONMENT);
    var devices := LoadDevices(i.devices);
    if devices.Err? { return Err(devices.error); }
    var shares := ContainerCodec.ParseOptionalUint(c, CPU_SHARES);
    if shares.None? { return Err(Parse); }
    var quota := ContainerCodec.ParseOptionalInt(c, CPU_QUOTA);
    if quota.None? { return Err(Parse); }
    var period := ContainerCodec.ParseOptionalUint(c, CPU_PERIOD);
    if period.None? { return Err(Parse); }
    var limit := ContainerCodec.ParseOptionalInt(c, MEMORY_LIMIT);
    if limit.None? { return Err(Parse); }
    if |i.profiles| == 0 { return Err(Convert); }
    var v := ContainerCodec.ContainerData(
      ContainerCodec.ContainerMetadata(Get(c, META_NAME), attempt.value), i.profiles, Get(c, BASE_IMAGE),
      privileged.value, environment, labels, annotations, config, createdAt.value, startedAt.value, finishedAt.value,
      Get(c, LOG_PATH), Get(c, CLOUD_INIT_USER_DATA), Get(c, CLOUD_INIT_META_DATA), Get(c, CLOUD_INIT_NETWORK_CONFIG),
      Some(ContainerCodec.Resources(Some(ContainerCodec.Cpu(shares.value, quota.value, period.value)),
                                    Some(ContainerCodec.Memory(limit.value)))),
      ContainerCodec.StateNameOf(i.status, config), map[]);
    StorableMembers(devices.value);
    var loaded := new Container.Loaded(client, name, InstanceTag(i), v, devices.value);
    r := Ok(loaded);
  }

  method GetContainer(client: Client, id: string) returns (r: Result<Container>)
    ensures r.Ok? ==>
      && id in client.server.containers && IsCRIInstance(client.server.containers[id])
      && fresh(r.value) && IsLoadedContainer(r.value, client, id, client.server.containers[id])
    ensures r.Err? ==>
      match r.error
      case NotFound => id !in client.server.containers || !IsCRIInstance(client.server.containers[id])
      case Unavailable => !client.server.reliable
      case e =>
        && id in client.server.containers && IsCRIInstance(client.server.containers[id])
        && ContainerCodec.Decode(client.server.containers[id]).Err? && e in {Parse, Convert}
  {
    hide ContainerCodec.Decode, IsCRIInstance;
    var i := client.server.GetContainer(id);
    if i.Err? { return Err(i.error); }
    if !IsCRIInstance(i.value) { return Err(NotFound); }
    r := ToContainer(client, id, i.value);
  }
}
