/** A pod as the runtime sees it, and the LXD profile it is stored as
    (Sandbox.apply in lxf/sandbox.go, toSandbox in lxf/lxf_sandbox.go). */
module SandboxCodec {
  import opened Wrappers
  import opened Text
  import opened ConfigKeys
  import opened ConfigStores
  import opened Devices
  import opened Records

  const SANDBOX_STORE: ConfigStore :=
    ConfigStore(
      [LOG_DIRECTORY, STATE, HOSTNAME, CLOUD_INIT_NETWORK_CONFIG, CLOUD_INIT_VENDOR_DATA, MODE_DATA,
       SCHEMA, IS_CRI, CREATED_AT],
      [NETWORK_CONFIG, LABELS, ANNOTATIONS, METADATA])

  /** The keys that a pod's foreign config cannot use */
  lemma ReservedExactly(k: string)
    ensures SANDBOX_STORE.IsReserved(k) <==>
      || k in {"user.log_directory", "user.state", "user.host_name", "user.network-config", "user.vendor-data",
               "user.lxe.schema", "user.cri", "user.created_at"}
      || AtOrBelow(k, "user.networkconfig") || AtOrBelow(k, "user.labels")
      || AtOrBelow(k, "user.annotations") || AtOrBelow(k, "user.metadata")
  {
    var p := SANDBOX_STORE.reservedPrefixes;
    assert p[0] == "user.networkconfig" && p[1] == "user.labels" && p[2] == "user.annotations"
      && p[3] == "user.metadata";
    var r := SANDBOX_STORE.reserved;
    assert r[0] == LOG_DIRECTORY && r[1] == STATE && r[2] == HOSTNAME && r[3] == CLOUD_INIT_NETWORK_CONFIG
      && r[4] == CLOUD_INIT_VENDOR_DATA && r[5] == MODE_DATA && r[6] == SCHEMA && r[7] == IS_CRI && r[8] == CREATED_AT;
    assert MODE_DATA[..19] == "user.networkconfig.";
  }

  // ---------- Data ----------

  datatype SandboxState = Ready | NotReady {
    function ToString(): string {
      if Ready? then "ready" else "notready"
    }
  }

  /** Everything but the text for "not ready" means ready. */
  function GetSandboxState(s: string): SandboxState {
    if s == "notready" then NotReady else Ready
  }

  datatype NetworkMode = Host | CNI | Bridged | NoNetwork {
    function ToString(): string {
      match this
      case Host => "node"
      case CNI => "cni"
      case Bridged => "bridged"
      case NoNetwork => "none"
    }
  }

  function GetNetworkMode(s: string): NetworkMode {
    if s == "node" then Host else if s == "cni" then CNI else if s == "bridged" then Bridged else NoNetwork
  }

  datatype SandboxMetadata = SandboxMetadata(attempt: uint32, name: string, namespace: string, uid: string)

  datatype NetworkConfig =
    NetworkConfig(nameservers: seq<string>, searches: seq<string>, mode: NetworkMode, modeData: map<string, string>)

  /** An entry of the cloud-init network document */
  datatype CloudInitEntry =
    | Nameserver(addresses: seq<string>, searches: seq<string>)
    | Physical(name: string, subnetTypes: seq<string>)

  /** The content of a pod; `devices` is the map that its device list denotes. */
  datatype SandboxData = SandboxData(
    metadata: SandboxMetadata,
    hostname: string,
    logDirectory: string,
    labels: map<string, string>,
    annotations: map<string, string>,
    config: Config,
    network: NetworkConfig,
    state: SandboxState,
    createdAt: int64,
    cloudInit: seq<CloudInitEntry>,
    devices: map<string, Device>)

  /** The YAML library: any printer and parser of which the parser undoes the printer. */
  datatype Yaml = Yaml(
    Marshal: map<string, string> -> string,
    Unmarshal: string -> Option<map<string, string>>,
    CloudInit: seq<CloudInitEntry> -> string)
  {
    ghost predicate Lawful() {
      forall m :: Unmarshal(Marshal(m)) == Some(m)
    }
  }

  // ---------- Encoding ----------

  function CloudInitDocument(s: SandboxData): seq<CloudInitEntry> {
    (if s.network.nameservers != [] && s.network.searches != []
     then [Nameserver(s.network.nameservers, s.network.searches)] else [])
    + s.cloudInit
  }

  function VendorData(hostname: string): string {
    "#cloud-config\nhostname: " + hostname + "\nmanage_etc_hosts: true\n"
  }

  /** The keys that are written for every pod */
  function FixedKeys(y: Yaml, s: SandboxData): Config {
    map[
      STATE := s.state.ToString(),
      IS_CRI := FormatBool(true),
      CREATED_AT := FormatInt(s.createdAt),
      META_ATTEMPT := FormatNat(s.metadata.attempt),
      META_NAME := s.metadata.name,
      META_NAMESPACE := s.metadata.namespace,
      META_UID := s.metadata.uid,
      HOSTNAME := s.hostname,
      LOG_DIRECTORY := s.logDirectory,
      NAMESERVERS := Join(s.network.nameservers, ','),
      SEARCHES := Join(s.network.searches, ','),
      NETWORK_MODE := s.network.mode.ToString(),
      MODE_DATA := y.Marshal(s.network.modeData)]
  }

  /** The keys that are written last */
  function LastKeys(y: Yaml, s: SandboxData): Config {
    map[CLOUD_INIT_NETWORK_CONFIG := y.CloudInit(CloudInitDocument(s))]
    + (if s.hostname != "" then map[CLOUD_INIT_VENDOR_DATA := VendorData(s.hostname)] else map[])
    + map[SCHEMA := SCHEMA_PROFILE]
  }

  function EncodeConfig(y: Yaml, s: SandboxData): Config {
    FixedKeys(y, s) + Section(LABELS, s.labels) + Section(ANNOTATIONS, s.annotations)
    + SANDBOX_STORE.Unreserved(s.config) + LastKeys(y, s)
  }

  function Encode(y: Yaml, s: SandboxData): Profile {
    Profile(EncodeConfig(y, s), ToOptionMaps(s.devices))
  }

  // ---------- Decoding ----------

  function ParseAttempt(c: Config): Option<uint32> {
    if META_ATTEMPT in c then
      match ParseUint(c[META_ATTEMPT], MAX_UINT32) case Some(n) => Some(n) case None => None
    else Some(0)
  }

  function ParseTime(c: Config, key: string): Option<int64> {
    if key in c then ParseInt(c[key]) else Some(ZERO_TIME)
  }

  /** What the config of a profile says; cloud-init entries are write-only. */
  function DecodeConfig(y: Yaml, c: Config, devices: map<string, Device>): Option<SandboxData> {
    match (ParseAttempt(c), ParseTime(c, CREATED_AT), y.Unmarshal(Get(c, MODE_DATA)))
    case (Some(attempt), Some(createdAt), Some(modeData)) =>
      Some(SandboxData(
        SandboxMetadata(attempt, Get(c, META_NAME), Get(c, META_NAMESPACE), Get(c, META_UID)),
        Get(c, HOSTNAME), Get(c, LOG_DIRECTORY),
        Stripped(c, LABELS), Stripped(c, ANNOTATIONS), SANDBOX_STORE.Unreserved(c),
        NetworkConfig(Split(Get(c, NAMESERVERS), ','), Split(Get(c, SEARCHES), ','),
                      GetNetworkMode(Get(c, NETWORK_MODE)), modeData),
        GetSandboxState(Get(c, STATE)), createdAt, [], devices))
    case _ => None
  }

  function Decode(y: Yaml, p: Profile): Result<SandboxData> {
    match DetectAll(p.devices)
    case Err(e) => Err(e)
    case Ok(devices) =>
      match DecodeConfig(y, p.config, devices)
      case None => Err(Parse)
      case Some(s) => Ok(s)
  }

  // ---------- The sections do not overlap ----------

  /** Labels and annotations are told apart from each other and from every other key by the
      sixth and seventh character. */
  lemma SectionKey(k: string)
    ensures HasPrefix(k, LABELS + ".") ==> |k| > 6 && k[5] == 'l' && k[6] == 'a'
    ensures HasPrefix(k, ANNOTATIONS + ".") ==> |k| > 6 && k[5] == 'a' && k[6] == 'n'
  {
    assert HasPrefix(k, LABELS + ".") ==> k[5] == (LABELS + ".")[5] && k[6] == (LABELS + ".")[6];
    assert HasPrefix(k, ANNOTATIONS + ".") ==> k[5] == (ANNOTATIONS + ".")[5] && k[6] == (ANNOTATIONS + ".")[6];
  }

  lemma ReservedBelow(k: string, i: nat)
    requires i < |SANDBOX_STORE.reservedPrefixes| && HasPrefix(k, SANDBOX_STORE.reservedPrefixes[i] + ".")
    ensures SANDBOX_STORE.IsReserved(k)
  {
  }

  /** The keys of a pod that the store reserves by name, by the prefix of the metadata, and by the
      prefix of the network configuration */
  const LISTED_KEYS := [STATE, IS_CRI, CREATED_AT, HOSTNAME, LOG_DIRECTORY, SCHEMA, CLOUD_INIT_NETWORK_CONFIG,
    CLOUD_INIT_VENDOR_DATA]
  const METADATA_KEYS := [META_ATTEMPT, META_NAME, META_NAMESPACE, META_UID]
  const NETWORK_KEYS := [NAMESERVERS, SEARCHES, NETWORK_MODE, MODE_DATA]

  lemma WrittenKeyNames(y: Yaml, s: SandboxData, k: string)
    requires k in FixedKeys(y, s) || k in LastKeys(y, s)
    ensures k in LISTED_KEYS || k in METADATA_KEYS || k in NETWORK_KEYS
  {
    assert LISTED_KEYS[0] == STATE && LISTED_KEYS[1] == IS_CRI && LISTED_KEYS[2] == CREATED_AT
      && LISTED_KEYS[3] == HOSTNAME && LISTED_KEYS[4] == LOG_DIRECTORY && LISTED_KEYS[5] == SCHEMA
      && LISTED_KEYS[6] == CLOUD_INIT_NETWORK_CONFIG && LISTED_KEYS[7] == CLOUD_INIT_VENDOR_DATA;
    assert METADATA_KEYS[0] == META_ATTEMPT && METADATA_KEYS[1] == META_NAME && METADATA_KEYS[2] == META_NAMESPACE
      && METADATA_KEYS[3] == META_UID;
    assert NETWORK_KEYS[0] == NAMESERVERS && NETWORK_KEYS[1] == SEARCHES && NETWORK_KEYS[2] == NETWORK_MODE
      && NETWORK_KEYS[3] == MODE_DATA;
  }

  lemma ListedKeys(k: string)
    requires k in LISTED_KEYS
    ensures k in SANDBOX_STORE.reserved && |k| > 6
    ensures !(k[5] == 'l' && k[6] == 'a') && !(k[5] == 'a' && k[6] == 'n')
  {
  }

  lemma MetadataKeys(k: string)
    requires k in METADATA_KEYS
    ensures SANDBOX_STORE.IsReserved(k) && |k| > 6 && k[5] == 'm'
  {
    assert k[..14] == METADATA + ".";
    ReservedBelow(k, 3);
  }

  lemma NetworkKeys(k: string)
    requires k in NETWORK_KEYS
    ensures SANDBOX_STORE.IsReserved(k) && |k| > 6 && k[5] == 'n'
  {
    assert k[..19] == NETWORK_CONFIG + ".";
    ReservedBelow(k, 0);
  }

  /** Every key that is written for all pods is reserved and lies in neither section. */
  lemma FixedKeysAreReserved(y: Yaml, s: SandboxData, k: string)
    requires k in FixedKeys(y, s) || k in LastKeys(y, s)
    ensures SANDBOX_STORE.IsReserved(k)
    ensures !HasPrefix(k, LABELS + ".") && !HasPrefix(k, ANNOTATIONS + ".")
  {
    SectionKey(k);
    WrittenKeyNames(y, s, k);
    if k in METADATA_KEYS {
      MetadataKeys(k);
    } else if k in NETWORK_KEYS {
      NetworkKeys(k);
    } else {
      ListedKeys(k);
    }
  }

  lemma SectionsAreReserved(k: string)
    ensures HasPrefix(k, LABELS + ".") || HasPrefix(k, ANNOTATIONS + ".") ==> SANDBOX_STORE.IsReserved(k)
    ensures !(HasPrefix(k, LABELS + ".") && HasPrefix(k, ANNOTATIONS + "."))
  {
    SectionKey(k);
    assert SANDBOX_STORE.reservedPrefixes[1] == LABELS && SANDBOX_STORE.reservedPrefixes[2] == ANNOTATIONS;
  }

  /** Where each key of the stored config comes from: no section hides an entry of another. */
  lemma EncodedKey(y: Yaml, s: SandboxData, k: string)
    ensures var c := EncodeConfig(y, s);
      if k in LastKeys(y, s) then k in c && c[k] == LastKeys(y, s)[k]
      else if k in FixedKeys(y, s) then k in c && c[k] == FixedKeys(y, s)[k]
      else if HasPrefix(k, LABELS + ".") then
        (k in c <==> k in Section(LABELS, s.labels)) && (k in c ==> c[k] == Section(LABELS, s.labels)[k])
      else if HasPrefix(k, ANNOTATIONS + ".") then
        (k in c <==> k in Section(ANNOTATIONS, s.annotations))
        && (k in c ==> c[k] == Section(ANNOTATIONS, s.annotations)[k])
      else if SANDBOX_STORE.IsReserved(k) then k !in c
      else (k in c <==> k in s.config) && (k in c ==> c[k] == s.config[k])
  {
    SectionLookup(LABELS, s.labels, k);
    SectionLookup(ANNOTATIONS, s.annotations, k);
    SectionsAreReserved(k);
    if k in FixedKeys(y, s) || k in LastKeys(y, s) {
      FixedKeysAreReserved(y, s, k);
    }
  }

  // ---------- Round trip ----------

  /** What of a pod is still there after it was stored and loaded: write-only entries are gone, reserved
      keys never reach the config, address lists have been split at commas, devices carry their names. */
  function Reloaded(s: SandboxData): SandboxData {
    s.(config := SANDBOX_STORE.Unreserved(s.config),
       network := s.network.(
         nameservers := Split(Join(s.network.nameservers, ','), ','),
         searches := Split(Join(s.network.searches, ','), ',')),
       cloudInit := [],
       devices := WithKeys(s.devices))
  }

  ghost predicate StorableDevices(s: SandboxData) {
    forall n | n in s.devices :: s.devices[n].Storable()
  }

  /** The stored text of every fixed key */
  lemma StoredFixedKeys(y: Yaml, s: SandboxData)
    ensures var c := EncodeConfig(y, s);
      && (forall k | k in FixedKeys(y, s) :: k in c && c[k] == FixedKeys(y, s)[k])
      && (forall k | k in LastKeys(y, s) :: k in c && c[k] == LastKeys(y, s)[k])
  {
    forall k | k in FixedKeys(y, s) || k in LastKeys(y, s)
      ensures var c := EncodeConfig(y, s);
        && k in c
        && (k in FixedKeys(y, s) ==> c[k] == FixedKeys(y, s)[k])
        && (k in LastKeys(y, s) ==> c[k] == LastKeys(y, s)[k])
    {
      EncodedKey(y, s, k);
      LastKeysAreNotFixed(y, s, k);
    }
  }

  lemma LastKeysAreNotFixed(y: Yaml, s: SandboxData, k: string)
    ensures !(k in FixedKeys(y, s) && k in LastKeys(y, s))
  {
    hide FormatNat, FormatInt, FormatBool, Join, VendorData, CloudInitDocument;
  }

  /** Every key of the stored config below a section prefix comes from that section, and every
      unreserved key from the foreign config. */
  lemma StoredSectionKey(y: Yaml, s: SandboxData, k: string)
    ensures var c := EncodeConfig(y, s);
      && (HasPrefix(k, LABELS + ".") ==>
        (k in c <==> k in Section(LABELS, s.labels)) && Get(c, k) == Get(Section(LABELS, s.labels), k))
      && (HasPrefix(k, ANNOTATIONS + ".") ==>
        (k in c <==> k in Section(ANNOTATIONS, s.annotations))
        && Get(c, k) == Get(Section(ANNOTATIONS, s.annotations), k))
      && (!SANDBOX_STORE.IsReserved(k) ==> (k in c <==> k in s.config) && Get(c, k) == Get(s.config, k))
  {
    EncodedKey(y, s, k);
    SectionsAreReserved(k);
    if k in FixedKeys(y, s) || k in LastKeys(y, s) {
      FixedKeysAreReserved(y, s, k);
    }
  }

  /** Labels, annotations and foreign config are recovered from the stored config. */
  lemma StoredSections(y: Yaml, s: SandboxData)
    ensures Stripped(EncodeConfig(y, s), LABELS) == s.labels
    ensures Stripped(EncodeConfig(y, s), ANNOTATIONS) == s.annotations
  {
    forall k {
      StoredSectionKey(y, s, k);
    }
    StrippedAgrees(EncodeConfig(y, s), Section(LABELS, s.labels), LABELS);
    StrippedAgrees(EncodeConfig(y, s), Section(ANNOTATIONS, s.annotations), ANNOTATIONS);
    StrippedSection(LABELS, s.labels);
    StrippedSection(ANNOTATIONS, s.annotations);
  }

  lemma StoredForeignConfig(y: Yaml, s: SandboxData)
    ensures SANDBOX_STORE.Unreserved(EncodeConfig(y, s)) == SANDBOX_STORE.Unreserved(s.config)
  {
    var left, right := SANDBOX_STORE.Unreserved(EncodeConfig(y, s)), SANDBOX_STORE.Unreserved(s.config);
    forall k
      ensures k in left <==> k in right
      ensures k in left && k in right ==> left[k] == right[k]
    {
      StoredSectionKey(y, s, k);
      assert k in left ==> left[k] == Get(EncodeConfig(y, s), k);
      assert k in right ==> right[k] == Get(s.config, k);
    }
  }

  lemma EnumsRoundTrip(state: SandboxState, mode: NetworkMode)
    ensures GetSandboxState(state.ToString()) == state
    ensures GetNetworkMode(mode.ToString()) == mode
  {
  }

  ghost predicate HoldsFixedKeys(y: Yaml, s: SandboxData, c: Config) {
    && STATE in c && c[STATE] == s.state.ToString()
    && CREATED_AT in c && c[CREATED_AT] == FormatInt(s.createdAt)
    && META_ATTEMPT in c && c[META_ATTEMPT] == FormatNat(s.metadata.attempt)
    && META_NAME in c && c[META_NAME] == s.metadata.name
    && META_NAMESPACE in c && c[META_NAMESPACE] == s.metadata.namespace
    && META_UID in c && c[META_UID] == s.metadata.uid
    && HOSTNAME in c && c[HOSTNAME] == s.hostname
    && LOG_DIRECTORY in c && c[LOG_DIRECTORY] == s.logDirectory
    && NAMESERVERS in c && c[NAMESERVERS] == Join(s.network.nameservers, ',')
    && SEARCHES in c && c[SEARCHES] == Join(s.network.searches, ',')
    && NETWORK_MODE in c && c[NETWORK_MODE] == s.network.mode.ToString()
    && MODE_DATA in c && c[MODE_DATA] == y.Marshal(s.network.modeData)
    && IS_CRI in c && c[IS_CRI] == "true"
    && SCHEMA in c && c[SCHEMA] == SCHEMA_PROFILE
  }

  lemma AgreesOnFixedKeys(y: Yaml, s: SandboxData, c: Config)
    requires forall k | k in FixedKeys(y, s) :: k in c && c[k] == FixedKeys(y, s)[k]
    requires SCHEMA in c && c[SCHEMA] == SCHEMA_PROFILE
    ensures HoldsFixedKeys(y, s, c)
  {
    hide FormatNat, FormatInt, Join, SandboxState.ToString, NetworkMode.ToString;
    var m := FixedKeys(y, s);
    assert STATE in m && CREATED_AT in m && META_ATTEMPT in m && META_NAME in m && META_NAMESPACE in m;
    assert META_UID in m && HOSTNAME in m && LOG_DIRECTORY in m && NAMESERVERS in m && SEARCHES in m;
    assert NETWORK_MODE in m && MODE_DATA in m && IS_CRI in m;
  }

  lemma EncodedHoldsFixedKeys(y: Yaml, s: SandboxData)
    ensures HoldsFixedKeys(y, s, EncodeConfig(y, s))
  {
    StoredFixedKeys(y, s);
    EncodedKey(y, s, SCHEMA);
    AgreesOnFixedKeys(y, s, EncodeConfig(y, s));
  }

  /** Any record with these texts, sections and devices is read as the same pod. */
  lemma DecodeFromParts(y: Yaml, s: SandboxData, p: Profile)
    requires y.Lawful() && HoldsFixedKeys(y, s, p.config)
    requires Stripped(p.config, LABELS) == s.labels && Stripped(p.config, ANNOTATIONS) == s.annotations
    requires SANDBOX_STORE.Unreserved(p.config) == SANDBOX_STORE.Unreserved(s.config)
    requires DetectAll(p.devices) == Ok(WithKeys(s.devices))
    ensures Decode(y, p) == Ok(Reloaded(s))
  {
    EnumsRoundTrip(s.state, s.network.mode);
    ParseUintOfFormat(s.metadata.attempt, MAX_UINT32);
    ParseIntOfFormat(s.createdAt);
    assert ParseAttempt(p.config) == Some(s.metadata.attempt);
    assert ParseTime(p.config, CREATED_AT) == Some(s.createdAt);
    assert y.Unmarshal(y.Marshal(s.network.modeData)) == Some(s.network.modeData);
  }

  /** Loading a stored pod gives exactly the pod that was stored, up to what `Reloaded` names. */
  lemma DecodeEncode(y: Yaml, s: SandboxData)
    requires y.Lawful() && StorableDevices(s)
    ensures Decode(y, Encode(y, s)) == Ok(Reloaded(s))
  {
    EncodedHoldsFixedKeys(y, s);
    StoredSections(y, s);
    StoredForeignConfig(y, s);
    ReloadStored(s.devices);
    DecodeFromParts(y, s, Encode(y, s));
  }

  /** Storing and loading loses nothing exactly when the foreign config uses no reserved key, both
      address lists are non-empty and free of commas, nothing is write-only, and every device is
      filed under a name it carries itself. */
  lemma RoundTripExactly(y: Yaml, s: SandboxData)
    requires y.Lawful() && StorableDevices(s)
    ensures Decode(y, Encode(y, s)) == Ok(s) <==>
      && (forall k | k in s.config :: !SANDBOX_STORE.IsReserved(k))
      && s.network.nameservers != [] && (forall a | a in s.network.nameservers :: Free(a, ','))
      && s.network.searches != [] && (forall a | a in s.network.searches :: Free(a, ','))
      && s.cloudInit == []
      && forall n | n in s.devices :: s.devices[n].keyName == n
  {
    DecodeEncode(y, s);
    SplitOfJoinExactly(s.network.nameservers, ',');
    SplitOfJoinExactly(s.network.searches, ',');
    KeptConfigExactly(s.config);
    KeptNamesExactly(s.devices);
    assert Reloaded(s) == s <==>
      && Reloaded(s).config == s.config && Reloaded(s).network == s.network
      && s.cloudInit == [] && Reloaded(s).devices == s.devices;
  }

  lemma KeptConfigExactly(c: Config)
    ensures SANDBOX_STORE.Unreserved(c) == c <==> forall k | k in c :: !SANDBOX_STORE.IsReserved(k)
  {
    if forall k | k in c :: !SANDBOX_STORE.IsReserved(k) {
      assert SANDBOX_STORE.Unreserved(c).Keys == c.Keys;
    } else {
      var k :| k in c && SANDBOX_STORE.IsReserved(k);
      assert k !in SANDBOX_STORE.Unreserved(c);
    }
  }

  /** A list of nameservers comes back as one empty string exactly if it was empty or already that, and so does a list
      of search domains, each whatever the other one is.  The next cloud-init document names both. */
  lemma EmptyListsComeBackAsEmptyString(y: Yaml, s: SandboxData)
    requires y.Lawful() && StorableDevices(s)
    ensures Decode(y, Encode(y, s)).Ok?
    ensures var loaded := Decode(y, Encode(y, s)).value;
      && (loaded.network.nameservers == [""] <==> s.network.nameservers in {[], [""]})
      && (loaded.network.searches == [""] <==> s.network.searches in {[], [""]})
      && CloudInitDocument(loaded) == [Nameserver(loaded.network.nameservers, loaded.network.searches)]
  {
    DecodeEncode(y, s);
    EmptySplitExactly(s.network.nameservers, ',');
    EmptySplitExactly(s.network.searches, ',');
    hide Encode, Decode;
  }

  // ---------- Cloud-init entries are lost ----------

  /** Loading a pod and stopping it keeps its cloud-init document exactly if the pod has no entries of network plugins,
      which are all physical cards, and both its lists are non-empty and free of commas. */
  lemma StopKeepsDocumentExactly(y: Yaml, s: SandboxData)
    requires y.Lawful() && StorableDevices(s) && forall e | e in s.cloudInit :: e.Physical?
    ensures Decode(y, Encode(y, s)).Ok?
    ensures CloudInitDocument(StoppedData(Decode(y, Encode(y, s)).value)) == CloudInitDocument(s) <==>
      && s.cloudInit == []
      && s.network.nameservers != [] && (forall a | a in s.network.nameservers :: Free(a, ','))
      && s.network.searches != [] && (forall a | a in s.network.searches :: Free(a, ','))
  {
    hide Encode, Decode, Split, Join;
    DecodeEncode(y, s);
    SplitOfJoinExactly(s.network.nameservers, ',');
    SplitOfJoinExactly(s.network.searches, ',');
    hide CloudInitDocument;
    DocumentOfStopped(s);
    DocumentOf(s);
    var loaded := Reloaded(s).network;
    var nameserver := Nameserver(loaded.nameservers, loaded.searches);
    OneEntry(nameserver, Nameserver(s.network.nameservers, s.network.searches), s.cloudInit);
    assert nameserver !in s.cloudInit && nameserver in [nameserver];
  }

  lemma OneEntry(a: CloudInitEntry, b: CloudInitEntry, rest: seq<CloudInitEntry>)
    ensures [a] == [b] + rest <==> a == b && rest == []
  {
    if [a] == [b] + rest {
      assert ([b] + rest)[0] == a && |rest| == 0;
    }
  }

  lemma DocumentOfStopped(s: SandboxData)
    ensures var loaded := Reloaded(s).network;
      CloudInitDocument(StoppedData(Reloaded(s))) == [Nameserver(loaded.nameservers, loaded.searches)]
  {
  }

  lemma DocumentOf(s: SandboxData)
    ensures var ns, se := s.network.nameservers, s.network.searches;
      CloudInitDocument(s) == if ns != [] && se != [] then [Nameserver(ns, se)] + s.cloudInit else s.cloudInit
  {
  }

  /** The stored record belongs to the runtime, under the keys its other readers look for. */
  lemma WireFormat(y: Yaml, s: SandboxData)
    ensures IsCRIProfile(Encode(y, s))
    ensures var c := Encode(y, s).config;
      && Get(c, "user.state") == (if s.state.Ready? then "ready" else "notready")
      && Get(c, "user.host_name") == s.hostname
      && Get(c, "user.log_directory") == s.logDirectory
      && Get(c, "user.created_at") == FormatInt(s.createdAt)
      && Get(c, "user.cri") == "true" && Get(c, "user.lxe.schema") == "0.3"
      && Get(c, "user.metadata.attempt") == FormatNat(s.metadata.attempt)
      && Get(c, "user.networkconfig.modedata") == y.Marshal(s.network.modeData)
      && Get(c, "user.metadata.name") == s.metadata.name
      && Get(c, "user.metadata.namespace") == s.metadata.namespace
      && Get(c, "user.metadata.uid") == s.metadata.uid
      && Get(c, "user.networkconfig.nameservers") == Join(s.network.nameservers, ',')
      && Get(c, "user.networkconfig.searches") == Join(s.network.searches, ',')
      && Get(c, "user.networkconfig.mode") ==
         (match s.network.mode case Host => "node" case CNI => "cni" case Bridged => "bridged" case NoNetwork => "none")
    ensures forall k | k in s.labels :: Get(Encode(y, s).config, "user.labels." + k) == s.labels[k]
    ensures forall k | k in s.annotations :: Get(Encode(y, s).config, "user.annotations." + k) == s.annotations[k]
  {
    hide EncodeConfig, FormatInt, FormatNat, Join;
    EncodedHoldsFixedKeys(y, s);
    ParseBoolOfFormat(true);
    WireFormatOfConfig(y, s, EncodeConfig(y, s));
    StoredSections(y, s);
    SectionTexts(EncodeConfig(y, s), LABELS, "user.labels.", s.labels);
    SectionTexts(EncodeConfig(y, s), ANNOTATIONS, "user.annotations.", s.annotations);
  }

  lemma WireFormatOfConfig(y: Yaml, s: SandboxData, c: Config)
    requires HoldsFixedKeys(y, s, c)
    ensures Get(c, "user.state") == (if s.state.Ready? then "ready" else "notready")
    ensures Get(c, "user.host_name") == s.hostname && Get(c, "user.log_directory") == s.logDirectory
    ensures Get(c, "user.created_at") == FormatInt(s.createdAt)
    ensures Get(c, "user.cri") == "true" && Get(c, "user.lxe.schema") == "0.3"
    ensures Get(c, "user.metadata.attempt") == FormatNat(s.metadata.attempt)
    ensures Get(c, "user.networkconfig.modedata") == y.Marshal(s.network.modeData)
    ensures Get(c, "user.metadata.name") == s.metadata.name
    ensures Get(c, "user.metadata.namespace") == s.metadata.namespace
    ensures Get(c, "user.metadata.uid") == s.metadata.uid
    ensures Get(c, "user.networkconfig.nameservers") == Join(s.network.nameservers, ',')
    ensures Get(c, "user.networkconfig.searches") == Join(s.network.searches, ',')
    ensures Get(c, "user.networkconfig.mode") ==
      (match s.network.mode case Host => "node" case CNI => "cni" case Bridged => "bridged" case NoNetwork => "none")
  {
    hide FormatInt, FormatNat, Join;
  }

  /** cloud-init finds its network document, which begins with the nameservers if there are nameservers and search
      domains, and vendor data, which sets the hostname, only if the pod has one. */
  lemma CloudInitFormat(y: Yaml, s: SandboxData)
    ensures Get(Encode(y, s).config, "user.network-config") == y.CloudInit(
      if s.network.nameservers == [] || s.network.searches == [] then s.cloudInit
      else [Nameserver(s.network.nameservers, s.network.searches)] + s.cloudInit)
    ensures "user.vendor-data" in Encode(y, s).config <==> s.hostname != ""
    ensures s.hostname != "" ==>
      var text := Get(Encode(y, s).config, "user.vendor-data");
      text == "#cloud-config\nhostname: " + s.hostname + "\nmanage_etc_hosts: true\n"
  {
    EncodedKey(y, s, CLOUD_INIT_NETWORK_CONFIG);
    EncodedKey(y, s, CLOUD_INIT_VENDOR_DATA);
    VendorDataKey(y, s);
    LastKeysLookup(y, s);
    DocumentOf(s);
  }

  lemma LastKeysLookup(y: Yaml, s: SandboxData)
    ensures var m := LastKeys(y, s);
      && CLOUD_INIT_NETWORK_CONFIG in m && m[CLOUD_INIT_NETWORK_CONFIG] == y.CloudInit(CloudInitDocument(s))
      && (CLOUD_INIT_VENDOR_DATA in m <==> s.hostname != "")
      && (s.hostname != "" ==> m[CLOUD_INIT_VENDOR_DATA] == VendorData(s.hostname))
  {
  }

  lemma VendorDataKey(y: Yaml, s: SandboxData)
    ensures CLOUD_INIT_VENDOR_DATA !in FixedKeys(y, s) && SANDBOX_STORE.IsReserved(CLOUD_INIT_VENDOR_DATA)
    ensures !HasPrefix(CLOUD_INIT_VENDOR_DATA, LABELS + ".") && !HasPrefix(CLOUD_INIT_VENDOR_DATA, ANNOTATIONS + ".")
  {
    assert SANDBOX_STORE.reserved[4] == CLOUD_INIT_VENDOR_DATA;
    SectionKey(CLOUD_INIT_VENDOR_DATA);
  }

  /** A profile loads exactly if its devices and each of its texts load; what each field is then read from, and what it
      is where the text is missing. */
  lemma LoadsExactly(y: Yaml, p: Profile)
    ensures var c := p.config;
      Decode(y, p).Ok? <==>
        && DetectAll(p.devices).Ok? && y.Unmarshal(Get(c, "user.networkconfig.modedata")).Some?
        && ("user.metadata.attempt" in c ==> ParseUint(c["user.metadata.attempt"], 0xFFFF_FFFF).Some?)
        && ("user.created_at" in c ==> ParseInt(c["user.created_at"]).Some?)
    ensures Decode(y, p).Ok? ==>
      var c, s := p.config, Decode(y, p).value;
      && DetectAll(p.devices) == Ok(s.devices)
      && Some(s.metadata.attempt as nat) ==
         (if "user.metadata.attempt" in c then ParseUint(c["user.metadata.attempt"], 0xFFFF_FFFF) else Some(0))
      && Some(s.createdAt) == (if "user.created_at" in c then ParseInt(c["user.created_at"])
                               else Some(-6795364578871345152))
      && (s.state == NotReady <==> Get(c, "user.state") == "notready")
      && Get(c, "user.networkconfig.mode") in (match s.network.mode
           case Host => {"node"} case CNI => {"cni"} case Bridged => {"bridged"}
           case NoNetwork => {Get(c, "user.networkconfig.mode")} - {"node", "cni", "bridged"})
      && Some(s.network.modeData) == y.Unmarshal(Get(c, "user.networkconfig.modedata"))
      && s.network.nameservers == Split(Get(c, "user.networkconfig.nameservers"), ',')
      && s.network.searches == Split(Get(c, "user.networkconfig.searches"), ',')
      && s.metadata.name == Get(c, "user.metadata.name") && s.metadata.namespace == Get(c, "user.metadata.namespace")
      && s.metadata.uid == Get(c, "user.metadata.uid") && s.hostname == Get(c, "user.host_name")
      && s.logDirectory == Get(c, "user.log_directory") && s.cloudInit == []
    ensures StateOf(p) == NotReady <==> Get(p.config, "user.state") == "notready"
    ensures ModeOf(p) == Bridged <==> Get(p.config, "user.networkconfig.mode") == "bridged"
    ensures ModeOf(p) == Host <==> Get(p.config, "user.networkconfig.mode") == "node"
  {
    hide DetectAll, ParseUint, ParseInt, Split, Stripped, ConfigStore.Unreserved;
  }

  // ---------- Loading and storing is a normal form ----------

  /** The record that loading a pod and storing it unchanged leaves behind */
  function Normalized(y: Yaml, p: Profile): Profile
    requires Decode(y, p).Ok?
  {
    Encode(y, Decode(y, p).value)
  }

  /** A loaded pod survives being stored and loaded without any loss. */
  lemma LoadedIsStable(y: Yaml, p: Profile)
    requires y.Lawful() && Decode(y, p).Ok?
    ensures StorableDevices(Decode(y, p).value)
    ensures Decode(y, Normalized(y, p)) == Decode(y, p)
  {
    var s := Decode(y, p).value;
    StoreLoaded(p.devices);
    forall n | n in s.devices
      ensures s.devices[n].Storable()
    {
      DetectedIsStorable(n, p.devices[n]);
    }
    SplitOfJoin(s.network.nameservers, ',');
    SplitOfJoin(s.network.searches, ',');
    KeptConfigExactly(s.config);
    DecodeEncode(y, s);
  }

  /** Doing it twice gives the same record as doing it once, and no foreign config key is ever touched. */
  lemma NormalForm(y: Yaml, p: Profile)
    requires y.Lawful() && Decode(y, p).Ok?
    ensures Decode(y, Normalized(y, p)).Ok?
    ensures Normalized(y, Normalized(y, p)) == Normalized(y, p)
    ensures SANDBOX_STORE.Unreserved(Normalized(y, p).config) == SANDBOX_STORE.Unreserved(p.config)
  {
    LoadedIsStable(y, p);
    StoredForeignConfig(y, Decode(y, p).value);
    KeptConfigExactly(SANDBOX_STORE.Unreserved(p.config));
  }

  // ---------- The changes the runtime makes to a loaded pod ----------

  type NicDevice = d: Device | d.Nic? witness Nic("", "", "", "", "")

  /** What a network plugin hands back (network.Result) */
  datatype NetworkResult = NetworkResult(data: map<string, string>, nics: seq<NicDevice>, entries: seq<CloudInitEntry>)

  /** handleNetworkResult, before it saves: data replaces the mode data unless empty, network cards are
      upserted, cloud-init entries are appended. */
  function WithNetworkResult(s: SandboxData, r: NetworkResult): SandboxData {
    s.(network := if r.data != map[] then s.network.(modeData := r.data) else s.network,
       devices := s.devices + Denote(r.nics),
       cloudInit := s.cloudInit + r.entries)
  }

  /** Sandbox.Apply always stops the pod from inheriting the default network card. */
  function WithoutDefaultNic(s: SandboxData): SandboxData {
    s.(devices := s.devices["eth0" := NoDevice("eth0")])
  }

  /** What the save of a network result changes in the stored record of a pod: its mode data if there are any, one entry
      for each network card, the last one of a name, the default card, which is off, and the end of its cloud-init
      document.  Every other key and device stays as it is. */
  lemma SavedResult(y: Yaml, s: SandboxData, r: NetworkResult)
    requires y.Lawful()
    ensures var before, after := Encode(y, s), Encode(y, WithoutDefaultNic(WithNetworkResult(s, r)));
      && y.Unmarshal(Get(after.config, "user.networkconfig.modedata")) ==
         Some(if r.data == map[] then s.network.modeData else r.data)
      && Get(after.config, "user.network-config") == y.CloudInit(
           (if s.network.nameservers == [] || s.network.searches == [] then []
            else [Nameserver(s.network.nameservers, s.network.searches)]) + s.cloudInit + r.entries)
      && (forall k | k !in {"user.networkconfig.modedata", "user.network-config"} ::
           (k in after.config <==> k in before.config) && Get(after.config, k) == Get(before.config, k))
      && (forall i | 0 <= i < |r.nics| && r.nics[i].Name() != "eth0"
                     && (forall j | i < j < |r.nics| :: r.nics[j].Name() != r.nics[i].Name()) ::
           r.nics[i].Name() in after.devices && after.devices[r.nics[i].Name()] == r.nics[i].ToOptions())
      && "eth0" in after.devices && Get(after.devices["eth0"], "type") == "none"
      && (forall n | n != "eth0" && (forall i | 0 <= i < |r.nics| :: r.nics[i].Name() != n) ::
           (n in after.devices <==> n in before.devices)
           && (n in before.devices ==> after.devices[n] == before.devices[n]))
  {
    var s' := WithoutDefaultNic(WithNetworkResult(s, r));
    ResultInConfig(y, s, s', r);
    ResultInDevices(s, r);
    hide EncodeConfig, WithNetworkResult, WithoutDefaultNic, Device.Name;
  }

  lemma ResultInConfig(y: Yaml, s: SandboxData, s': SandboxData, r: NetworkResult)
    requires y.Lawful() && s' == WithoutDefaultNic(WithNetworkResult(s, r))
    ensures var c, c' := EncodeConfig(y, s), EncodeConfig(y, s');
      && y.Unmarshal(Get(c', MODE_DATA)) == Some(if r.data == map[] then s.network.modeData else r.data)
      && Get(c', CLOUD_INIT_NETWORK_CONFIG) == y.CloudInit(
           (if s.network.nameservers == [] || s.network.searches == [] then []
            else [Nameserver(s.network.nameservers, s.network.searches)]) + s.cloudInit + r.entries)
      && (forall k | k !in {MODE_DATA, CLOUD_INIT_NETWORK_CONFIG} :: (k in c' <==> k in c) && Get(c', k) == Get(c, k))
  {
    hide EncodeConfig;
    CloudInitFormat(y, s');
    EncodedHoldsFixedKeys(y, s');
    var own := s.cloudInit + r.entries;
    var nameserver := [Nameserver(s.network.nameservers, s.network.searches)];
    assert [] + s.cloudInit + r.entries == own && nameserver + s.cloudInit + r.entries == nameserver + own;
    assert y.Unmarshal(y.Marshal(s'.network.modeData)) == Some(s'.network.modeData);
    OtherKeysOfResult(y, s, s');
  }

  lemma OtherKeysOfResult(y: Yaml, s: SandboxData, s': SandboxData)
    requires s' == s.(network := s'.network, devices := s'.devices, cloudInit := s'.cloudInit)
    requires s'.network == s.network.(modeData := s'.network.modeData)
    ensures var c, c' := EncodeConfig(y, s), EncodeConfig(y, s');
      forall k | k !in {MODE_DATA, CLOUD_INIT_NETWORK_CONFIG} :: (k in c' <==> k in c) && Get(c', k) == Get(c, k)
  {
    hide FixedKeys, LastKeys, CloudInitDocument, Section, ConfigStore.Unreserved, Get;
    FixedKeysOfResult(y, s, s');
    LastKeysOfResult(y, s, s');
    FirstAndLastChange(
      FixedKeys(y, s), MODE_DATA, y.Marshal(s'.network.modeData),
      Section(LABELS, s.labels), Section(ANNOTATIONS, s.annotations), SANDBOX_STORE.Unreserved(s.config),
      LastKeys(y, s), CLOUD_INIT_NETWORK_CONFIG, y.CloudInit(CloudInitDocument(s')));
  }

  lemma FirstAndLastChange(a: Config, k: string, v: string, b: Config, c: Config, d: Config,
                           e: Config, l: string, w: string)
    ensures var before, after := a + b + c + d + e, a[k := v] + b + c + d + e[l := w];
      forall x | x !in {k, l} :: (x in after <==> x in before) && Get(after, x) == Get(before, x)
  {
  }

  lemma FixedKeysOfResult(y: Yaml, s: SandboxData, s': SandboxData)
    requires s' == s.(network := s'.network, devices := s'.devices, cloudInit := s'.cloudInit)
    requires s'.network == s.network.(modeData := s'.network.modeData)
    ensures FixedKeys(y, s') == FixedKeys(y, s)[MODE_DATA := y.Marshal(s'.network.modeData)]
  {
    hide FormatNat, FormatInt, Join, SandboxState.ToString, NetworkMode.ToString;
    hide STATE, IS_CRI, CREATED_AT, META_ATTEMPT, META_NAME, META_NAMESPACE, META_UID, HOSTNAME, LOG_DIRECTORY,
         NAMESERVERS, SEARCHES, NETWORK_MODE, MODE_DATA;
  }

  lemma LastKeysOfResult(y: Yaml, s: SandboxData, s': SandboxData)
    requires s'.hostname == s.hostname
    ensures LastKeys(y, s') == LastKeys(y, s)[CLOUD_INIT_NETWORK_CONFIG := y.CloudInit(CloudInitDocument(s'))]
  {
    assert CLOUD_INIT_NETWORK_CONFIG != CLOUD_INIT_VENDOR_DATA && CLOUD_INIT_NETWORK_CONFIG != SCHEMA;
    var vendor: Config := if s.hostname != "" then map[CLOUD_INIT_VENDOR_DATA := VendorData(s.hostname)] else map[];
    hide CLOUD_INIT_NETWORK_CONFIG, CLOUD_INIT_VENDOR_DATA, SCHEMA, SCHEMA_PROFILE, CloudInitDocument, VendorData;
    FirstChanges(CLOUD_INIT_NETWORK_CONFIG, y.CloudInit(CloudInitDocument(s)), y.CloudInit(CloudInitDocument(s')),
                 vendor, map[SCHEMA := SCHEMA_PROFILE]);
  }

  lemma FirstChanges(k: string, v: string, v': string, b: Config, c: Config)
    requires k !in b && k !in c
    ensures map[k := v'] + b + c == (map[k := v] + b + c)[k := v']
  {
  }

  lemma ResultInDevices(s: SandboxData, r: NetworkResult)
    ensures var before := ToOptionMaps(s.devices);
      var after := ToOptionMaps(WithoutDefaultNic(WithNetworkResult(s, r)).devices);
      && (forall i | 0 <= i < |r.nics| && r.nics[i].Name() != "eth0"
                     && (forall j | i < j < |r.nics| :: r.nics[j].Name() != r.nics[i].Name()) ::
           r.nics[i].Name() in after && after[r.nics[i].Name()] == r.nics[i].ToOptions())
      && "eth0" in after && Get(after["eth0"], "type") == "none"
      && (forall n | n != "eth0" && (forall i | 0 <= i < |r.nics| :: r.nics[i].Name() != n) ::
           (n in after <==> n in before) && (n in before ==> after[n] == before[n]))
  {
    hide Device.Name, Device.ToOptions, Denote, ToOptionMaps;
    var before, after := ToOptionMaps(s.devices), ToOptionMaps(WithoutDefaultNic(WithNetworkResult(s, r)).devices);
    forall i | 0 <= i < |r.nics| && r.nics[i].Name() != "eth0"
               && (forall j | i < j < |r.nics| :: r.nics[j].Name() != r.nics[i].Name())
      ensures r.nics[i].Name() in after && after[r.nics[i].Name()] == r.nics[i].ToOptions()
    {
      LastCounts(r.nics, i);
      DeviceOfResult(s, r, r.nics[i].Name());
    }
    DeviceOfResult(s, r, "eth0");
    assert NoDevice("eth0").ToOptions() == map["type" := "none"] by {
      NoOptions();
    }
    forall n | n != "eth0" && (forall i | 0 <= i < |r.nics| :: r.nics[i].Name() != n)
      ensures (n in after <==> n in before) && (n in before ==> after[n] == before[n])
    {
      DenoteLookup(r.nics, n);
      DeviceOfResult(s, r, n);
    }
  }

  lemma NoOptions()
    ensures NoDevice("eth0").ToOptions() == map["type" := "none"]
  {
  }

  lemma DeviceOfResult(s: SandboxData, r: NetworkResult, n: string)
    ensures var before := ToOptionMaps(s.devices);
      var after := ToOptionMaps(WithoutDefaultNic(WithNetworkResult(s, r)).devices);
      if n == "eth0" then n in after && after[n] == NoDevice("eth0").ToOptions()
      else if n in Denote(r.nics) then n in after && after[n] == Denote(r.nics)[n].ToOptions()
      else (n in after <==> n in before) && (n in before ==> after[n] == before[n])
  {
    hide Device.ToOptions, Denote;
  }

  lemma ResultIsStorable(s: SandboxData, r: NetworkResult)
    requires StorableDevices(s)
    ensures StorableDevices(WithoutDefaultNic(WithNetworkResult(s, r)))
  {
    forall n | n in Denote(r.nics)
      ensures Denote(r.nics)[n].Storable()
    {
      DenoteLookup(r.nics, n);
    }
  }

  /** Sandbox.Stop, before it saves */
  function StoppedData(s: SandboxData): SandboxData {
    s.(state := NotReady)
  }

  /** The record that StopPodSandbox writes over `p` */
  function StoppedRecord(y: Yaml, p: Profile): Profile
    requires Decode(y, p).Ok?
  {
    Encode(y, StoppedData(Decode(y, p).value))
  }

  /** Stopping a stopped pod writes the record that is already there. */
  lemma StopIsIdempotent(y: Yaml, p: Profile)
    requires y.Lawful() && Decode(y, p).Ok?
    ensures Decode(y, StoppedRecord(y, p)) == Ok(Decode(y, p).value.(state := NotReady))
    ensures StoppedRecord(y, StoppedRecord(y, p)) == StoppedRecord(y, p)
  {
    LoadedIsStable(y, p);
    DecodeEncode(y, StoppedData(Decode(y, p).value));
    DecodeEncode(y, Decode(y, p).value);
  }

  /** The state, network mode and mode data of a stored record, whether or not the rest of it can be read */
  function StateOf(p: Profile): SandboxState {
    GetSandboxState(Get(p.config, STATE))
  }

  function ModeDataOf(y: Yaml, p: Profile): Option<map<string, string>> {
    y.Unmarshal(Get(p.config, MODE_DATA))
  }

  function ModeOf(p: Profile): NetworkMode {
    GetNetworkMode(Get(p.config, NETWORK_MODE))
  }

  lemma EncodedStateAndModeData(y: Yaml, s: SandboxData)
    requires y.Lawful()
    ensures StateOf(Encode(y, s)) == s.state && ModeDataOf(y, Encode(y, s)) == Some(s.network.modeData)
    ensures ModeOf(Encode(y, s)) == s.network.mode
  {
    EncodedHoldsFixedKeys(y, s);
    EnumsRoundTrip(s.state, s.network.mode);
    assert y.Unmarshal(y.Marshal(s.network.modeData)) == Some(s.network.modeData);
  }
}
