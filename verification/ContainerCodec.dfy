/** A container as the runtime sees it, and the LXD container it is stored as
    (makeContainerConfig and apply in lxf/container.go, toContainer in lxf/lxf_container.go). */
module ContainerCodec {
  import opened Wrappers
  import opened Text
  import opened ConfigKeys
  import opened ConfigStores
  import opened Devices
  import opened Records
  import opened CpuLimits

  /** Unlike for pods, the state key is not reserved: it marks a container that was never started. */
  const CONTAINER_STORE: ConfigStore :=
    ConfigStore(
      [LOG_PATH, PRIVILEGED, STARTED_AT, FINISHED_AT, CLOUD_INIT_USER_DATA, CLOUD_INIT_META_DATA,
       CLOUD_INIT_NETWORK_CONFIG, BASE_IMAGE, SCHEMA, IS_CRI, CREATED_AT],
      [ENVIRONMENT, RESOURCES, LABELS, ANNOTATIONS, METADATA])

  /** The keys that a container's own config cannot use */
  lemma ReservedExactly(k: string)
    ensures CONTAINER_STORE.IsReserved(k) <==>
      || k in {"user.log_path", "security.privileged", "user.started_at", "user.finished_at", "user.user-data",
               "user.meta-data", "user.network-config", "volatile.base_image", "user.lxe.schema", "user.cri",
               "user.created_at"}
      || AtOrBelow(k, "environment") || AtOrBelow(k, "user.resources") || AtOrBelow(k, "user.labels")
      || AtOrBelow(k, "user.annotations") || AtOrBelow(k, "user.metadata")
  {
    var p := CONTAINER_STORE.reservedPrefixes;
    assert p[0] == "environment" && p[1] == "user.resources" && p[2] == "user.labels" && p[3] == "user.annotations"
      && p[4] == "user.metadata";
    var r := CONTAINER_STORE.reserved;
    assert r[0] == LOG_PATH && r[1] == PRIVILEGED && r[2] == STARTED_AT && r[3] == FINISHED_AT
      && r[4] == CLOUD_INIT_USER_DATA && r[5] == CLOUD_INIT_META_DATA && r[6] == CLOUD_INIT_NETWORK_CONFIG
      && r[7] == BASE_IMAGE && r[8] == SCHEMA && r[9] == IS_CRI && r[10] == CREATED_AT;
  }

  // ---------- Data ----------

  datatype StateName = IsCreated | IsRunning | IsExited | IsUnknown

  datatype ContainerMetadata = ContainerMetadata(name: string, attempt: uint32)

  datatype Cpu = Cpu(shares: Option<uint64>, quota: Option<int64>, period: Option<uint64>)

  datatype Memory = Memory(limit: Option<int64>)

  datatype Resources = Resources(cpu: Option<Cpu>, memory: Option<Memory>)

  datatype ContainerData = ContainerData(
    metadata: ContainerMetadata,
    profiles: seq<string>,
    image: string,
    privileged: bool,
    environment: map<string, string>,
    labels: map<string, string>,
    annotations: map<string, string>,
    config: Config,
    createdAt: int64,
    startedAt: int64,
    finishedAt: int64,
    logPath: string,
    userData: string,
    metaData: string,
    networkConfig: string,
    resources: Option<Resources>,
    stateName: StateName,
    devices: map<string, Device>)
  {
    function Shares(): Option<uint64> {
      if resources.Some? && resources.value.cpu.Some? then resources.value.cpu.value.shares else None
    }
    function Quota(): Option<int64> {
      if resources.Some? && resources.value.cpu.Some? then resources.value.cpu.value.quota else None
    }
    function Period(): Option<uint64> {
      if resources.Some? && resources.value.cpu.Some? then resources.value.cpu.value.period else None
    }
    function MemoryLimit(): Option<int64> {
      if resources.Some? && resources.value.memory.Some? then resources.value.memory.value.limit else None
    }
  }

  // ---------- Encoding ----------

  function FixedKeys(c: ContainerData): Config {
    map[
      CREATED_AT := FormatInt(c.createdAt),
      STARTED_AT := FormatInt(c.startedAt),
      FINISHED_AT := FormatInt(c.finishedAt),
      PRIVILEGED := FormatBool(c.privileged),
      LOG_PATH := c.logPath,
      IS_CRI := FormatBool(true),
      META_NAME := c.metadata.name,
      META_ATTEMPT := FormatNat(c.metadata.attempt),
      BASE_IMAGE := c.image]
  }

  function IfSet(key: string, value: string): Config {
    if value != "" then map[key := value] else map[]
  }

  function CloudInitKeys(c: ContainerData): Config {
    IfSet(CLOUD_INIT_META_DATA, c.metaData) + IfSet(CLOUD_INIT_USER_DATA, c.userData)
    + IfSet(CLOUD_INIT_NETWORK_CONFIG, c.networkConfig)
  }

  function NumberKey(key: string, text: Option<string>): Config {
    match text case Some(t) => map[key := t] case None => map[]
  }

  function SharesKey(c: ContainerData): Config {
    NumberKey(CPU_SHARES, if c.Shares().Some? then Some(FormatNat(c.Shares().value)) else None)
  }

  function QuotaKey(c: ContainerData): Config {
    NumberKey(CPU_QUOTA, if c.Quota().Some? then Some(FormatInt(c.Quota().value)) else None)
  }

  function PeriodKey(c: ContainerData): Config {
    NumberKey(CPU_PERIOD, if c.Period().Some? then Some(FormatNat(c.Period().value)) else None)
  }

  function CpuKeys(c: ContainerData): Config {
    SharesKey(c) + QuotaKey(c) + PeriodKey(c)
  }

  /** The limits LXD enforces; they are ordinary config keys, so the config of the container wins. */
  function LimitKeys(c: ContainerData): Config {
    AllowanceKey(c) + MemoryKey(c)
  }

  function AllowanceKey(c: ContainerData): Config {
    if c.Quota().Some? && c.Quota().value > 0 && c.Period().Some? && c.Period().value > 0
    then map[LIMIT_CPU_ALLOWANCE := Allowance(c.Quota().value, c.Period().value)] else map[]
  }

  function MemoryKey(c: ContainerData): Config {
    if c.MemoryLimit().Some? && c.MemoryLimit().value > 0
    then map[LIMIT_MEMORY := FormatInt(c.MemoryLimit().value)] else map[]
  }

  function EncodeConfig(c: ContainerData): Config {
    Section(LABELS, c.labels) + Section(ANNOTATIONS, c.annotations) + FixedKeys(c)
    + Section(ENVIRONMENT, c.environment) + CloudInitKeys(c) + CpuKeys(c) + LimitKeys(c)
    + CONTAINER_STORE.Unreserved(c.config) + map[SCHEMA := SCHEMA_CONTAINER]
  }

  /** The stored record; its status is LXD's own. */
  function Encode(c: ContainerData, status: Status): Instance {
    Instance(EncodeConfig(c), ToOptionMaps(c.devices), c.profiles, status)
  }

  lemma EncodedStatus(c: ContainerData, status: Status)
    ensures Encode(c, status).status == status && Encode(c, status).profiles == c.profiles
  {
    hide EncodeConfig;
  }

  // ---------- Decoding ----------

  function ParseAttempt(c: Config): Option<uint32> {
    if META_ATTEMPT in c then
      match ParseUint(c[META_ATTEMPT], MAX_UINT32) case Some(n) => Some(n) case None => None
    else Some(0)
  }

  function ParsePrivileged(c: Config): Option<bool> {
    if PRIVILEGED in c then ParseBool(c[PRIVILEGED]) else Some(false)
  }

  function ParseTime(c: Config, key: string): Option<int64> {
    if key in c then ParseInt(c[key]) else Some(ZERO_TIME)
  }

  /** An absent or empty number is no number; anything else must parse. */
  function ParseOptionalUint(c: Config, key: string): Option<Option<uint64>> {
    if Get(c, key) == "" then Some(None)
    else match ParseUint(Get(c, key), MAX_UINT64) case Some(n) => Some(Some(n)) case None => None
  }

  function ParseOptionalInt(c: Config, key: string): Option<Option<int64>> {
    if Get(c, key) == "" then Some(None)
    else match ParseInt(Get(c, key)) case Some(n) => Some(Some(n)) case None => None
  }

  /** The status of LXD as the runtime interface names it: a stopped container was never started
      exactly if it still carries the mark. */
  function StateNameOf(status: Status, config: Config): StateName {
    match status
    case Running => IsRunning
    case Stopped | Stopping | Aborting => if Get(config, STATE) == "created" then IsCreated else IsExited
    case Frozen => IsUnknown
  }

  function Decode(i: Instance): Result<ContainerData> {
    var c := i.config;
    match (ParseAttempt(c), ParsePrivileged(c), ParseTime(c, CREATED_AT), ParseTime(c, STARTED_AT),
           ParseTime(c, FINISHED_AT), DetectAll(i.devices))
    case (Some(attempt), Some(privileged), Some(createdAt), Some(startedAt), Some(finishedAt), Ok(devices)) =>
      (match (ParseOptionalUint(c, CPU_SHARES), ParseOptionalInt(c, CPU_QUOTA), ParseOptionalUint(c, CPU_PERIOD),
              ParseOptionalInt(c, MEMORY_LIMIT))
       case (Some(shares), Some(quota), Some(period), Some(limit)) =>
         if i.profiles == [] then Err(Convert)
         else
           var config := CONTAINER_STORE.Unreserved(c);
           Ok(ContainerData(
             ContainerMetadata(Get(c, META_NAME), attempt), i.profiles, Get(c, BASE_IMAGE), privileged,
             Stripped(c, ENVIRONMENT), Stripped(c, LABELS), Stripped(c, ANNOTATIONS), config,
             createdAt, startedAt, finishedAt, Get(c, LOG_PATH),
             Get(c, CLOUD_INIT_USER_DATA), Get(c, CLOUD_INIT_META_DATA), Get(c, CLOUD_INIT_NETWORK_CONFIG),
             Some(Resources(Some(Cpu(shares, quota, period)), Some(Memory(limit)))),
             StateNameOf(i.status, config), devices))
       case _ => Err(Parse))
    case _ => Err(Parse)
  }

  /** The container belongs to the runtime and loads. */
  predicate ReadableContainer(i: Instance) {
    IsCRIInstance(i) && Decode(i).Ok?
  }

  // ---------- The sections do not overlap ----------

  lemma SectionKey(k: string)
    ensures HasPrefix(k, LABELS + ".") ==> |k| > 6 && k[0] == 'u' && k[5] == 'l' && k[6] == 'a'
    ensures HasPrefix(k, ANNOTATIONS + ".") ==> |k| > 6 && k[0] == 'u' && k[5] == 'a' && k[6] == 'n'
    ensures HasPrefix(k, ENVIRONMENT + ".") ==> |k| > 6 && k[0] == 'e'
  {
    assert HasPrefix(k, LABELS + ".") ==>
      k[0] == (LABELS + ".")[0] && k[5] == (LABELS + ".")[5] && k[6] == (LABELS + ".")[6];
    assert HasPrefix(k, ANNOTATIONS + ".") ==>
      k[0] == (ANNOTATIONS + ".")[0] && k[5] == (ANNOTATIONS + ".")[5] && k[6] == (ANNOTATIONS + ".")[6];
    assert HasPrefix(k, ENVIRONMENT + ".") ==> k[0] == (ENVIRONMENT + ".")[0];
  }

  lemma ReservedBelow(k: string, i: nat)
    requires i < |CONTAINER_STORE.reservedPrefixes| && HasPrefix(k, CONTAINER_STORE.reservedPrefixes[i] + ".")
    ensures CONTAINER_STORE.IsReserved(k)
  {
  }

  lemma SectionsAreReserved(k: string)
    ensures HasPrefix(k, LABELS + ".") || HasPrefix(k, ANNOTATIONS + ".") || HasPrefix(k, ENVIRONMENT + ".") ==>
              CONTAINER_STORE.IsReserved(k)
    ensures !(HasPrefix(k, LABELS + ".") && HasPrefix(k, ANNOTATIONS + "."))
    ensures !(HasPrefix(k, LABELS + ".") && HasPrefix(k, ENVIRONMENT + "."))
    ensures !(HasPrefix(k, ANNOTATIONS + ".") && HasPrefix(k, ENVIRONMENT + "."))
  {
    SectionKey(k);
    assert CONTAINER_STORE.reservedPrefixes[0] == ENVIRONMENT && CONTAINER_STORE.reservedPrefixes[2] == LABELS
      && CONTAINER_STORE.reservedPrefixes[3] == ANNOTATIONS;
  }

  /** The keys of a container that the store reserves by name, and those it reserves by prefix */
  const LISTED_KEYS := [CREATED_AT, STARTED_AT, FINISHED_AT, PRIVILEGED, LOG_PATH, IS_CRI, BASE_IMAGE, SCHEMA,
    CLOUD_INIT_META_DATA, CLOUD_INIT_USER_DATA, CLOUD_INIT_NETWORK_CONFIG]
  const METADATA_KEYS := [META_NAME, META_ATTEMPT]
  const CPU_KEYS := [CPU_SHARES, CPU_QUOTA, CPU_PERIOD]

  lemma FixedKeyNames(c: ContainerData, k: string)
    requires k in FixedKeys(c)
    ensures k in LISTED_KEYS || k in METADATA_KEYS
  {
    assert LISTED_KEYS[0] == CREATED_AT && LISTED_KEYS[1] == STARTED_AT && LISTED_KEYS[2] == FINISHED_AT
      && LISTED_KEYS[3] == PRIVILEGED && LISTED_KEYS[4] == LOG_PATH && LISTED_KEYS[5] == IS_CRI
      && LISTED_KEYS[6] == BASE_IMAGE;
    assert METADATA_KEYS[0] == META_NAME && METADATA_KEYS[1] == META_ATTEMPT;
  }

  lemma CloudInitKeyNames(c: ContainerData, k: string)
    requires k in CloudInitKeys(c) || k == SCHEMA
    ensures k in LISTED_KEYS
  {
    assert LISTED_KEYS[7] == SCHEMA && LISTED_KEYS[8] == CLOUD_INIT_META_DATA && LISTED_KEYS[9] == CLOUD_INIT_USER_DATA
      && LISTED_KEYS[10] == CLOUD_INIT_NETWORK_CONFIG;
  }

  lemma CpuKeyNames(c: ContainerData, k: string)
    requires k in CpuKeys(c)
    ensures k in CPU_KEYS
  {
    assert CPU_KEYS[0] == CPU_SHARES && CPU_KEYS[1] == CPU_QUOTA && CPU_KEYS[2] == CPU_PERIOD;
  }

  predicate InNoSection(k: string) {
    |k| > 6 && k[0] != 'e' && !(k[5] == 'l' && k[6] == 'a') && !(k[5] == 'a' && k[6] == 'n')
  }

  lemma ListedKeys(k: string)
    requires k in LISTED_KEYS
    ensures k in CONTAINER_STORE.reserved && InNoSection(k)
  {
    ListedKeysInNoSection(k);
    hide InNoSection;
  }

  lemma ListedKeysInNoSection(k: string)
    requires k in LISTED_KEYS
    ensures InNoSection(k)
  {
    hide CONTAINER_STORE;
  }

  lemma MetadataKeys(k: string)
    requires k in METADATA_KEYS
    ensures CONTAINER_STORE.IsReserved(k) && InNoSection(k)
  {
    assert k[..14] == METADATA + ".";
    ReservedBelow(k, 4);
  }

  lemma CpuKeysAreReserved(k: string)
    requires k in CPU_KEYS
    ensures CONTAINER_STORE.IsReserved(k) && InNoSection(k)
  {
    assert k[..15] == RESOURCES + ".";
    ReservedBelow(k, 1);
  }

  /** The keys that are neither labels, annotations, environment nor foreign config */
  function OwnKeys(c: ContainerData): Config {
    FixedKeys(c) + CloudInitKeys(c) + CpuKeys(c) + map[SCHEMA := SCHEMA_CONTAINER]
  }

  lemma OwnKeysAreReserved(c: ContainerData, k: string)
    requires k in OwnKeys(c)
    ensures CONTAINER_STORE.IsReserved(k)
    ensures !HasPrefix(k, LABELS + ".") && !HasPrefix(k, ANNOTATIONS + ".") && !HasPrefix(k, ENVIRONMENT + ".")
  {
    hide FixedKeys, CloudInitKeys, CpuKeys;
    SectionKey(k);
    if k in CpuKeys(c) {
      CpuKeyNames(c, k);
      CpuKeysAreReserved(k);
    } else if k in CloudInitKeys(c) || k == SCHEMA {
      CloudInitKeyNames(c, k);
      ListedKeys(k);
    } else {
      FixedKeyNames(c, k);
      if k in METADATA_KEYS {
        MetadataKeys(k);
      } else {
        ListedKeys(k);
      }
    }
  }

  predicate IsLimitKey(k: string) {
    k == LIMIT_CPU_ALLOWANCE || k == LIMIT_MEMORY
  }

  lemma LimitKeysAreForeign(k: string)
    requires IsLimitKey(k) || k == STATE
    ensures !CONTAINER_STORE.IsReserved(k)
  {
    assert k == STATE ==> k[5] == 's' && k[6] == 't';
    assert k != STATE ==> k[0] == 'l';
    assert (ENVIRONMENT + ".")[0] == 'e';
    assert (RESOURCES + ".")[0] == 'u' && (RESOURCES + ".")[5] == 'r';
    assert (LABELS + ".")[0] == 'u' && (LABELS + ".")[5] == 'l';
    assert (ANNOTATIONS + ".")[0] == 'u' && (ANNOTATIONS + ".")[5] == 'a';
    assert (METADATA + ".")[0] == 'u' && (METADATA + ".")[5] == 'm';
    forall p | p in CONTAINER_STORE.reservedPrefixes
      ensures k != p && !HasPrefix(k, p + ".")
    {
      Differs(k, p + ".", if k == STATE && p != ENVIRONMENT then 5 else 0);
    }
  }

  /** Where each key of the stored config comes from: no section hides an entry of another, except that
      the container's own config wins over computed limits. */
  lemma EncodedKey(c: ContainerData, k: string)
    ensures var m := EncodeConfig(c);
      if k in OwnKeys(c) then k in m && m[k] == OwnKeys(c)[k]
      else if HasPrefix(k, LABELS + ".") then
        (k in m <==> k in Section(LABELS, c.labels)) && Get(m, k) == Get(Section(LABELS, c.labels), k)
      else if HasPrefix(k, ANNOTATIONS + ".") then
        (k in m <==> k in Section(ANNOTATIONS, c.annotations))
          && Get(m, k) == Get(Section(ANNOTATIONS, c.annotations), k)
      else if HasPrefix(k, ENVIRONMENT + ".") then
        (k in m <==> k in Section(ENVIRONMENT, c.environment))
          && Get(m, k) == Get(Section(ENVIRONMENT, c.environment), k)
      else if CONTAINER_STORE.IsReserved(k) then k !in m
      else
        (k in m <==> k in c.config || k in LimitKeys(c))
        && Get(m, k) == (if k in c.config then c.config[k] else Get(LimitKeys(c), k))
  {
    hide FixedKeys, CloudInitKeys, CpuKeys, LimitKeys, ConfigStore.IsReserved;
    SectionLookup(LABELS, c.labels, k);
    SectionLookup(ANNOTATIONS, c.annotations, k);
    SectionLookup(ENVIRONMENT, c.environment, k);
    SectionsAreReserved(k);
    if k in OwnKeys(c) {
      OwnKeysAreReserved(c, k);
    }
    if k in LimitKeys(c) {
      LimitKeyNames(c, k);
      LimitKeysAreForeign(k);
    }
  }

  lemma LimitKeyNames(c: ContainerData, k: string)
    requires k in LimitKeys(c)
    ensures IsLimitKey(k)
  {
  }

  // ---------- Round trip ----------

  lemma StoredSections(c: ContainerData)
    ensures Stripped(EncodeConfig(c), LABELS) == c.labels
    ensures Stripped(EncodeConfig(c), ANNOTATIONS) == c.annotations
    ensures Stripped(EncodeConfig(c), ENVIRONMENT) == c.environment
  {
    hide EncodeConfig;
    var m := EncodeConfig(c);
    forall k
      ensures HasPrefix(k, LABELS + ".") ==>
        (k in m <==> k in Section(LABELS, c.labels)) && Get(m, k) == Get(Section(LABELS, c.labels), k)
      ensures HasPrefix(k, ANNOTATIONS + ".") ==>
        (k in m <==> k in Section(ANNOTATIONS, c.annotations))
          && Get(m, k) == Get(Section(ANNOTATIONS, c.annotations), k)
      ensures HasPrefix(k, ENVIRONMENT + ".") ==>
        (k in m <==> k in Section(ENVIRONMENT, c.environment))
          && Get(m, k) == Get(Section(ENVIRONMENT, c.environment), k)
    {
      EncodedKey(c, k);
      SectionsAreReserved(k);
      if k in OwnKeys(c) {
        OwnKeysAreReserved(c, k);
      }
    }
    StrippedAgrees(m, Section(LABELS, c.labels), LABELS);
    StrippedAgrees(m, Section(ANNOTATIONS, c.annotations), ANNOTATIONS);
    StrippedAgrees(m, Section(ENVIRONMENT, c.environment), ENVIRONMENT);
    StrippedSection(LABELS, c.labels);
    StrippedSection(ANNOTATIONS, c.annotations);
    StrippedSection(ENVIRONMENT, c.environment);
  }

  /** What the config of a container is after it was stored: the unreserved part, and the computed limits
      that it does not set itself */
  function StoredConfig(c: ContainerData): Config {
    LimitKeys(c) + CONTAINER_STORE.Unreserved(c.config)
  }

  lemma StoredForeignConfig(c: ContainerData)
    ensures CONTAINER_STORE.Unreserved(EncodeConfig(c)) == StoredConfig(c)
  {
    hide EncodeConfig, LimitKeys, ConfigStore.IsReserved;
    var left, right := CONTAINER_STORE.Unreserved(EncodeConfig(c)), StoredConfig(c);
    forall k
      ensures k in left <==> k in right
      ensures k in left && k in right ==> left[k] == right[k]
    {
      EncodedKey(c, k);
      SectionsAreReserved(k);
      if k in OwnKeys(c) {
        OwnKeysAreReserved(c, k);
      }
      if k in LimitKeys(c) {
        LimitKeyNames(c, k);
        LimitKeysAreForeign(k);
      }
      assert k in left ==> left[k] == Get(EncodeConfig(c), k);
    }
  }

  ghost predicate HoldsOwnKeys(c: ContainerData, m: Config) {
    && CREATED_AT in m && m[CREATED_AT] == FormatInt(c.createdAt)
    && STARTED_AT in m && m[STARTED_AT] == FormatInt(c.startedAt)
    && FINISHED_AT in m && m[FINISHED_AT] == FormatInt(c.finishedAt)
    && PRIVILEGED in m && m[PRIVILEGED] == FormatBool(c.privileged)
    && META_ATTEMPT in m && m[META_ATTEMPT] == FormatNat(c.metadata.attempt)
    && Get(m, LOG_PATH) == c.logPath
    && META_NAME in m && m[META_NAME] == c.metadata.name
    && Get(m, BASE_IMAGE) == c.image
    && Get(m, CLOUD_INIT_META_DATA) == c.metaData
    && Get(m, CLOUD_INIT_USER_DATA) == c.userData
    && Get(m, CLOUD_INIT_NETWORK_CONFIG) == c.networkConfig
    && Get(m, CPU_SHARES) == (match c.Shares() case Some(n) => FormatNat(n) case None => "")
    && Get(m, CPU_QUOTA) == (match c.Quota() case Some(n) => FormatInt(n) case None => "")
    && Get(m, CPU_PERIOD) == (match c.Period() case Some(n) => FormatNat(n) case None => "")
    && Get(m, MEMORY_LIMIT) == ""
    && IS_CRI in m && m[IS_CRI] == "true"
    && SCHEMA in m && m[SCHEMA] == SCHEMA_CONTAINER
  }

  /** Reserved keys below "user." that are not written stay absent. */
  lemma AbsentKey(c: ContainerData, k: string)
    requires k in LISTED_KEYS || k in CPU_KEYS || k == MEMORY_LIMIT
    requires k !in OwnKeys(c)
    ensures k !in EncodeConfig(c)
  {
    hide EncodeConfig, OwnKeys;
    EncodedKey(c, k);
    SectionKey(k);
    if k == MEMORY_LIMIT {
      assert k[..15] == RESOURCES + ".";
      ReservedBelow(k, 1);
    } else if k in CPU_KEYS {
      CpuKeysAreReserved(k);
    } else {
      ListedKeys(k);
    }
  }

  lemma FixedTexts(c: ContainerData)
    ensures var m := FixedKeys(c);
      && m.Keys == FIXED_KEY_SET
      && m[CREATED_AT] == FormatInt(c.createdAt) && m[STARTED_AT] == FormatInt(c.startedAt)
      && m[FINISHED_AT] == FormatInt(c.finishedAt) && m[PRIVILEGED] == FormatBool(c.privileged)
      && m[LOG_PATH] == c.logPath && m[IS_CRI] == "true" && m[META_NAME] == c.metadata.name
      && m[META_ATTEMPT] == FormatNat(c.metadata.attempt) && m[BASE_IMAGE] == c.image
  {
  }

  lemma CloudInitTexts(c: ContainerData)
    ensures var m := CloudInitKeys(c);
      && m.Keys <= CLOUD_INIT_KEY_SET
      && Get(m, CLOUD_INIT_META_DATA) == c.metaData && Get(m, CLOUD_INIT_USER_DATA) == c.userData
      && Get(m, CLOUD_INIT_NETWORK_CONFIG) == c.networkConfig
  {
  }

  lemma CpuTexts(c: ContainerData)
    ensures var m := CpuKeys(c);
      && m.Keys <= CPU_KEY_SET
      && Get(m, CPU_SHARES) == (match c.Shares() case Some(n) => FormatNat(n) case None => "")
      && Get(m, CPU_QUOTA) == (match c.Quota() case Some(n) => FormatInt(n) case None => "")
      && Get(m, CPU_PERIOD) == (match c.Period() case Some(n) => FormatNat(n) case None => "")
  {
    hide FormatNat, FormatInt, NumberKey;
    assert CPU_SHARES != CPU_QUOTA && CPU_SHARES != CPU_PERIOD && CPU_QUOTA != CPU_PERIOD;
    ThreeNumbers(CPU_SHARES, if c.Shares().Some? then Some(FormatNat(c.Shares().value)) else None,
                 CPU_QUOTA, if c.Quota().Some? then Some(FormatInt(c.Quota().value)) else None,
                 CPU_PERIOD, if c.Period().Some? then Some(FormatNat(c.Period().value)) else None);
  }

  lemma ThreeNumbers(k1: string, t1: Option<string>, k2: string, t2: Option<string>, k3: string, t3: Option<string>)
    requires k1 != k2 && k1 != k3 && k2 != k3
    ensures var m := NumberKey(k1, t1) + NumberKey(k2, t2) + NumberKey(k3, t3);
      && m.Keys <= {k1, k2, k3}
      && Get(m, k1) == (if t1.Some? then t1.value else "")
      && Get(m, k2) == (if t2.Some? then t2.value else "")
      && Get(m, k3) == (if t3.Some? then t3.value else "")
  {
  }

  const FIXED_KEY_SET := {CREATED_AT, STARTED_AT, FINISHED_AT, PRIVILEGED, LOG_PATH, IS_CRI, META_NAME, META_ATTEMPT,
    BASE_IMAGE}
  const CLOUD_INIT_KEY_SET := {CLOUD_INIT_META_DATA, CLOUD_INIT_USER_DATA, CLOUD_INIT_NETWORK_CONFIG}
  const CPU_KEY_SET := {CPU_SHARES, CPU_QUOTA, CPU_PERIOD}

  lemma KeySetsAreDisjoint()
    ensures FIXED_KEY_SET !! CLOUD_INIT_KEY_SET !! CPU_KEY_SET !! {SCHEMA, MEMORY_LIMIT}
  {
    assert FIXED_KEY_SET !! CLOUD_INIT_KEY_SET;
    assert FIXED_KEY_SET !! CPU_KEY_SET;
    assert FIXED_KEY_SET !! {SCHEMA, MEMORY_LIMIT};
    assert CLOUD_INIT_KEY_SET !! CPU_KEY_SET;
    assert CLOUD_INIT_KEY_SET !! {SCHEMA, MEMORY_LIMIT};
    assert CPU_KEY_SET !! {SCHEMA, MEMORY_LIMIT};
  }

  /** Each own key has the text its part gives it. */
  lemma OwnKeyLookup(c: ContainerData, k: string)
    ensures k in FIXED_KEY_SET ==> k in OwnKeys(c) && OwnKeys(c)[k] == FixedKeys(c)[k]
    ensures k in CLOUD_INIT_KEY_SET ==> Get(OwnKeys(c), k) == Get(CloudInitKeys(c), k)
    ensures k in CPU_KEY_SET ==> Get(OwnKeys(c), k) == Get(CpuKeys(c), k)
    ensures k == SCHEMA ==> k in OwnKeys(c) && OwnKeys(c)[k] == SCHEMA_CONTAINER
    ensures k == MEMORY_LIMIT ==> k !in OwnKeys(c)
  {
    hide FixedKeys, CloudInitKeys, CpuKeys;
    FixedTexts(c);
    CloudInitTexts(c);
    CpuTexts(c);
    KeySetsAreDisjoint();
    hide FIXED_KEY_SET, CLOUD_INIT_KEY_SET, CPU_KEY_SET;
  }

  lemma OwnKeyTexts(c: ContainerData)
    ensures HoldsOwnKeys(c, OwnKeys(c))
  {
    hide FixedKeys, CloudInitKeys, CpuKeys, OwnKeys;
    FixedTexts(c);
    CloudInitTexts(c);
    CpuTexts(c);
    forall k {
      OwnKeyLookup(c, k);
    }
    var m := OwnKeys(c);
    assert CREATED_AT in FIXED_KEY_SET && STARTED_AT in FIXED_KEY_SET && FINISHED_AT in FIXED_KEY_SET;
    assert PRIVILEGED in FIXED_KEY_SET && LOG_PATH in FIXED_KEY_SET && IS_CRI in FIXED_KEY_SET;
    assert META_NAME in FIXED_KEY_SET && META_ATTEMPT in FIXED_KEY_SET && BASE_IMAGE in FIXED_KEY_SET;
    assert CLOUD_INIT_META_DATA in CLOUD_INIT_KEY_SET && CLOUD_INIT_USER_DATA in CLOUD_INIT_KEY_SET;
    assert CLOUD_INIT_NETWORK_CONFIG in CLOUD_INIT_KEY_SET;
    assert CPU_SHARES in CPU_KEY_SET && CPU_QUOTA in CPU_KEY_SET && CPU_PERIOD in CPU_KEY_SET;
  }

  lemma OwnKeyIsStored(c: ContainerData, k: string)
    requires k in LISTED_KEYS || k in METADATA_KEYS || k in CPU_KEYS || k == MEMORY_LIMIT
    requires k in METADATA_KEYS ==> k in OwnKeys(c)
    ensures (k in EncodeConfig(c) <==> k in OwnKeys(c)) && Get(EncodeConfig(c), k) == Get(OwnKeys(c), k)
  {
    hide EncodeConfig, OwnKeys;
    EncodedKey(c, k);
    if k !in OwnKeys(c) {
      AbsentKey(c, k);
    }
  }

  lemma EncodedHoldsOwnKeys(c: ContainerData)
    ensures HoldsOwnKeys(c, EncodeConfig(c))
  {
    hide EncodeConfig, OwnKeys;
    OwnKeyTexts(c);
    forall k | k in LISTED_KEYS || k in METADATA_KEYS || k in CPU_KEYS || k == MEMORY_LIMIT
      ensures (k in EncodeConfig(c) <==> k in OwnKeys(c)) && Get(EncodeConfig(c), k) == Get(OwnKeys(c), k)
    {
      assert HoldsOwnKeys(c, OwnKeys(c));
      OwnKeyIsStored(c, k);
    }
    AgreesOnOwnKeys(c, OwnKeys(c), EncodeConfig(c));
  }

  /** The keys and texts under which LXD and other programs find the fields of a container */
  lemma WireFormat(c: ContainerData)
    ensures var m := EncodeConfig(c);
      && Get(m, "user.created_at") == FormatInt(c.createdAt)
      && Get(m, "user.started_at") == FormatInt(c.startedAt)
      && Get(m, "user.finished_at") == FormatInt(c.finishedAt)
      && Get(m, "security.privileged") == (if c.privileged then "true" else "false")
      && Get(m, "user.log_path") == c.logPath
      && Get(m, "user.metadata.name") == c.metadata.name
      && Get(m, "user.metadata.attempt") == FormatNat(c.metadata.attempt)
      && Get(m, "volatile.base_image") == c.image
      && Get(m, "user.meta-data") == c.metaData
      && Get(m, "user.user-data") == c.userData
      && Get(m, "user.network-config") == c.networkConfig
      && Get(m, "user.cri") == "true" && Get(m, "user.lxe.schema") == "0.5"
      && Get(m, "user.resources.cpu.shares") == (match c.Shares() case Some(n) => FormatNat(n) case None => "")
      && Get(m, "user.resources.cpu.quota") == (match c.Quota() case Some(n) => FormatInt(n) case None => "")
      && Get(m, "user.resources.cpu.period") == (match c.Period() case Some(n) => FormatNat(n) case None => "")
      && "user.resources.memory.limit" !in m
    ensures IsCRIInstance(Encode(c, Running))
    ensures forall k | k in c.environment :: Get(EncodeConfig(c), "environment." + k) == c.environment[k]
    ensures forall k | k in c.labels :: Get(EncodeConfig(c), "user.labels." + k) == c.labels[k]
    ensures forall k | k in c.annotations :: Get(EncodeConfig(c), "user.annotations." + k) == c.annotations[k]
  {
    hide EncodeConfig, FormatInt, FormatNat;
    EncodedHoldsOwnKeys(c);
    OwnKeyLookup(c, MEMORY_LIMIT);
    AbsentKey(c, MEMORY_LIMIT);
    hide OwnKeys;
    ParseBoolOfFormat(true);
    StoredSections(c);
    SectionTexts(EncodeConfig(c), ENVIRONMENT, "environment.", c.environment);
    SectionTexts(EncodeConfig(c), LABELS, "user.labels.", c.labels);
    SectionTexts(EncodeConfig(c), ANNOTATIONS, "user.annotations.", c.annotations);
  }

  lemma AgreesOnOwnKeys(c: ContainerData, m: Config, m': Config)
    requires HoldsOwnKeys(c, m)
    requires forall k | k in LISTED_KEYS || k in METADATA_KEYS || k in CPU_KEYS || k == MEMORY_LIMIT ::
      (k in m' <==> k in m) && Get(m', k) == Get(m, k)
    ensures HoldsOwnKeys(c, m')
  {
  }

  /** What of a container is still there after it was stored and loaded.  The memory limit is not read back:
      the key it would be read from is never written. */
  function Reloaded(c: ContainerData, status: Status): ContainerData {
    c.(config := StoredConfig(c),
       resources := Some(Resources(Some(Cpu(c.Shares(), c.Quota(), c.Period())), Some(Memory(None)))),
       stateName := StateNameOf(status, StoredConfig(c)),
       devices := WithKeys(c.devices))
  }

  ghost predicate StorableDevices(c: ContainerData) {
    forall n | n in c.devices :: c.devices[n].Storable()
  }

  lemma ReloadedNumbers(c: ContainerData, m: Config)
    requires HoldsOwnKeys(c, m)
    ensures ParseAttempt(m) == Some(c.metadata.attempt) && ParsePrivileged(m) == Some(c.privileged)
    ensures ParseTime(m, CREATED_AT) == Some(c.createdAt) && ParseTime(m, STARTED_AT) == Some(c.startedAt)
    ensures ParseTime(m, FINISHED_AT) == Some(c.finishedAt)
    ensures ParseOptionalUint(m, CPU_SHARES) == Some(c.Shares()) && ParseOptionalInt(m, CPU_QUOTA) == Some(c.Quota())
    ensures ParseOptionalUint(m, CPU_PERIOD) == Some(c.Period()) && ParseOptionalInt(m, MEMORY_LIMIT) == Some(None)
  {
    ParseUintOfFormat(c.metadata.attempt, MAX_UINT32);
    ParseBoolOfFormat(c.privileged);
    ParseIntOfFormat(c.createdAt);
    ParseIntOfFormat(c.startedAt);
    ParseIntOfFormat(c.finishedAt);
    if c.Shares().Some? {
      ParseUintOfFormat(c.Shares().value, MAX_UINT64);
    }
    if c.Quota().Some? {
      ParseIntOfFormat(c.Quota().value);
      FormatIntIsNotEmpty(c.Quota().value);
    }
    if c.Period().Some? {
      ParseUintOfFormat(c.Period().value, MAX_UINT64);
    }
  }

  /** Any record with these texts, sections and devices is read as the same container. */
  lemma DecodeFromParts(c: ContainerData, i: Instance)
    requires HoldsOwnKeys(c, i.config) && i.profiles == c.profiles && c.profiles != []
    requires Stripped(i.config, LABELS) == c.labels && Stripped(i.config, ANNOTATIONS) == c.annotations
    requires Stripped(i.config, ENVIRONMENT) == c.environment
    requires CONTAINER_STORE.Unreserved(i.config) == StoredConfig(c)
    requires DetectAll(i.devices) == Ok(WithKeys(c.devices))
    ensures Decode(i) == Ok(Reloaded(c, i.status))
  {
    hide LimitKeys, ConfigStore.IsReserved;
    ReloadedNumbers(c, i.config);
    hide ParseAttempt, ParsePrivileged, ParseTime, ParseOptionalInt, ParseOptionalUint;
  }

  /** Loading a stored container gives exactly the container that was stored, up to what `Reloaded` names. */
  lemma DecodeEncode(c: ContainerData, status: Status)
    requires StorableDevices(c) && c.profiles != []
    ensures Decode(Encode(c, status)) == Ok(Reloaded(c, status))
  {
    hide EncodeConfig;
    EncodedHoldsOwnKeys(c);
    StoredSections(c);
    StoredForeignConfig(c);
    ReloadStored(c.devices);
    DecodeFromParts(c, Encode(c, status));
  }

  /** Storing and loading loses nothing exactly when the foreign config uses no reserved key and already has every
      computed limit, the resources are complete but for a memory limit, the container is in the state its status stands
      for, and every device is filed under a name it carries itself. */
  lemma RoundTripExactly(c: ContainerData, status: Status)
    requires StorableDevices(c) && c.profiles != []
    ensures Decode(Encode(c, status)) == Ok(c) <==>
      && (forall k | k in c.config :: !CONTAINER_STORE.IsReserved(k))
      && LimitKeys(c).Keys <= c.config.Keys
      && c.resources.Some? && c.resources.value.cpu.Some? && c.resources.value.memory == Some(Memory(None))
      && c.stateName == StateNameOf(status, c.config)
      && forall n | n in c.devices :: c.devices[n].keyName == n
  {
    hide Encode, Decode, LimitKeys, ConfigStore.IsReserved, StateNameOf, StorableDevices;
    DecodeEncode(c, status);
    KeptConfigExactly(c);
    KeptNamesExactly(c.devices);
    hide StoredConfig;
    var r := Reloaded(c, status);
    assert r.resources == c.resources <==>
      c.resources.Some? && c.resources.value.cpu.Some? && c.resources.value.memory == Some(Memory(None));
    assert r == c <==>
      r.config == c.config && r.resources == c.resources && r.stateName == c.stateName && r.devices == c.devices;
  }

  lemma KeptConfigExactly(c: ContainerData)
    ensures StoredConfig(c) == c.config <==>
      (forall k | k in c.config :: !CONTAINER_STORE.IsReserved(k)) && LimitKeys(c).Keys <= c.config.Keys
  {
    hide LimitKeys, ConfigStore.IsReserved;
    forall k | k in LimitKeys(c)
      ensures !CONTAINER_STORE.IsReserved(k)
    {
      LimitKeyNames(c, k);
      LimitKeysAreForeign(k);
    }
    if StoredConfig(c) == c.config {
      forall k | k in c.config
        ensures !CONTAINER_STORE.IsReserved(k)
      {
        assert k in StoredConfig(c);
      }
      forall k | k in LimitKeys(c)
        ensures k in c.config
      {
        assert k in StoredConfig(c);
      }
    }
    if (forall k | k in c.config :: !CONTAINER_STORE.IsReserved(k)) && LimitKeys(c).Keys <= c.config.Keys {
      assert CONTAINER_STORE.Unreserved(c.config) == c.config;
    }
  }

  /** A container loads exactly if each of its texts parses, its devices load, and it has a profile. */
  lemma LoadsExactly(i: Instance)
    ensures var c := i.config;
      Decode(i).Ok? <==>
        && ParseAttempt(c).Some? && ParsePrivileged(c).Some?
        && ParseTime(c, CREATED_AT).Some? && ParseTime(c, STARTED_AT).Some? && ParseTime(c, FINISHED_AT).Some?
        && ParseOptionalUint(c, CPU_SHARES).Some? && ParseOptionalInt(c, CPU_QUOTA).Some?
        && ParseOptionalUint(c, CPU_PERIOD).Some? && ParseOptionalInt(c, MEMORY_LIMIT).Some?
        && DetectAll(i.devices).Ok? && i.profiles != []
    ensures Decode(i).Ok? ==>
      && Decode(i).value.profiles == i.profiles && Decode(i).value.metadata.name == Get(i.config, META_NAME)
      && Decode(i).value.image == Get(i.config, BASE_IMAGE)
      && Decode(i).value.labels == Stripped(i.config, LABELS)
  {
    hide ParseAttempt, ParsePrivileged, ParseTime, ParseOptionalUint, ParseOptionalInt, DetectAll,
         ConfigStore.IsReserved, StateNameOf;
  }

  lemma StoredContainerIsReadable(c: ContainerData, status: Status)
    requires StorableDevices(c) && c.profiles != []
    ensures ReadableContainer(Encode(c, status))
  {
    hide EncodeConfig, Decode;
    DecodeEncode(c, status);
    EncodedHoldsOwnKeys(c);
    ParseBoolOfFormat(true);
  }

  /** What each field of a container that loads is read from, and what it is where the text is missing */
  lemma LoadedFields(i: Instance)
    requires Decode(i).Ok?
    ensures var m, c := i.config, Decode(i).value;
      && Some(c.metadata.attempt as nat) ==
         (if "user.metadata.attempt" in m then ParseUint(m["user.metadata.attempt"], 0xFFFF_FFFF) else Some(0))
      && Some(c.privileged) ==
         (if "security.privileged" in m then ParseBool(m["security.privileged"]) else Some(false))
      && Some(c.createdAt) == TimeText(m, "user.created_at")
      && Some(c.startedAt) == TimeText(m, "user.started_at")
      && Some(c.finishedAt) == TimeText(m, "user.finished_at")
      && c.metadata.name == Get(m, "user.metadata.name") && c.image == Get(m, "volatile.base_image")
      && c.logPath == Get(m, "user.log_path") && c.userData == Get(m, "user.user-data")
      && c.metaData == Get(m, "user.meta-data") && c.networkConfig == Get(m, "user.network-config")
      && c.profiles == i.profiles && c.profiles != [] && DetectAll(i.devices) == Ok(c.devices)
      && (c.Shares() == None <==> Get(m, "user.resources.cpu.shares") == "")
      && (c.Shares().Some? ==>
          Some(c.Shares().value as nat) == ParseUint(m["user.resources.cpu.shares"], 0xFFFF_FFFF_FFFF_FFFF))
      && (c.Quota() == None <==> Get(m, "user.resources.cpu.quota") == "")
      && (c.Quota().Some? ==> c.Quota() == ParseInt(m["user.resources.cpu.quota"]))
      && (c.Period() == None <==> Get(m, "user.resources.cpu.period") == "")
      && (c.Period().Some? ==>
          Some(c.Period().value as nat) == ParseUint(m["user.resources.cpu.period"], 0xFFFF_FFFF_FFFF_FFFF))
  {
    hide DetectAll, ParseUint, ParseInt, ParseBool, Stripped, ConfigStore.Unreserved, StateNameOf;
  }

  /** A time as it is stored, in nanoseconds; one that is missing was never set. */
  function TimeText(m: Config, key: string): Option<int64> {
    if key in m then ParseInt(m[key]) else Some(-6795364578871345152)
  }

  /** The state a container is read with, from LXD's status and the text of its own state */
  lemma ReadState(i: Instance)
    requires Decode(i).Ok?
    ensures var name, marked := Decode(i).value.stateName, Get(i.config, "user.state") == "created";
      && (name == IsRunning <==> i.status == Running)
      && (name == IsUnknown <==> i.status == Frozen)
      && (name == IsCreated <==> i.status in {Stopped, Stopping, Aborting} && marked)
      && (name == IsExited <==> i.status in {Stopped, Stopping, Aborting} && !marked)
  {
    hide DetectAll, ParseAttempt, ParsePrivileged, ParseTime, ParseOptionalUint, ParseOptionalInt, Stripped,
         ConfigStore.IsReserved;
    LoadedMark(i);
  }

  lemma StatusIsNotRead(i: Instance, status: Status)
    requires ReadableContainer(i)
    ensures ReadableContainer(i.(status := status))
  {
  }

  /** The memory limit is never read back into the resources; what is left of it is a config key. */
  lemma MemoryLimitSurvivesAsConfig(c: ContainerData, status: Status)
    requires StorableDevices(c) && c.profiles != []
    ensures Decode(Encode(c, status)).Ok? && Decode(Encode(c, status)).value.MemoryLimit() == None
    ensures c.MemoryLimit().Some? && c.MemoryLimit().value > 0 && LIMIT_MEMORY !in c.config ==>
      Get(Decode(Encode(c, status)).value.config, LIMIT_MEMORY) == FormatInt(c.MemoryLimit().value)
  {
    hide Encode, Decode, LimitKeys;
    DecodeEncode(c, status);
    LimitOfReloaded(c, status);
  }

  lemma LimitOfReloaded(c: ContainerData, status: Status)
    ensures Reloaded(c, status).MemoryLimit() == None
    ensures c.MemoryLimit().Some? && c.MemoryLimit().value > 0 && LIMIT_MEMORY !in c.config ==>
      Get(Reloaded(c, status).config, LIMIT_MEMORY) == FormatInt(c.MemoryLimit().value)
  {
    hide FormatInt, AllowanceKey, ConfigStore.IsReserved;
  }

  // ---------- The changes the runtime makes to a container ----------

  /** What a container becomes when it is first stored */
  function NewData(c: ContainerData, now: int64): ContainerData {
    c.(config := c.config[STATE := "created"], createdAt := now)
  }

  /** Container.Start, before it saves: the mark of a container that was never started goes. */
  function StartedData(c: ContainerData, now: int64): ContainerData {
    c.(config := c.config - {STATE}, startedAt := now)
  }

  /** Container.Stop, before it saves */
  function StoppedData(c: ContainerData, now: int64): ContainerData {
    c.(finishedAt := now)
  }

  /** A foreign key of the stored record is the container's own, or else a computed limit. */
  lemma StoredForeignKey(c: ContainerData, k: string)
    requires IsLimitKey(k) || k == STATE
    ensures k in EncodeConfig(c) <==> k in c.config || k in LimitKeys(c)
    ensures Get(EncodeConfig(c), k) == (if k in c.config then c.config[k] else Get(LimitKeys(c), k))
  {
    hide EncodeConfig, LimitKeys, OwnKeys;
    LimitKeysAreForeign(k);
    EncodedKey(c, k);
    SectionsAreReserved(k);
    if k in OwnKeys(c) {
      OwnKeysAreReserved(c, k);
    }
  }

  /** The limits that LXD enforces are set exactly if the container sets them itself or asks for them.  What is asked
      for reads as Q milliseconds out of P, the quota and the period rounded up, and as the limit in decimal. */
  lemma StoredLimits(c: ContainerData, status: Status)
    ensures var m, quota, period, limit := Encode(c, status).config, c.Quota(), c.Period(), c.MemoryLimit();
      var asked := quota.Some? && quota.value > 0 && period.Some? && period.value > 0;
      && ("limits.cpu.allowance" in m <==> "limits.cpu.allowance" in c.config || asked)
      && ("limits.cpu.allowance" in c.config ==> m["limits.cpu.allowance"] == c.config["limits.cpu.allowance"])
      && ("limits.cpu.allowance" !in c.config && asked ==>
          Allows(m["limits.cpu.allowance"], quota.value, period.value))
      && ("limits.memory" in m <==> "limits.memory" in c.config || (limit.Some? && limit.value > 0))
      && ("limits.memory" in c.config ==> m["limits.memory"] == c.config["limits.memory"])
      && ("limits.memory" !in c.config && limit.Some? && limit.value > 0 ==>
          ParseInt(m["limits.memory"]) == Some(limit.value))
  {
    hide EncodeConfig, LimitKeys, FormatInt, ParseInt, Allows;
    StoredForeignKey(c, LIMIT_CPU_ALLOWANCE);
    StoredForeignKey(c, LIMIT_MEMORY);
    LimitTexts(c);
  }

  lemma LimitTexts(c: ContainerData)
    ensures var m, quota, period, limit := LimitKeys(c), c.Quota(), c.Period(), c.MemoryLimit();
      && (if quota.Some? && quota.value > 0 && period.Some? && period.value > 0
          then LIMIT_CPU_ALLOWANCE in m && Allows(m[LIMIT_CPU_ALLOWANCE], quota.value, period.value)
          else LIMIT_CPU_ALLOWANCE !in m)
      && (if limit.Some? && limit.value > 0
          then LIMIT_MEMORY in m && ParseInt(m[LIMIT_MEMORY]) == Some(limit.value)
          else LIMIT_MEMORY !in m)
  {
    hide Allowance, Allows, FormatInt, ParseInt;
    var quota, period, limit := c.Quota(), c.Period(), c.MemoryLimit();
    if quota.Some? && period.Some? {
      AllowedReads(quota.value, period.value);
    }
    if limit.Some? {
      ParseIntOfFormat(limit.value);
    }
  }

  /** The share of CPU time that LXD reads from the stored text, for a period of whole milliseconds: at least the share
      that was asked for, and more by less than one millisecond per period */
  lemma StoredShare(c: ContainerData, status: Status)
    requires c.Quota().Some? && c.Quota().value > 0 && c.Period().Some? && c.Period().value > 0
    requires c.Period().value % 1000 == 0 && "limits.cpu.allowance" !in c.config
    ensures var read := ReadAllowance(Get(Encode(c, status).config, "limits.cpu.allowance"));
      && read.Some? && read.value.0 >= 1 && read.value.1 >= 1
      && var q, p := read.value.0 as real, read.value.1 as real;
      var share := c.Quota().value as real / c.Period().value as real;
      share <= q / p < share + 1.0 / p
  {
    hide EncodeConfig, Allowance, ReadAllowance;
    StoredForeignKey(c, LIMIT_CPU_ALLOWANCE);
    AllowanceBounds(c.Quota().value, c.Period().value);
  }

  /** The text is that of whole numbers of milliseconds, Q out of P, and reads as these. */
  ghost predicate Allows(text: string, quota: int64, period: uint64) {
    exists q: int64, p: int64 ::
      && text == FormatInt(q) + "ms/" + FormatInt(p) + "ms" && ReadAllowance(text) == Some((q, p))
      && 1000 * (q - 1) < quota <= 1000 * q && 1000 * (p - 1) < period <= 1000 * p
  }

  lemma AllowedReads(quota: int64, period: uint64)
    ensures Allows(Allowance(quota, period), quota, period)
  {
    hide FormatInt, ReadAllowance, CeilMillis;
    ReadOfAllowance(quota, period);
    CeilMillisBounds(quota);
    CeilMillisBounds(period);
    var q: int64, p: int64 := CeilMillis(quota), CeilMillis(period);
    assert Allowance(quota, period) == FormatInt(q) + "ms/" + FormatInt(p) + "ms";
  }

  /** The record carries the mark of a container that was never started. */
  predicate Marked(i: Instance) {
    Get(i.config, STATE) == "created"
  }

  lemma StoredMark(c: ContainerData, status: Status)
    ensures Marked(Encode(c, status)) <==> Get(c.config, STATE) == "created"
  {
    hide EncodeConfig;
    StoredForeignKey(c, STATE);
    assert Get(LimitKeys(c), STATE) == "";
  }

  /** The stored times */
  lemma TimeTexts(c: ContainerData, status: Status)
    ensures var m := Encode(c, status).config;
      && Get(m, "user.created_at") == FormatInt(c.createdAt) && Get(m, "user.started_at") == FormatInt(c.startedAt)
      && Get(m, "user.finished_at") == FormatInt(c.finishedAt)
  {
    hide EncodeConfig, FormatInt;
    WireFormat(c);
  }

  /** A start that is saved leaves the time of now, and not the mark. */
  lemma StartedTexts(c: ContainerData, now: int64, status: Status)
    ensures var m := Encode(StartedData(c, now), status).config;
      "user.state" !in m && Get(m, "user.started_at") == FormatInt(now)
  {
    hide EncodeConfig, FormatInt, LimitKeys;
    TimeTexts(StartedData(c, now), status);
    StoredForeignKey(StartedData(c, now), STATE);
    NoLimitIsMark(StartedData(c, now));
  }

  lemma NoLimitIsMark(c: ContainerData)
    ensures STATE !in LimitKeys(c)
  {
    if STATE in LimitKeys(c) {
      LimitKeyNames(c, STATE);
    }
  }

  lemma LoadedMark(i: Instance)
    requires Decode(i).Ok?
    ensures Get(Decode(i).value.config, STATE) == Get(i.config, STATE)
    ensures forall k | IsLimitKey(k) || k == STATE :: k in Decode(i).value.config <==> k in i.config
    ensures forall k | IsLimitKey(k) :: Get(Decode(i).value.config, k) == Get(i.config, k)
  {
    hide ConfigStore.IsReserved;
    forall k | IsLimitKey(k) || k == STATE {
      LimitKeysAreForeign(k);
    }
  }
}
