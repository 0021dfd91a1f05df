/** The configuration keys under which pods and containers are stored in LXD. */
module ConfigKeys {
  // Common to pods and containers
  const IS_CRI := "user.cri"
  const LABELS := "user.labels"
  const ANNOTATIONS := "user.annotations"
  const STATE := "user.state"
  const METADATA := "user.metadata"
  const META_ATTEMPT := "user.metadata.attempt"
  const META_NAME := "user.metadata.name"
  const META_NAMESPACE := "user.metadata.namespace"
  const META_UID := "user.metadata.uid"
  const CREATED_AT := "user.created_at"
  const SCHEMA := "user.lxe.schema"

  // Pods
  const HOSTNAME := "user.host_name"
  const LOG_DIRECTORY := "user.log_directory"
  const NETWORK_CONFIG := "user.networkconfig"
  const NAMESERVERS := "user.networkconfig.nameservers"
  const SEARCHES := "user.networkconfig.searches"
  const NETWORK_MODE := "user.networkconfig.mode"
  const MODE_DATA := "user.networkconfig.modedata"
  const CLOUD_INIT_NETWORK_CONFIG := "user.network-config"
  const CLOUD_INIT_VENDOR_DATA := "user.vendor-data"

  // Containers
  const LOG_PATH := "user.log_path"
  const PRIVILEGED := "security.privileged"
  const BASE_IMAGE := "volatile.base_image"
  const STARTED_AT := "user.started_at"
  const FINISHED_AT := "user.finished_at"
  const CLOUD_INIT_USER_DATA := "user.user-data"
  const CLOUD_INIT_META_DATA := "user.meta-data"
  const ENVIRONMENT := "environment"
  const RESOURCES := "user.resources"
  const CPU_SHARES := "user.resources.cpu.shares"
  const CPU_QUOTA := "user.resources.cpu.quota"
  const CPU_PERIOD := "user.resources.cpu.period"
  const MEMORY_LIMIT := "user.resources.memory.limit"
  const LIMIT_CPU_ALLOWANCE := "limits.cpu.allowance"
  const LIMIT_MEMORY := "limits.memory"

  // Left behind by schemas before 0.3
  const OLD_IS_SANDBOX := "user.is_cri_sandbox"
  const OLD_IS_CONTAINER := "user.is_cri_container"
  const OLD_CONTAINER_NAME := "user.containerName"

  const SCHEMA_PROFILE := "0.3"
  const SCHEMA_CONTAINER := "0.5"
}

/** Splitting one string map into the parts that were merged into it (lxf/configstore.go). */
module ConfigStores {
  import opened Text

  type Config = map<string, string>

  /** Reading a Go map: the zero value stands for a missing key. */
  function Get(m: Config, key: string): string {
    if key in m then m[key] else ""
  }

  /** Which keys belong to the runtime itself; every other key is passed through. */
  datatype ConfigStore = ConfigStore(reserved: seq<string>, reservedPrefixes: seq<string>) {
    predicate IsReserved(key: string) {
      key in reserved || exists p | p in reservedPrefixes :: key == p || HasPrefix(key, p + ".")
    }

    /** The entries that are not reserved */
    function Unreserved(m: Config): Config {
      map k | k in m && !IsReserved(k) :: m[k]
    }

    method UnreservedMap(m: Config) returns (r: Config)
      ensures r == Unreserved(m)
    {
      r := map[];
      var todo := m.Keys;
      while todo != {}
        invariant todo <= m.Keys
        invariant r == map k | k in m && k !in todo && !IsReserved(k) :: m[k]
      {
        var k :| k in todo;
        if !IsReserved(k) {
          r := r[k := m[k]];
        }
        todo := todo - {k};
      }
    }

    method StrippedPrefixMap(m: Config, prefix: string) returns (r: Config)
      ensures r == Stripped(m, prefix)
    {
      r := Strip(m, prefix);
    }
  }

  /** The key is this prefix, or continues it after a dot. */
  predicate AtOrBelow(key: string, prefix: string) {
    key == prefix || HasPrefix(key, prefix + ".")
  }

  // ---------- Sections: the entries below one prefix ----------

  /** A key below a prefix */
  function Dot(prefix: string, key: string): string {
    prefix + "." + key
  }

  /** What follows `prefix` and a dot, for every key that has them */
  function Stripped(m: Config, prefix: string): Config {
    map x | x in (set k | k in m && HasPrefix(k, prefix + ".") :: k[|prefix| + 1..]) :: Get(m, Dot(prefix, x))
  }

  /** The inverse direction: every key moved below `prefix` */
  function Section(prefix: string, m: Config): Config {
    map k | k in DottedKeys(prefix, m) :: Get(m, k[|prefix| + 1..])
  }

  function DottedKeys(prefix: string, m: Config): set<string> {
    set x | x in m :: Dot(prefix, x)
  }

  lemma DottedKey(prefix: string, x: string)
    ensures HasPrefix(Dot(prefix, x), prefix + ".") && Dot(prefix, x)[|prefix| + 1..] == x
  {
    var k := Dot(prefix, x);
    assert k[..|prefix| + 1] == prefix + ".";
  }

  lemma KeyOfDotted(prefix: string, k: string)
    requires HasPrefix(k, prefix + ".")
    ensures Dot(prefix, k[|prefix| + 1..]) == k
  {
    assert k[..|prefix| + 1] + k[|prefix| + 1..] == k;
  }

  /** The keys of a section, and its values */
  lemma SectionLookup(prefix: string, m: Config, k: string)
    ensures k in Section(prefix, m) <==> HasPrefix(k, prefix + ".") && k[|prefix| + 1..] in m
    ensures k in Section(prefix, m) ==> Section(prefix, m)[k] == m[k[|prefix| + 1..]]
  {
    if k in Section(prefix, m) {
      var x :| x in m && k == Dot(prefix, x);
      DottedKey(prefix, x);
    }
    if HasPrefix(k, prefix + ".") && k[|prefix| + 1..] in m {
      KeyOfDotted(prefix, k);
    }
  }

  /** The keys of a stripped map, and its values */
  lemma StrippedLookup(m: Config, prefix: string, x: string)
    ensures x in Stripped(m, prefix) <==> Dot(prefix, x) in m
    ensures x in Stripped(m, prefix) ==> Stripped(m, prefix)[x] == m[Dot(prefix, x)]
  {
    DottedKey(prefix, x);
    if x in Stripped(m, prefix) {
      var k :| k in m && HasPrefix(k, prefix + ".") && k[|prefix| + 1..] == x;
      KeyOfDotted(prefix, k);
    }
    if Dot(prefix, x) in m {
      var k := Dot(prefix, x);
      assert k in m && HasPrefix(k, prefix + ".") && k[|prefix| + 1..] == x;
    }
  }

  /** If two maps agree below a prefix, they strip to the same map. */
  lemma StrippedAgrees(m: Config, m': Config, prefix: string)
    requires forall k | HasPrefix(k, prefix + ".") :: (k in m <==> k in m') && Get(m, k) == Get(m', k)
    ensures Stripped(m, prefix) == Stripped(m', prefix)
  {
    forall x
      ensures x in Stripped(m, prefix) <==> x in Stripped(m', prefix)
      ensures x in Stripped(m, prefix) && x in Stripped(m', prefix) ==>
        Stripped(m, prefix)[x] == Stripped(m', prefix)[x]
    {
      DottedKey(prefix, x);
      StrippedLookup(m, prefix, x);
      StrippedLookup(m', prefix, x);
      assert Get(m, Dot(prefix, x)) == Get(m', Dot(prefix, x));
    }
  }

  lemma StrippedSection(prefix: string, m: Config)
    ensures Stripped(Section(prefix, m), prefix) == m
  {
    forall x
      ensures x in Stripped(Section(prefix, m), prefix) <==> x in m
      ensures x in m && x in Stripped(Section(prefix, m), prefix) ==> Stripped(Section(prefix, m), prefix)[x] == m[x]
    {
      DottedKey(prefix, x);
      StrippedLookup(Section(prefix, m), prefix, x);
      SectionLookup(prefix, m, Dot(prefix, x));
    }
  }

  /** The entries of a section are found below its prefix. */
  lemma SectionTexts(m: Config, prefix: string, dotted: string, section: Config)
    requires Stripped(m, prefix) == section && dotted == prefix + "."
    ensures forall k | k in section :: Get(m, dotted + k) == section[k]
  {
    forall k | k in section
      ensures Get(m, dotted + k) == section[k]
    {
      StrippedLookup(m, prefix, k);
    }
  }

  // ---------- The loops of the code over whole maps ----------

  /** ConfigStore.StrippedPrefixMap and extractEnvVars run this loop. */
  method Strip(m: Config, prefix: string) returns (r: Config)
    ensures r == Stripped(m, prefix)
  {
    r := map[];
    var todo := m.Keys;
    while todo != {}
      invariant todo <= m.Keys
      invariant forall x :: x in r <==> Dot(prefix, x) in m && Dot(prefix, x) !in todo
      invariant forall x | x in r :: Dot(prefix, x) in m && r[x] == m[Dot(prefix, x)]
    {
      var k :| k in todo;
      if HasPrefix(k, prefix + ".") {
        KeyOfDotted(prefix, k);
        r := r[k[|prefix| + 1..] := m[k]];
      }
      forall x | Dot(prefix, x) == k
        ensures HasPrefix(k, prefix + ".") && x == k[|prefix| + 1..]
      {
        DottedKey(prefix, x);
      }
      todo := todo - {k};
    }
    forall x
      ensures x in Stripped(m, prefix) <==> x in r
      ensures x in r && x in Stripped(m, prefix) ==> Stripped(m, prefix)[x] == r[x]
    {
      StrippedLookup(m, prefix, x);
    }
  }

  /** Writes every entry of `m` below `prefix` into `config`. */
  method WriteSection(config: Config, prefix: string, m: Config) returns (r: Config)
    ensures r == config + Section(prefix, m)
  {
    hide Section, Dot;
    r := config;
    var todo := m.Keys;
    ghost var done: Config := map[];
    EmptySection(prefix);
    while todo != {}
      invariant todo <= m.Keys && done.Keys == m.Keys - todo
      invariant forall x | x in done :: done[x] == m[x]
      invariant r == config + Section(prefix, done)
    {
      var x :| x in todo;
      SectionUpdate(prefix, done, x, m[x]);
      r := r[Dot(prefix, x) := m[x]];
      done := done[x := m[x]];
      todo := todo - {x};
    }
    assert done == m;
  }

  lemma EmptySection(prefix: string)
    ensures Section(prefix, map[]) == map[]
  {
  }

  lemma SectionUpdate(prefix: string, m: Config, x: string, v: string)
    ensures Section(prefix, m[x := v]) == Section(prefix, m)[Dot(prefix, x) := v]
  {
    var left, right := Section(prefix, m[x := v]), Section(prefix, m)[Dot(prefix, x) := v];
    DottedKey(prefix, x);
    forall k
      ensures k in left <==> k in right
      ensures k in left && k in right ==> left[k] == right[k]
    {
      SectionLookup(prefix, m[x := v], k);
      SectionLookup(prefix, m, k);
      if HasPrefix(k, prefix + ".") {
        KeyOfDotted(prefix, k);
      }
    }
  }

  /** Writes the entries of `m` that the store does not reserve over `config`. */
  method WriteUnreserved(config: Config, store: ConfigStore, m: Config) returns (r: Config)
    ensures r == config + store.Unreserved(m)
  {
    r := config;
    var todo := m.Keys;
    while todo != {}
      invariant todo <= m.Keys
      invariant r == config + map k | k in m && k !in todo && !store.IsReserved(k) :: m[k]
    {
      var x :| x in todo;
      if !store.IsReserved(x) {
        r := r[x := m[x]];
      }
      todo := todo - {x};
    }
  }
}
