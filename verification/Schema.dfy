/** Bringing stored records to the schema this version of the runtime expects (lxf/schema.go). */
module Schema {
  import opened Wrappers
  import opened Text
  import opened ConfigKeys
  import opened ConfigStores
  import opened Devices
  import opened Records
  import opened Lxd
  import ContainerCodec

  // ---------- One record ----------

  /** A profile as the migration works on it, in place */
  class ProfileObject {
    const name: string
    const devices: map<string, Options>
    var config: Config

    constructor (name: string, p: Profile)
      ensures this.name == name && devices == p.devices && config == p.config
    {
      this.name, devices, config := name, p.devices, p.config;
    }

    method EnsureZeroOne() returns (changed: bool)
      modifies this
      ensures config == ProfileZeroOne(name, old(config)) && changed == (Get(old(config), SCHEMA) == "")
    {
      if Get(config, SCHEMA) == "" {
        config := config[META_UID := name];
        config := config[SCHEMA := "0.1"];
        return true;
      }
      changed := false;
    }

    method EnsureZeroTwo() returns (changed: bool)
      modifies this
      ensures config == ProfileZeroTwo(old(config)) && changed == (Get(old(config), SCHEMA) == "0.1")
    {
      if Get(config, SCHEMA) == "0.1" {
        config := config[IS_CRI := Get(config, OLD_IS_SANDBOX)];
        config := config[SCHEMA := "0.2"];
        return true;
      }
      changed := false;
    }

    method EnsureZeroThree() returns (changed: bool)
      modifies this
      ensures config == ProfileZeroThree(old(config)) && changed == (Get(old(config), SCHEMA) == "0.2")
    {
      if Get(config, SCHEMA) == "0.2" {
        config := config - {OLD_IS_SANDBOX};
        config := config[SCHEMA := "0.3"];
        return true;
      }
      changed := false;
    }
  }

  function ProfileZeroOne(name: string, c: Config): Config {
    if Get(c, SCHEMA) == "" then c[META_UID := name][SCHEMA := "0.1"] else c
  }

  function ProfileZeroTwo(c: Config): Config {
    if Get(c, SCHEMA) == "0.1" then c[IS_CRI := Get(c, OLD_IS_SANDBOX)][SCHEMA := "0.2"] else c
  }

  function ProfileZeroThree(c: Config): Config {
    if Get(c, SCHEMA) == "0.2" then (c - {OLD_IS_SANDBOX})[SCHEMA := "0.3"] else c
  }

  /** A container as the migration works on it, in place */
  class ContainerObject {
    const name: string
    const devices: map<string, Options>
    const status: Status
    var config: Config
    var profiles: seq<string>

    constructor (name: string, i: Instance)
      ensures this.name == name && devices == i.devices && status == i.status
      ensures config == i.config && profiles == i.profiles
    {
      this.name, devices, status, config, profiles := name, i.devices, i.status, i.config, i.profiles;
    }

    method EnsureZeroOne() returns (changed: bool)
      modifies this`config
      ensures config == ContainerZeroOne(old(config)) && changed == (Get(old(config), SCHEMA) == "")
    {
      if Get(config, SCHEMA) == "" {
        config := config[SCHEMA := "0.1"];
        return true;
      }
      changed := false;
    }

    method EnsureZeroTwo() returns (changed: bool)
      modifies this`config
      ensures config == ContainerZeroTwo(old(config)) && changed == (Get(old(config), SCHEMA) == "0.1")
    {
      if Get(config, SCHEMA) == "0.1" {
        config := config[IS_CRI := Get(config, OLD_IS_CONTAINER)];
        config := config[META_NAME := Get(config, OLD_CONTAINER_NAME)];
        config := config[SCHEMA := "0.2"];
        return true;
      }
      changed := false;
    }

    method EnsureZeroThree(now: int64) returns (changed: bool)
      modifies this`config
      ensures config == ContainerZeroThree(now, old(config)) && changed == (Get(old(config), SCHEMA) == "0.2")
    {
      hide FormatInt;
      if Get(config, SCHEMA) == "0.2" {
        config := config - {OLD_IS_CONTAINER};
        config := config - {OLD_CONTAINER_NAME};
        assert config == old(config) - {OLD_IS_CONTAINER, OLD_CONTAINER_NAME};
        ghost var c1 := config;
        if Get(config, CREATED_AT) == "" {
          if Get(config, STARTED_AT) == "" {
            config := config[CREATED_AT := FormatInt(now)];
          } else {
            config := config[CREATED_AT := Get(config, STARTED_AT)];
          }
        }
        assert config == Default(c1, CREATED_AT, if Get(c1, STARTED_AT) == "" then FormatInt(now)
                                                 else Get(c1, STARTED_AT));
        if Get(config, STARTED_AT) == "" {
          config := config[STARTED_AT := FormatInt(ZERO_TIME)];
        }
        if Get(config, FINISHED_AT) == "" {
          config := config[FINISHED_AT := FormatInt(ZERO_TIME)];
        }
        config := config[SCHEMA := "0.3"];
        return true;
      }
      changed := false;
    }

    method EnsureZeroFour() returns (changed: bool)
      modifies this`config
      ensures config == ContainerZeroFour(old(config)) && changed == (Get(old(config), SCHEMA) == "0.3")
    {
      if Get(config, SCHEMA) == "0.3" {
        config := config[SCHEMA := "0.4"];
        return true;
      }
      changed := false;
    }

    /** Go panics on an empty profile list here. */
    method EnsureZeroFive() returns (changed: bool)
      requires Get(config, SCHEMA) == "0.4" ==> profiles != []
      modifies this
      ensures changed == (Get(old(config), SCHEMA) == "0.4")
      ensures config == if changed then old(config)[SCHEMA := "0.5"] else old(config)
      ensures profiles == if changed then Rotated(old(profiles)) else old(profiles)
    {
      if Get(config, SCHEMA) == "0.4" {
        profiles := profiles[1..] + [profiles[0]];
        config := config[SCHEMA := "0.5"];
        return true;
      }
      changed := false;
    }
  }

  function ContainerZeroOne(c: Config): Config {
    if Get(c, SCHEMA) == "" then c[SCHEMA := "0.1"] else c
  }

  function ContainerZeroTwo(c: Config): Config {
    if Get(c, SCHEMA) == "0.1" then
      c[IS_CRI := Get(c, OLD_IS_CONTAINER)][META_NAME := Get(c, OLD_CONTAINER_NAME)][SCHEMA := "0.2"]
    else c
  }

  function Default(c: Config, key: string, value: string): Config {
    if Get(c, key) == "" then c[key := value] else c
  }

  function ContainerZeroThree(now: int64, c: Config): Config {
    if Get(c, SCHEMA) == "0.2" then
      var c1 := c - {OLD_IS_CONTAINER, OLD_CONTAINER_NAME};
      var c2 := Default(c1, CREATED_AT, if Get(c1, STARTED_AT) == "" then FormatInt(now) else Get(c1, STARTED_AT));
      var c3 := Default(c2, STARTED_AT, FormatInt(ZERO_TIME));
      var c4 := Default(c3, FINISHED_AT, FormatInt(ZERO_TIME));
      c4[SCHEMA := "0.3"]
    else c
  }

  function ContainerZeroFour(c: Config): Config {
    if Get(c, SCHEMA) == "0.3" then c[SCHEMA := "0.4"] else c
  }

  function ContainerBeforeFive(now: int64, c: Config): Config {
    ContainerZeroFour(ContainerZeroThree(now, ContainerZeroTwo(ContainerZeroOne(c))))
  }

  /** The first profile moves to the end. */
  function Rotated(profiles: seq<string>): seq<string> {
    if profiles == [] then [] else profiles[1..] + [profiles[0]]
  }

  // ---------- What migration makes of a record ----------

  predicate OwnedProfile(p: Profile) {
    Get(p.config, IS_CRI) != "" || Get(p.config, OLD_IS_SANDBOX) != ""
  }

  predicate OwnedContainer(i: Instance) {
    Get(i.config, IS_CRI) != "" || Get(i.config, OLD_IS_CONTAINER) != ""
  }

  function MigratedProfile(name: string, p: Profile): Profile {
    if OwnedProfile(p) then p.(config := ProfileZeroThree(ProfileZeroTwo(ProfileZeroOne(name, p.config)))) else p
  }

  function MigratedContainer(now: int64, i: Instance): Instance {
    if !OwnedContainer(i) then i
    else
      var c := ContainerBeforeFive(now, i.config);
      if Get(c, SCHEMA) == "0.4" then i.(config := c[SCHEMA := "0.5"], profiles := Rotated(i.profiles))
      else i.(config := c)
  }

  function MigratedProfiles(profiles: map<string, Profile>): map<string, Profile> {
    map n | n in profiles :: MigratedProfile(n, profiles[n])
  }

  function MigratedContainers(now: int64, containers: map<string, Instance>): map<string, Instance> {
    map n | n in containers :: MigratedContainer(now, containers[n])
  }

  predicate KnownProfileSchema(c: Config) {
    Get(c, SCHEMA) in {"", "0.1", "0.2", "0.3"}
  }

  /** The schemas of containers from before their pod was the last profile */
  predicate IsBeforeFive(c: Config) {
    Get(c, SCHEMA) in {"", "0.1", "0.2", "0.3", "0.4"}
  }

  predicate KnownContainerSchema(c: Config) {
    Get(c, SCHEMA) in {"", "0.1", "0.2", "0.3", "0.4", "0.5"}
  }

  /** A profile is current after migration exactly if it was before, or has one of the two flags and a schema the code
      knows.  Any other profile is left alone. */
  lemma ProfileIsCurrentExactly(name: string, p: Profile)
    ensures var schema := Get(p.config, "user.lxe.schema");
      var flagged := Get(p.config, "user.cri") != "" || Get(p.config, "user.is_cri_sandbox") != "";
      && (ProfileSchemaIsCurrent(MigratedProfile(name, p)) <==>
          schema == "0.3" || (flagged && schema in {"", "0.1", "0.2"}))
      && (!flagged || schema !in {"", "0.1", "0.2"} ==> MigratedProfile(name, p) == p)
  {
  }

  lemma ContainerIsCurrentExactly(now: int64, i: Instance)
    ensures var schema := Get(i.config, "user.lxe.schema");
      var flagged := Get(i.config, "user.cri") != "" || Get(i.config, "user.is_cri_container") != "";
      && (InstanceSchemaIsCurrent(MigratedContainer(now, i)) <==>
          schema == "0.5" || (flagged && schema in {"", "0.1", "0.2", "0.3", "0.4"}))
      && (!flagged || schema !in {"", "0.1", "0.2", "0.3", "0.4"} ==> MigratedContainer(now, i) == i)
  {
  }

  /** The migration of a profile: its name becomes the uid of a pod without a schema, the old flag becomes the new one
      and is gone, and every other key stays. */
  lemma MigratedProfileExactly(name: string, p: Profile)
    requires Get(p.config, "user.cri") != "" || Get(p.config, "user.is_cri_sandbox") != ""
    requires Get(p.config, "user.lxe.schema") in {"", "0.1", "0.2"}
    ensures var c, c', schema := p.config, MigratedProfile(name, p).config, Get(p.config, "user.lxe.schema");
      && MigratedProfile(name, p).devices == p.devices
      && Get(c', "user.lxe.schema") == "0.3" && "user.is_cri_sandbox" !in c'
      && Get(c', "user.cri") == Get(c, if schema in {"", "0.1"} then "user.is_cri_sandbox" else "user.cri")
      && (if schema == "" then "user.metadata.uid" in c' && c'["user.metadata.uid"] == name
          else ("user.metadata.uid" in c' <==> "user.metadata.uid" in c)
               && Get(c', "user.metadata.uid") == Get(c, "user.metadata.uid"))
      && forall k | k !in {"user.lxe.schema", "user.is_cri_sandbox", "user.cri", "user.metadata.uid"} ::
           (k in c' <==> k in c) && Get(c', k) == Get(c, k)
  {
  }

  /** The migration of a container: the old flag and name become the new ones and are gone, times that are missing are
      filled in, and every other key stays; the first profile moves to the end. */
  lemma MigratedContainerExactly(now: int64, i: Instance)
    requires Get(i.config, "user.cri") != "" || Get(i.config, "user.is_cri_container") != ""
    requires Get(i.config, "user.lxe.schema") in {"", "0.1", "0.2"} && i.profiles != []
    ensures var c, j, schema := i.config, MigratedContainer(now, i), Get(i.config, "user.lxe.schema");
      var c' := j.config;
      && j.devices == i.devices && j.status == i.status && j.profiles == i.profiles[1..] + [i.profiles[0]]
      && Get(c', "user.lxe.schema") == "0.5"
      && "user.is_cri_container" !in c' && "user.containerName" !in c'
      && Get(c', "user.cri") == Get(c, if schema in {"", "0.1"} then "user.is_cri_container" else "user.cri")
      && Get(c', "user.metadata.name") ==
         Get(c, if schema in {"", "0.1"} then "user.containerName" else "user.metadata.name")
      && (forall k | k in {"user.created_at", "user.started_at", "user.finished_at"} ::
           k in c' && (Get(c, k) != "" ==> c'[k] == c[k]))
      && (Get(c, "user.created_at") == "" ==>
           c'["user.created_at"] == if Get(c, "user.started_at") != "" then c["user.started_at"] else FormatInt(now))
      && (forall k | k in {"user.started_at", "user.finished_at"} && Get(c, k) == "" ::
           ParseInt(c'[k]) == Some(-6795364578871345152))
      && forall k | k !in {"user.lxe.schema", "user.cri", "user.metadata.name", "user.is_cri_container",
                           "user.containerName", "user.created_at", "user.started_at", "user.finished_at"} ::
           (k in c' <==> k in c) && Get(c', k) == Get(c, k)
  {
    MigratedProfileList(now, i);
    MigratedKeepsTheRest(now, i);
    MigratedFlag(now, i);
    NameAfter(now, i);
    OldKeysGone(now, i);
    ParseIntOfFormat(ZERO_TIME);
    forall k | k in {CREATED_AT, STARTED_AT, FINISHED_AT} {
      TimeAfter(now, i, k);
    }
    forall k {
      MigratedKey(now, i, k);
    }
    hide MigratedContainer, ParseInt, FormatInt;
  }

  /** From schema 0.3 on only the schema and the order of the profiles change. */
  lemma LaterContainerExactly(now: int64, i: Instance)
    requires Get(i.config, "user.cri") != "" || Get(i.config, "user.is_cri_container") != ""
    requires Get(i.config, "user.lxe.schema") in {"0.3", "0.4"} && i.profiles != []
    ensures MigratedContainer(now, i) ==
      i.(config := i.config["user.lxe.schema" := "0.5"], profiles := i.profiles[1..] + [i.profiles[0]])
  {
  }

  lemma OldKeysGone(now: int64, i: Instance)
    requires OwnedContainer(i) && Get(i.config, SCHEMA) in {"", "0.1", "0.2"}
    ensures OLD_IS_CONTAINER !in MigratedContainer(now, i).config
    ensures OLD_CONTAINER_NAME !in MigratedContainer(now, i).config
  {
    EarlyTexts(i.config);
    ZeroThreeKey(now, AtZeroTwo(i.config), OLD_IS_CONTAINER);
    ZeroThreeKey(now, AtZeroTwo(i.config), OLD_CONTAINER_NAME);
    LaterSteps(ContainerZeroThree(now, AtZeroTwo(i.config)), now);
    hide ContainerZeroOne, ContainerZeroTwo, ContainerZeroThree, ContainerZeroFour, FormatInt;
  }

  /** The step to 0.3 removes the keys that have moved, fills in every time that is missing, the time of creation from
      that of the start if there is one, keeps every time that is there, and touches no other key. */
  lemma ZeroThreeExactly(now: int64, c: Config)
    requires Get(c, SCHEMA) == "0.2"
    ensures var c' := ContainerZeroThree(now, c);
      && OLD_IS_CONTAINER !in c' && OLD_CONTAINER_NAME !in c'
      && (forall key | key in {CREATED_AT, STARTED_AT, FINISHED_AT} ::
           && key in c' && c'[key] != ""
           && (Get(c, key) != "" ==> c'[key] == c[key]))
      && (Get(c, CREATED_AT) == "" ==>
           c'[CREATED_AT] == if Get(c, STARTED_AT) != "" then c[STARTED_AT] else FormatInt(now))
      && (forall key | key in {STARTED_AT, FINISHED_AT} && Get(c, key) == "" :: ParseInt(c'[key]) == Some(ZERO_TIME))
      && (forall key | key !in {SCHEMA, OLD_IS_CONTAINER, OLD_CONTAINER_NAME, CREATED_AT, STARTED_AT, FINISHED_AT} ::
           (key in c' <==> key in c) && Get(c', key) == Get(c, key))
  {
    hide FormatInt, ParseInt, ContainerZeroThree;
    FormatIntIsNotEmpty(now);
    FormatIntIsNotEmpty(ZERO_TIME);
    ParseIntOfFormat(ZERO_TIME);
    forall key {
      ZeroThreeKey(now, c, key);
    }
    hide SCHEMA, OLD_IS_CONTAINER, OLD_CONTAINER_NAME;
  }

  lemma ZeroThreeKey(now: int64, c: Config, key: string)
    requires Get(c, SCHEMA) == "0.2"
    ensures var c' := ContainerZeroThree(now, c);
      if key == SCHEMA then Get(c', key) == "0.3"
      else if key == OLD_IS_CONTAINER || key == OLD_CONTAINER_NAME then key !in c'
      else if key == CREATED_AT then
        key in c' && c'[key] == if Get(c, key) != "" then c[key]
                                else if Get(c, STARTED_AT) != "" then c[STARTED_AT]
                                else FormatInt(now)
      else if key == STARTED_AT || key == FINISHED_AT then
        key in c' && c'[key] == if Get(c, key) != "" then c[key] else FormatInt(ZERO_TIME)
      else (key in c' <==> key in c) && Get(c', key) == Get(c, key)
  {
    hide FormatInt;
  }

  /** A profile is taken for one of the runtime's own after migration exactly if the flag of its schema means true: the
      old flag without a schema and at 0.1, the new flag at 0.2 and 0.3. */
  lemma ProfileIsCRIExactly(name: string, p: Profile)
    ensures IsCRIProfile(MigratedProfile(name, p)) <==> BecomesPod(p.config)
  {
    OwnRecordsExactly(MigratedProfile(name, p), Instance(map[], map[], [], Stopped));
    TrueExactly("");
    hide IsTrue, ParseBool, IsCRIProfile;
  }

  predicate BecomesPod(c: Config) {
    || (Get(c, "user.lxe.schema") in {"", "0.1"} && IsTrue(Get(c, "user.is_cri_sandbox")))
    || (Get(c, "user.lxe.schema") in {"0.2", "0.3"} && IsTrue(Get(c, "user.cri")))
  }

  predicate BecomesContainer(c: Config) {
    || (Get(c, "user.lxe.schema") in {"", "0.1"} && IsTrue(Get(c, "user.is_cri_container")))
    || (Get(c, "user.lxe.schema") in {"0.2", "0.3", "0.4", "0.5"} && IsTrue(Get(c, "user.cri")))
  }

  /** The first four steps lead every known schema before 0.5 to 0.4. */
  lemma SchemaAfter(now: int64, c: Config)
    ensures Get(ContainerBeforeFive(now, c), SCHEMA) == if IsBeforeFive(c) then "0.4" else Get(c, SCHEMA)
  {
    hide FormatInt;
  }

  lemma FlagAfter(now: int64, c: Config)
    ensures Get(ContainerBeforeFive(now, c), IS_CRI) ==
      Get(c, if Get(c, SCHEMA) in {"", "0.1"} then OLD_IS_CONTAINER else IS_CRI)
  {
    hide FormatInt;
  }

  lemma ContainerIsCRIExactly(now: int64, i: Instance)
    ensures IsCRIInstance(MigratedContainer(now, i)) <==> BecomesContainer(i.config)
  {
    OwnRecordsExactly(Profile(map[], map[]), MigratedContainer(now, i));
    TrueExactly("");
    hide IsTrue, ParseBool, MigratedContainer, IsCRIInstance;
    MigratedKeepsTheRest(now, i);
    if !KnownContainerSchema(i.config) {
      UnknownIsKept(now, i);
    }
    if OwnedContainer(i) && KnownContainerSchema(i.config) {
      MigratedFlag(now, i);
    }
  }

  lemma UnknownIsKept(now: int64, i: Instance)
    requires !KnownContainerSchema(i.config)
    ensures MigratedContainer(now, i) == i
  {
  }

  lemma MigratedFlag(now: int64, i: Instance)
    requires OwnedContainer(i) && KnownContainerSchema(i.config)
    ensures var c := MigratedContainer(now, i).config;
      && SCHEMA in c && c[SCHEMA] == SCHEMA_CONTAINER
      && Get(c, IS_CRI) == Get(i.config, if Get(i.config, SCHEMA) in {"", "0.1"} then OLD_IS_CONTAINER else IS_CRI)
  {
    FlagAfter(now, i.config);
    SchemaAfter(now, i.config);
    hide ContainerBeforeFive;
  }

  /** The text of a time loads after the migration: up to 0.2 a missing time is filled in, later it must parse. */
  predicate TimeLoads(c: Config, key: string) {
    if Get(c, SCHEMA) in {"", "0.1", "0.2"} then Get(c, key) == "" || ParseInt(Get(c, key)).Some?
    else ContainerCodec.ParseTime(c, key).Some?
  }

  /** Each text of the container parses, once missing times are filled in, its devices load, and it has a profile. */
  predicate LoadsWhenMigrated(i: Instance) {
    var c := i.config;
    && ContainerCodec.ParseAttempt(c).Some? && ContainerCodec.ParsePrivileged(c).Some?
    && TimeLoads(c, CREATED_AT) && TimeLoads(c, STARTED_AT) && TimeLoads(c, FINISHED_AT)
    && ContainerCodec.ParseOptionalUint(c, CPU_SHARES).Some? && ContainerCodec.ParseOptionalInt(c, CPU_QUOTA).Some?
    && ContainerCodec.ParseOptionalUint(c, CPU_PERIOD).Some?
    && ContainerCodec.ParseOptionalInt(c, MEMORY_LIMIT).Some?
    && DetectAll(i.devices).Ok? && i.profiles != []
  }

  /** A flagged container of a known schema loads after the migration exactly if its texts and devices do and it has a
      profile.  Its pod is then its old first profile, its name the one its schema kept, and its image and labels are
      what they were. */
  lemma MigratedLoadsExactly(now: int64, i: Instance)
    requires Get(i.config, "user.cri") != "" || Get(i.config, "user.is_cri_container") != ""
    requires Get(i.config, "user.lxe.schema") in {"", "0.1", "0.2", "0.3", "0.4", "0.5"}
    ensures ContainerCodec.Decode(MigratedContainer(now, i)).Ok? <==> LoadsWhenMigrated(i)
    ensures ContainerCodec.Decode(MigratedContainer(now, i)).Ok? && i.profiles != [] ==>
      var c, loaded, schema := i.config, ContainerCodec.Decode(MigratedContainer(now, i)).value,
        Get(i.config, "user.lxe.schema");
      && loaded.profiles == (if schema == "0.5" then i.profiles else i.profiles[1..] + [i.profiles[0]])
      && loaded.metadata.name ==
         Get(c, if schema in {"", "0.1"} then "user.containerName" else "user.metadata.name")
      && loaded.image == Get(c, "volatile.base_image") && loaded.labels == Stripped(c, "user.labels")
  {
    hide ContainerCodec.Decode, MigratedContainer, TimeLoads, ContainerCodec.ParseTime, ContainerCodec.ParseAttempt,
         ContainerCodec.ParsePrivileged, ContainerCodec.ParseOptionalUint, ContainerCodec.ParseOptionalInt, Stripped;
    MigratedTexts(now, i);
    MigratedProfileList(now, i);
    ContainerCodec.LoadsExactly(MigratedContainer(now, i));
  }

  lemma MigratedProfileList(now: int64, i: Instance)
    requires OwnedContainer(i)
    ensures MigratedContainer(now, i).profiles == if IsBeforeFive(i.config) then Rotated(i.profiles) else i.profiles
    ensures MigratedContainer(now, i).devices == i.devices
  {
    SchemaAfter(now, i.config);
    hide ContainerBeforeFive;
  }

  /** Each text of a container that loading looks at, after the migration */
  lemma MigratedTexts(now: int64, i: Instance)
    requires OwnedContainer(i) && KnownContainerSchema(i.config)
    ensures var c, c' := i.config, MigratedContainer(now, i).config;
      && ContainerCodec.ParseAttempt(c') == ContainerCodec.ParseAttempt(c)
      && ContainerCodec.ParsePrivileged(c') == ContainerCodec.ParsePrivileged(c)
      && (forall key | key in {CPU_SHARES, CPU_PERIOD} ::
           ContainerCodec.ParseOptionalUint(c', key) == ContainerCodec.ParseOptionalUint(c, key))
      && (forall key | key in {CPU_QUOTA, MEMORY_LIMIT} ::
           ContainerCodec.ParseOptionalInt(c', key) == ContainerCodec.ParseOptionalInt(c, key))
      && (TimeLoads(c, CREATED_AT) && TimeLoads(c, STARTED_AT) && TimeLoads(c, FINISHED_AT) <==>
          && ContainerCodec.ParseTime(c', CREATED_AT).Some? && ContainerCodec.ParseTime(c', STARTED_AT).Some?
          && ContainerCodec.ParseTime(c', FINISHED_AT).Some?)
      && Get(c', META_NAME) == Get(c, if Get(c, SCHEMA) in {"", "0.1"} then OLD_CONTAINER_NAME else META_NAME)
      && Get(c', BASE_IMAGE) == Get(c, BASE_IMAGE) && Stripped(c', LABELS) == Stripped(c, LABELS)
  {
    hide MigratedContainer, KnownContainerSchema, TimeLoads, ContainerCodec.ParseTime, ChangedByMigration,
         ContainerCodec.ParseAttempt, ContainerCodec.ParsePrivileged, ContainerCodec.ParseOptionalUint,
         ContainerCodec.ParseOptionalInt;
    var c, c' := i.config, MigratedContainer(now, i).config;
    forall key {
      MigratedKey(now, i, key);
    }
    TimesAfter(now, i);
    NameAfter(now, i);
    OtherTextsKept(c, c');
  }

  lemma OtherTextsKept(c: Config, c': Config)
    requires forall key | !ChangedByMigration(key) :: (key in c' <==> key in c) && Get(c', key) == Get(c, key)
    ensures ContainerCodec.ParseAttempt(c') == ContainerCodec.ParseAttempt(c)
    ensures ContainerCodec.ParsePrivileged(c') == ContainerCodec.ParsePrivileged(c)
    ensures forall key | key in {CPU_SHARES, CPU_PERIOD} ::
      ContainerCodec.ParseOptionalUint(c', key) == ContainerCodec.ParseOptionalUint(c, key)
    ensures forall key | key in {CPU_QUOTA, MEMORY_LIMIT} ::
      ContainerCodec.ParseOptionalInt(c', key) == ContainerCodec.ParseOptionalInt(c, key)
    ensures Get(c', BASE_IMAGE) == Get(c, BASE_IMAGE) && Stripped(c', LABELS) == Stripped(c, LABELS)
  {
    assert !ChangedByMigration(META_ATTEMPT) && !ChangedByMigration(PRIVILEGED) && !ChangedByMigration(BASE_IMAGE);
    assert !ChangedByMigration(CPU_SHARES) && !ChangedByMigration(CPU_PERIOD);
    assert !ChangedByMigration(CPU_QUOTA) && !ChangedByMigration(MEMORY_LIMIT);
    forall key | HasPrefix(key, LABELS + ".")
      ensures !ChangedByMigration(key)
    {
      ContainerCodec.SectionKey(key);
    }
    hide ChangedByMigration, ParseUint, ParseInt, ParseBool;
    StrippedAgrees(c', c, LABELS);
  }

  /** The keys that the migration of a container can change */
  predicate ChangedByMigration(key: string) {
    key in {SCHEMA, IS_CRI, META_NAME, OLD_IS_CONTAINER, OLD_CONTAINER_NAME, CREATED_AT, STARTED_AT, FINISHED_AT}
  }

  lemma MigratedKey(now: int64, i: Instance, key: string)
    ensures var c, c' := i.config, MigratedContainer(now, i).config;
      !ChangedByMigration(key) ==> (key in c' <==> key in c) && Get(c', key) == Get(c, key)
  {
    hide FormatInt;
  }

  /** The config of an early container when it reaches schema 0.2 */
  function AtZeroTwo(c: Config): Config {
    ContainerZeroTwo(ContainerZeroOne(c))
  }

  lemma EarlyTexts(c: Config)
    requires Get(c, SCHEMA) in {"", "0.1", "0.2"}
    ensures Get(AtZeroTwo(c), SCHEMA) == "0.2"
    ensures forall key | key in {CREATED_AT, STARTED_AT, FINISHED_AT} :: Get(AtZeroTwo(c), key) == Get(c, key)
  {
  }

  lemma LaterSteps(c: Config, now: int64)
    ensures forall key | key != SCHEMA ::
      Get(ContainerZeroFour(c), key) == Get(c, key) && (key in ContainerZeroFour(c) <==> key in c)
  {
  }

  lemma TimesAfter(now: int64, i: Instance)
    requires OwnedContainer(i) && KnownContainerSchema(i.config)
    ensures var c, c' := i.config, MigratedContainer(now, i).config;
      TimeLoads(c, CREATED_AT) && TimeLoads(c, STARTED_AT) && TimeLoads(c, FINISHED_AT) <==>
        && ContainerCodec.ParseTime(c', CREATED_AT).Some? && ContainerCodec.ParseTime(c', STARTED_AT).Some?
        && ContainerCodec.ParseTime(c', FINISHED_AT).Some?
  {
    var c, c' := i.config, MigratedContainer(now, i).config;
    forall key | key in {CREATED_AT, STARTED_AT, FINISHED_AT}
      ensures if Get(c, SCHEMA) in {"", "0.1", "0.2"} then
                && key in c'
                && c'[key] == if Get(c, key) != "" then c[key]
                              else if key != CREATED_AT then FormatInt(ZERO_TIME)
                              else if Get(c, STARTED_AT) != "" then c[STARTED_AT] else FormatInt(now)
              else (key in c' <==> key in c) && Get(c', key) == Get(c, key)
    {
      TimeAfter(now, i, key);
    }
    ParseIntOfFormat(now);
    ParseIntOfFormat(ZERO_TIME);
    hide MigratedContainer, ParseInt, FormatInt, KnownContainerSchema;
    assert CREATED_AT != STARTED_AT && CREATED_AT != FINISHED_AT;
    TimeLoadsExactly(now, c, c', STARTED_AT, FormatInt(ZERO_TIME));
    TimeLoadsExactly(now, c, c', FINISHED_AT, FormatInt(ZERO_TIME));
    TimeLoadsExactly(now, c, c', CREATED_AT, if Get(c, STARTED_AT) != "" then c[STARTED_AT] else FormatInt(now));
    hide TimeLoads, ContainerCodec.ParseTime;
  }

  lemma TimeLoadsExactly(now: int64, c: Config, c': Config, key: string, otherwise: string)
    requires if Get(c, SCHEMA) in {"", "0.1", "0.2"} then
               key in c' && c'[key] == (if Get(c, key) != "" then c[key] else otherwise)
             else (key in c' <==> key in c) && Get(c', key) == Get(c, key)
    ensures Get(c, key) != "" || Get(c, SCHEMA) !in {"", "0.1", "0.2"} ==>
      (TimeLoads(c, key) <==> ContainerCodec.ParseTime(c', key).Some?)
    ensures Get(c, key) == "" && Get(c, SCHEMA) in {"", "0.1", "0.2"} ==>
      TimeLoads(c, key) && ContainerCodec.ParseTime(c', key) == ParseInt(otherwise)
    ensures Get(c, SCHEMA) in {"", "0.1", "0.2"} && Get(c, key) != "" ==>
      (TimeLoads(c, key) <==> ParseInt(c[key]).Some?)
  {
    hide ParseInt;
  }

  lemma LateKey(now: int64, i: Instance, key: string)
    requires OwnedContainer(i) && key != SCHEMA && Get(i.config, SCHEMA) !in {"", "0.1", "0.2"}
    ensures var c, c' := i.config, MigratedContainer(now, i).config;
      (key in c' <==> key in c) && Get(c', key) == Get(c, key)
  {
    hide FormatInt, Default;
  }

  lemma TimeAfter(now: int64, i: Instance, key: string)
    requires OwnedContainer(i) && key in {CREATED_AT, STARTED_AT, FINISHED_AT}
    ensures var c, c' := i.config, MigratedContainer(now, i).config;
      if Get(c, SCHEMA) in {"", "0.1", "0.2"} then
        && key in c'
        && c'[key] == if Get(c, key) != "" then c[key]
                      else if key != CREATED_AT then FormatInt(ZERO_TIME)
                      else if Get(c, STARTED_AT) != "" then c[STARTED_AT] else FormatInt(now)
      else (key in c' <==> key in c) && Get(c', key) == Get(c, key)
  {
    var c := i.config;
    if Get(c, SCHEMA) in {"", "0.1", "0.2"} {
      EarlyTexts(c);
      ZeroThreeKey(now, AtZeroTwo(c), key);
      LaterSteps(ContainerZeroThree(now, AtZeroTwo(c)), now);
      hide ContainerZeroOne, ContainerZeroTwo, ContainerZeroThree, ContainerZeroFour, FormatInt;
    } else {
      LateKey(now, i, key);
    }
  }

  lemma NameAfter(now: int64, i: Instance)
    requires OwnedContainer(i) && KnownContainerSchema(i.config)
    ensures var c, c' := i.config, MigratedContainer(now, i).config;
      Get(c', META_NAME) == Get(c, if Get(c, SCHEMA) in {"", "0.1"} then OLD_CONTAINER_NAME else META_NAME)
  {
    hide FormatInt;
  }

  /** Migrating a migrated record changes nothing, whatever the clock says by then. */
  lemma MigratedIsSettled(name: string, p: Profile, now: int64, later: int64, i: Instance)
    ensures MigratedProfile(name, MigratedProfile(name, p)) == MigratedProfile(name, p)
    ensures MigratedContainer(later, MigratedContainer(now, i)) == MigratedContainer(now, i)
  {
  }

  /** The pod of an old container was its first profile; migration makes that the last one, where it is
      looked for, keeps the others in order, and does so once.  From 0.5 on the list is left alone. */
  lemma RotatedExactlyOnce(now: int64, later: int64, i: Instance)
    requires Get(i.config, "user.cri") != "" || Get(i.config, "user.is_cri_container") != ""
    requires i.profiles != []
    ensures var after := MigratedContainer(now, i).profiles;
      && multiset(after) == multiset(i.profiles)
      && (if Get(i.config, "user.lxe.schema") in {"", "0.1", "0.2", "0.3", "0.4"}
          then SandboxID(after) == i.profiles[0] && after[..|after| - 1] == i.profiles[1..]
          else after == i.profiles)
      && MigratedContainer(later, MigratedContainer(now, i)).profiles == after
  {
    SchemaAfter(now, i.config);
    SchemaAfter(later, MigratedContainer(now, i).config);
    hide ContainerBeforeFive;
    assert i.profiles == [i.profiles[0]] + i.profiles[1..];
  }

  // ---------- The whole store ----------

  /** Some records are migrated, the others as they were. */
  ghost predicate PartlyProfiles(before: map<string, Profile>, after: map<string, Profile>) {
    && after.Keys == before.Keys
    && forall n | n in before :: after[n] in {before[n], MigratedProfile(n, before[n])}
  }

  ghost predicate PartlyContainers(now: int64, before: map<string, Instance>, after: map<string, Instance>) {
    && after.Keys == before.Keys
    && forall n | n in before :: after[n] in {before[n], MigratedContainer(now, before[n])}
  }

  /** However far a run got, migration leads to the same records from there. */
  lemma Resumable(now: int64, profiles: map<string, Profile>, profiles': map<string, Profile>,
                  containers: map<string, Instance>, containers': map<string, Instance>)
    requires PartlyProfiles(profiles, profiles') && PartlyContainers(now, containers, containers')
    ensures MigratedProfiles(profiles') == MigratedProfiles(profiles)
    ensures MigratedContainers(now, containers') == MigratedContainers(now, containers)
  {
    hide MigratedProfile, MigratedContainer;
    forall n | n in profiles
      ensures MigratedProfile(n, profiles'[n]) == MigratedProfile(n, profiles[n])
    {
      MigratedIsSettled(n, profiles[n], now, now, Instance(map[], map[], [], Stopped));
    }
    forall n | n in containers
      ensures MigratedContainer(now, containers'[n]) == MigratedContainer(now, containers[n])
    {
      MigratedIsSettled(n, Profile(map[], map[]), now, now, containers[n]);
    }
  }

  /** The code panics on an owned container of an old schema without profiles. */
  predicate HasProfiles(containers: map<string, Instance>) {
    forall n | n in containers && OwnedContainer(containers[n]) && IsBeforeFive(containers[n].config) ::
      containers[n].profiles != []
  }

  method MigrateProfile(name: string, p: Profile) returns (p': Profile, changed: bool)
    requires OwnedProfile(p)
    ensures p' == MigratedProfile(name, p) && changed == (p' != p)
  {
    var o := new ProfileObject(name, p);
    var counter := 0;
    var done := o.EnsureZeroOne();
    if done { counter := counter + 1; }
    done := o.EnsureZeroTwo();
    if done { counter := counter + 1; }
    done := o.EnsureZeroThree();
    if done { counter := counter + 1; }
    p', changed := Profile(o.config, o.devices), counter > 0;
    assert Get(p'.config, SCHEMA) != Get(p.config, SCHEMA) <==> changed;
  }

  method MigrateContainer(name: string, i: Instance, now: int64) returns (i': Instance, changed: bool)
    requires OwnedContainer(i)
    requires IsBeforeFive(i.config) ==> i.profiles != []
    ensures i' == MigratedContainer(now, i) && changed == (i' != i)
  {
    hide FormatInt, Default;
    var o := new ContainerObject(name, i);
    var counter := 0;
    var done := o.EnsureZeroOne();
    if done { counter := counter + 1; }
    done := o.EnsureZeroTwo();
    if done { counter := counter + 1; }
    done := o.EnsureZeroThree(now);
    if done { counter := counter + 1; }
    done := o.EnsureZeroFour();
    if done { counter := counter + 1; }
    done := o.EnsureZeroFive();
    if done { counter := counter + 1; }
    i', changed := Instance(o.config, o.devices, o.profiles, o.status), counter > 0;
    assert Get(i'.config, SCHEMA) != Get(i.config, SCHEMA) <==> changed;
  }

  /** The first loop of Ensure, over the profiles as they were listed, in any order */
  method EnsureProfiles(server: Server, listed: map<string, Profile>) returns (err: Option<Error>)
    requires listed == server.profiles
    modifies server`profiles, server`requests
    ensures err.None? ==> server.profiles == MigratedProfiles(listed)
    ensures PartlyProfiles(listed, server.profiles)
    ensures err.Some? ==> !server.reliable
    ensures old(server.requests) <= server.requests
    ensures forall r | r in server.requests[|old(server.requests)|..] ::
      r.PutProfile? && r.name in listed && MigratedProfile(r.name, listed[r.name]) != listed[r.name]
  {
    hide MigratedProfile;
    err := None;
    var todo := listed.Keys;
    while todo != {}
      invariant err.None? && todo <= listed.Keys == server.profiles.Keys
      invariant forall n | n in listed ::
        server.profiles[n] == if n in todo then listed[n] else MigratedProfile(n, listed[n])
      invariant old(server.requests) <= server.requests
      invariant forall r | r in server.requests[|old(server.requests)|..] ::
        r.PutProfile? && r.name in listed && MigratedProfile(r.name, listed[r.name]) != listed[r.name]
    {
      var n :| n in todo;
      if OwnedProfile(listed[n]) {
        var p, changed := MigrateProfile(n, listed[n]);
        if changed {
          err := server.UpdateProfile(n, p, NoETag);
          if err.Some? { return; }
        }
      } else {
        NotOwnedIsKept(n, listed[n]);
      }
      todo := todo - {n};
    }
  }

  lemma NotOwnedIsKept(name: string, p: Profile)
    requires !OwnedProfile(p)
    ensures MigratedProfile(name, p) == p
  {
  }

  method EnsureContainer(server: Server, name: string, now: int64) returns (err: Option<Error>)
    requires name in server.containers
    requires OwnedContainer(server.containers[name]) && IsBeforeFive(server.containers[name].config) ==>
      server.containers[name].profiles != []
    modifies server`containers, server`requests
    ensures var i := old(server.containers)[name];
      && server.containers == (if err.None? then old(server.containers)[name := MigratedContainer(now, i)]
         else old(server.containers))
      && server.requests == old(server.requests) + (if MigratedContainer(now, i) != i then [PutContainer(name)] else [])
    ensures err.Some? ==> !server.reliable
  {
    hide MigratedContainer, OwnedContainer, Get, IsBeforeFive;
    err := None;
    var listed := server.containers[name];
    MigratedKeepsTheRest(now, listed);
    if OwnedContainer(listed) {
      var i, changed := MigrateContainer(name, listed, now);
      if changed {
        err := server.UpdateContainer(name, i, NoETag);
      }
    }
  }

  /** The second loop of Ensure, over the containers */
  method EnsureContainers(server: Server, listed: map<string, Instance>, now: int64) returns (err: Option<Error>)
    requires listed == server.containers && HasProfiles(listed)
    modifies server`containers, server`requests
    ensures err.None? ==> server.containers == MigratedContainers(now, listed)
    ensures PartlyContainers(now, listed, server.containers)
    ensures err.Some? ==> !server.reliable
    ensures old(server.requests) <= server.requests
    ensures forall r | r in server.requests[|old(server.requests)|..] ::
      r.PutContainer? && r.name in listed && MigratedContainer(now, listed[r.name]) != listed[r.name]
  {
    hide MigratedContainer;
    err := None;
    var todo := listed.Keys;
    while todo != {}
      invariant err.None? && todo <= listed.Keys == server.containers.Keys
      invariant forall n | n in listed ::
        server.containers[n] == if n in todo then listed[n] else MigratedContainer(now, listed[n])
      invariant old(server.requests) <= server.requests
      invariant forall r | r in server.requests[|old(server.requests)|..] ::
        r.PutContainer? && r.name in listed && MigratedContainer(now, listed[r.name]) != listed[r.name]
    {
      var n :| n in todo;
      err := EnsureContainer(server, n, now);
      if err.Some? { return; }
      todo := todo - {n};
    }
  }

  lemma MigratedKeepsTheRest(now: int64, i: Instance)
    ensures MigratedContainer(now, i).status == i.status && MigratedContainer(now, i).devices == i.devices
    ensures !OwnedContainer(i) ==> MigratedContainer(now, i) == i
  {
  }

  /** MigrationWorkspace.Ensure: on success every record is migrated, after a failure every record is
      either migrated or as it was, and only records that change are written. */
  method Ensure(server: Server, now: int64) returns (err: Option<Error>)
    requires HasProfiles(server.containers)
    modifies server`profiles, server`containers, server`requests
    ensures err.None? ==> server.profiles == MigratedProfiles(old(server.profiles))
    ensures err.None? ==> server.containers == MigratedContainers(now, old(server.containers))
    ensures PartlyProfiles(old(server.profiles), server.profiles)
    ensures PartlyContainers(now, old(server.containers), server.containers)
    ensures forall n | n in old(server.profiles)
                       && Get(old(server.profiles)[n].config, "user.cri") == ""
                       && Get(old(server.profiles)[n].config, "user.is_cri_sandbox") == "" ::
      server.profiles[n] == old(server.profiles)[n]
    ensures forall n | n in old(server.containers)
                       && Get(old(server.containers)[n].config, "user.cri") == ""
                       && Get(old(server.containers)[n].config, "user.is_cri_container") == "" ::
      server.containers[n] == old(server.containers)[n]
    ensures err.None? ==> forall n | n in old(server.profiles) ::
      IsCRIProfile(server.profiles[n]) <==> BecomesPod(old(server.profiles)[n].config)
    ensures err.None? ==> forall n | n in old(server.containers) ::
      IsCRIInstance(server.containers[n]) <==> BecomesContainer(old(server.containers)[n].config)
    ensures forall n | n in old(server.containers) ::
      && server.containers[n].status == old(server.containers)[n].status
      && server.containers[n].devices == old(server.containers)[n].devices
    ensures server.reliable ==> err.None?
    ensures old(server.requests) <= server.requests
    ensures forall r | r in server.requests[|old(server.requests)|..] ::
      if r.PutProfile? then
        r.name in old(server.profiles)
          && MigratedProfile(r.name, old(server.profiles)[r.name]) != old(server.profiles)[r.name]
      else
        && r.PutContainer? && r.name in old(server.containers)
        && MigratedContainer(now, old(server.containers)[r.name]) != old(server.containers)[r.name]
  {
    hide MigratedProfile, MigratedContainer, BecomesPod, BecomesContainer, IsCRIProfile, IsCRIInstance;
    OwnersExactly(now, server.profiles, server.containers);
    var profiles := server.GetProfiles();
    if profiles.Err? { return Some(profiles.error); }
    err := EnsureProfiles(server, profiles.value);
    OthersAreKept(now, old(server.profiles), server.profiles, old(server.containers), server.containers);
    if err.Some? { return; }
    var containers := server.GetContainers();
    if containers.Err? { return Some(containers.error); }
    err := EnsureContainers(server, containers.value, now);
    OthersAreKept(now, old(server.profiles), server.profiles, old(server.containers), server.containers);
  }

  /** However far a run got, records that are not the runtime's own are as they were, and so are the devices and the
      status of every container. */
  lemma OthersAreKept(now: int64, profiles: map<string, Profile>, profiles': map<string, Profile>,
                      containers: map<string, Instance>, containers': map<string, Instance>)
    requires PartlyProfiles(profiles, profiles') && PartlyContainers(now, containers, containers')
    ensures forall n | n in profiles && Get(profiles[n].config, "user.cri") == ""
                       && Get(profiles[n].config, "user.is_cri_sandbox") == "" :: profiles'[n] == profiles[n]
    ensures forall n | n in containers && Get(containers[n].config, "user.cri") == ""
                       && Get(containers[n].config, "user.is_cri_container") == "" :: containers'[n] == containers[n]
    ensures forall n | n in containers ::
      containers'[n].status == containers[n].status && containers'[n].devices == containers[n].devices
  {
    hide MigratedProfile, MigratedContainer;
    forall n | n in profiles && !OwnedProfile(profiles[n]) {
      NotOwnedIsKept(n, profiles[n]);
    }
    forall n | n in containers {
      MigratedKeepsTheRest(now, containers[n]);
    }
  }

  lemma OwnersExactly(now: int64, profiles: map<string, Profile>, containers: map<string, Instance>)
    ensures forall n | n in profiles ::
      IsCRIProfile(MigratedProfile(n, profiles[n])) <==> BecomesPod(profiles[n].config)
    ensures forall n | n in containers ::
      IsCRIInstance(MigratedContainer(now, containers[n])) <==> BecomesContainer(containers[n].config)
  {
    hide MigratedProfile, MigratedContainer, BecomesPod, BecomesContainer, IsCRIProfile, IsCRIInstance;
    forall n | n in profiles {
      ProfileIsCRIExactly(n, profiles[n]);
    }
    forall n | n in containers {
      ContainerIsCRIExactly(now, containers[n]);
    }
  }

  lemma PartlyHasProfiles(now: int64, before: map<string, Instance>, after: map<string, Instance>)
    requires PartlyContainers(now, before, after) && HasProfiles(before)
    ensures HasProfiles(after)
  {
  }

  /** A run that is repeated after a failure reaches the records of an uninterrupted run. */
  method EnsureTwice(server: Server, now: int64) returns (first: Option<Error>, second: Option<Error>)
    requires HasProfiles(server.containers)
    modifies server`profiles, server`containers, server`requests
    ensures second.None? ==> server.profiles == MigratedProfiles(old(server.profiles))
    ensures second.None? ==> server.containers == MigratedContainers(now, old(server.containers))
  {
    hide MigratedProfile, MigratedContainer;
    first := Ensure(server, now);
    Resumable(now, old(server.profiles), server.profiles, old(server.containers), server.containers);
    PartlyHasProfiles(now, old(server.containers), server.containers);
    second := Ensure(server, now);
  }

  lemma MigratedMapsAreSettled(now: int64, later: int64, profiles: map<string, Profile>,
                               containers: map<string, Instance>)
    ensures forall n | n in MigratedProfiles(profiles) ::
      MigratedProfile(n, MigratedProfiles(profiles)[n]) == MigratedProfiles(profiles)[n]
    ensures forall n | n in MigratedContainers(now, containers) ::
      MigratedContainer(later, MigratedContainers(now, containers)[n]) == MigratedContainers(now, containers)[n]
  {
    hide MigratedProfile, MigratedContainer;
    forall n | n in profiles
      ensures MigratedProfile(n, MigratedProfile(n, profiles[n])) == MigratedProfile(n, profiles[n])
    {
      MigratedIsSettled(n, profiles[n], now, later, Instance(map[], map[], [], Stopped));
    }
    forall n | n in containers
      ensures MigratedContainer(later, MigratedContainer(now, containers[n])) == MigratedContainer(now, containers[n])
    {
      MigratedIsSettled(n, Profile(map[], map[]), now, later, containers[n]);
    }
  }

  lemma EmptyOrNot<T>(s: seq<T>)
    ensures s == [] || exists x :: x in s
  {
    if s != [] {
      assert s[0] in s;
    }
  }

  /** A run over migrated records, at whatever later time, sends no request at all. */
  method EnsureMigrated(server: Server, later: int64, ghost now: int64, ghost profiles: map<string, Profile>,
                        ghost containers: map<string, Instance>)
    returns (err: Option<Error>)
    requires HasProfiles(server.containers)
    requires server.profiles == MigratedProfiles(profiles) && server.containers == MigratedContainers(now, containers)
    modifies server`profiles, server`containers, server`requests
    ensures server.requests == old(server.requests)
    ensures server.profiles == old(server.profiles) && server.containers == old(server.containers)
  {
    hide MigratedProfile, MigratedContainer;
    MigratedMapsAreSettled(now, later, profiles, containers);
    err := Ensure(server, later);
    var sent := server.requests[|old(server.requests)|..];
    assert server.requests == old(server.requests) + sent;
    EmptyOrNot(sent);
  }
}
