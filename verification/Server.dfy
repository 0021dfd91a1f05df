/** What LXD stores: profiles and containers. */
module Records {
  import opened Wrappers
  import opened Text
  import opened ConfigKeys
  import opened ConfigStores
  import opened Devices

  /** time.Time{}.UnixNano(), the stored form of a time that was never set */
  const ZERO_TIME: int := -6795364578871345152

  datatype Profile = Profile(config: Config, devices: map<string, Options>)

  datatype Status = Running | Stopped | Stopping | Aborting | Frozen

  datatype Instance = Instance(config: Config, devices: map<string, Options>, profiles: seq<string>, status: Status)

  /** An ETag is a hash of the record it was read with.  Hashes are taken to be collision free, so the
      model uses the record itself; `NoETag` is the empty string. */
  datatype ETag = NoETag | ProfileTag(profile: Profile) | InstanceTag(instance: Instance)

  /** The pod of a container: its last profile (Container.SandboxID) */
  function SandboxID(profiles: seq<string>): string
    requires profiles != []
  {
    profiles[|profiles| - 1]
  }

  // ---------- Which records belong to the runtime (lxf/criobject.go, lxf/schema.go) ----------

  predicate ProfileSchemaIsCurrent(p: Profile) {
    SCHEMA in p.config && p.config[SCHEMA] == SCHEMA_PROFILE
  }

  predicate InstanceSchemaIsCurrent(i: Instance) {
    SCHEMA in i.config && i.config[SCHEMA] == SCHEMA_CONTAINER
  }

  predicate SaysCRI(c: Config) {
    IS_CRI in c && ParseBool(c[IS_CRI]) == Some(true)
  }

  predicate IsCRIProfile(p: Profile) {
    ProfileSchemaIsCurrent(p) && SaysCRI(p.config)
  }

  predicate IsCRIInstance(i: Instance) {
    InstanceSchemaIsCurrent(i) && SaysCRI(i.config)
  }

  /** The texts that mean true */
  predicate IsTrue(text: string) {
    text in {"1", "t", "T", "TRUE", "true", "True"}
  }

  /** A record belongs to the runtime exactly if it has the current schema of its kind and a flag that means true. */
  lemma OwnRecordsExactly(p: Profile, i: Instance)
    ensures IsCRIProfile(p) <==> Get(p.config, "user.lxe.schema") == "0.3" && IsTrue(Get(p.config, "user.cri"))
    ensures IsCRIInstance(i) <==> Get(i.config, "user.lxe.schema") == "0.5" && IsTrue(Get(i.config, "user.cri"))
  {
    TrueExactly(Get(p.config, IS_CRI));
    TrueExactly(Get(i.config, IS_CRI));
    hide ParseBool, IsTrue;
  }

  lemma TrueExactly(text: string)
    ensures ParseBool(text) == Some(true) <==> IsTrue(text)
    ensures !IsTrue("")
  {
    var yes := ["1", "t", "T", "TRUE", "true", "True"];
    assert yes[0] == "1" && yes[1] == "t" && yes[2] == "T" && yes[3] == "TRUE" && yes[4] == "true" && yes[5] == "True";
  }
}

/** The requests the runtime sends to LXD, and what LXD does with them. */
module Lxd {
  import opened Wrappers
  import opened Records

  /** A request that can change something, as LXD receives it: for removals also what LXD finds */
  datatype Request =
    | PostProfile(name: string)
    | PutProfile(name: string)
    | RemoveProfile(name: string, inUse: bool)
    | PostContainer(name: string)
    | PutContainer(name: string)
    | PutState(name: string, start: bool, force: bool)
    | RemoveContainer(name: string, status: Status)
    | PostAlias(name: string)
    | RemoveAlias(name: string)
    | CopyImage(fingerprint: string)

  /** A profile as it is read: the record, its ETag and the containers that use it */
  datatype StoredProfile = StoredProfile(record: Profile, tag: ETag, usedBy: seq<string>)

  datatype Alias = Alias(name: string, target: string)

  /** What waiting for a change of state reports */
  datatype Wait = Done | AlreadyStopped | Failed

  class Server {
    var profiles: map<string, Profile>
    var containers: map<string, Instance>
    var aliases: map<string, string>
    var images: set<string>
    var requests: seq<Request>

    /** A reliable server carries out every request it does not refuse. */
    const reliable: bool

    constructor (reliable: bool)
      ensures profiles == map[] && containers == map[] && aliases == map[] && images == {} && requests == []
      ensures this.reliable == reliable
    {
      profiles, containers, aliases, images, requests := map[], map[], map[], {}, [];
      this.reliable := reliable;
    }

    predicate InUse(profile: string)
      reads `containers
    {
      exists n | n in containers :: profile in containers[n].profiles
    }

    // ---------- Profiles ----------

    method GetProfile(name: string) returns (r: Result<StoredProfile>)
      ensures r.Ok? ==>
        name in profiles && r.value.record == profiles[name] && r.value.tag == ProfileTag(profiles[name])
      ensures r.Ok? ==> forall n :: n in r.value.usedBy <==> n in containers && name in containers[n].profiles
      ensures r.Ok? ==> forall i, j | 0 <= i < j < |r.value.usedBy| :: r.value.usedBy[i] != r.value.usedBy[j]
      ensures r.Err? ==> if r.error == NotFound then name !in profiles else r.error == Unavailable && !reliable
    {
      var lost := Lost(reliable);
      if lost { return Err(Unavailable); }
      if name !in profiles { return Err(NotFound); }
      var usedBy := [];
      var todo := containers.Keys;
      while todo != {}
        invariant todo <= containers.Keys
        invariant forall n :: n in usedBy <==> n in containers && n !in todo && name in containers[n].profiles
        invariant forall i, j | 0 <= i < j < |usedBy| :: usedBy[i] != usedBy[j]
      {
        var n :| n in todo;
        if name in containers[n].profiles {
          usedBy := usedBy + [n];
        }
        todo := todo - {n};
      }
      r := Ok(StoredProfile(profiles[name], ProfileTag(profiles[name]), usedBy));
    }

    method GetProfiles() returns (r: Result<map<string, Profile>>)
      ensures r.Ok? ==> r.value == profiles
      ensures r.Err? ==> r.error == Unavailable && !reliable
    {
      var lost := Lost(reliable);
      r := if lost then Err(Unavailable) else Ok(profiles);
    }

    method GetContainers() returns (r: Result<map<string, Instance>>)
      ensures r.Ok? ==> r.value == containers
      ensures r.Err? ==> r.error == Unavailable && !reliable
    {
      var lost := Lost(reliable);
      r := if lost then Err(Unavailable) else Ok(containers);
    }

    method CreateProfile(name: string, p: Profile) returns (err: Option<Error>)
      modifies this`profiles, this`requests
      ensures requests == old(requests) + [PostProfile(name)]
      ensures err.None? ==> name !in old(profiles) && profiles == old(profiles)[name := p]
      ensures err.Some? ==> profiles == old(profiles)
      ensures err.Some? ==> if err.value == Refused then name in profiles else err.value == Unavailable && !reliable
    {
      requests := requests + [PostProfile(name)];
      var lost := Lost(reliable);
      if lost { return Some(Unavailable); }
      if name in profiles { return Some(Refused); }
      profiles := profiles[name := p];
      err := None;
    }

    /** A non-empty ETag must be that of the stored record. */
    method UpdateProfile(name: string, p: Profile, tag: ETag) returns (err: Option<Error>)
      modifies this`profiles, this`requests
      ensures requests == old(requests) + [PutProfile(name)]
      ensures err.None? ==>
        && name in old(profiles) && (tag == NoETag || tag == ProfileTag(old(profiles)[name]))
        && profiles == old(profiles)[name := p]
      ensures err.Some? ==> profiles == old(profiles)
      ensures err.Some? ==>
        match err.value
        case NotFound => name !in profiles
        case Refused => name in profiles && tag != NoETag && tag != ProfileTag(profiles[name])
        case e => e == Unavailable && !reliable
    {
      requests := requests + [PutProfile(name)];
      var lost := Lost(reliable);
      if lost { return Some(Unavailable); }
      if name !in profiles { return Some(NotFound); }
      if tag != NoETag && tag != ProfileTag(profiles[name]) { return Some(Refused); }
      profiles := profiles[name := p];
      err := None;
    }

    method DeleteProfile(name: string) returns (err: Option<Error>)
      modifies this`profiles, this`requests
      ensures requests == old(requests) + [RemoveProfile(name, InUse(name))]
      ensures err.None? ==> name in old(profiles) && !InUse(name) && profiles == old(profiles) - {name}
      ensures err.Some? ==> profiles == old(profiles)
      ensures err.Some? ==>
        match err.value
        case NotFound => name !in profiles
        case Refused => InUse(name)
        case e => e == Unavailable && !reliable
    {
      requests := requests + [RemoveProfile(name, InUse(name))];
      var lost := Lost(reliable);
      if lost { return Some(Unavailable); }
      if name !in profiles { return Some(NotFound); }
      if InUse(name) { return Some(Refused); }
      profiles := profiles - {name};
      err := None;
    }

    // ---------- Containers ----------

    method GetContainer(name: string) returns (r: Result<Instance>)
      ensures r.Ok? ==> name in containers && r.value == containers[name]
      ensures r.Err? ==> if r.error == NotFound then name !in containers else r.error == Unavailable && !reliable
    {
      var lost := Lost(reliable);
      if lost { return Err(Unavailable); }
      if name !in containers { return Err(NotFound); }
      r := Ok(containers[name]);
    }

    /** LXD starts out with a stopped container; its image and profiles must exist. */
    method CreateContainer(name: string, i: Instance, fingerprint: string) returns (err: Option<Error>)
      modifies this`containers, this`requests
      ensures requests == old(requests) + [PostContainer(name)]
      ensures err.None? ==> name !in old(containers) && containers == old(containers)[name := i.(status := Stopped)]
      ensures err.None? ==> fingerprint in images && forall p | p in i.profiles :: p in profiles
      ensures err.Some? ==> containers == old(containers)
      ensures err.Some? ==> err.value == Refused || (err.value == Unavailable && !reliable)
      ensures reliable && name !in old(containers) && fingerprint in images
              && (forall p | p in i.profiles :: p in profiles)
              ==> err.None?
    {
      requests := requests + [PostContainer(name)];
      var lost := Lost(reliable);
      if lost { return Some(Unavailable); }
      if name in containers || fingerprint !in images || exists p | p in i.profiles :: p !in profiles {
        return Some(Refused);
      }
      containers := containers[name := i.(status := Stopped)];
      err := None;
    }

    /** Replaces what the runtime manages; the status stays LXD's own. */
    method UpdateContainer(name: string, i: Instance, tag: ETag) returns (err: Option<Error>)
      modifies this`containers, this`requests
      ensures requests == old(requests) + [PutContainer(name)]
      ensures err.None? ==>
        && name in old(containers) && (tag == NoETag || tag == InstanceTag(old(containers)[name]))
        && containers == old(containers)[name := i.(status := old(containers)[name].status)]
      ensures err.Some? ==> containers == old(containers)
      ensures err.Some? ==>
        match err.value
        case NotFound => name !in containers
        case Refused => name in containers && tag != NoETag && tag != InstanceTag(containers[name])
        case e => e == Unavailable && !reliable
    {
      requests := requests + [PutContainer(name)];
      var lost := Lost(reliable);
      if lost { return Some(Unavailable); }
      if name !in containers { return Some(NotFound); }
      if tag != NoETag && tag != InstanceTag(containers[name]) { return Some(Refused); }
      containers := containers[name := i.(status := containers[name].status)];
      err := None;
    }

    method StartContainer(name: string) returns (err: Option<Error>)
      modifies this`containers, this`requests
      ensures requests == old(requests) + [PutState(name, true, false)]
      ensures err.None? ==> name in old(containers) && old(containers)[name].status == Stopped
      ensures err.None? ==> containers == old(containers)[name := old(containers)[name].(status := Running)]
      ensures err.Some? ==> containers == old(containers)
      ensures err.Some? ==>
        match err.value
        case NotFound => name !in containers
        case Refused => name in containers && containers[name].status != Stopped
        case e => e == Unavailable && !reliable
    {
      requests := requests + [PutState(name, true, false)];
      var lost := Lost(reliable);
      if lost { return Some(Unavailable); }
      if name !in containers { return Some(NotFound); }
      if containers[name].status != Stopped { return Some(Refused); }
      containers := containers[name := containers[name].(status := Running)];
      err := None;
    }

    /** Asks for a container to be stopped: first whether the request is accepted at all, then how the
        operation ended. */
    method RequestStop(name: string, force: bool) returns (err: Option<Error>, wait: Wait)
      modifies this`containers, this`requests
      ensures requests == old(requests) + [PutState(name, false, force)]
      ensures err.Some? ==> containers == old(containers)
      ensures err.Some? ==> if err.value == NotFound then name !in containers else err.value == Unavailable && !reliable
      ensures err.None? ==> name in old(containers)
      ensures err.None? && wait == Done ==>
        containers == old(containers)[name := old(containers)[name].(status := Stopped)]
      ensures err.None? && wait == AlreadyStopped ==>
        containers == old(containers) && containers[name].status == Stopped
      ensures err.None? && wait == Failed ==> containers == old(containers) && !reliable
    {
      requests := requests + [PutState(name, false, force)];
      wait := Failed;
      var lost := Lost(reliable);
      if lost { return Some(Unavailable), wait; }
      if name !in containers { return Some(NotFound), wait; }
      err := None;
      if containers[name].status == Stopped { return err, AlreadyStopped; }
      lost := Lost(reliable);
      if lost { return err, Failed; }
      containers := containers[name := containers[name].(status := Stopped)];
      wait := Done;
    }

    method DeleteContainer(name: string) returns (err: Option<Error>)
      modifies this`containers, this`requests
      ensures requests == old(requests) +
        [RemoveContainer(name, if name in old(containers) then old(containers)[name].status else Stopped)]
      ensures err.None? ==>
        name in old(containers) && old(containers)[name].status == Stopped && containers == old(containers) - {name}
      ensures err.Some? ==> containers == old(containers)
      ensures err.Some? ==>
        match err.value
        case NotFound => name !in containers
        case Refused => name in containers && containers[name].status != Stopped
        case e => e == Unavailable && !reliable
    {
      requests := requests + [RemoveContainer(name, if name in containers then containers[name].status else Stopped)];
      var lost := Lost(reliable);
      if lost { return Some(Unavailable); }
      if name !in containers { return Some(NotFound); }
      if containers[name].status != Stopped { return Some(Refused); }
      containers := containers - {name};
      err := None;
    }

    // ---------- Images ----------

    method GetImage(fingerprint: string) returns (err: Option<Error>)
      ensures err.None? ==> fingerprint in images
      ensures err.Some? ==>
        if err.value == NotFound then fingerprint !in images else err.value == Unavailable && !reliable
    {
      var lost := Lost(reliable);
      if lost { return Some(Unavailable); }
      err := if fingerprint in images then None else Some(NotFound);
    }

    method GetImageAlias(name: string) returns (r: Result<string>)
      ensures r.Ok? ==> name in aliases && r.value == aliases[name]
      ensures r.Err? ==> if r.error == NotFound then name !in aliases else r.error == Unavailable && !reliable
    {
      var lost := Lost(reliable);
      if lost { return Err(Unavailable); }
      r := if name in aliases then Ok(aliases[name]) else Err(NotFound);
    }

    method GetImageAliases() returns (r: Result<seq<Alias>>)
      ensures r.Ok? ==> forall a: Alias :: a in r.value <==> a.name in aliases && a.target == aliases[a.name]
      ensures r.Ok? ==> forall i, j | 0 <= i < j < |r.value| :: r.value[i].name != r.value[j].name
      ensures r.Err? ==> r.error == Unavailable && !reliable
    {
      var lost := Lost(reliable);
      if lost { return Err(Unavailable); }
      var all: seq<Alias> := [];
      var todo := aliases.Keys;
      while todo != {}
        invariant todo <= aliases.Keys
        invariant forall i, j | 0 <= i < j < |all| :: all[i].name != all[j].name
        invariant forall i | 0 <= i < |all| :: all[i].name !in todo
        invariant forall a: Alias :: a in all <==> a.name in aliases && a.name !in todo && a.target == aliases[a.name]
      {
        var n :| n in todo;
        all := all + [Alias(n, aliases[n])];
        todo := todo - {n};
      }
      r := Ok(all);
    }

    method DeleteImageAlias(name: string) returns (err: Option<Error>)
      modifies this`aliases, this`requests
      ensures requests == old(requests) + [RemoveAlias(name)]
      ensures err.None? ==> name in old(aliases) && aliases == old(aliases) - {name}
      ensures err.Some? ==> aliases == old(aliases)
      ensures err.Some? ==> if err.value == NotFound then name !in aliases else err.value == Unavailable && !reliable
    {
      requests := requests + [RemoveAlias(name)];
      var lost := Lost(reliable);
      if lost { return Some(Unavailable); }
      if name !in aliases { return Some(NotFound); }
      aliases := aliases - {name};
      err := None;
    }

    method CreateImageAlias(name: string, target: string) returns (err: Option<Error>)
      modifies this`aliases, this`requests
      ensures requests == old(requests) + [PostAlias(name)]
      ensures err.None? ==> name !in old(aliases) && aliases == old(aliases)[name := target]
      ensures err.Some? ==> aliases == old(aliases)
      ensures err.Some? ==> if err.value == Refused then name in aliases else err.value == Unavailable && !reliable
    {
      requests := requests + [PostAlias(name)];
      var lost := Lost(reliable);
      if lost { return Some(Unavailable); }
      if name in aliases { return Some(Refused); }
      aliases := aliases[name := target];
      err := None;
    }

    method StoreImage(fingerprint: string) returns (err: Option<Error>)
      modifies this`images, this`requests
      ensures requests == old(requests) + [CopyImage(fingerprint)]
      ensures err.None? ==> images == old(images) + {fingerprint}
      ensures err.Some? ==> images == old(images) && err.value == Unavailable && !reliable
    {
      requests := requests + [CopyImage(fingerprint)];
      var lost := Lost(reliable);
      if lost { return Some(Unavailable); }
      images := images + {fingerprint};
      err := None;
    }
  }
}
