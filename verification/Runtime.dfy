/** The calls of the container runtime interface on pods and containers (cri/runtime.go,
    cri/runtime_helpers.go).  Network plugins are represented by the results they return; a result that the
    code ignores does not appear. */
module Runtime {
  import opened Wrappers
  import opened Text
  import opened Records
  import opened Lxd
  import opened Lxf
  import opened ConfigStores
  import opened Devices
  import SandboxConcurrency
  import ContainerLifecycle

  // ---------- Calls and the concurrent system ----------

  /** Whatever other calls are in progress: what the call did to the stored profiles is what its load and its update do
      one after the other in the concurrent system. */
  ghost predicate IsLoadThenUpdate(y: SandboxCodec.Yaml, before: map<string, Profile>, after: map<string, Profile>,
                                   pod: string, w: SandboxConcurrency.Write)
  {
    forall sys: SandboxConcurrency.System, id: nat | sys.profiles == before && id !in sys.calls ::
      SandboxConcurrency.Run(y, sys, [SandboxConcurrency.Load(id, pod, w), SandboxConcurrency.Update(id)]).profiles ==
        after
  }

  lemma LoadThenUpdate(y: SandboxCodec.Yaml, before: map<string, Profile>, pod: string, w: SandboxConcurrency.Write)
    requires pod in before && IsCRIProfile(before[pod]) && SandboxCodec.Decode(y, before[pod]).Ok?
    ensures var s := SandboxCodec.Decode(y, before[pod]).value;
      IsLoadThenUpdate(y, before, before[pod := SandboxCodec.Encode(y, SandboxConcurrency.Change(w, s))], pod, w)
  {
    hide SandboxCodec.Encode, SandboxCodec.Decode, IsCRIProfile, SandboxConcurrency.Change;
    forall sys: SandboxConcurrency.System, id: nat | sys.profiles == before && id !in sys.calls
      ensures SandboxConcurrency.Run(y, sys,
          [SandboxConcurrency.Load(id, pod, w), SandboxConcurrency.Update(id)]).profiles ==
        before[pod := SandboxCodec.Encode(y, SandboxConcurrency.Change(w, SandboxCodec.Decode(y, before[pod]).value))]
    {
      var load, update := SandboxConcurrency.Load(id, pod, w), SandboxConcurrency.Update(id);
      var loaded := SandboxConcurrency.Next(y, sys, load);
      var updated := SandboxConcurrency.Next(y, loaded, update);
      assert [load, update][1..] == [update];
      assert SandboxConcurrency.Run(y, updated, []) == updated;
      assert SandboxConcurrency.Run(y, loaded, [update]) == updated;
    }
  }

  // ---------- Network results ----------

  /** handleNetworkResult */
  method HandleNetworkResult(sb: Sandbox, res: Option<SandboxCodec.NetworkResult>, now: int64)
    returns (err: Option<Error>)
    requires sb.Valid() && sb.id != ""
    modifies sb, sb.client.server`profiles, sb.client.server`requests
    ensures sb.Valid() && sb.id == old(sb.id) && sb.usedBy == old(sb.usedBy) && sb.containers == old(sb.containers)
    ensures res.None? ==>
      && err.None? && sb.Value() == old(sb.Value()) && sb.tag == old(sb.tag)
      && sb.client.server.profiles == old(sb.client.server.profiles)
      && sb.client.server.requests == old(sb.client.server.requests)
    ensures res.Some? ==> sb.Value() == SandboxConcurrency.Change(SandboxConcurrency.Save(res.value), old(sb.Value()))
    ensures res.Some? && err.None? ==>
      && sb.id in old(sb.client.server.profiles) && old(sb.tag) == ProfileTag(old(sb.client.server.profiles)[sb.id])
      && sb.client.server.profiles ==
         old(sb.client.server.profiles)[sb.id := SandboxCodec.Encode(sb.client.yaml, sb.Value())]
      && sb.tag == ProfileTag(sb.client.server.profiles[sb.id]) && Readable(sb.client, sb.client.server.profiles[sb.id])
    ensures res.Some? && err.Some? ==>
      || sb.client.server.profiles == old(sb.client.server.profiles)
      || sb.client.server.profiles ==
         old(sb.client.server.profiles)[sb.id := SandboxCodec.Encode(sb.client.yaml, sb.Value())]
    ensures SandboxCodec.StorableDevices(old(sb.Value())) ==> SandboxCodec.StorableDevices(sb.Value())
    ensures sb.client.server.reliable && sb.client.yaml.Lawful() && SandboxCodec.StorableDevices(old(sb.Value()))
            && sb.id in old(sb.client.server.profiles)
            && old(sb.tag) == ProfileTag(old(sb.client.server.profiles)[sb.id])
            ==> err.None?
  {
    hide SandboxCodec.Encode, Denote, UniqueNames, SandboxCodec.StorableDevices;
    if res.None? { return None; }
    if SandboxCodec.StorableDevices(sb.Value()) {
      SandboxCodec.ResultIsStorable(sb.Value(), res.value);
    }
    UpsertNics(sb, res.value);
    err := sb.Apply("", now);
  }

  /** The part of handleNetworkResult before it saves */
  method UpsertNics(sb: Sandbox, res: SandboxCodec.NetworkResult)
    requires sb.Valid()
    modifies sb`network, sb`devices, sb`cloudInit
    ensures sb.Valid() && sb.Value() == SandboxCodec.WithNetworkResult(old(sb.Value()), res)
  {
    hide Denote, UniqueNames;
    UpsertAllRefines(sb.devices, res.nics);
    if |res.data| > 0 {
      sb.network := sb.network.(modeData := res.data);
    }
    UpsertDevices(sb, res.nics);
    sb.cloudInit := sb.cloudInit + res.entries;
  }

  method UpsertDevices(sb: Sandbox, nics: seq<Device>)
    modifies sb`devices
    ensures sb.devices == UpsertAll(old(sb.devices), nics)
  {
    hide UpsertAll, Upserted;
    assert UpsertAll(old(sb.devices), []) == old(sb.devices) by {
      NoUpserts(sb.devices);
    }
    for i := 0 to |nics|
      invariant sb.devices == UpsertAll(old(sb.devices), nics[..i])
    {
      UpsertOneMore(old(sb.devices), nics[..i], nics[i]);
      assert nics[..i + 1] == nics[..i] + [nics[i]];
      sb.devices := Upsert(sb.devices, nics[i]);
    }
    assert nics[..|nics|] == nics;
  }

  lemma NoUpserts(ds: seq<Device>)
    ensures UpsertAll(ds, []) == ds
  {
  }

  lemma {:induction false} UpsertOneMore(ds: seq<Device>, changes: seq<Device>, d: Device)
    ensures UpsertAll(ds, changes + [d]) == Upserted(UpsertAll(ds, changes), d)
    decreases |changes|
  {
    if changes == [] {
      assert UpsertAll(Upserted(ds, d), []) == Upserted(ds, d);
      assert (changes + [d])[1..] == [];
    } else {
      assert (changes + [d])[1..] == changes[1..] + [d];
      UpsertOneMore(Upserted(ds, changes[0]), changes[1..], d);
    }
  }

  /** The network result is saved over exactly the record the pod was loaded from, and no other profile has changed. */
  ghost predicate ResultSaved(y: SandboxCodec.Yaml, before: map<string, Profile>, after: map<string, Profile>,
                              pod: string, res: SandboxCodec.NetworkResult)
  {
    && pod in before && pod in after && after == before[pod := after[pod]]
    && SandboxCodec.Decode(y, before[pod]).Ok?
    && var s := SandboxCodec.Decode(y, before[pod]).value;
    && ("" !in before[pod].devices ==>
      && after[pod] == SandboxCodec.Encode(y, SandboxConcurrency.Change(SandboxConcurrency.Save(res), s))
      && IsLoadThenUpdate(y, before, after, pod, SandboxConcurrency.Save(res)))
  }

  lemma ResultSaves(y: SandboxCodec.Yaml, before: map<string, Profile>, pod: string, s: SandboxCodec.SandboxData,
                    res: SandboxCodec.NetworkResult)
    requires pod in before && IsCRIProfile(before[pod]) && SandboxCodec.Decode(y, before[pod]).Ok?
    requires "" !in before[pod].devices ==> s == SandboxCodec.Decode(y, before[pod]).value
    ensures ResultSaved(y, before,
      before[pod := SandboxCodec.Encode(y, SandboxConcurrency.Change(SandboxConcurrency.Save(res), s))], pod, res)
  {
    hide SandboxCodec.Encode, SandboxCodec.Decode, IsCRIProfile, IsLoadThenUpdate, SandboxConcurrency.Change;
    LoadThenUpdate(y, before, pod, SandboxConcurrency.Save(res));
  }

  // ---------- Stopping and deleting the containers of a pod ----------

  /** A running container ends stopped, with or without the time of its end saved. */
  ghost predicate StoppedFrom(before: Instance, after: Instance, now: int64) {
    && before.status == Running && after.status == Stopped && after.profiles == before.profiles
    && ("" !in before.devices ==>
      || after == ContainerLifecycle.Next(before, ContainerLifecycle.Stop(now, ContainerLifecycle.OnlyState))
      || after == ContainerLifecycle.Next(before, ContainerLifecycle.Stop(now, ContainerLifecycle.Everything)))
  }

  lemma StopIsStop(i: Instance, v: ContainerCodec.ContainerData, now: int64)
    requires i.status == Running && ContainerCodec.Decode(i).Ok?
    requires v.(devices := ContainerCodec.Decode(i).value.devices) == ContainerCodec.Decode(i).value
    requires "" !in i.devices ==> v == ContainerCodec.Decode(i).value
    ensures v.stateName == ContainerCodec.IsRunning
    ensures StoppedFrom(i, i.(status := Stopped), now)
    ensures StoppedFrom(i, ContainerCodec.Encode(ContainerCodec.StoppedData(v, now), Stopped), now)
  {
    hide ContainerCodec.Encode;
    DecodedStatus(i);
    ContainerCodec.EncodedStatus(ContainerCodec.StoppedData(v, now), Stopped);
  }

  lemma DecodedStatus(i: Instance)
    requires ContainerCodec.Decode(i).Ok?
    ensures ContainerCodec.Decode(i).value.profiles == i.profiles
    ensures ContainerCodec.Decode(i).value.stateName == ContainerCodec.IsRunning <==> i.status == Running
  {
  }

  /** The container loads, and if it is running, saving it once it is stopped does not end in an error that the runtime
      passes on. */
  predicate Stoppable(client: Client, i: Instance)
    reads client.server`profiles
  {
    && ContainerCodec.ReadableContainer(i)
    && (i.status == Running ==>
          var c := ContainerCodec.Decode(i).value;
          SaveIsQuiet(client, i.profiles, c.privileged, c.image))
  }

  lemma LoadedFields(c: Container, client: Client, id: string, i: Instance)
    requires IsLoadedContainer(c, client, id, i)
    ensures var v := ContainerCodec.Decode(i).value;
      c.profiles == i.profiles && c.privileged == v.privileged && c.image == v.image && c.profiles != []
  {
    hide ContainerCodec.Decode;
    ContainerLifecycle.LoadedIsStorable(i);
    DecodedStatus(i);
    var v := c.Value();
    assert v.profiles == c.profiles && v.privileged == c.privileged && v.image == c.image;
  }

  /** stopContainer: only a container that was running when it was loaded is stopped. */
  method StopLoaded(c: Container, now: int64) returns (err: Option<Error>)
    requires c.id != "" && c.id in c.client.server.containers
    requires IsCRIInstance(c.client.server.containers[c.id])
    requires IsLoadedContainer(c, c.client, c.id, c.client.server.containers[c.id])
    modifies c`id, c`tag, c`config, c`createdAt, c`finishedAt, c`sandbox
    modifies c.client.server`containers, c.client.server`requests
    ensures c.id == old(c.id)
    ensures c.client.server.containers.Keys == old(c.client.server.containers.Keys)
    ensures forall n | n in c.client.server.containers && n != c.id ::
      c.client.server.containers[n] == old(c.client.server.containers)[n]
    ensures var before, after := old(c.client.server.containers)[c.id], c.client.server.containers[c.id];
      if before.status == Running then StoppedFrom(before, after, now) || (err.Some? && after == before)
      else after == before && err.None? && c.client.server.requests == old(c.client.server.requests)
    ensures OnlyUpdates(old(c.client.server.requests), c.client.server.requests)
    ensures c.sandbox != null ==> HasReadableParent(c.client, c.profiles)
    ensures c.client.server.reliable ==> (err.None? <==> Stoppable(c.client, old(c.client.server.containers)[c.id]))
  {
    hide ContainerCodec.Encode, ContainerCodec.Decode, Denote, StoppedFrom, ContainerCodec.StoppedData, SaveIsQuiet,
      HasReadableParent, IsCRIInstance, ContainerCodec.StorableDevices;
    ghost var i, v := c.client.server.containers[c.id], c.Value();
    LoadedFields(c, c.client, c.id, i);
    DecodedStatus(i);
    assert c.stateName == v.stateName;
    if c.stateName != ContainerCodec.IsRunning { return None; }
    StopIsStop(i, v, now);
    err := c.Stop(now);
    if err == Some(NotFound) {
      err := None;
    }
  }

  ghost predicate Distinct(names: seq<string>) {
    "" !in names && forall i, j | 0 <= i < j < |names| :: names[i] != names[j]
  }

  /** Running containers with these names are stopped, all others are as they were. */
  ghost predicate Stopping(before: map<string, Instance>, after: map<string, Instance>, names: seq<string>, now: int64,
                           complete: bool)
  {
    && after.Keys == before.Keys
    && forall n | n in before ::
      if n in names && before[n].status == Running
      then StoppedFrom(before[n], after[n], now) || (!complete && after[n] == before[n])
      else after[n] == before[n]
  }

  /** The loop of stopContainers */
  method StopEach(client: Client, cl: seq<Container>, ghost names: seq<string>, now: int64) returns (err: Option<Error>)
    requires AreLoaded(cl, client, names) && Distinct(names)
    modifies cl, client.server`containers, client.server`requests
    ensures forall i | 0 <= i < |cl| :: cl[i].id == names[i]
    ensures Stopping(old(client.server.containers), client.server.containers, names, now, err.None?)
    ensures OnlyUpdates(old(client.server.requests), client.server.requests)
    ensures forall i | 0 <= i < |cl| :: cl[i].profiles == old(client.server.containers)[names[i]].profiles
    ensures forall i | 0 <= i < |cl| :: cl[i].sandbox != null ==> HasReadableParent(client, cl[i].profiles)
    ensures client.server.reliable ==>
      (err.None? <==> forall i | 0 <= i < |cl| :: Stoppable(client, old(client.server.containers)[names[i]]))
  {
    hide IsLoadedContainer, StoppedFrom, IsCRIInstance, Stopping, Stoppable, HasReadableParent, ContainerCodec.Decode;
    LoadedAreReadable(cl, client, names);
    err := None;
    ghost var before := client.server.containers;
    LoadedIds(cl, client, names);
    NothingStopped(before, now);
    for i := 0 to |cl|
      invariant err.None?
      invariant forall j | 0 <= j < |cl| ::
        cl[j].id == names[j] && (i <= j ==> IsLoadedContainer(cl[j], client, names[j], before[names[j]]))
      invariant forall j | 0 <= j < |cl| :: cl[j].profiles == before[names[j]].profiles
      invariant forall j | 0 <= j < |cl| :: cl[j].sandbox != null ==> HasReadableParent(client, cl[j].profiles)
      invariant client.server.reliable ==> forall j | 0 <= j < i :: Stoppable(client, before[names[j]])
      invariant Stopping(before, client.server.containers, names[..i], now, true)
      invariant OnlyUpdates(old(client.server.requests), client.server.requests)
    {
      LoadedClient(cl[i], client, names[i], before[names[i]]);
      ghost var middle := client.server.containers;
      StoppingSoFar(before, middle, names, i, now);
      err := StopLoaded(cl[i], now);
      StoppingStep(before, middle, client.server.containers, names, i, now, err.None?);
      if err.Some? { return; }
    }
    assert names[..|cl|] == names;
  }

  lemma NothingStopped(before: map<string, Instance>, now: int64)
    ensures Stopping(before, before, [], now, true)
  {
  }

  lemma StoppingSoFar(before: map<string, Instance>, middle: map<string, Instance>, names: seq<string>, i: nat,
                      now: int64)
    requires i < |names| && Distinct(names) && names[i] in before && Stopping(before, middle, names[..i], now, true)
    ensures names[i] != "" && names[i] in middle && middle[names[i]] == before[names[i]]
  {
    assert names[i] !in names[..i];
    assert names[i] in names;
  }

  lemma StoppingStep(before: map<string, Instance>, middle: map<string, Instance>, after: map<string, Instance>,
                     names: seq<string>, i: nat, now: int64, complete: bool)
    requires i < |names| && Distinct(names) && names[i] in before && Stopping(before, middle, names[..i], now, true)
    requires after.Keys == middle.Keys && forall n | n in after && n != names[i] :: after[n] == middle[n]
    requires if before[names[i]].status == Running
             then StoppedFrom(before[names[i]], after[names[i]], now)
               || (!complete && after[names[i]] == before[names[i]])
             else after[names[i]] == before[names[i]]
    ensures Stopping(before, after, if complete then names[..i + 1] else names, now, complete)
  {
    hide StoppedFrom;
    assert names[i] in names;
    assert names[..i + 1] == names[..i] + [names[i]];
    assert forall n | n in names[..i] :: n in names;
  }

  lemma LoadedClient(c: Container, client: Client, id: string, i: Instance)
    requires IsLoadedContainer(c, client, id, i)
    ensures c.client == client && c.id == id && c.profiles == i.profiles && c.sandbox == null
  {
    assert c.Value().profiles == c.profiles;
  }

  lemma LoadedIds(cl: seq<Container>, client: Client, names: seq<string>)
    requires AreLoaded(cl, client, names)
    ensures forall i | 0 <= i < |cl| :: cl[i].id == names[i] && cl[i].client == client
    ensures forall i | 0 <= i < |cl| ::
      cl[i].profiles == client.server.containers[names[i]].profiles && cl[i].sandbox == null
  {
    hide IsLoadedContainer;
    forall i | 0 <= i < |cl| {
      LoadedClient(cl[i], client, names[i], client.server.containers[names[i]]);
    }
  }

  /** deleteContainer; the clean-up of the network cannot fail. */
  method DeleteLoaded(c: Container) returns (err: Option<Error>)
    modifies c`sandbox, c.client.server`containers, c.client.server`requests
    ensures c.client.server.requests == old(c.client.server.requests) +
      [Request.RemoveContainer(c.id, if c.id in old(c.client.server.containers)
                                     then old(c.client.server.containers)[c.id].status else Stopped)]
    ensures c.client.server.containers ==
      old(c.client.server.containers) - (if c.id in c.client.server.containers then {} else {c.id})
    ensures err.None? ==> c.id !in c.client.server.containers
    ensures c.id in old(c.client.server.containers) && c.id !in c.client.server.containers ==>
      old(c.client.server.containers)[c.id].status == Stopped
    ensures c.client.server.reliable && c.profiles != []
            && (old(c.sandbox) != null ==> HasReadableParent(c.client, c.profiles)) ==>
      (err.None? <==>
        && HasReadableParent(c.client, c.profiles)
        && (c.id in old(c.client.server.containers) ==> old(c.client.server.containers)[c.id].status == Stopped))
  {
    hide IsLoaded, HasReadableParent;
    err := c.Delete();
    if err.Some? {
      if err.value == NotFound { return None; }
      return;
    }
    var sb := c.Parent();
    err := if sb.Err? then Some(sb.error) else None;
  }

  ghost predicate OnlyRemovals(before: map<string, Instance>, names: set<string>, sent: seq<Request>,
                               sent': seq<Request>) {
    && sent <= sent'
    && forall j | |sent| <= j < |sent'| ::
      && sent'[j].RemoveContainer? && sent'[j].name in names
      && sent'[j].status == if sent'[j].name in before then before[sent'[j].name].status else Stopped
  }

  function SetOf(names: seq<string>): set<string> {
    set n | n in names
  }

  lemma NoRemovals(before: map<string, Instance>, names: set<string>, sent: seq<Request>)
    ensures OnlyRemovals(before, names, sent, sent)
  {
  }

  lemma OneMoreRemoval(before: map<string, Instance>, names: set<string>, name: string, sent: seq<Request>,
                       sent': seq<Request>, sent'': seq<Request>)
    requires OnlyRemovals(before, names, sent, sent') && name in names
    requires sent'' == sent' + [Request.RemoveContainer(name, if name in before then before[name].status else Stopped)]
    ensures OnlyRemovals(before, names, sent, sent'')
  {
  }

  /** The loop of deleteContainers */
  method DeleteEach(client: Client, cl: seq<Container>, ghost names: seq<string>) returns (err: Option<Error>)
    requires |cl| == |names| && Distinct(names)
    requires forall i | 0 <= i < |cl| :: cl[i].id == names[i] && cl[i].client == client
    requires forall i, j | 0 <= i < j < |cl| :: cl[i] != cl[j]
    requires forall i | 0 <= i < |cl| ::
      cl[i].profiles != [] && (cl[i].sandbox != null ==> HasReadableParent(client, cl[i].profiles))
    modifies cl, client.server`containers, client.server`requests
    ensures client.server.containers.Keys <= old(client.server.containers.Keys)
    ensures forall n | n in old(client.server.containers) && n !in SetOf(names) :: n in client.server.containers
    ensures forall n | n in client.server.containers :: client.server.containers[n] == old(client.server.containers)[n]
    ensures forall n | n in old(client.server.containers) && n !in client.server.containers ::
      old(client.server.containers)[n].status == Stopped
    ensures err.None? ==> forall i | 0 <= i < |names| :: names[i] !in client.server.containers
    ensures OnlyRemovals(old(client.server.containers), SetOf(names), old(client.server.requests),
                         client.server.requests)
    ensures client.server.reliable ==>
      (err.None? <==> forall i | 0 <= i < |cl| ::
         && HasReadableParent(client, old(cl[i].profiles))
         && (names[i] in old(client.server.containers) ==> old(client.server.containers)[names[i]].status == Stopped))
  {
    hide HasReadableParent, OnlyRemovals, SetOf, Gap;
    err := None;
    ghost var before := client.server.containers;
    NoRemovals(before, SetOf(names), client.server.requests);
    GapAt(before, names, 0);
    for i := 0 to |cl|
      invariant err.None?
      invariant forall j | 0 <= j < |cl| :: cl[j].id == names[j] && cl[j].profiles == old(cl[j].profiles)
      invariant forall j | i <= j < |cl| :: cl[j].sandbox != null ==> HasReadableParent(client, cl[j].profiles)
      invariant client.server.reliable ==> forall j | 0 <= j < i :: HasReadableParent(client, cl[j].profiles)
      invariant Gap(before, client.server.containers, names, i)
      invariant OnlyRemovals(before, SetOf(names), old(client.server.requests), client.server.requests)
    {
      ghost var middle, sent := client.server.containers, client.server.requests;
      GapUses(before, middle, names, i);
      err := DeleteLoaded(cl[i]);
      OneMoreRemoval(before, SetOf(names), names[i], old(client.server.requests), sent, client.server.requests);
      GapStep(before, middle, client.server.containers, names, i);
      if err.Some? { return; }
    }
    GapUses(before, client.server.containers, names, |cl|);
  }

  /** The first `k` of these containers are gone, each of which was stopped, and all others are as they were. */
  ghost predicate Gap(before: map<string, Instance>, after: map<string, Instance>, names: seq<string>, k: nat)
    requires k <= |names|
  {
    && after == before - SetOf(names[..k])
    && forall j | 0 <= j < k && names[j] in before :: before[names[j]].status == Stopped
  }

  lemma GapAt(before: map<string, Instance>, names: seq<string>, k: nat)
    requires k == 0
    ensures Gap(before, before, names, k)
  {
    assert names[..0] == [];
  }

  lemma GapUses(before: map<string, Instance>, after: map<string, Instance>, names: seq<string>, k: nat)
    requires k <= |names| && Distinct(names) && Gap(before, after, names, k)
    ensures after.Keys <= before.Keys
    ensures forall n | n in before && n !in SetOf(names) :: n in after
    ensures forall n | n in after :: after[n] == before[n]
    ensures forall n | n in before && n !in after :: before[n].status == Stopped
    ensures k < |names| ==> names[k] in SetOf(names) && (names[k] in after <==> names[k] in before)
    ensures forall j | 0 <= j < k :: names[j] !in after
    ensures forall n :: n in SetOf(names) <==> n in names
  {
    assert forall n | n in names[..k] :: n in names;
    if k < |names| {
      assert names[k] in names && names[k] !in names[..k];
    }
    forall n | n in before && n !in after
      ensures before[n].status == Stopped
    {
      var j :| 0 <= j < k && names[j] == n;
    }
    forall j | 0 <= j < k
      ensures names[j] !in after
    {
      assert names[j] in names[..k];
    }
  }

  /** After the next removal, or the failure of it */
  lemma GapStep(before: map<string, Instance>, middle: map<string, Instance>, after: map<string, Instance>,
                names: seq<string>, k: nat)
    requires k < |names| && Distinct(names) && Gap(before, middle, names, k)
    requires after == middle - (if names[k] in after then {} else {names[k]})
    requires names[k] in middle && names[k] !in after ==> middle[names[k]].status == Stopped
    ensures if names[k] in after then Gap(before, after, names, k) else Gap(before, after, names, k + 1)
    ensures after.Keys <= before.Keys
    ensures forall n | n in before && n !in SetOf(names) :: n in after
    ensures forall n | n in after :: after[n] == before[n]
    ensures forall n | n in before && n !in after :: before[n].status == Stopped
  {
    GapUses(before, middle, names, k);
    assert names[..k + 1] == names[..k] + [names[k]];
    assert SetOf(names[..k + 1]) == SetOf(names[..k]) + {names[k]};
  }

  // ---------- Stopping and removing pods ----------

  /** The pod is not there, as far as the runtime is concerned. */
  predicate Gone(profiles: map<string, Profile>, id: string) {
    id !in profiles || !IsCRIProfile(profiles[id])
  }

  /** The containers that use a profile */
  function UsersOf(containers: map<string, Instance>, profile: string): set<string> {
    set n | n in containers && profile in containers[n].profiles
  }

  /** The running containers among these are stopped, all others are as they were. */
  ghost predicate UsersStopping(before: map<string, Instance>, after: map<string, Instance>, id: string, now: int64,
                                complete: bool)
  {
    && after.Keys == before.Keys
    && forall n | n in before ::
      if n in UsersOf(before, id) && before[n].status == Running
      then StoppedFrom(before[n], after[n], now) || (!complete && after[n] == before[n])
      else after[n] == before[n]
  }

  lemma StoppingUsers(before: map<string, Instance>, after: map<string, Instance>, id: string, names: seq<string>,
                      now: int64, complete: bool)
    requires Stopping(before, after, names, now, complete)
    requires forall n :: n in names <==> n in UsersOf(before, id)
    ensures UsersStopping(before, after, id, now, complete)
  {
  }

  lemma NoLessStopped(before: map<string, Instance>, after: map<string, Instance>, id: string, now: int64)
    requires UsersStopping(before, after, id, now, true)
    ensures UsersStopping(before, after, id, now, false)
  {
  }

  lemma NoUserStopped(before: map<string, Instance>, id: string, now: int64)
    ensures UsersStopping(before, before, id, now, false)
  {
  }

  lemma StoppableAreReadable(client: Client, names: seq<string>)
    ensures forall n | n in names && n in client.server.containers && Stoppable(client, client.server.containers[n]) ::
      ContainerCodec.ReadableContainer(client.server.containers[n])
  {
    hide ContainerCodec.ReadableContainer, SaveIsQuiet;
  }

  /** The pod object knows exactly the containers that use the pod. */
  ghost predicate KnowsUsers(sb: Sandbox)
    reads sb, sb.client.server`containers
  {
    && Distinct(sb.usedBy)
    && forall n :: n in sb.usedBy <==> n in UsersOf(sb.client.server.containers, sb.id)
  }

  /** The container objects are those of the containers with these names. */
  ghost predicate Hold(cl: seq<Container>, client: Client, names: seq<string>, containers: map<string, Instance>)
    reads cl
  {
    && |cl| == |names|
    && (forall i | 0 <= i < |cl| ::
         && cl[i].id == names[i] && cl[i].client == client
         && names[i] in containers && cl[i].profiles == containers[names[i]].profiles)
    && (forall i, j | 0 <= i < j < |cl| :: cl[i] != cl[j])
  }

  /** A pod that a container object has looked up is there and loads. */
  ghost predicate KnownParents(cl: seq<Container>, client: Client)
    reads cl, client.server`profiles
  {
    forall c | c in cl :: c.sandbox != null ==> HasReadableParent(client, c.profiles)
  }

  /** stopContainers */
  method StopContainers(sb: Sandbox, now: int64) returns (err: Option<Error>)
    requires sb.containers == None && KnowsUsers(sb)
    modifies sb`containers, sb.client.server`containers, sb.client.server`requests
    ensures UsersStopping(old(sb.client.server.containers), sb.client.server.containers, sb.id, now, err.None?)
    ensures OnlyUpdates(old(sb.client.server.requests), sb.client.server.requests)
    ensures err.None? ==>
      && sb.containers.Some? && fresh(sb.containers.value)
      && Hold(sb.containers.value, sb.client, sb.usedBy, old(sb.client.server.containers))
    ensures sb.client.server.reliable
            ==> (err.None? <==> forall n | n in UsersOf(old(sb.client.server.containers), sb.id) ::
                   Stoppable(sb.client, old(sb.client.server.containers)[n]))
    ensures err.None? ==> KnownParents(sb.containers.value, sb.client)
  {
    hide IsLoadedContainer, Stopping, UsersStopping, Stoppable, ContainerCodec.ReadableContainer, IsCRIInstance,
         HasReadableParent;
    ghost var before := sb.client.server.containers;
    NoUserStopped(before, sb.id, now);
    StoppableAreReadable(sb.client, sb.usedBy);
    var cl := sb.Containers();
    if cl.Err? { return Some(cl.error); }
    LoadedIds(cl.value, sb.client, sb.usedBy);
    err := StopEach(sb.client, cl.value, sb.usedBy, now);
    StoppingUsers(before, sb.client.server.containers, sb.id, sb.usedBy, now, err.None?);
  }

  /** deleteContainers */
  method DeleteContainers(sb: Sandbox, ghost before: map<string, Instance>) returns (err: Option<Error>)
    requires sb.containers.Some? && Hold(sb.containers.value, sb.client, sb.usedBy, before) && Distinct(sb.usedBy)
    requires forall n :: n in sb.usedBy <==> n in UsersOf(before, sb.id)
    requires KnownParents(sb.containers.value, sb.client)
    modifies sb`containers, sb.containers.value, sb.client.server`containers, sb.client.server`requests
    ensures sb.client.server.containers.Keys <= old(sb.client.server.containers.Keys)
    ensures forall n | n in old(sb.client.server.containers) && n !in UsersOf(before, sb.id) ::
      n in sb.client.server.containers
    ensures forall n | n in sb.client.server.containers ::
      sb.client.server.containers[n] == old(sb.client.server.containers)[n]
    ensures forall n | n in old(sb.client.server.containers) && n !in sb.client.server.containers ::
      old(sb.client.server.containers)[n].status == Stopped
    ensures err.None? ==> forall n | n in UsersOf(before, sb.id) :: n !in sb.client.server.containers
    ensures OnlyRemovals(old(sb.client.server.containers), UsersOf(before, sb.id), old(sb.client.server.requests),
                         sb.client.server.requests)
    ensures err.None? ==> forall n | n in UsersOf(before, sb.id) && n in old(sb.client.server.containers) ::
      old(sb.client.server.containers)[n].status == Stopped
    ensures sb.client.server.reliable
            ==> (err.None? <==> forall n | n in UsersOf(before, sb.id) ::
                   && HasReadableParent(sb.client, before[n].profiles)
                   && (n in old(sb.client.server.containers) ==> old(sb.client.server.containers)[n].status == Stopped))
  {
    hide UsersOf, HasReadableParent;
    UsersHaveProfiles(before, sb.id);
    var cl := sb.Containers();
    // these have been looked up before
    assert cl == Ok(old(sb.containers.value));
    err := DeleteEach(sb.client, cl.value, sb.usedBy);
  }

  /** The pod is stored as not ready over exactly the record it was loaded from, and no other profile has changed. */
  ghost predicate StoppedPod(y: SandboxCodec.Yaml, before: map<string, Profile>, after: map<string, Profile>,
                             id: string) {
    && id in before && id in after && after == before[id := after[id]]
    && SandboxCodec.Decode(y, before[id]).Ok?
    && SandboxCodec.StateOf(after[id]) == SandboxCodec.NotReady
    && ("" !in before[id].devices ==>
      && after[id] == SandboxCodec.StoppedRecord(y, before[id])
      && IsLoadThenUpdate(y, before, after, id, SandboxConcurrency.Stop))
  }

  lemma StopSaves(y: SandboxCodec.Yaml, before: map<string, Profile>, id: string, s: SandboxCodec.SandboxData)
    requires id in before && IsCRIProfile(before[id]) && SandboxCodec.Decode(y, before[id]).Ok?
    requires "" !in before[id].devices ==> s == SandboxCodec.Decode(y, before[id]).value
    ensures StoppedPod(y, before, before[id := SandboxCodec.Encode(y, SandboxCodec.StoppedData(s))], id)
  {
    hide SandboxCodec.EncodeConfig, SandboxCodec.Decode, IsCRIProfile, IsLoadThenUpdate;
    SandboxCodec.EncodedHoldsFixedKeys(y, SandboxCodec.StoppedData(s));
    SandboxCodec.EnumsRoundTrip(SandboxCodec.NotReady, s.network.mode);
    LoadThenUpdate(y, before, id, SandboxConcurrency.Stop);
  }

  /** The pod can be stopped: it loads, and every container of it loads and, if it is running, can be stopped. */
  predicate CanStop(client: Client, id: string)
    reads client.server`profiles, client.server`containers
  {
    && id in client.server.profiles && Readable(client, client.server.profiles[id])
    && forall n | n in UsersOf(client.server.containers, id) :: Stoppable(client, client.server.containers[n])
  }

  /** StopPodSandbox: every running container of the pod is stopped, and the pod is stored as not ready over exactly
      the record it was loaded from.  A pod that is gone is left alone, and that is no error. */
  method StopPodSandbox(client: Client, id: string, now: int64) returns (err: Option<Error>)
    requires id != "" && "" !in client.server.containers
    modifies client.server`profiles, client.server`containers, client.server`requests
    ensures Gone(old(client.server.profiles), id) ==>
      && (err.None? || !client.server.reliable)
      && client.server.profiles == old(client.server.profiles)
      && client.server.containers == old(client.server.containers)
      && client.server.requests == old(client.server.requests)
    ensures !Gone(old(client.server.profiles), id) ==>
      UsersStopping(old(client.server.containers), client.server.containers, id, now, err.None?)
    ensures !Gone(old(client.server.profiles), id) && err.None? ==>
      StoppedPod(client.yaml, old(client.server.profiles), client.server.profiles, id)
    ensures err.Some? ==> client.server.profiles == old(client.server.profiles)
    ensures client.server.reliable ==>
      (err.None? <==> Gone(old(client.server.profiles), id) || old(CanStop(client, id)))
  {
    hide SandboxCodec.Decode, SandboxCodec.Encode, IsLoadedContainer, Stopping, UsersStopping, Stoppable, IsCRIProfile,
         StoppedPod, Denote, UniqueNames, UsersOf, ContainerCodec.ReadableContainer, KnownParents, Hold, OnlyUpdates,
         StoppedFrom;
    NoUserStopped(client.server.containers, id, now);
    var sb := GetSandbox(client, id);
    if sb.Err? {
      return if sb.error == NotFound then None else Some(sb.error);
    }
    var pod := sb.value;
    UsersAre(client.server.containers, id, pod.usedBy);
    err := StopContainers(pod, now);
    if err.Some? { return; }
    NoLessStopped(old(client.server.containers), client.server.containers, id, now);
    ghost var v := pod.Value();
    err := pod.Stop();
    StopSaves(client.yaml, old(client.server.profiles), id, v);
  }

  /** Every request that is new removes a container of the pod that is not running, unless it is an update. */
  ghost predicate OrderlyRemoval(before: map<string, Instance>, id: string, sent: seq<Request>, sent': seq<Request>) {
    && sent <= sent'
    && forall j | |sent| <= j < |sent'| ::
      match sent'[j]
      case PutState(_, _, force) => force ==> FollowsGentleStop(sent, sent', j)
      case PutContainer(_) => true
      case RemoveContainer(n, status) =>
        n in UsersOf(before, id) && status == (if before[n].status == Running then Stopped else before[n].status)
      case RemoveProfile(n, inUse) => n == id && !inUse
      case _ => false
  }

  lemma OrderlyUpdates(before: map<string, Instance>, id: string, sent: seq<Request>, sent': seq<Request>)
    requires OnlyUpdates(sent, sent')
    ensures OrderlyRemoval(before, id, sent, sent')
  {
  }

  lemma OrderlyRemovals(before: map<string, Instance>, middle: map<string, Instance>, id: string, now: int64,
                        sent: seq<Request>, sent': seq<Request>, sent'': seq<Request>)
    requires OrderlyRemoval(before, id, sent, sent') && OnlyRemovals(middle, UsersOf(before, id), sent', sent'')
    requires UsersStopping(before, middle, id, now, true)
    ensures OrderlyRemoval(before, id, sent, sent'')
  {
  }

  /** A removal that went no further: some containers of the pod are gone, some running ones are stopped, and
      everything else is as it was. */
  ghost predicate Leftover(before: map<string, Instance>, after: map<string, Instance>, id: string, now: int64) {
    && after.Keys <= before.Keys
    && forall n | n in before ::
      if n !in after then n in UsersOf(before, id) && before[n].status in {Running, Stopped}
      else after[n] == before[n] || (n in UsersOf(before, id) && StoppedFrom(before[n], after[n], now))
  }

  lemma LeftoverIf(before: map<string, Instance>, middle: map<string, Instance>, after: map<string, Instance>,
                   id: string, now: int64, complete: bool)
    requires UsersStopping(before, middle, id, now, complete)
    requires after.Keys <= middle.Keys && forall n | n in after :: after[n] == middle[n]
    requires forall n | n in middle && n !in after :: n in UsersOf(before, id) && middle[n].status == Stopped
    ensures Leftover(before, after, id, now)
    ensures (forall n | n in UsersOf(before, id) :: n !in after) ==>
      after == before - UsersOf(before, id) && UsersOf(after, id) == {}
  {
    hide StoppedFrom;
    if forall n | n in UsersOf(before, id) :: n !in after {
      assert after.Keys == before.Keys - UsersOf(before, id);
    }
  }

  lemma NothingSent(before: map<string, Instance>, id: string, sent: seq<Request>, now: int64)
    ensures OrderlyRemoval(before, id, sent, sent) && Leftover(before, before, id, now)
  {
  }

  /** A container of the pod is stopped now exactly if it was running or stopped before. */
  lemma StoppedNowExactly(before: map<string, Instance>, middle: map<string, Instance>, id: string, now: int64)
    requires UsersStopping(before, middle, id, now, true)
    ensures forall n | n in UsersOf(before, id) ::
      n in middle && (middle[n].status == Stopped <==> before[n].status in {Running, Stopped})
  {
  }

  lemma UsersHaveProfiles(containers: map<string, Instance>, id: string)
    ensures forall n | n in UsersOf(containers, id) :: containers[n].profiles != []
  {
  }

  /** The pod can be removed: it loads, every container of it is running or stopped, loads, and has a pod of its own
      that loads, and those that are running can be stopped. */
  predicate Removable(client: Client, id: string)
    reads client.server`profiles, client.server`containers
  {
    && CanStop(client, id)
    && forall n | n in UsersOf(client.server.containers, id) ::
      && client.server.containers[n].status in {Running, Stopped}
      && HasReadableParent(client, client.server.containers[n].profiles)
  }

  /** RemovePodSandbox: no running container and no profile in use is ever to be removed; when it returns nil the
      pod and all its containers are gone and nothing else has changed.  A pod that is gone is left alone, and
      that is no error. */
  method RemovePodSandbox(client: Client, id: string, now: int64) returns (err: Option<Error>)
    requires id != "" && "" !in client.server.containers
    modifies client.server`profiles, client.server`containers, client.server`requests
    ensures Gone(old(client.server.profiles), id) ==>
      && (err.None? || !client.server.reliable)
      && client.server.profiles == old(client.server.profiles)
      && client.server.containers == old(client.server.containers)
      && client.server.requests == old(client.server.requests)
    ensures !Gone(old(client.server.profiles), id) && err.None? ==>
      && client.server.profiles == old(client.server.profiles) - {id}
      && client.server.containers == old(client.server.containers) - UsersOf(old(client.server.containers), id)
    ensures err.Some? ==>
      && client.server.profiles == old(client.server.profiles)
      && Leftover(old(client.server.containers), client.server.containers, id, now)
    ensures OrderlyRemoval(old(client.server.containers), id, old(client.server.requests), client.server.requests)
    ensures !Gone(old(client.server.profiles), id) && err.None? ==>
      forall n | n in UsersOf(old(client.server.containers), id) ::
        old(client.server.containers)[n].status in {Running, Stopped}
    ensures client.server.reliable ==>
      (err.None? <==> Gone(old(client.server.profiles), id) || old(Removable(client, id)))
  {
    hide SandboxCodec.Decode, IsLoadedContainer, Stopping, UsersStopping, Stoppable, IsCRIProfile, Leftover, UsersOf,
         OrderlyRemoval, OnlyUpdates, OnlyRemovals, Denote, UniqueNames, StoppedFrom, ContainerCodec.ReadableContainer,
         HasReadableParent, KnownParents, Hold;
    ghost var before, sent := client.server.containers, client.server.requests;
    NothingSent(before, id, sent, now);
    var sb := GetSandbox(client, id);
    if sb.Err? {
      return if sb.error == NotFound then None else Some(sb.error);
    }
    var pod := sb.value;
    UsersAre(before, id, pod.usedBy);
    err := StopContainers(pod, now);
    ghost var middle, sent' := client.server.containers, client.server.requests;
    OrderlyUpdates(before, id, sent, sent');
    if err.Some? {
      LeftoverIf(before, middle, middle, id, now, false);
      return;
    }
    StoppedNowExactly(before, middle, id, now);
    err := DeleteContainers(pod, before);
    ghost var sent'' := client.server.requests;
    OrderlyRemovals(before, middle, id, now, sent, sent', sent'');
    LeftoverIf(before, middle, client.server.containers, id, now, true);
    if err.Some? { return; }
    InUseExactly(client.server, id);
    err := pod.Delete();
    OrderlyDelete(before, id, sent, sent'', client.server.requests);
  }

  /** A paused container makes the removal fail: with or without lost requests, the call ends with an error, and the
      pod and the container are still there. */
  method RemovePodWithPausedContainer(client: Client, id: string, now: int64, ghost name: string)
    returns (err: Option<Error>)
    requires id != "" && "" !in client.server.containers && !Gone(client.server.profiles, id)
    requires name in UsersOf(client.server.containers, id) && client.server.containers[name].status == Frozen
    modifies client.server`profiles, client.server`containers, client.server`requests
    ensures err.Some?
    ensures client.server.profiles == old(client.server.profiles)
    ensures name in client.server.containers && client.server.containers[name] == old(client.server.containers)[name]
  {
    err := RemovePodSandbox(client, id, now);
  }

  lemma UsersAre(containers: map<string, Instance>, id: string, names: seq<string>)
    requires forall n :: n in names <==> n in containers && id in containers[n].profiles
    ensures forall n :: n in names <==> n in UsersOf(containers, id)
  {
  }

  lemma InUseExactly(server: Server, id: string)
    ensures server.InUse(id) <==> UsersOf(server.containers, id) != {}
  {
    if server.InUse(id) {
      var n :| n in server.containers && id in server.containers[n].profiles;
      assert n in UsersOf(server.containers, id);
    }
    if UsersOf(server.containers, id) != {} {
      var n :| n in UsersOf(server.containers, id);
    }
  }

  lemma OrderlyDelete(before: map<string, Instance>, id: string, sent: seq<Request>, sent': seq<Request>,
                      sent'': seq<Request>)
    requires OrderlyRemoval(before, id, sent, sent') && sent'' == sent' + [RemoveProfile(id, false)]
    ensures OrderlyRemoval(before, id, sent, sent'')
  {
  }

  // ---------- Containers ----------

  /** The container can be started: it is stopped, it loads, its pod allows it, and its image is there. */
  predicate Startable(client: Client, i: Instance)
    reads client.server`profiles, client.server`aliases, client.server`images
  {
    && i.status == Stopped && ContainerCodec.ReadableContainer(i)
    && var c := ContainerCodec.Decode(i).value;
    && ParentAllows(client, i.profiles, c.privileged) && HasImage(client, c.image)
  }

  /** StartContainer: one start event in the life of the container, complete if the call returns nil */
  method StartContainer(client: Client, id: string, now: int64)
    returns (err: Option<Error>, ghost progress: ContainerLifecycle.Progress)
    requires "" !in client.server.containers
    modifies client.server`containers, client.server`requests
    ensures err.None? ==>
      id in old(client.server.containers) && ContainerCodec.ReadableContainer(old(client.server.containers)[id])
    ensures err.None? ==> progress == ContainerLifecycle.Everything
    ensures err.None? ==>
      && id in client.server.containers
      && var i := client.server.containers[id];
      && i.status == Running && "user.state" !in i.config && Get(i.config, "user.started_at") == FormatInt(now)
      && ContainerCodec.Decode(i).Ok? && ContainerCodec.Decode(i).value.startedAt == now
      && ContainerCodec.Decode(i).value.stateName == ContainerCodec.IsRunning
    ensures id !in old(client.server.containers) || "" !in old(client.server.containers)[id].devices ==>
      client.server.containers ==
        After(old(client.server.containers), id, ContainerLifecycle.Start(now, progress))
    ensures OnlyUpdates(old(client.server.requests), client.server.requests)
    ensures client.server.reliable ==>
      (err.None? <==> id in old(client.server.containers) && old(Startable(client, client.server.containers[id])))
  {
    hide ContainerCodec.Encode, ContainerCodec.Decode, IsCRIInstance, ContainerCodec.StartedData, Denote, UniqueNames,
      ParentAllows, HasImage, ContainerCodec.StorableDevices, FormatInt;
    progress := ContainerLifecycle.Nothing;
    ghost var before := client.server.containers;
    var c := GetContainer(client, id);
    if c.Err? { return Some(c.error), progress; }
    ghost var v := c.value.Value();
    LoadedFields(c.value, client, id, before[id]);
    c.value.ProfilesOfValue();
    ContainerLifecycle.StartedRecord(v, now);
    err := c.value.Start(now);
    progress := Reached(before, client.server.containers, id, Running,
                        ContainerCodec.Encode(ContainerCodec.StartedData(v, now), Running), err.None?);
  }

  /** The containers after an event in the life of one of them */
  function After(containers: map<string, Instance>, id: string, e: ContainerLifecycle.Event): map<string, Instance> {
    if id in containers then containers[id := ContainerLifecycle.Next(containers[id], e)] else containers
  }

  /** How far a call got, from what it left behind */
  ghost function Reached(before: map<string, Instance>, after: map<string, Instance>, id: string, status: Status,
                         saved: Instance, complete: bool): (progress: ContainerLifecycle.Progress)
    requires Outcome(before, after, id, status, saved, complete)
    ensures complete ==> progress == ContainerLifecycle.Everything
    ensures match progress
      case Nothing => after == before
      case OnlyState => id in before && after == before[id := before[id].(status := status)]
      case Everything => id in before && after == before[id := saved]
  {
    if complete then ContainerLifecycle.Everything
    else if after == before then ContainerLifecycle.Nothing
    else if after == before[id := before[id].(status := status)] then ContainerLifecycle.OnlyState
    else ContainerLifecycle.Everything
  }

  /** StopContainer: one stop event in the life of the container.  A container that is gone is left alone, and
      that is no error. */
  method StopContainer(client: Client, id: string, now: int64) returns (err: Option<Error>)
    requires "" !in client.server.containers
    modifies client.server`containers, client.server`requests
    ensures id !in old(client.server.containers) || !IsCRIInstance(old(client.server.containers)[id]) ==>
      && (err.None? || !client.server.reliable)
      && client.server.containers == old(client.server.containers)
      && client.server.requests == old(client.server.requests)
    ensures id in old(client.server.containers) ==>
      && id in client.server.containers
      && client.server.containers == old(client.server.containers)[id := client.server.containers[id]]
      && var before, after := old(client.server.containers)[id], client.server.containers[id];
         after == before || StoppedFrom(before, after, now)
    ensures id in old(client.server.containers) && IsCRIInstance(old(client.server.containers)[id]) && err.None? ==>
      client.server.containers[id].status != Running
    ensures OnlyUpdates(old(client.server.requests), client.server.requests)
  {
    hide ContainerCodec.Decode, IsCRIInstance, Denote, UniqueNames;
    var c := GetContainer(client, id);
    if c.Err? {
      return if c.error == NotFound then None else Some(c.error);
    }
    err := StopLoaded(c.value, now);
  }

  /** RemoveContainer: a container that was not stopped before is not removed; one that is gone is no error. */
  method RemoveContainer(client: Client, id: string) returns (err: Option<Error>)
    modifies client.server`containers, client.server`requests
    ensures err.None? ==>
      id !in client.server.containers || !IsCRIInstance(client.server.containers[id])
    ensures client.server.containers == old(client.server.containers)
      || (&& id in old(client.server.containers) && old(client.server.containers)[id].status == Stopped
          && client.server.containers == old(client.server.containers) - {id})
    ensures id !in old(client.server.containers) ==>
      (err.None? || !client.server.reliable) && client.server.requests == old(client.server.requests)
  {
    hide ContainerCodec.Decode, IsCRIInstance;
    var c := GetContainer(client, id);
    if c.Err? {
      return if c.error == NotFound then None else Some(c.error);
    }
    err := DeleteLoaded(c.value);
  }

  /** CreateContainer, for a container whose fields have been filled in from the request, and the result of the
      network plugin: the new container is stored as one that was never started, and what the plugin hands back
      is saved over exactly the record its pod was loaded from. */
  method CreateContainer(c: Container, newId: string, now: int64, net: Result<Option<SandboxCodec.NetworkResult>>)
    returns (err: Option<Error>)
    requires c.id == "" && newId != "" && c.sandbox == null && c.profiles != [] && SandboxID(c.profiles) != ""
    modifies c, c.client.server`profiles, c.client.server`containers, c.client.server`requests
    ensures err.None? ==>
      && newId !in old(c.client.server.containers)
      && c.client.server.containers ==
         old(c.client.server.containers)[newId :=
           ContainerCodec.Encode(ContainerCodec.NewData(old(c.Value()), now), Stopped)]
      && Get(c.client.server.containers[newId].config, "user.created_at") == FormatInt(now)
      && Get(c.client.server.containers[newId].config, "user.state") == "created"
    ensures err.None? ==>
      && var pod, before := SandboxID(old(c.profiles)), old(c.client.server.profiles);
      && pod in before && Readable(c.client, before[pod])
      && var s := SandboxCodec.Decode(c.client.yaml, before[pod]).value;
      if s.network.mode == SandboxCodec.Host || net == Ok(None) then c.client.server.profiles == before
      else
        net.Ok? && net.value.Some? && ResultSaved(c.client.yaml, before, c.client.server.profiles, pod, net.value.value)
  {
    hide ContainerCodec.Encode, ContainerCodec.NewData, SandboxCodec.Encode, SandboxCodec.Decode,
         SandboxConcurrency.Change, Denote, UniqueNames, Container.Value, IsCRIProfile, ResultSaved, FormatInt;
    NewTexts(c.Value(), now);
    err := c.Apply(newId, now);
    if err.Some? { return; }
    // the pod has been looked up before
    var sb := c.Parent();
    ParentNetwork(sb.value, c.client, c.profiles);
    if sb.value.network.mode != SandboxCodec.Host {
      if net.Err? { return Some(net.error); }
      if net.value.Some? {
        ResultSaves(c.client.yaml, old(c.client.server.profiles), SandboxID(c.profiles), sb.value.Value(),
                    net.value.value);
      }
      err := HandleNetworkResult(sb.value, net.value, now);
    }
  }

  lemma NewTexts(c: ContainerCodec.ContainerData, now: int64)
    ensures var m := ContainerCodec.Encode(ContainerCodec.NewData(c, now), Stopped).config;
      Get(m, "user.created_at") == FormatInt(now) && Get(m, "user.state") == "created"
  {
    hide ContainerCodec.Encode, FormatInt;
    ContainerCodec.TimeTexts(ContainerCodec.NewData(c, now), Stopped);
    ContainerCodec.StoredMark(ContainerCodec.NewData(c, now), Stopped);
  }

  /** ContainerStarted, the handler of the start event, given what the network plugin of the container returns: the
      result is saved over exactly the record the pod was loaded from. */
  method ContainerStarted(c: Container, net: Result<Option<SandboxCodec.NetworkResult>>, now: int64)
    returns (err: Option<Error>)
    requires c.sandbox == null && (c.profiles != [] ==> SandboxID(c.profiles) != "")
    modifies c`sandbox, c.client.server`profiles, c.client.server`requests
    ensures err.None? ==>
      && c.profiles != []
      && var pod, before := SandboxID(c.profiles), old(c.client.server.profiles);
      && pod in before && Readable(c.client, before[pod])
      && var s := SandboxCodec.Decode(c.client.yaml, before[pod]).value;
      if s.network.mode == SandboxCodec.Host || net == Ok(None) then c.client.server.profiles == before
      else
        net.Ok? && net.value.Some? && ResultSaved(c.client.yaml, before, c.client.server.profiles, pod, net.value.value)
  {
    hide SandboxCodec.Encode, SandboxCodec.Decode, SandboxConcurrency.Change, Denote, UniqueNames, IsCRIProfile,
         ResultSaved;
    var sb := c.Parent();
    if sb.Err? { return Some(sb.error); }
    ParentNetwork(sb.value, c.client, c.profiles);
    if sb.value.network.mode != SandboxCodec.Host {
      if net.Err? { return Some(net.error); }
      if net.value.Some? {
        ResultSaves(c.client.yaml, old(c.client.server.profiles), SandboxID(c.profiles), sb.value.Value(),
                    net.value.value);
      }
      err := HandleNetworkResult(sb.value, net.value, now);
    } else {
      err := None;
    }
  }

  // ---------- Running a pod ----------

  /** What RunPodSandbox saves after it has created the pod: the network results that were handed back, in order;
      nothing in a pod with the network of the host */
  function Saves(host: bool, created: Result<Option<SandboxCodec.NetworkResult>>,
                 started: Result<Option<SandboxCodec.NetworkResult>>): seq<SandboxConcurrency.Write>
  {
    if host then [] else SaveOf(created) + SaveOf(started)
  }

  function SaveOf(res: Result<Option<SandboxCodec.NetworkResult>>): seq<SandboxConcurrency.Write> {
    if res.Ok? && res.value.Some? then [SandboxConcurrency.Save(res.value.value)] else []
  }

  /** Whatever other calls are in progress: what the call did to the stored profiles is what the creation of the pod and
      these saves do one after the other in the concurrent system. */
  ghost predicate IsCreateThenSaves(y: SandboxCodec.Yaml, before: map<string, Profile>, after: map<string, Profile>,
                                    pod: string, s: SandboxCodec.SandboxData, saves: seq<SandboxConcurrency.Write>)
  {
    forall sys: SandboxConcurrency.System, id: nat | sys.profiles == before && id !in sys.calls && pod !in sys.used ::
      SandboxConcurrency.Run(y, sys, [SandboxConcurrency.Create(id, pod, s, saves)]
                                     + SandboxConcurrency.SaveSteps(id, |saves|)).profiles == after
  }

  lemma CreateThenSaves(y: SandboxCodec.Yaml, before: map<string, Profile>, pod: string, s: SandboxCodec.SandboxData,
                        now: int64, saves: seq<SandboxConcurrency.Write>)
    requires SandboxConcurrency.Loadable(y, AppliedData(s, true, now), saves)
    ensures IsCreateThenSaves(y, before,
      before[pod := SandboxCodec.Encode(y, SandboxConcurrency.Applied(AppliedData(s, true, now), saves))], pod,
      s.(createdAt := now), saves)
  {
    hide SandboxCodec.Encode, SandboxConcurrency.Run, SandboxConcurrency.Applied, SandboxConcurrency.Loadable;
    assert AppliedData(s, true, now) ==
      SandboxCodec.WithoutDefaultNic(s.(createdAt := now).(state := SandboxCodec.Ready));
    forall sys: SandboxConcurrency.System, id: nat | sys.profiles == before && id !in sys.calls && pod !in sys.used {
      SandboxConcurrency.CreateThenSaves(y, sys, id, pod, s.(createdAt := now), saves);
    }
  }

  /** RunPodSandbox so far: the pod object and the stored profile are what these saves have made of the new pod. */
  ghost predicate SavedSoFar(sb: Sandbox, before: map<string, Profile>, s: SandboxCodec.SandboxData,
                             writes: seq<SandboxConcurrency.Write>)
    reads sb, sb.client.server`profiles
  {
    && sb.Value() == SandboxConcurrency.Applied(s, writes)
    && sb.client.server.profiles == before[sb.id := SandboxCodec.Encode(sb.client.yaml, sb.Value())]
    && sb.tag == ProfileTag(sb.client.server.profiles[sb.id])
    && Readable(sb.client, sb.client.server.profiles[sb.id])
    && SandboxConcurrency.Loadable(sb.client.yaml, s, writes)
  }

  /** One of the two calls of handleNetworkResult in RunPodSandbox */
  method SaveNext(sb: Sandbox, res: Option<SandboxCodec.NetworkResult>, now: int64, ghost before: map<string, Profile>,
                  ghost s: SandboxCodec.SandboxData, ghost writes: seq<SandboxConcurrency.Write>)
    returns (err: Option<Error>)
    requires sb.Valid() && sb.id != "" && SavedSoFar(sb, before, s, writes)
    modifies sb, sb.client.server`profiles, sb.client.server`requests
    ensures sb.Valid() && sb.id == old(sb.id)
    ensures sb.Value() == match res
      case None => old(sb.Value())
      case Some(r) => SandboxCodec.WithoutDefaultNic(SandboxCodec.WithNetworkResult(old(sb.Value()), r))
    ensures err.None? ==> SavedSoFar(sb, before, s, writes + SaveOf(Ok(res)))
    ensures err.Some? ==>
      || sb.client.server.profiles == old(sb.client.server.profiles)
      || sb.client.server.profiles == before[sb.id := SandboxCodec.Encode(sb.client.yaml, sb.Value())]
    ensures SandboxCodec.StorableDevices(old(sb.Value())) ==> SandboxCodec.StorableDevices(sb.Value())
    ensures sb.client.server.reliable && sb.client.yaml.Lawful() && SandboxCodec.StorableDevices(old(sb.Value())) ==>
      err.None?
  {
    hide SandboxCodec.Encode, SandboxCodec.Decode, IsCRIProfile, SandboxConcurrency.Applied,
         SandboxConcurrency.Loadable, Sandbox.Value, UniqueNames, SandboxCodec.StorableDevices,
         SandboxCodec.WithNetworkResult, SandboxCodec.WithoutDefaultNic;
    if res.Some? {
      SandboxConcurrency.OneMoreSave(sb.client.yaml, s, writes, SandboxConcurrency.Save(res.value));
    }
    err := HandleNetworkResult(sb, res, now);
    assert res.None? ==> writes + SaveOf(Ok(res)) == writes;
  }

  /** RunPodSandbox, for a pod whose fields have been filled in from the request, and the results of the network plugin
      for its creation and its start: the pod is stored as ready, created now, with the default card off, and then,
      unless it uses the network of the host, with first the one and then the other result applied.  A call that fails
      leaves nothing, or the pod with none, one or both of the results. */
  method RunPodSandbox(sb: Sandbox, newId: string, now: int64, created: Result<Option<SandboxCodec.NetworkResult>>,
                       started: Result<Option<SandboxCodec.NetworkResult>>)
    returns (err: Option<Error>)
    requires sb.Valid() && sb.id == "" && newId != ""
    modifies sb, sb.client.server`profiles, sb.client.server`requests
    ensures var given, y, before := old(sb.Value()), sb.client.yaml, old(sb.client.server.profiles);
      var new' := given.(state := SandboxCodec.Ready, createdAt := now,
                         devices := given.devices["eth0" := NoDevice("eth0")]);
      var first :=
        if created.Ok? && created.value.Some?
        then SandboxCodec.WithoutDefaultNic(SandboxCodec.WithNetworkResult(new', created.value.value)) else new';
      var second :=
        if started.Ok? && started.value.Some?
        then SandboxCodec.WithoutDefaultNic(SandboxCodec.WithNetworkResult(first, started.value.value)) else first;
      && (err.None? ==>
        && newId !in before
        && (given.network.mode == SandboxCodec.Host || (created.Ok? && started.Ok?))
        && sb.client.server.profiles == before[newId :=
             SandboxCodec.Encode(y, if given.network.mode == SandboxCodec.Host then new' else second)]
        && IsCreateThenSaves(y, before, sb.client.server.profiles, newId, given.(createdAt := now),
             Saves(given.network.mode == SandboxCodec.Host, created, started)))
      && (err.Some? ==>
        || sb.client.server.profiles == before
        || sb.client.server.profiles == before[newId := SandboxCodec.Encode(y, new')]
        || (given.network.mode != SandboxCodec.Host && created.Ok?
            && sb.client.server.profiles == before[newId := SandboxCodec.Encode(y, first)])
        || (given.network.mode != SandboxCodec.Host && created.Ok? && started.Ok?
            && sb.client.server.profiles == before[newId := SandboxCodec.Encode(y, second)]))
    ensures sb.client.server.reliable && sb.client.yaml.Lawful() && SandboxCodec.StorableDevices(old(sb.Value())) ==>
      (err.None? <==>
        && newId !in old(sb.client.server.profiles)
        && (old(sb.network.mode) == SandboxCodec.Host || (created.Ok? && started.Ok?)))
  {
    hide SandboxCodec.Encode, SandboxCodec.Decode, IsCRIProfile, SandboxConcurrency.Applied,
         SandboxConcurrency.Loadable, IsCreateThenSaves, Denote, UniqueNames, SandboxCodec.StorableDevices,
         SandboxCodec.WithNetworkResult;
    ghost var given, before := sb.Value(), sb.client.server.profiles;
    ghost var s, writes := AppliedData(given, true, now), [];
    NoSaves(sb.client.yaml, s);
    AppliedIsStorable(given, now);
    err := sb.Apply(newId, now);
    if err.Some? { return; }
    assert sb.Value().network == given.network;
    hide SandboxCodec.WithoutDefaultNic, Sandbox.Value, AppliedData;
    if sb.network.mode != SandboxCodec.Host {
      hide SavedSoFar;
      if created.Err? { return Some(created.error); }
      err := SaveNext(sb, created.value, now, before, s, writes);
      if err.Some? { return; }
      writes := writes + SaveOf(created);
      if started.Err? { return Some(started.error); }
      err := SaveNext(sb, started.value, now, before, s, writes);
      if err.Some? { return; }
      writes := writes + SaveOf(started);
    }
    assert SavedSoFar(sb, before, s, writes);
    assert writes == Saves(given.network.mode == SandboxCodec.Host, created, started);
    CreateThenSaves(sb.client.yaml, before, newId, given, now, writes);
  }

  lemma AppliedIsStorable(s: SandboxCodec.SandboxData, now: int64)
    ensures SandboxCodec.StorableDevices(s) ==> SandboxCodec.StorableDevices(AppliedData(s, true, now))
    ensures AppliedData(s, true, now) ==
      s.(state := SandboxCodec.Ready, createdAt := now, devices := s.devices["eth0" := NoDevice("eth0")])
  {
  }

  lemma NoSaves(y: SandboxCodec.Yaml, s: SandboxCodec.SandboxData)
    ensures SandboxConcurrency.Applied(s, []) == s && SandboxConcurrency.Loadable(y, s, [])
  {
  }
}
