# LXE: pods, containers and addresses kept in LXD

LXE is a container runtime that has no database. A pod is an LXD profile, a container is an LXD container, and every
field of either is flattened into LXD's string-to-string config and its devices map. This project models that storage
and what is built on it, and proves that it keeps its promises.

## What is modelled

| File | Content |
|---|---|
| `Text.dfy`, `Wrappers.dfy` | Printing and parsing of numbers and flags, splitting and joining, results |
| `ConfigStore.dfy` | The config keys; merging maps under prefixes into one map and taking them apart again |
| `Device.dfy` | Devices, proxy endpoints, device lists unique by name |
| `Server.dfy` | The records LXD stores, and LXD itself: what it does with each request |
| `SandboxCodec.dfy`, `ContainerCodec.dfy`, `CpuLimits.dfy` | What a pod or a container is stored as, and what it is read back as |
| `Lxf.dfy`, `Lxo.dfy` | The pod and container objects and their methods: load, save, apply, start, stop, delete |
| `Runtime.dfy` | The calls of the container runtime interface on pods and containers |
| `SandboxConcurrency.dfy` | Any interleaving of the load, refresh and update steps of calls on pods |
| `ContainerLifecycle.dfy` | Any sequence of calls and outside events on one container |
| `ContainerConcurrency.dfy` | Any interleaving of the load, change, refresh and update steps of calls on containers |
| `Schema.dfy` | The migration of stored records from older schemas |
| `Images.dfy` | Image names, local aliases and fingerprints |
| `Ip.dfy`, `FindFreeIp.dfy`, `Bridge.dfy` | IPv4 addresses as bytes, the search for a free one, the bridge network plugin |

Objects whose methods change their fields are classes (`Lxf.Sandbox`, `Lxf.Container`, `Schema.ProfileObject`,
`Schema.ContainerObject`, `Bridge.Plugin`, `Lxd.Server`); their methods are proved against functions such as
`SandboxCodec.Encode`, and the properties of the storage are lemmas about these functions.

## Where the code does not keep a promise

Each of these is a theorem, with the exact condition under which the promise is kept where there is one.

- An empty list of nameservers comes back as a list of one empty string, and so does an empty list of search domains,
  each whatever the other one is (`EmptyListsComeBackAsEmptyString`); the cloud-init document of the next save then
  names both. The exact condition for a lossless round trip of a pod is `SandboxCodec.RoundTripExactly`.
- The entries that network plugins add to a pod's cloud-init document are not read back. The next call that loads the
  pod and saves it leaves the nameserver entry and its own entries only (`NextDocument`); a `StopPodSandbox` keeps the
  document exactly if there were no such entries and both lists are non-empty and free of commas
  (`StopKeepsDocumentExactly`).
- The memory limit is never read back: the key it is read from is never written (`MemoryLimitSurvivesAsConfig`).
- `RunPodSandbox` saves its network results after it has fetched a new ETag without the new data. A `StopPodSandbox` in
  between is undone: the pod is ready again (`StopDuringRunIsUndone`), and in any run this is the only way: a pod stored
  as not ready is ready again exactly if an overtaken call on it gets a write accepted (`ReadyAgainExactly`). An update
  of a pod is lost exactly if a call whose refresh found another record than its own last write gets a write accepted
  (`LostExactly`); pods that are there from the start lose nothing (`ExistingPodsLoseNothing`).
- `Container.Start` and `Container.Stop` fetch a new ETag but keep old data. A stop that loaded a container before a
  start of it was saved brings the mark of a container that was never started back (`OverlappingStopRestoresMark`), and
  that is the only way (`MarkComesBackExactly`). A start whose save failed is forgotten by the next stop
  (`UnsavedStartIsForgotten`); the exact condition over calls taken one at a time is `CreatedExactly`.
- The tag `remote/alias:latest` of an image listing parses to the listed image exactly if the remote is known, not
  empty, free of colons, and free of slashes after its first character (`TagParsesExactly`). With a default remote `a/b`
  next to a remote `a`, an accepted name is listed under a tag that names another image (`ListedNameIsOtherImage`).
- The computed CPU allowance is never below the requested share exactly if the period is a multiple of 1000
  (`NoShareIsCutExactly`).
- The search for a free address ends for some stream of random numbers exactly if a free address exists
  (`SearchCanEndExactly`). The code compares bounds with addresses of sixteen bytes: a start of four bytes rejects every
  draw unless it is zero (`ShortStartExactly`), and an end of four bytes is ignored unless it is zero, so that addresses
  above it are returned (`ShortEndExactly`, `FoundBeyondShortEnd`).
- A record of a schema version that the migration does not know is left alone and stays invisible
  (`ProfileIsCurrentExactly`, `ContainerIsCurrentExactly`).
- A paused container has no runtime state of its own: nothing stops it, LXD refuses its removal, and `RemovePodSandbox`
  fails (`RemovePodWithPausedContainer`); the exact condition for success is `Removable`, in the contract of
  `RemovePodSandbox`.

## Assumptions

- An ETag is a collision-free hash of the record it was read with; the model uses the record itself. A non-empty ETag
  that differs from the stored record's makes LXD reject an update.
- LXD stores config values as given, including empty ones; names of containers, profiles and devices are not empty,
  alias names are unique. Where a device without a name would matter, the statement says so (`"" !in devices`).
- LXD refuses to delete a container that is not stopped and a profile that a container uses, to start a container that
  is not stopped, and to create a container without its image or profiles.
- Requests can be lost: a server that is not `reliable` may answer any request with an error and do nothing. A request
  that fails has no effect.
- YAML is any printer and parser pair in which the parser undoes the printer (`Yaml.Lawful`); cloud-init text is an
  uninterpreted function of its entries. The text of IPv6 addresses and ranges is uninterpreted as well.
- Integers are those of a 64-bit platform. Decimal texts of address bytes may have leading zeros, as in the Go release
  the project is built with. The division before rounding up CPU quota and period is exact; floating point agrees with
  it below 2^40.
- The clock, fresh identifiers, random draws, and what network plugins and remote image servers return are parameters.
  One clock value stands for all clock readings of a call.

## Model

| member | source | states |
|---|---|---|
| ConfigStores.ConfigStore.UnreservedMap | lxf/configstore.go:52-62 | The loop keeps exactly the entries whose key is neither reserved nor below a reserved prefix, in any iteration order |
| ConfigStores.Strip | lxf/configstore.go:66-76 | The loop yields exactly the entries below the prefix, under what follows the prefix and a dot |
| ConfigStores.StrippedSection | lxf/container.go:424-430 | Writing a map below a prefix is undone by stripping that prefix, for every map |
| ConfigStores.StrippedAgrees | lxf/configstore.go:66-76 | Stripping depends on nothing but the keys below the prefix |
| ConfigStores.WriteUnreserved | lxf/sandbox.go:270-276 | Foreign config is merged over what was written, except reserved keys |
| ProxyEndpoints.PrintParse | lxf/device/proxy.go:94-143 | Parsing undoes printing exactly for TCP and UDP endpoints whose address has no colon, for every port |
| ProxyEndpoints.ParsePrintParse | lxf/device/proxy.go:118-143 | The printed form of any accepted text parses to the same endpoint |
| ProxyEndpoints.EndpointFormat | lxf/device/proxy.go:94-143 | An endpoint is written as tcp or udp, its address and its port in decimal, with colons between them, and such a text parses to it |
| Devices.DetectOfOptions | lxf/device/device.go:29-43 | Every device type is recovered from its option map, under the name it was stored under |
| Devices.OptionsFormat | lxf/device/disk.go:39-49 | The keys of LXD under which each field of each type of device is stored |
| Devices.DetectsExactly | lxf/device/device.go:29-43 | Options load exactly if their type is one of six, and those of a proxy only if both endpoints parse |
| Devices.SharedNameExactly | lxf/device/disk.go:23-36 | Two devices without names replace each other exactly if they are of one type and have the same path, or source where there is no path, or card name, or endpoint |
| Devices.DetectedIsStorable | lxf/device/proxy.go:50-66 | Whatever loads can be stored and loaded again, and keeps its name |
| Devices.Upsert | lxf/device/device.go:49-61 | The loop overwrites the first device of that name in place, or appends; stated on the list as well |
| Devices.UpsertAllRefines | lxf/device/device.go:49-61 | After any sequence of upserts names are unique and the list stands for the map of last writes |
| Devices.UniqueNamesAreDistinct | lxf/device/device.go:49-61 | The invariant of a device list says that no two devices have one name |
| Devices.StoreDevices | lxf/sandbox.go:314-319 | The loop stores exactly the map that the list stands for |
| Devices.LoadDevices | lxf/lxf_container.go:143-151 | Loading in any order gives a list with unique names that stands for the same map, or fails in any order |
| Devices.ReloadStored | lxf/device/device.go:29-61 | Storing and loading gives the same options under the same names |
| CpuLimits.AllowanceBounds | lxf/container.go:474-480 | For a period of whole milliseconds, Q and P as LXD reads them from the text are at least 1, and Q/P is at least the share and exceeds it by less than 1/P |
| CpuLimits.NoShareIsCutExactly | lxf/container.go:474-480 | For a given period no quota is cut by what LXD reads from the text exactly if the period is a multiple of 1000 |
| CpuLimits.AllowanceReads | lxf/container.go:474-480 | The text of any quota and period reads as Q milliseconds out of P, which are the quota and the period rounded up |
| Records.OwnRecordsExactly | lxf/criobject.go:46-79 | A profile or container is the runtime's own exactly if it has the current schema of its kind and a flag that means true |
| SandboxCodec.ReservedExactly | lxf/sandbox.go:37-53 | The keys, by name and by prefix, that a pod's foreign config cannot use |
| SandboxCodec.EncodedKey | lxf/sandbox.go:237-325 | Where each stored key comes from: no part of a pod hides an entry of another part |
| SandboxCodec.DecodeEncode | lxf/sandbox.go:237-325 | Loading a stored pod gives the pod back, except for cloud-init entries, reserved foreign keys and commas in lists |
| SandboxCodec.RoundTripExactly | lxf/lxf_sandbox.go:69-140 | The round trip is lossless exactly if no foreign key is reserved, both lists are non-empty and comma-free, and nothing is write-only |
| SandboxCodec.EmptyListsComeBackAsEmptyString | lxf/lxf_sandbox.go:101-106 | Each of the two lists, whatever the other one is, comes back as one empty string exactly if it was empty or that already, and the next cloud-init document names both |
| SandboxCodec.StopKeepsDocumentExactly | lxf/lxf_sandbox.go:118 | Loading and stopping a pod keeps its cloud-init document exactly if it has no entries of plugins and both lists are non-empty and comma-free |
| SandboxCodec.WireFormat | lxf/sandbox.go:238-251 | The keys and texts under which other programs find a pod's fields; the record counts as the runtime's own |
| SandboxCodec.CloudInitFormat | lxf/sandbox.go:278-312 | The network document: the nameservers if there are nameservers and search domains, and then the pod's own entries; vendor data that sets the hostname exactly if there is one |
| SandboxCodec.LoadsExactly | lxf/lxf_sandbox.go:69-140 | A profile loads exactly if each of its texts and devices does; which text each field comes from, and what it is without one |
| SandboxCodec.SavedResult | cri/runtime_helpers.go:334-351 | The save of a network result replaces the mode data if it brings any, writes its cards, the last one of a name, appends its entries to the cloud-init document, and touches no other key or device |
| SandboxCodec.LoadedIsStable | lxf/lxf_sandbox.go:69-140 | A loaded pod survives being stored and loaded without loss |
| SandboxCodec.NormalForm | lxf/lxf_sandbox.go:69-140 | Loading and storing twice gives the record of doing it once, and keeps every foreign key |
| SandboxCodec.StopIsIdempotent | cri/runtime.go:285-307 | What StopPodSandbox writes is read back as the same pod, not ready; a repeated one writes the record that is already there |
| ContainerCodec.ReservedExactly | lxf/container.go:37-55 | The keys, by name and by prefix, that a container's own config cannot use |
| ContainerCodec.EncodedKey | lxf/container.go:414-491 | Where each stored key comes from; only computed limits give way, to the container's own config |
| ContainerCodec.DecodeEncode | lxf/lxf_container.go:75-216 | Loading a stored container recovers everything but the memory limit; its config is the unreserved part and the computed limits |
| ContainerCodec.WireFormat | lxf/container.go:414-471 | The keys and texts under which other programs find a container's fields; the record counts as the runtime's own |
| ContainerCodec.RoundTripExactly | lxf/lxf_container.go:75-216 | The round trip is lossless exactly if no foreign key is reserved, every computed limit is set already, the resources are complete but for a memory limit, and the state is the one its status stands for |
| ContainerCodec.LoadsExactly | lxf/lxf_container.go:75-216 | A container loads exactly if each of its texts parses, its devices load and it has a profile |
| ContainerCodec.LoadedFields | lxf/lxf_container.go:75-194 | Which text each field of a loaded container comes from, and what it is without one |
| ContainerCodec.ReadState | lxf/lxf_container.go:199-213 | Running, created, exited or unknown, exactly from LXD's status and the stored mark |
| ContainerCodec.StoredLimits | lxf/container.go:474-487 | The keys LXD enforces are there exactly if the container sets or asks for them; what it asks for is stored as a text of Q and P milliseconds that are the quota and the period rounded up, and as the memory limit in decimal |
| ContainerCodec.StoredShare | lxf/container.go:474-480 | The bounds on the share, for what LXD reads from the stored text |
| ContainerCodec.MemoryLimitSurvivesAsConfig | lxf/lxf_container.go:183-192 | The memory limit never comes back as a resource, only as the config key LXD enforces |
| ContainerCodec.StoredMark | lxf/container.go:342-348 | The mark of a container that was never started is stored, as it is not reserved |
| ContainerLifecycle.MarkedExactly | lxf/container.go:237-281 | After any sequence of calls and events a container that loads still loads, and is marked exactly if it was and none of them was a complete start |
| ContainerLifecycle.CreatedExactly | lxf/lxf_container.go:199-213 | It reads as created exactly if it was marked, none was a complete start, and it is neither running nor paused |
| ContainerLifecycle.StartedIsNeverCreatedAgain | lxf/container.go:237-258 | After a complete start no sequence of calls and events makes the container read as created again |
| ContainerLifecycle.CreatedUntilStarted | lxf/lxf_container.go:199-213 | A new container reads as created through any sequence of calls and events that does not start it |
| ContainerLifecycle.NewIsCreated | lxf/container.go:414-419 | A container that was just created reads as created, now; its record has the time and the mark, and everything else as it was given |
| ContainerLifecycle.CompleteStart | lxf/container.go:237-258 | After a complete start the container runs, was started now, and has no mark; everything else that is read from it stays, but for what storing a loaded container changes |
| ContainerLifecycle.CompleteStop | lxf/container.go:262-281 | After a complete stop the container ended now; everything else stays likewise |
| ContainerLifecycle.TimesExactly | lxf/container.go:237-281 | After any sequence of calls and events the start time is that of the last complete start and the end time that of the last complete stop of a running container, or else what they were; the time of creation never changes |
| ContainerLifecycle.UnsavedStartIsForgotten | lxf/container.go:237-258 | A start whose save failed leaves a container that reads as created after its next stop, whether that stop is saved or not |
| ContainerConcurrency.MarkedExactly | lxf/container.go:208-281 | After any interleaving a container is marked exactly if its last accepted save was a stop's that had loaded a marked record, or, without a save, if it was marked before |
| ContainerConcurrency.MarkComesBackExactly | lxf/container.go:208-219 | A container without the mark gets it back in a run exactly if the save of a stop is accepted whose call had loaded a marked record |
| ContainerConcurrency.MarkStaysAway | lxf/container.go:237-281 | Once no stop in progress has seen the mark, it stays away in every interleaving |
| ContainerConcurrency.OverlappingStopRestoresMark | lxf/container.go:208-281 | A run of a start and a stop, both accepted, after which the started container reads as created and its start time is gone, for every container |
| ContainerConcurrency.StartIsOneEvent | lxf/container.go:237-258 | A start that nothing interrupts is one complete start in the life of the container |
| ContainerConcurrency.StopIsOneEvent | lxf/container.go:262-281 | The same for a stop |
| ContainerLifecycle.LimitsSurvive | lxf/container.go:460-488 | The limits computed at creation are those enforced after any sequence of starts, stops, failures and reloads, in the texts that LXD reads |
| SandboxConcurrency.NextConsistent | lxf/sandbox.go:193-220 | Every step of every call keeps the content it holds tied to the record it stands for |
| SandboxConcurrency.LostExactly | lxf/sandbox.go:180-213 | In any run of any calls an update of a pod is lost exactly if a call whose refresh found another record than its own last write gets a write to that pod accepted |
| SandboxConcurrency.OnlyCreatorLacksTag | lxf/sandbox.go:194-213 | In every state reached after a pod was created, all calls on it but its creator hold the ETag of the record they were computed from |
| SandboxConcurrency.ExistingPodsLoseNothing | cri/runtime_helpers.go:269-351 | In any interleaving of any calls on any pods, a pod that was there from the start loses no update and ends as if the accepted requests had each loaded the record they found and saved it |
| SandboxConcurrency.NotReadyIsFinal | lxf/sandbox.go:216-220 | A pod stored as not ready is never ready again unless an update of that pod is lost, whatever else the calls save |
| SandboxConcurrency.ReadyAgainExactly | lxf/sandbox.go:194-220 | In any run of pod creations, stops and network saves, a pod stored as not ready is ready at some later point exactly if a call on it whose refresh found another record than its own last write gets a write accepted |
| SandboxConcurrency.StoppedPodStaysStopped | lxf/sandbox.go:216-220 | For a pod that was there from the start this holds in every interleaving, without a condition |
| SandboxConcurrency.ModeDataIsKept | cri/runtime_helpers.go:334-351 | Calls whose plugin returns no data keep the mode and the mode data of a pod through every save, unless an update of that pod is lost |
| SandboxConcurrency.StopDuringRunIsUndone | cri/runtime.go:253-272 | Between the two saves of RunPodSandbox a StopPodSandbox is lost, for every pod and every plugin result |
| SandboxConcurrency.CreateThenSaves | cri/runtime.go:234-273 | A creation followed, for each of its saves, by a refresh and an update, with nothing in between, stores the pod with all the saves applied in order |
| SandboxConcurrency.NextDocument | lxf/sandbox.go:278-304 | Any accepted save of a call that loaded the pod leaves a cloud-init document of the nameserver entry and that save's own entries |
| Lxf.Sandbox.ToProfile | lxf/sandbox.go:237-325 | The stored profile is the encoding of the object's content |
| Lxf.Sandbox.Save | lxf/sandbox.go:237-350 | Creates under a new name, or replaces only the record whose ETag the object holds; exactly when it succeeds |
| Lxf.Sandbox.Refresh | lxf/sandbox.go:182-191 | A new ETag and no new data |
| Lxf.Sandbox.Apply | lxf/sandbox.go:194-213 | A new pod becomes ready; the default card is switched off; what is stored and when it succeeds |
| Lxf.Sandbox.Stop | lxf/sandbox.go:216-220 | Only the state changes, over exactly the record whose ETag the object holds |
| Lxf.Sandbox.Delete | lxf/sandbox.go:223-234 | The profile is gone, or was gone already |
| Lxf.Sandbox.Containers | lxf/sandbox.go:153-178 | One object for each container of the pod, looked up once |
| Lxf.ToSandbox | lxf/lxf_sandbox.go:69-140 | Loads exactly when the codec can decode, and holds what it decodes |
| Lxf.GetSandbox | lxf/lxf_sandbox.go:27-38 | Not found exactly for profiles that are missing or not the runtime's own |
| Lxf.Container.MakeConfig | lxf/container.go:414-491 | The config written for a container; a new container gets its mark and creation time |
| Lxf.Container.Save | lxf/container.go:317-385 | Creates from the image the name resolves to, or replaces only the record whose ETag the object holds |
| Lxf.HasImageExactly | lxf/image.go:238-260 | A container has its image exactly if the name parses and its local alias or, as a fingerprint, the image itself is there |
| Lxf.Container.Parent | lxf/container.go:144-172 | The last profile is the pod, looked up once |
| Lxf.Container.Validate | lxf/container.go:299-313 | A usage error exactly for an unprivileged container in a pod with the host's network |
| Lxf.Container.Apply | lxf/container.go:222-234 | What is stored on success and after each failure |
| Lxf.Container.Start | lxf/container.go:237-258 | Nothing, only the running status, or also the record without the mark and with the start time is left behind; on success the stored start time is now; exactly when it succeeds |
| Lxf.Container.Stop | lxf/container.go:262-281 | The same for stopping, with the end time; a missing container is no error; force only after a stop without it; exactly when it ends without an error other than not found |
| Lxf.Container.Delete | lxf/container.go:285-296 | Only a stopped container goes; a missing one is no error |
| Lxf.ToContainer | lxf/lxf_container.go:75-216 | Loads exactly when the codec can decode, and holds what it decodes |
| Lxf.GetContainer | lxf/lxf_container.go:30-41 | Not found exactly for containers that are missing or not the runtime's own |
| Lxo.StopContainer | lxf/lxo/container.go:10-41 | Ends with the container stopped or an error, after at most one more request than retries, only the last with force |
| Runtime.HandleNetworkResult | cri/runtime_helpers.go:334-351 | What a network result changes, saved over exactly the record whose ETag the pod object holds; without lost requests this succeeds |
| Runtime.StopLoaded | cri/runtime_helpers.go:203-219 | Only a running container is touched; on success it is stopped; exactly when it succeeds |
| Runtime.StopContainers | cri/runtime_helpers.go:187-201 | Exactly the running containers of the pod are stopped |
| Runtime.DeleteContainers | cri/runtime_helpers.go:221-235 | Only containers of the pod are removed, each once, and on success all of them |
| Runtime.StopPodSandbox | cri/runtime.go:285-320 | All running containers stopped and the pod stored as not ready, which is its load and update in the concurrent system; a missing pod is no error; exactly when it succeeds |
| Runtime.RemovePodSandbox | cri/runtime.go:324-364 | No request to delete a running container or a used profile; on success the pod and all its containers, and nothing else, are gone, and each of them was running or stopped; a second call changes nothing; exactly when it succeeds |
| Runtime.RemovePodWithPausedContainer | cri/runtime.go:324-364 | With a paused container the call fails, and the pod and that container stay |
| Runtime.StartContainer | cri/runtime.go:653-670 | One start event of the container's life, complete on success: the container then reads as running and started now; it succeeds exactly if the container is stopped, its pod allows it and its image exists |
| Runtime.StopContainer | cri/runtime.go:674-695 | One stop event at most; afterwards the container is not running; a missing one is no error |
| Runtime.RemoveContainer | cri/runtime.go:699-720 | Only a stopped container is removed |
| Runtime.CreateContainer | cri/runtime.go:613-644 | The container is stored as created now and never started; the network result is saved over the record its pod was loaded from, which is a load and an update in the concurrent system |
| Runtime.ContainerStarted | cri/runtime_helpers.go:269-310 | The network result is saved over the record the pod was loaded from, which is a load and an update in the concurrent system |
| Runtime.RunPodSandbox | cri/runtime.go:234-273 | The new pod is stored as ready, created now, with the default card off and first the one and then the other network result applied, which is a creation and its saves in the concurrent system; after a failure nothing or the pod with none, one or both results is there, and nothing else changes; exactly when it succeeds |
| Runtime.LoadThenUpdate | cri/runtime_helpers.go:334-351 | Among whatever other calls, a load followed by an update of the concurrent system is one save of the changed record |
| Schema.ZeroThreeExactly | lxf/schema.go:220-251 | The step to 0.3 removes the keys that have moved, fills in every missing time, keeps every time that is there, and touches no other key |
| Schema.ContainerObject.EnsureZeroFive | lxf/schema.go:277-286 | The first profile moves to the end, only from schema 0.4 |
| Schema.Ensure | lxf/schema.go:71-169 | On success every record is migrated, and is one of the runtime's own exactly by the flag of its old schema; after a failure each is migrated or untouched; records with neither flag never change, and only records that change are written |
| Schema.EnsureTwice | lxf/schema.go:71-169 | A run repeated after a failure reaches the records of an uninterrupted run |
| Schema.EnsureMigrated | lxf/schema.go:71-169 | A run over migrated records sends no request, whatever the clock says |
| Schema.Resumable | lxf/schema.go:79-162 | From any partly migrated store the migration leads to the same records |
| Schema.ProfileIsCurrentExactly | lxf/schema.go:42-68 | A profile is current after migration exactly if it was, or if it has one of the two flags and a known schema; any other is unchanged |
| Schema.ContainerIsCurrentExactly | lxf/schema.go:42-68 | The same for containers |
| Schema.ProfileIsCRIExactly | lxf/schema.go:171-207 | A migrated profile is taken for a pod exactly if the flag of its old schema means true, the old flag up to 0.1 and the new one from 0.2; nothing is assumed of the profile |
| Schema.ContainerIsCRIExactly | lxf/schema.go:209-251 | The same for containers |
| Schema.MigratedProfileExactly | lxf/schema.go:171-207 | Where each key of a migrated profile comes from: its name as the uid of a pod without a schema, the old flag as the new one, every other key unchanged |
| Schema.MigratedContainerExactly | lxf/schema.go:209-286 | Where each key and profile of a migrated container comes from, up to schema 0.2 |
| Schema.LaterContainerExactly | lxf/schema.go:253-286 | From 0.3 on only the schema and the order of the profiles change |
| Schema.OthersAreKept | lxf/schema.go:79-162 | However far a run got, records with neither flag are as they were, and so are the devices and the status of every container |
| Schema.RotatedExactlyOnce | lxf/schema.go:277-286 | The old first profile becomes the pod, the others keep their order, the multiset stays, and it happens once |
| Schema.MigratedLoadsExactly | lxf/schema.go:209-286 | A migrated container loads exactly if its texts parse, its devices load and it has a profile; its pod is then its old first profile |
| Images.NameParsesExactly | lxf/image.go:264-299 | A remote, an alias and any tag parse to exactly this remote and alias if and only if the remote is known, not empty, free of colons, and free of slashes after its first character |
| Images.PlainNameParses | lxf/image.go:264-299 | A name without a slash and a colon is an alias on the default remote, with or without any tag |
| Images.TagParsesExactly | lxf/image.go:231-299 | The listed form of a tag parses to its image exactly if the remote is taggable |
| Images.ListedNameIsSameImageExactly | lxf/image.go:264-299 | An accepted name and its listed tag name the same image exactly if the name writes out a remote that is not empty, or none and the default remote is taggable |
| Images.ListedNameIsOtherImage | lxf/image.go:264-299 | With a default remote whose name contains a slash, accepted names are listed under a tag that parses to another image, for every alias |
| Images.TagsAreDistinct | lxf/image.go:231-233 | Different images of taggable remotes have different local aliases |
| Images.Hash | lxf/image.go:238-260 | The alias's target, else the name itself if it is a fingerprint, else nothing |
| Images.EnsureImageAlias | lxf/image.go:85-124 | The alias then has that target, every other alias is unchanged even on failure, and a correct alias costs no request |
| Images.PullImage | lxf/image.go:22-55 | The name then resolves to the pulled fingerprint and every other alias is unchanged; the fingerprint itself resolves as well, on any remote without an alias of that name |
| IPv4.CompareIsNumeric | network/util.go:47 | Comparing sixteen-byte addresses byte by byte is comparing their numbers |
| IPv4.NetworkIsCanonical | network/lxdbridge.go:164-171 | The network of any address and prefix length has no bits outside its mask and contains the address |
| IPv4.MaskByNumbers | network/lxdbridge.go:164-171 | As a number, the mask of a prefix of n bits is 2^32 - 2^(32 - n) |
| IPv4.SubnetByNumbers | network/lxdbridge.go:164-171 | The network of an address is exactly the range of numbers with the same quotient by 2^(32 - n), from its network to its broadcast address |
| IPv4.ParsePrintedIP | network/lxdbridge.go:192-205 | Dotted decimal text of an address parses back to it |
| IPv4.DottedDecimal | network/lxdbridge.go:216-228 | The text of an address is its four bytes in decimal, most significant first |
| FreeAddresses.TrialIsInSubnet | network/util.go:39-44 | In a canonical subnet the byte sums never carry and every draw gives an address of the subnet |
| FreeAddresses.EveryAddressIsDrawn | network/util.go:39-44 | Every address of the subnet is the trial of some draw |
| FreeAddresses.TrialByNumbers | network/util.go:36-41 | The trial of a draw is the network address plus the remainder, by the size of the subnet, of the draw's bytes taken as an address, least significant first |
| FreeAddresses.FindFreeIP | network/util.go:13-64 | The search returns the first acceptable trial of the stream, and ends on every stream that has one |
| FreeAddresses.FoundIsFree | network/util.go:13-64 | What is found lies in the subnet, is no lease, network or broadcast address, and keeps the bounds that the code enforces for either form of a bound |
| FreeAddresses.SearchCanEndExactly | network/util.go:33-61 | Some draw ends the search exactly if a free address exists in range |
| FreeAddresses.ShortStartExactly | network/util.go:46-49 | A start in its 4-byte form rejects every address exactly if it is not zero |
| FreeAddresses.ShortEndExactly | network/util.go:46-49 | An end in its 4-byte form rejects every address exactly if it is zero, and is otherwise ignored |
| FreeAddresses.FoundBeyondShortEnd | network/util.go:39-49 | The search can then return every unused address above the end |
| Bridge.Plugin.EnsureBridge | network/lxdbridge.go:85-138 | The options the bridge ends up with, under the keys of LXD, and that no other option changes; nothing changes on an error; without lost requests it fails exactly for a text that is no range and for a network that is no bridge |
| Bridge.Plugin.UpdateRuntimeConfig | network/lxdbridge.go:74-81 | A new pod range moves the bridge to its first address, exactly when it is a range and the network is a bridge; without a range nothing happens |
| Bridge.BridgeAddressIsNetworkPlusOne | network/lxdbridge.go:90-96 | By numbers: the bridge has the address after the range's first, the search runs over exactly that range, and yields neither its ends nor the bridge's address |
| Bridge.Plugin.FindFree | network/lxdbridge.go:144-172 | The address found is one of the bridge's range, by numbers, not its first or last, not the bridge's own, and no lease of the server parses to it |
| Bridge.Plugin.WhenCreated | network/lxdbridge.go:209-245 | A pod gets such an address, as mode data and on its card; exactly when it gets one |
| Bridge.ChosenAddressIsReported | cri/runtime.go:437-455 | The address saved by RunPodSandbox is the one the pod status reports after any interleaving of further calls on this pod and all others |
| Bridge.SavedPodHasAddress | cri/runtime_helpers.go:334-351 | The stored devices have the card on the bridge with that address, the default card off, and all other devices unchanged |
| Bridge.SavedPodUsesDHCP | network/lxdbridge.go:229-242 | The stored cloud-init document ends with a card that is configured by DHCP |
| Bridge.RunBridgedPod | cri/runtime.go:236-273 | RunPodSandbox with the bridge plugin, end to end: a pod that runs has a usable address of the range on its card, and its status reports exactly this one, at once and after any interleaving of further calls without mode data |

## Left out

- Streaming, exec, port forwarding, the event listener's reconnects, command line, configuration files, logging: library plumbing.
- Network plugins based on the container network interface: a plugin is any result it returns; results the code ignores do not appear.
- Assembling pods and containers from requests (mounts, port mappings, security context, environment): only fills fields that the model takes as arbitrary.
- Status, listing and statistics calls, and their filters: they only read and would add easy members.
- `ConfigStore.WithReserved` and `WithReservedPrefixes`: the two stores are constants with the resulting key lists.
- Parsing container names out of LXD's links: a profile's users are given as names.
- Image names with line breaks, fingerprints given by a prefix, and aliases on the remote server.
- Removing images, image statistics, IPv6 allocation, address ranges given to the bridge.
- Keys that LXD itself adds to a container's config: stored config is what the runtime wrote.
- The timeouts of stop requests: how long LXD waits does not change what the code does next.
- Unset maps and empty profile lists of old containers, on which the Go code panics, are preconditions (`HasProfiles`).
- Lost updates of containers: the code does not prevent them; what is proved is when they bring the mark back.
- Bridge.ChosenAddressIsReported: speaks of further calls whose plugin returns no mode data, which is what the bridge plugin does for containers.
- Bridge.Plugin.FindFree: a bridge whose own address is an IPv6 one counts as a failed search, where the code would go on with the first four bytes of it.
- SandboxConcurrency.ExistingPodsLoseNothing: the serial execution is stated for pods that are there from the start; the creator of a pod saves write-only entries that no later load returns, so its saves are no loads and saves.
- Runtime.StartContainer: names the exact record left behind only for containers without a device with an empty name, whose place depends on Go's map order.
- Runtime.StopPodSandbox: likewise for the record of the pod.
- Bridge.RunBridgedPod: asks the plugin for an address before the pod is stored, where the code does so right after; a search that fails there leaves the pod without one.
- Runtime.CreateContainer: takes the result of the network plugin as given, although the code asks for it after the container has been stored.
- FreeAddresses.FindFreeIP: termination is proved for streams that contain an acceptable draw; how likely that is for random draws is not modelled.
