/** What a sequence of calls does to one stored container.  Calls are taken one at a time here; the module
    ContainerConcurrency has overlapping ones. */
module ContainerLifecycle {
  import opened Wrappers
  import opened Text
  import opened ConfigKeys
  import opened ConfigStores
  import opened Records
  import opened ContainerCodec

  /** How far a call got: LXD refused the change of state, the state changed but the save failed, or all of it */
  datatype Progress = Nothing | OnlyState | Everything

  datatype Event =
    | Start(now: int64, progress: Progress)   // StartContainer
    | Stop(now: int64, progress: Progress)    // StopContainer
    | Reload                                  // status calls and network events only read the container
    | External(status: Status)                // the container exits, or somebody else starts or stops it

  /** The stored record after one call; a record that does not load is left alone. */
  function Next(i: Instance, e: Event): Instance {
    match e
    case Reload => i
    case External(status) => i.(status := status)
    case Start(now, progress) =>
      if Decode(i).Err? || progress == Nothing then i
      else if progress == OnlyState then i.(status := Running)
      else Encode(ContainerCodec.StartedData(Decode(i).value, now), Running)
    case Stop(now, progress) =>
      if Decode(i).Err? || Decode(i).value.stateName != IsRunning || progress == Nothing then i
      else if progress == OnlyState then i.(status := Stopped)
      else Encode(ContainerCodec.StoppedData(Decode(i).value, now), Stopped)
  }

  function Run(i: Instance, events: seq<Event>): Instance
    decreases |events|
  {
    if events == [] then i else Run(Next(i, events[0]), events[1..])
  }

  // ---------- Created, running, exited ----------

  /** The mark disappears with a complete start and otherwise stays as it is. */
  lemma MarkNext(i: Instance, e: Event)
    ensures Marked(Next(i, e)) <==> Marked(i) && !(e.Start? && e.progress.Everything? && Decode(i).Ok?)
  {
    hide Encode, Decode;
    if Decode(i).Ok? {
      var c := Decode(i).value;
      LoadedMark(i);
      if e.Start? {
        StoredMark(StartedData(c, e.now), Running);
      } else if e.Stop? {
        StoredMark(StoppedData(c, e.now), Stopped);
      }
    }
  }

  /** A record that is read as created is marked and not running. */
  lemma ReadAsCreated(i: Instance)
    requires Decode(i).Ok?
    ensures Decode(i).value.stateName == IsCreated <==> Marked(i) && i.status in {Stopped, Stopping, Aborting}
  {
    hide ParseAttempt, ParsePrivileged, ParseTime, ParseOptionalInt, ParseOptionalUint, ConfigStore.IsReserved,
         Devices.DetectAll;
    LoadedMark(i);
  }

  lemma RunningExactly(i: Instance)
    requires Decode(i).Ok?
    ensures Decode(i).value.stateName == IsRunning <==> i.status == Running
  {
  }

  lemma NextLoads(i: Instance, e: Event)
    requires Decode(i).Ok?
    ensures Decode(Next(i, e)).Ok?
  {
    hide Encode, Decode;
    LoadedIsStorable(i);
    var c := Decode(i).value;
    StatusOnly(i, Next(i, e).status);
    if e.Start? && e.progress.Everything? {
      DecodeEncode(StartedData(c, e.now), Running);
    } else if e.Stop? && e.progress.Everything? && c.stateName == IsRunning {
      DecodeEncode(StoppedData(c, e.now), Stopped);
    }
  }

  /** The start changed the state and was saved. */
  predicate IsCompleteStart(e: Event) {
    e.Start? && e.progress == Everything
  }

  /** A container that loads is marked after any sequence of calls and events exactly if it was marked before and
      none of them was a complete start. */
  lemma {:induction false} MarkedExactly(i: Instance, events: seq<Event>)
    requires Decode(i).Ok?
    ensures Decode(Run(i, events)).Ok?
    ensures Marked(Run(i, events)) <==> Marked(i) && forall e | e in events :: !IsCompleteStart(e)
    decreases |events|
  {
    hide Encode, Decode, Marked, Next;
    if events == [] {
      assert Run(i, events) == i;
    } else {
      MarkNext(i, events[0]);
      NextLoads(i, events[0]);
      MarkedExactly(Next(i, events[0]), events[1..]);
      assert events[0] in events;
      assert forall e | e in events :: e == events[0] || e in events[1..];
    }
  }

  /** It reads as created exactly if, besides, it is not running or paused. */
  lemma CreatedExactly(i: Instance, events: seq<Event>)
    requires Decode(i).Ok?
    ensures var j := Run(i, events);
      && Decode(j).Ok?
      && (Decode(j).value.stateName == IsCreated <==>
          && Marked(i) && (forall e | e in events :: !IsCompleteStart(e))
          && j.status in {Stopped, Stopping, Aborting})
  {
    hide Encode, Decode, Marked;
    MarkedExactly(i, events);
    ReadAsCreated(Run(i, events));
  }

  /** Once a container has been started completely, no later sequence of calls and events makes it
      read as created again. */
  lemma StartedIsNeverCreatedAgain(i: Instance, now: int64, events: seq<Event>)
    requires Decode(i).Ok?
    ensures var j := Run(Next(i, Start(now, Everything)), events);
      Decode(j).Ok? && Decode(j).value.stateName != IsCreated
  {
    hide Encode, Decode, Marked;
    assert IsCompleteStart(Start(now, Everything));
    MarkNext(i, Start(now, Everything));
    NextLoads(i, Start(now, Everything));
    CreatedExactly(Next(i, Start(now, Everything)), events);
  }

  /** The event does not start the container, neither by a call nor from outside. */
  predicate NoStart(e: Event) {
    (e.Start? ==> e.progress == Nothing) && (e.External? ==> e.status != Running && e.status != Frozen)
  }

  /** A new container reads as created until it is first started. */
  lemma {:induction false} CreatedUntilStarted(i: Instance, events: seq<Event>)
    requires Decode(i).Ok? && Decode(i).value.stateName == IsCreated
    requires forall e | e in events :: NoStart(e)
    ensures Decode(Run(i, events)).Ok? && Decode(Run(i, events)).value.stateName == IsCreated
    decreases |events|
  {
    if events != [] {
      assert NoStart(events[0]);
      ReadAsCreated(i);
      CreatedStep(i, events[0]);
      CreatedUntilStarted(Next(i, events[0]), events[1..]);
    }
  }

  lemma CreatedStep(i: Instance, e: Event)
    requires Decode(i).Ok? && Decode(i).value.stateName == IsCreated && NoStart(e)
    ensures Decode(Next(i, e)).Ok? && Decode(Next(i, e)).value.stateName == IsCreated
  {
    if e.External? {
      StatusOnly(i, e.status);
    }
  }

  /** The status of LXD decides nothing but the state a container is read with. */
  lemma StatusOnly(i: Instance, status: Status)
    requires Decode(i).Ok?
    ensures Decode(i.(status := status)) ==
      Ok(Decode(i).value.(stateName := StateNameOf(status, Decode(i).value.config)))
  {
  }

  /** A new container is stored with the mark and the time of now, and is read back as one that was given these and,
      like any other, stored: it was created now, and never started. */
  lemma NewIsCreated(c: ContainerData, now: int64)
    requires StorableDevices(c) && c.profiles != []
    ensures var i := Encode(NewData(c, now), Stopped);
      && Get(i.config, "user.created_at") == FormatInt(now) && Get(i.config, "user.state") == "created"
      && Decode(i) == Ok(Reloaded(c.(createdAt := now, config := c.config["user.state" := "created"]), Stopped))
      && Decode(i).value.stateName == IsCreated && Decode(i).value.createdAt == now
  {
    hide Encode, Decode, FormatInt;
    var new' := NewData(c, now);
    DecodeEncode(new', Stopped);
    StoredMark(new', Stopped);
    ReadAsCreated(Encode(new', Stopped));
    TimeTexts(new', Stopped);
  }

  // ---------- Times ----------

  /** All that storing a loaded container and loading it again can change: the state, which is LXD's; a memory limit
      read from a foreign text is gone from the resources; computed limits that the config lacked are in it. */
  ghost predicate KeptByReload(c: ContainerData, c': ContainerData) {
    && c' == c.(config := c'.config, resources := c'.resources, stateName := c'.stateName)
    && c'.Shares() == c.Shares() && c'.Quota() == c.Quota() && c'.Period() == c.Period()
    && (forall k | k in c.config :: k in c'.config && c'.config[k] == c.config[k])
    && (forall k | k in c'.config && k !in c.config :: k in {"limits.cpu.allowance", "limits.memory"})
  }

  /** Its config uses no reserved key, its devices carry their names, and its resources are complete. */
  ghost predicate LooksLoaded(c: ContainerData) {
    && CONTAINER_STORE.Unreserved(c.config) == c.config && Devices.WithKeys(c.devices) == c.devices
    && c.resources.Some? && c.resources.value.cpu.Some? && c.resources.value.memory.Some?
  }

  lemma LoadedLooksLoaded(i: Instance)
    requires Decode(i).Ok?
    ensures LooksLoaded(Decode(i).value)
  {
    var c := Decode(i).value;
    assert Devices.DetectAll(i.devices) == Ok(c.devices) && c.config == CONTAINER_STORE.Unreserved(i.config)
      && c.resources.Some? && c.resources.value.cpu.Some? && c.resources.value.memory.Some? by {
      hide Devices.DetectAll, ConfigStore.Unreserved;
    }
    hide Decode;
    Devices.StoreLoaded(i.devices);
    hide Devices.WithKeys, ConfigStore.IsReserved;
  }

  lemma ReloadedKeeps(c: ContainerData, status: Status)
    requires LooksLoaded(c)
    ensures KeptByReload(c, Reloaded(c, status))
  {
    hide LimitKeys, ConfigStore.Unreserved, StateNameOf, Devices.WithKeys;
    forall k | k in LimitKeys(c) {
      LimitKeyNames(c, k);
    }
  }

  /** A complete start leaves a running container without the mark that was started now.  Nothing else of what is read
      from it changes, but for what any loaded container loses when it is stored. */
  lemma CompleteStart(i: Instance, now: int64)
    requires Decode(i).Ok?
    ensures var j := Next(i, Start(now, Everything));
      && Decode(j).Ok? && j.status == Running && "user.state" !in j.config
      && Get(j.config, "user.started_at") == FormatInt(now)
      && var c, c' := Decode(i).value, Decode(j).value;
      && c'.startedAt == now && c'.stateName == IsRunning && "user.state" !in c'.config
      && KeptByReload(c.(startedAt := now, config := c.config - {"user.state"}), c')
  {
    hide Encode, Decode, FormatInt, KeptByReload;
    LoadedIsStorable(i);
    LoadedLooksLoaded(i);
    var c := Decode(i).value;
    var started, j := StartedData(c, now), Next(i, Start(now, Everything));
    assert started == c.(startedAt := now, config := c.config - {"user.state"});
    StartedLooksLoaded(c, now);
    hide StartedData, LooksLoaded;
    ReloadedKeeps(started, Running);
    DecodeEncode(started, Running);
    EncodedStatus(started, Running);
    StartedTexts(c, now, Running);
    LoadedMark(j);
    RunningExactly(j);
    hide Reloaded;
  }

  lemma StartedLooksLoaded(c: ContainerData, now: int64)
    requires LooksLoaded(c)
    ensures LooksLoaded(StartedData(c, now))
  {
    hide ConfigStore.IsReserved, Devices.WithKeys;
    var m := c.config - {STATE};
    assert forall k | k in c.config :: k in CONTAINER_STORE.Unreserved(c.config);
    assert CONTAINER_STORE.Unreserved(m) == m;
  }

  /** The record that a complete start leaves, as it is read */
  lemma StartedRecord(c: ContainerData, now: int64)
    requires StorableDevices(c) && c.profiles != []
    ensures var i := Encode(StartedData(c, now), Running);
      && i.status == Running && "user.state" !in i.config && Get(i.config, "user.started_at") == FormatInt(now)
      && Decode(i).Ok? && Decode(i).value.startedAt == now && Decode(i).value.stateName == IsRunning
  {
    hide Encode, Decode, FormatInt;
    DecodeEncode(StartedData(c, now), Running);
    EncodedStatus(StartedData(c, now), Running);
    StartedTexts(c, now, Running);
    RunningExactly(Encode(StartedData(c, now), Running));
  }

  /** A complete stop leaves a stopped container that ended now.  Nothing else of what is read from it changes, but for
      what any loaded container loses when it is stored. */
  lemma CompleteStop(i: Instance, now: int64)
    requires Decode(i).Ok? && i.status == Running
    ensures var j := Next(i, Stop(now, Everything));
      && Decode(j).Ok? && j.status == Stopped
      && Get(j.config, "user.finished_at") == FormatInt(now)
      && var c, c' := Decode(i).value, Decode(j).value;
      c'.finishedAt == now && KeptByReload(c.(finishedAt := now), c')
  {
    hide Encode, Decode, FormatInt, KeptByReload;
    LoadedIsStorable(i);
    LoadedLooksLoaded(i);
    RunningExactly(i);
    var c := Decode(i).value;
    var stopped := StoppedData(c, now);
    assert stopped == c.(finishedAt := now) && LooksLoaded(stopped);
    hide StoppedData, LooksLoaded;
    ReloadedKeeps(stopped, Stopped);
    DecodeEncode(stopped, Stopped);
    EncodedStatus(stopped, Stopped);
    TimeTexts(stopped, Stopped);
    hide Reloaded;
  }

  /** The stop finds a running container, changes its state and is saved. */
  ghost predicate IsCompleteStop(i: Instance, events: seq<Event>, k: nat)
    requires k < |events|
  {
    events[k].Stop? && events[k].progress == Everything && Run(i, events[..k]).status == Running
  }

  lemma TimesNext(i: Instance, e: Event)
    requires Decode(i).Ok?
    ensures Decode(Next(i, e)).Ok?
    ensures var c, c' := Decode(i).value, Decode(Next(i, e)).value;
      && c'.createdAt == c.createdAt
      && c'.startedAt == (if IsCompleteStart(e) then e.now else c.startedAt)
      && c'.finishedAt ==
         (if e.Stop? && e.progress == Everything && i.status == Running then e.now else c.finishedAt)
  {
    hide Encode, Decode;
    NextLoads(i, e);
    RunningExactly(i);
    StatusOnly(i, Next(i, e).status);
    if IsCompleteStart(e) {
      CompleteStart(i, e.now);
    } else if e.Stop? && e.progress == Everything && i.status == Running {
      CompleteStop(i, e.now);
    }
  }

  lemma {:induction false} RunOneMore(i: Instance, events: seq<Event>, e: Event)
    ensures Run(i, events + [e]) == Next(Run(i, events), e)
    decreases |events|
  {
    hide Next;
    if events == [] {
      assert (events + [e])[1..] == [];
    } else {
      assert (events + [e])[1..] == events[1..] + [e];
      RunOneMore(Next(i, events[0]), events[1..], e);
    }
  }

  /** After any sequence of calls and events a container was created when it was created, was started when the last
      complete start says, and ended when the last complete stop says, or else when it was said to before. */
  lemma {:induction false} TimesExactly(i: Instance, events: seq<Event>)
    requires Decode(i).Ok?
    ensures Decode(Run(i, events)).Ok?
    ensures var c, c' := Decode(i).value, Decode(Run(i, events)).value;
      && c'.createdAt == c.createdAt
      && ((forall k | 0 <= k < |events| :: !IsCompleteStart(events[k])) ==> c'.startedAt == c.startedAt)
      && (forall k | 0 <= k < |events| && IsCompleteStart(events[k])
                     && (forall j | k < j < |events| :: !IsCompleteStart(events[j])) ::
           c'.startedAt == events[k].now)
      && ((forall k | 0 <= k < |events| :: !IsCompleteStop(i, events, k)) ==> c'.finishedAt == c.finishedAt)
      && (forall k | 0 <= k < |events| && IsCompleteStop(i, events, k)
                     && (forall j | k < j < |events| :: !IsCompleteStop(i, events, j)) ::
           c'.finishedAt == events[k].now)
    decreases |events|
  {
    hide Next, Decode, IsCompleteStart;
    if events == [] {
      assert Run(i, events) == i;
    } else {
      var n := |events| - 1;
      var earlier, e := events[..n], events[n];
      assert events == earlier + [e];
      TimesExactly(i, earlier);
      RunOneMore(i, earlier, e);
      TimesNext(Run(i, earlier), e);
      assert forall k | 0 <= k < n :: earlier[k] == events[k] && earlier[..k] == events[..k];
      assert forall k | 0 <= k < n :: IsCompleteStop(i, earlier, k) <==> IsCompleteStop(i, events, k);
      assert IsCompleteStop(i, events, n) <==>
        e.Stop? && e.progress == Everything && Run(i, earlier).status == Running;
    }
  }

  /** A start that changed the state but could not save is forgotten: after the next stop, whether that is saved
      or not, the container reads as created again. */
  lemma UnsavedStartIsForgotten(i: Instance, now: int64, later: int64, progress: Progress)
    requires Decode(i).Ok? && Decode(i).value.stateName == IsCreated && progress != Nothing
    ensures var j := Run(i, [Start(now, OnlyState), Stop(later, progress)]);
      Decode(j).Ok? && Decode(j).value.stateName == IsCreated
  {
    hide Encode, Decode;
    ReadAsCreated(i);
    StatusOnly(i, Running);
    EncodedStatus(StoppedData(Decode(i.(status := Running)).value, later), Stopped);
    var started := Next(i, Start(now, OnlyState));
    var stopped := Next(started, Stop(later, progress));
    assert stopped.status == Stopped;
    assert Run(stopped, []) == stopped;
    assert [Start(now, OnlyState), Stop(later, progress)][1..] == [Stop(later, progress)];
    assert Run(started, [Stop(later, progress)]) == stopped;
    CreatedExactly(i, [Start(now, OnlyState), Stop(later, progress)]);
  }

  // ---------- Limits ----------

  /** Both limits LXD enforces for the container */
  function LimitsOf(i: Instance): Config {
    map k | k in i.config && IsLimitKey(k) :: i.config[k]
  }

  /** Every limit that would be computed for the container is already in its record. */
  predicate Settled(i: Instance) {
    Decode(i).Ok? ==> LimitKeys(Decode(i).value).Keys <= i.config.Keys
  }

  lemma LimitKeysDependOnResources(c: ContainerData, c': ContainerData)
    requires c.resources == c'.resources
    ensures LimitKeys(c) == LimitKeys(c')
  {
  }

  /** Storing a container that was loaded from a settled record keeps its limits and leaves it settled. */
  lemma StoreKeepsLimits(i: Instance, c: ContainerData, status: Status)
    requires Decode(i).Ok? && Settled(i)
    requires c.resources == Decode(i).value.resources
    requires c.config == Decode(i).value.config || c.config == Decode(i).value.config - {STATE}
    ensures LimitsOf(Encode(c, status)) == LimitsOf(i)
    ensures forall k | IsLimitKey(k) :: k in Encode(c, status).config <==> k in i.config
  {
    hide EncodeConfig, Decode;
    LoadedMark(i);
    LimitKeysDependOnResources(c, Decode(i).value);
    forall k | IsLimitKey(k)
      ensures k in EncodeConfig(c) <==> k in i.config
      ensures Get(EncodeConfig(c), k) == Get(i.config, k)
    {
      StoredForeignKey(c, k);
      assert k != STATE;
    }
    var left, right := LimitsOf(Encode(c, status)), LimitsOf(i);
    assert forall k | k in left :: left[k] == Get(EncodeConfig(c), k);
    assert forall k | k in right :: right[k] == Get(i.config, k);
  }

  lemma EncodedIsSettled(c: ContainerData, status: Status)
    requires StorableDevices(c) && c.profiles != []
    ensures Settled(Encode(c, status))
  {
    hide EncodeConfig, Decode;
    DecodeEncode(c, status);
    forall k | k in LimitKeys(Reloaded(c, status))
      ensures k in EncodeConfig(c)
    {
      LimitKeyNames(Reloaded(c, status), k);
      StoredForeignKey(c, k);
    }
  }

  lemma LoadedIsStorable(i: Instance)
    requires Decode(i).Ok?
    ensures StorableDevices(Decode(i).value) && Decode(i).value.profiles != []
  {
    forall n | n in i.devices {
      Devices.DetectedIsStorable(n, i.devices[n]);
    }
  }

  lemma LimitsNext(i: Instance, e: Event)
    requires Settled(i)
    ensures LimitsOf(Next(i, e)) == LimitsOf(i) && Settled(Next(i, e))
  {
    hide Encode, Decode;
    if Decode(i).Ok? {
      LoadedIsStorable(i);
      var c := Decode(i).value;
      if e.Start? && e.progress.Everything? {
        StoreKeepsLimits(i, StartedData(c, e.now), Running);
        EncodedIsSettled(StartedData(c, e.now), Running);
      } else if e.Stop? && e.progress.Everything? && c.stateName == IsRunning {
        StoreKeepsLimits(i, StoppedData(c, e.now), Stopped);
        EncodedIsSettled(StoppedData(c, e.now), Stopped);
      } else {
        StatusOnly(i, Next(i, e).status);
        LimitKeysDependOnResources(c, c.(stateName := StateNameOf(Next(i, e).status, c.config)));
      }
    } else {
      StatusOfUnreadable(i, Next(i, e).status);
    }
  }

  lemma StatusOfUnreadable(i: Instance, status: Status)
    requires Decode(i).Err?
    ensures Decode(i.(status := status)).Err?
  {
  }

  lemma {:induction false} LimitsRun(i: Instance, events: seq<Event>)
    requires Settled(i)
    ensures LimitsOf(Run(i, events)) == LimitsOf(i)
    decreases |events|
  {
    hide Next, LimitsOf, Settled;
    if events != [] {
      LimitsNext(i, events[0]);
      LimitsRun(Next(i, events[0]), events[1..]);
    }
  }

  /** The CPU and memory limits of a container are those computed when it was created, after any sequence
      of starts, stops, failures, reloads and outside events. */
  lemma LimitsSurvive(c: ContainerData, now: int64, events: seq<Event>)
    requires StorableDevices(c) && c.profiles != []
    requires LIMIT_CPU_ALLOWANCE !in c.config && LIMIT_MEMORY !in c.config
    ensures LimitsOf(Run(Encode(NewData(c, now), Stopped), events)) == LimitKeys(c)
    ensures var m, quota, period, limit :=
        Run(Encode(NewData(c, now), Stopped), events).config, c.Quota(), c.Period(), c.MemoryLimit();
      && (if quota.Some? && quota.value > 0 && period.Some? && period.value > 0
          then "limits.cpu.allowance" in m && Allows(m["limits.cpu.allowance"], quota.value, period.value)
          else "limits.cpu.allowance" !in m)
      && (if limit.Some? && limit.value > 0
          then "limits.memory" in m && ParseInt(m["limits.memory"]) == Some(limit.value)
          else "limits.memory" !in m)
  {
    LimitsAreThose(c, now, events);
    LimitTexts(c);
    var i := Run(Encode(NewData(c, now), Stopped), events);
    assert forall k | IsLimitKey(k) :: k in LimitsOf(i) <==> k in i.config;
    hide EncodeConfig, Decode, Run, NewData, LimitKeys, Allows, ParseInt;
  }

  lemma LimitsAreThose(c: ContainerData, now: int64, events: seq<Event>)
    requires StorableDevices(c) && c.profiles != []
    requires LIMIT_CPU_ALLOWANCE !in c.config && LIMIT_MEMORY !in c.config
    ensures LimitsOf(Run(Encode(NewData(c, now), Stopped), events)) == LimitKeys(c)
  {
    hide EncodeConfig, Decode;
    var created := NewData(c, now);
    EncodedIsSettled(created, Stopped);
    LimitsRun(Encode(created, Stopped), events);
    LimitKeysDependOnResources(c, created);
    var left, right := LimitsOf(Encode(created, Stopped)), LimitKeys(c);
    forall k
      ensures k in left <==> k in right
      ensures k in left && k in right ==> left[k] == right[k]
    {
      if k in right {
        LimitKeyNames(c, k);
      }
      if IsLimitKey(k) {
        StoredForeignKey(created, k);
      }
    }
  }
}
