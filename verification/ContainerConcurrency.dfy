/** Concurrent calls on the same containers.  A call loads a container, changes its state, fetches a new ETag
    without the new data, and saves what it had loaded (Container.Start, Container.Stop and Container.refresh
    in lxf/container.go). */
module ContainerConcurrency {
  import opened Wrappers
  import opened Text
  import opened Records
  import opened ContainerCodec
  import ContainerLifecycle

  datatype Kind = StartCall | StopCall

  /** How far a call is: loaded; LXD has changed the state; a new ETag is held */
  datatype Stage = Loaded | Changed | Fresh(tag: Instance)

  /** A call in progress: the record it loaded, and the content it read from it and still holds */
  datatype Call = Call(name: string, kind: Kind, now: int64, loaded: Instance, c: ContainerData, stage: Stage) {
    /** What it will save */
    function Content(): ContainerData {
      match kind
      case StartCall => StartedData(c, now)
      case StopCall => StoppedData(c, now)
    }
  }

  /** An accepted save: the call's kind, the record it had loaded, and the record that was there */
  datatype Entry = Saved(name: string, kind: Kind, loaded: Instance, replaced: Instance)

  /** The stored containers, the calls in progress, all names ever given out, and the accepted saves */
  datatype System = System(containers: map<string, Instance>, calls: map<nat, Call>, used: set<string>, log: seq<Entry>)

  datatype Step =
    | Load(id: nat, name: string, kind: Kind, now: int64)
      // GetContainer; a stop of a container that is not running ends here
    | ChangeState(id: nat)                                // the request to start or stop
    | Refresh(id: nat)                                    // Container.refresh: a new ETag, no new data
    | Update(id: nat)                                     // UpdateContainer
    | Create(name: string, c: ContainerData, now: int64)  // CreateContainer
    | Remove(name: string)                                // RemoveContainer
    | External(name: string, status: Status)              // the container exits, or somebody else changes its state
    | Fail(id: nat)                                       // the call ends early

  function End(sys: System, id: nat): System {
    sys.(calls := sys.calls - {id})
  }

  function Next(sys: System, step: Step): System {
    match step
    case Load(id, name, kind, now) =>
      if id !in sys.calls && name in sys.containers && ReadableContainer(sys.containers[name])
         && (kind.StopCall? ==> Decode(sys.containers[name]).value.stateName == IsRunning)
      then
        var i := sys.containers[name];
        sys.(calls := sys.calls[id := Call(name, kind, now, i, Decode(i).value, Loaded)])
      else sys
    case ChangeState(id) =>
      if id !in sys.calls || sys.calls[id].stage != Loaded then sys
      else
        var call := sys.calls[id];
        if call.name !in sys.containers then End(sys, id)
        else if call.kind.StartCall? && sys.containers[call.name].status != Stopped then End(sys, id)
        else
          var status := if call.kind.StartCall? then Running else Stopped;
          sys.(containers := sys.containers[call.name := sys.containers[call.name].(status := status)],
               calls := sys.calls[id := call.(stage := Changed)])
    case Refresh(id) =>
      if id !in sys.calls || sys.calls[id].stage != Changed then sys
      else
        var call := sys.calls[id];
        if call.name in sys.containers && ReadableContainer(sys.containers[call.name]) then
          sys.(calls := sys.calls[id := call.(stage := Fresh(sys.containers[call.name]))])
        else End(sys, id)
    case Update(id) =>
      if id !in sys.calls || !sys.calls[id].stage.Fresh? then sys
      else
        var call := sys.calls[id];
        if call.name in sys.containers && call.stage.tag == sys.containers[call.name] then
          var i := sys.containers[call.name];
          End(sys, id).(containers := sys.containers[call.name := Encode(call.Content(), i.status)],
                        log := sys.log + [Saved(call.name, call.kind, call.loaded, i)])
        else End(sys, id)
    case Create(name, c, now) =>
      if name in sys.used then sys
      else sys.(containers := sys.containers[name := Encode(NewData(c, now), Stopped)], used := sys.used + {name})
    case Remove(name) =>
      if name in sys.containers && sys.containers[name].status == Stopped
      then sys.(containers := sys.containers - {name}) else sys
    case External(name, status) =>
      if name in sys.containers
      then sys.(containers := sys.containers[name := sys.containers[name].(status := status)]) else sys
    case Fail(id) => End(sys, id)
  }

  /** Any interleaving of any number of calls */
  function Run(sys: System, steps: seq<Step>): System
    decreases |steps|
  {
    if steps == [] then sys else Run(Next(sys, steps[0]), steps[1..])
  }

  function Initial(containers: map<string, Instance>): System {
    System(containers, map[], containers.Keys, [])
  }

  // ---------- Invariants ----------

  /** Every call holds the content of the record it loaded. */
  ghost predicate Consistent(sys: System) {
    && sys.containers.Keys <= sys.used
    && forall id | id in sys.calls ::
         sys.calls[id].name in sys.used && Decode(sys.calls[id].loaded) == Ok(sys.calls[id].c)
  }

  lemma NextConsistent(sys: System, step: Step)
    requires Consistent(sys)
    ensures Consistent(Next(sys, step)) && sys.log <= Next(sys, step).log && sys.used <= Next(sys, step).used
  {
    hide Encode, Decode, IsCRIInstance, Call.Content;
  }

  lemma {:induction false} RunConsistent(sys: System, steps: seq<Step>)
    requires Consistent(sys)
    ensures Consistent(Run(sys, steps)) && sys.log <= Run(sys, steps).log && sys.used <= Run(sys, steps).used
    decreases |steps|
  {
    hide Next, Consistent;
    if steps != [] {
      NextConsistent(sys, steps[0]);
      RunConsistent(Next(sys, steps[0]), steps[1..]);
    }
  }

  // ---------- The mark of a container that was never started ----------

  predicate HasMark(sys: System, name: string) {
    name in sys.containers && Marked(sys.containers[name])
  }

  /** A save that leaves the mark: a stop's, from a call that had loaded a marked record */
  predicate BringsMark(e: Entry) {
    e.kind.StopCall? && Marked(e.loaded)
  }

  /** The saves of starts never leave the mark, those of stops exactly if the mark was there when they loaded. */
  lemma SavedMark(call: Call, status: Status)
    requires Decode(call.loaded) == Ok(call.c)
    ensures Marked(Encode(call.Content(), status)) <==> call.kind.StopCall? && Marked(call.loaded)
  {
    hide Encode, Decode;
    LoadedMark(call.loaded);
    StoredMark(call.Content(), status);
  }

  /** The step between these states is an accepted save of the container. */
  predicate SavesTo(sys: System, sys': System, name: string) {
    |sys'.log| > |sys.log| && sys'.log[|sys.log|].name == name
  }

  /** What one step does to the mark of a container, and which save it adds */
  lemma MarkStep(sys: System, step: Step, name: string)
    requires Consistent(sys) && name in sys.used
    ensures var sys' := Next(sys, step);
      && (name in sys'.containers ==> name in sys.containers)
      && |sys.log| <= |sys'.log| <= |sys.log| + 1
      && (name in sys'.containers ==>
          (HasMark(sys', name) <==>
            if SavesTo(sys, sys', name) then BringsMark(sys'.log[|sys.log|]) else HasMark(sys, name)))
      && (SavesTo(sys, sys', name) ==> name in sys'.containers)
  {
    hide Encode, Decode, IsCRIInstance, Call.Content;
    if step.Update? && step.id in sys.calls && sys.calls[step.id].name in sys.containers {
      var call := sys.calls[step.id];
      SavedMark(call, sys.containers[call.name].status);
    }
  }

  /** The last accepted save of a container from this place of the log on */
  function LastSave(log: seq<Entry>, from: nat, name: string): Option<Entry>
    decreases |log|
  {
    if |log| <= from then None
    else if log[|log| - 1].name == name then Some(log[|log| - 1])
    else LastSave(log[..|log| - 1], from, name)
  }

  lemma {:induction false} LastSaveSplits(log: seq<Entry>, from: nat, mid: nat, name: string)
    requires from <= mid <= |log|
    ensures LastSave(log, from, name) ==
      if LastSave(log, mid, name).Some? then LastSave(log, mid, name) else LastSave(log[..mid], from, name)
    decreases |log|
  {
    if |log| == mid {
      assert log[..mid] == log;
    } else if log[|log| - 1].name != name {
      LastSaveSplits(log[..|log| - 1], from, mid, name);
      assert log[..|log| - 1][..mid] == log[..mid];
    }
  }

  /** After any interleaving a container is marked exactly if its last accepted save brought the mark, or, without a
      save, if it was marked before. */
  lemma {:induction false} MarkedExactly(sys: System, steps: seq<Step>, name: string)
    requires Consistent(sys) && name in sys.used
    ensures var sys' := Run(sys, steps);
      name in sys'.containers ==>
        (HasMark(sys', name) <==>
          match LastSave(sys'.log, |sys.log|, name) case None => HasMark(sys, name) case Some(e) => BringsMark(e))
    decreases |steps|
  {
    hide Next, Consistent, BringsMark, HasMark;
    if steps != [] {
      var next, final := Next(sys, steps[0]), Run(sys, steps);
      NextConsistent(sys, steps[0]);
      MarkStep(sys, steps[0], name);
      RunConsistent(next, steps[1..]);
      MarkedExactly(next, steps[1..], name);
      LastSaveSplits(final.log, |sys.log|, |next.log|, name);
      assert final.log[..|next.log|] == next.log;
      if name in final.containers {
        StillThere(next, steps[1..], name);
      }
    }
  }

  /** A name is never given out again. */
  lemma {:induction false} StillThere(sys: System, steps: seq<Step>, name: string)
    requires Consistent(sys) && name in sys.used && name in Run(sys, steps).containers
    ensures name in sys.containers
    decreases |steps|
  {
    hide Next, Consistent;
    if steps != [] {
      NextConsistent(sys, steps[0]);
      MarkStep(sys, steps[0], name);
      StillThere(Next(sys, steps[0]), steps[1..], name);
    }
  }

  /** The container is marked at some point of the run. */
  ghost predicate EverMarked(sys: System, steps: seq<Step>, name: string)
    decreases |steps|
  {
    HasMark(sys, name) || (steps != [] && EverMarked(Next(sys, steps[0]), steps[1..], name))
  }

  /** A container without the mark, such as one that was started completely, gets it back at some point of a run
      exactly if the save of a stop is accepted whose call had loaded a marked record. */
  lemma {:induction false} MarkComesBackExactly(sys: System, steps: seq<Step>, name: string)
    requires Consistent(sys) && name in sys.used && !HasMark(sys, name)
    ensures var log := Run(sys, steps).log;
      EverMarked(sys, steps, name) <==>
        exists k :: |sys.log| <= k < |log| && log[k].name == name && BringsMark(log[k])
    decreases |steps|
  {
    hide Next, Consistent, BringsMark, HasMark;
    if steps != [] {
      var next, log := Next(sys, steps[0]), Run(sys, steps).log;
      NextConsistent(sys, steps[0]);
      MarkStep(sys, steps[0], name);
      RunConsistent(next, steps[1..]);
      assert forall k | 0 <= k < |next.log| :: log[k] == next.log[k];
      NoMarkWithoutContainer(next, name);
      if HasMark(next, name) {
        assert BringsMark(log[|sys.log|]);
      } else {
        MarkComesBackExactly(next, steps[1..], name);
      }
    }
  }

  lemma NoMarkWithoutContainer(sys: System, name: string)
    ensures name !in sys.containers ==> !HasMark(sys, name)
  {
  }

  /** No stop in progress has loaded a marked record of the container. */
  ghost predicate NoOldStops(sys: System, name: string) {
    forall id | id in sys.calls && sys.calls[id].name == name && sys.calls[id].kind.StopCall? ::
      !Marked(sys.calls[id].loaded)
  }

  /** Once a container is without the mark and the stops that had seen it marked have ended, the mark stays away,
      whatever calls interleave from then on. */
  lemma {:induction false} MarkStaysAway(sys: System, steps: seq<Step>, name: string)
    requires Consistent(sys) && name in sys.used && !HasMark(sys, name) && NoOldStops(sys, name)
    ensures !EverMarked(sys, steps, name)
    decreases |steps|
  {
    hide Next, Consistent, NoOldStops, HasMark;
    if steps != [] {
      NextConsistent(sys, steps[0]);
      NoOldStopsNext(sys, steps[0], name);
      MarkStaysAway(Next(sys, steps[0]), steps[1..], name);
    }
  }

  lemma NoOldStopsNext(sys: System, step: Step, name: string)
    requires Consistent(sys) && name in sys.used && !HasMark(sys, name) && NoOldStops(sys, name)
    ensures !HasMark(Next(sys, step), name) && NoOldStops(Next(sys, step), name)
  {
    hide Encode, Decode, IsCRIInstance, Call.Content, Marked;
    MarkStep(sys, step, name);
    var sys' := Next(sys, step);
    if step.Update? && |sys'.log| > |sys.log| {
      assert sys'.log[|sys.log|].loaded == sys.calls[step.id].loaded;
    }
    forall id | id in sys'.calls && sys'.calls[id].name == name && sys'.calls[id].kind.StopCall?
      ensures !Marked(sys'.calls[id].loaded)
    {
      if id in sys.calls {
        assert sys'.calls[id].loaded == sys.calls[id].loaded;
      }
    }
  }

  // ---------- One call after the other ----------

  lemma RunOne(sys: System, step: Step, rest: seq<Step>)
    ensures Run(sys, [step] + rest) == Run(Next(sys, step), rest)
  {
    assert ([step] + rest)[1..] == rest;
  }

  /** The four steps of a call that nothing interrupts */
  function Steps(id: nat, name: string, kind: Kind, now: int64): seq<Step> {
    [Load(id, name, kind, now), ChangeState(id), Refresh(id), Update(id)]
  }

  lemma RunFour(sys: System, id: nat, name: string, kind: Kind, now: int64)
    ensures Run(sys, Steps(id, name, kind, now)) ==
      Next(Next(Next(Next(sys, Load(id, name, kind, now)), ChangeState(id)), Refresh(id)), Update(id))
  {
    hide Next;
    RunOne(sys, Load(id, name, kind, now), [ChangeState(id), Refresh(id), Update(id)]);
    var s1 := Next(sys, Load(id, name, kind, now));
    RunOne(s1, ChangeState(id), [Refresh(id), Update(id)]);
    var s2 := Next(s1, ChangeState(id));
    RunOne(s2, Refresh(id), [Update(id)]);
    var s3 := Next(s2, Refresh(id));
    RunOne(s3, Update(id), []);
    assert Steps(id, name, kind, now) == [Load(id, name, kind, now)] + [ChangeState(id), Refresh(id), Update(id)];
    assert [ChangeState(id), Refresh(id), Update(id)] == [ChangeState(id)] + [Refresh(id), Update(id)];
    assert [Refresh(id), Update(id)] == [Refresh(id)] + [Update(id)];
    assert [Update(id)] == [Update(id)] + [];
  }

  /** A start that nothing interrupts is one complete start in the life of the container. */
  lemma StartIsOneEvent(sys: System, id: nat, name: string, now: int64)
    requires id !in sys.calls && name in sys.containers
    requires ReadableContainer(sys.containers[name]) && sys.containers[name].status == Stopped
    ensures Run(sys, Steps(id, name, StartCall, now)).containers == sys.containers[name :=
      ContainerLifecycle.Next(sys.containers[name], ContainerLifecycle.Start(now, ContainerLifecycle.Everything))]
  {
    hide Encode, Decode, IsCRIInstance;
    RunFour(sys, id, name, StartCall, now);
    StatusIsNotRead(sys.containers[name], Running);
  }

  /** A stop that nothing interrupts is one complete stop. */
  lemma StopIsOneEvent(sys: System, id: nat, name: string, now: int64)
    requires id !in sys.calls && name in sys.containers
    requires ReadableContainer(sys.containers[name]) && sys.containers[name].status == Running
    ensures Run(sys, Steps(id, name, StopCall, now)).containers == sys.containers[name :=
      ContainerLifecycle.Next(sys.containers[name], ContainerLifecycle.Stop(now, ContainerLifecycle.Everything))]
  {
    hide Encode, Decode, IsCRIInstance;
    RunFour(sys, id, name, StopCall, now);
    StatusIsNotRead(sys.containers[name], Stopped);
    ContainerLifecycle.RunningExactly(sys.containers[name]);
  }

  // ---------- Where the mark comes back ----------

  /** In this run of a start and a stop both saves are accepted.  After the start's the container has lost its mark; the
      stop's brings the mark back, so that the started container reads as created, and its start time is gone. */
  lemma OverlappingStopRestoresMark(name: string, c: ContainerData, now: int64, later: int64, last: int64)
    requires StorableDevices(c) && c.profiles != []
    ensures
      var created := Next(Initial(map[]), Create(name, c, now));
      var starting := Next(Next(created, Load(0, name, StartCall, later)), ChangeState(0));
      var loaded := Next(starting, Load(1, name, StopCall, last));
      var started := Next(Next(loaded, Refresh(0)), Update(0));
      var stopped := Next(Next(Next(started, ChangeState(1)), Refresh(1)), Update(1));
      && name in started.containers && !HasMark(started, name) && started.containers[name].status == Running
      && |started.log| == 1 && |stopped.log| == 2
      && name in stopped.containers && HasMark(stopped, name)
      && Decode(stopped.containers[name]).Ok?
      && Decode(stopped.containers[name]).value.stateName == IsCreated
      && Decode(stopped.containers[name]).value.startedAt == c.startedAt
  {
    hide Encode, Decode, Marked, Next, IsCRIInstance, NewData, Call.Content;
    var i := Encode(NewData(c, now), Stopped);
    var r := i.(status := Running);
    NewIsReadable(c, now);
    StopLoadsStarting(name, c, now, later, last);
    var created := Next(Initial(map[]), Create(name, c, now));
    var starting := Next(Next(created, Load(0, name, StartCall, later)), ChangeState(0));
    var loaded := Next(starting, Load(1, name, StopCall, last));
    var start, stop := loaded.calls[0], loaded.calls[1].(stage := Changed);
    StatusIsNotRead(i, Running);
    RefreshThenUpdate(loaded, 0);
    var started := Next(Next(loaded, Refresh(0)), Update(0));
    var s := Encode(start.Content(), Running);
    EncodedStatus(start.Content(), Running);
    SavedMark(start, Running);
    SavedIsReadable(start, Running);
    StopState(started, 1);
    StatusIsNotRead(s, Stopped);
    RefreshThenUpdate(Next(started, ChangeState(1)), 1);
    SavedMark(stop, Stopped);
    SavedIsReadable(stop, Stopped);
    EncodedStatus(stop.Content(), Stopped);
    ContainerLifecycle.ReadAsCreated(Encode(stop.Content(), Stopped));
  }

  /** The first four steps of that run */
  lemma StopLoadsStarting(name: string, c: ContainerData, now: int64, later: int64, last: int64)
    requires StorableDevices(c) && c.profiles != []
    ensures var created := Next(Initial(map[]), Create(name, c, now));
      var starting := Next(Next(created, Load(0, name, StartCall, later)), ChangeState(0));
      var i := Encode(NewData(c, now), Stopped);
      var r := i.(status := Running);
      && Decode(i).Ok? && Decode(r).Ok?
      && Next(starting, Load(1, name, StopCall, last)) ==
         System(map[name := r],
                map[0 := Call(name, StartCall, later, i, Decode(i).value, Changed),
                    1 := Call(name, StopCall, last, r, Decode(r).value, Loaded)],
                {name}, [])
      && Decode(r).value.startedAt == c.startedAt && Marked(r)
  {
    hide Encode, Decode, Marked, IsCRIInstance, NewData;
    var i := Encode(NewData(c, now), Stopped);
    NewIsReadable(c, now);
    EncodedStatus(NewData(c, now), Stopped);
    StatusIsNotRead(i, Running);
    ContainerLifecycle.StatusOnly(i, Running);
    ContainerLifecycle.RunningExactly(i.(status := Running));
    SameMark(i, Running);
    assert {name} == {} + {name};
  }

  /** A call that fetches its ETag and saves right after that is accepted. */
  lemma RefreshThenUpdate(sys: System, id: nat)
    requires id in sys.calls && sys.calls[id].stage == Changed
    requires sys.calls[id].name in sys.containers && ReadableContainer(sys.containers[sys.calls[id].name])
    ensures var call := sys.calls[id];
      var i := sys.containers[call.name];
      Next(Next(sys, Refresh(id)), Update(id)) ==
        System(sys.containers[call.name := Encode(call.Content(), i.status)], sys.calls - {id}, sys.used,
               sys.log + [Saved(call.name, call.kind, call.loaded, i)])
  {
    hide Encode, ReadableContainer;
  }

  lemma StopState(sys: System, id: nat)
    requires id in sys.calls && sys.calls[id].stage == Loaded && sys.calls[id].kind.StopCall?
    requires sys.calls[id].name in sys.containers
    ensures var call := sys.calls[id];
      Next(sys, ChangeState(id)) ==
        sys.(containers := sys.containers[call.name := sys.containers[call.name].(status := Stopped)],
             calls := sys.calls[id := call.(stage := Changed)])
  {
  }

  /** What a call saves can be loaded, and a stop keeps the start time it had loaded. */
  lemma SavedIsReadable(call: Call, status: Status)
    requires Decode(call.loaded) == Ok(call.c)
    ensures ReadableContainer(Encode(call.Content(), status))
    ensures call.kind.StopCall? ==> Decode(Encode(call.Content(), status)).value.startedAt == call.c.startedAt
  {
    hide Encode, Decode;
    ContainerLifecycle.LoadedIsStorable(call.loaded);
    StoredContainerIsReadable(call.Content(), status);
    DecodeEncode(call.Content(), status);
  }

  lemma SameMark(i: Instance, status: Status)
    ensures Marked(i.(status := status)) == Marked(i)
  {
  }

  lemma NewIsReadable(c: ContainerData, now: int64)
    requires StorableDevices(c) && c.profiles != []
    ensures ReadableContainer(Encode(NewData(c, now), Stopped))
    ensures Decode(Encode(NewData(c, now), Stopped)).value.startedAt == c.startedAt
    ensures Marked(Encode(NewData(c, now), Stopped))
  {
    hide Encode, Decode;
    StoredMark(NewData(c, now), Stopped);
    StoredContainerIsReadable(NewData(c, now), Stopped);
    DecodeEncode(NewData(c, now), Stopped);
  }
}
