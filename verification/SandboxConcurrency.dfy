/** Concurrent calls on the same pods.  Every call loads a profile, computes, and writes it back with the
    ETag it holds; LXD rejects a write whose ETag is not that of the stored record. */
module SandboxConcurrency {
  import opened Wrappers
  import opened Records
  import opened SandboxCodec
  import ConfigStores

  /** One write to a pod: StopPodSandbox's, or the save of a network result by RunPodSandbox,
      CreateContainer or ContainerStarted (cri/runtime_helpers.go, handleNetworkResult). */
  datatype Write = Stop | Save(result: NetworkResult)

  function Change(w: Write, s: SandboxData): SandboxData {
    match w
    case Stop => StoppedData(s)
    case Save(result) => WithoutDefaultNic(WithNetworkResult(s, result))
  }

  /** A call in progress: the content it holds, the record that content stands for, the record whose ETag
      it holds, if any, and the writes it still has to do. */
  datatype Call = Call(pod: string, s: SandboxData, base: Profile, tag: Option<Profile>, todo: seq<Write>)

  datatype Entry =
    | Created(pod: string, record: Profile)
    | Changed(pod: string, write: Write, s: SandboxData, base: Profile, replaced: Profile)
    | Deleted(pod: string)

  /** The stored profiles, the calls in progress, all pod names ever given out, and the accepted requests */
  datatype System = System(profiles: map<string, Profile>, calls: map<nat, Call>, used: set<string>, log: seq<Entry>)

  datatype Step =
    | Load(id: nat, pod: string, write: Write)                        // GetSandbox
    | Create(id: nat, pod: string, s: SandboxData, saves: seq<Write>) // RunPodSandbox up to CreateProfile
    | Refresh(id: nat)                                                // Sandbox.refresh: a new ETag, no new data
    | Update(id: nat)                                                 // UpdateProfile
    | Delete(pod: string)                                             // RemovePodSandbox's DeleteProfile
    | Fail(id: nat)                                                   // the call ends early

  function End(sys: System, id: nat): System {
    sys.(calls := sys.calls - {id})
  }

  function Next(y: Yaml, sys: System, step: Step): System {
    match step
    case Load(id, pod, write) =>
      if id !in sys.calls && pod in sys.profiles && IsCRIProfile(sys.profiles[pod])
        && Decode(y, sys.profiles[pod]).Ok? then
        var p := sys.profiles[pod];
        sys.(calls := sys.calls[id := Call(pod, Decode(y, p).value, p, Some(p), [write])])
      else sys
    case Create(id, pod, s, saves) =>
      if id !in sys.calls && pod !in sys.used then
        var s' := WithoutDefaultNic(s.(state := Ready));
        var p := Encode(y, s');
        System(sys.profiles[pod := p], sys.calls[id := Call(pod, s', p, None, saves)], sys.used + {pod},
               sys.log + [Created(pod, p)])
      else sys
    case Refresh(id) =>
      if id !in sys.calls || sys.calls[id].tag.Some? then sys
      else
        var call := sys.calls[id];
        if call.pod in sys.profiles && IsCRIProfile(sys.profiles[call.pod])
          && Decode(y, sys.profiles[call.pod]).Ok? then
          sys.(calls := sys.calls[id := call.(tag := Some(sys.profiles[call.pod]))])
        else End(sys, id)
    case Update(id) =>
      if id !in sys.calls || sys.calls[id].todo == [] then sys
      else
        var call := sys.calls[id];
        if call.pod in sys.profiles && call.tag == Some(sys.profiles[call.pod]) then
          var s' := Change(call.todo[0], call.s);
          var p := Encode(y, s');
          sys.(profiles := sys.profiles[call.pod := p],
               calls := sys.calls[id := Call(call.pod, s', p, None, call.todo[1..])],
               log := sys.log + [Changed(call.pod, call.todo[0], call.s, call.base, sys.profiles[call.pod])])
        else End(sys, id)
    case Delete(pod) =>
      if pod in sys.profiles then sys.(profiles := sys.profiles - {pod}, log := sys.log + [Deleted(pod)]) else sys
    case Fail(id) => End(sys, id)
  }

  /** Any interleaving of any number of calls */
  function Run(y: Yaml, sys: System, steps: seq<Step>): System
    decreases |steps|
  {
    if steps == [] then sys else Run(y, Next(y, sys, steps[0]), steps[1..])
  }

  function Initial(profiles: map<string, Profile>): System {
    System(profiles, map[], profiles.Keys, [])
  }

  // ---------- Invariants ----------

  /** The content `s` was read from the record `base`, or is what `base` was written from; the latter while the call
      holds no ETag, so `base` is then its own last write. */
  ghost predicate StandsFor(y: Yaml, s: SandboxData, base: Profile) {
    Decode(y, base) == Ok(s) || base == Encode(y, s)
  }

  ghost predicate Consistent(y: Yaml, sys: System) {
    && sys.profiles.Keys <= sys.used
    && (forall id | id in sys.calls ::
         && sys.calls[id].pod in sys.used && StandsFor(y, sys.calls[id].s, sys.calls[id].base)
         && (sys.calls[id].tag.None? ==> sys.calls[id].base == Encode(y, sys.calls[id].s)))
    && (forall e | e in sys.log && e.Changed? :: StandsFor(y, e.s, e.base))
  }

  lemma NextConsistent(y: Yaml, sys: System, step: Step)
    requires Consistent(y, sys)
    ensures Consistent(y, Next(y, sys, step))
  {
    hide Encode, Decode;
    var sys' := Next(y, sys, step);
    forall id | id in sys'.calls
      ensures sys'.calls[id].pod in sys'.used && StandsFor(y, sys'.calls[id].s, sys'.calls[id].base)
      ensures sys'.calls[id].tag.None? ==> sys'.calls[id].base == Encode(y, sys'.calls[id].s)
    {
      if id in sys.calls {
        assert StandsFor(y, sys.calls[id].s, sys.calls[id].base);
      }
    }
    if sys'.log != sys.log {
      assert sys'.log[..|sys.log|] == sys.log;
      assert forall f :: f in sys'.log <==> f in sys.log || f == sys'.log[|sys.log|];
    }
  }

  lemma {:induction false} RunConsistent(y: Yaml, sys: System, steps: seq<Step>)
    requires Consistent(y, sys)
    ensures Consistent(y, Run(y, sys, steps))
    decreases |steps|
  {
    if steps != [] {
      NextConsistent(y, sys, steps[0]);
      RunConsistent(y, Next(y, sys, steps[0]), steps[1..]);
    }
  }

  lemma {:induction false} LogGrows(y: Yaml, sys: System, steps: seq<Step>)
    ensures sys.log <= Run(y, sys, steps).log
    ensures sys.used <= Run(y, sys, steps).used
    decreases |steps|
  {
    if steps != [] {
      LogGrows(y, Next(y, sys, steps[0]), steps[1..]);
    }
  }

  // ---------- What is lost ----------

  /** From this place of the log on, every accepted write to the pod replaced the very record it was computed
      from: none threw away a record its caller had not seen. */
  ghost predicate NothingLost(log: seq<Entry>, from: nat, pod: string) {
    forall k | from <= k < |log| && log[k].Changed? && log[k].pod == pod :: log[k].base == log[k].replaced
  }

  /** LXD carries out the next write of this call. */
  predicate Accepted(sys: System, id: nat) {
    && id in sys.calls && sys.calls[id].todo != []
    && sys.calls[id].pod in sys.profiles && sys.calls[id].tag == Some(sys.profiles[sys.calls[id].pod])
  }

  /** The calls that have been overtaken: when they fetched their ETag they found another record than the one
      they wrote last. */
  function Overtaken(sys: System, step: Step, overtaken: set<nat>): set<nat> {
    match step
    case Load(id, _, _) => if id in sys.calls then overtaken else overtaken - {id}
    case Create(id, _, _, _) => if id in sys.calls then overtaken else overtaken - {id}
    case Refresh(id) =>
      if id in sys.calls && sys.calls[id].tag.None? && sys.calls[id].pod in sys.profiles
         && sys.profiles[sys.calls[id].pod] != sys.calls[id].base
      then overtaken + {id} else overtaken
    case Update(id) => overtaken - {id}
    case Delete(_) => overtaken
    case Fail(id) => overtaken - {id}
  }

  /** Somewhere in the run a call that has been overtaken gets a write to the pod accepted. */
  ghost predicate OvertakenWrite(y: Yaml, sys: System, steps: seq<Step>, overtaken: set<nat>, pod: string)
    decreases |steps|
  {
    steps != [] &&
      (|| (steps[0].Update? && Accepted(sys, steps[0].id) && steps[0].id in overtaken
           && sys.calls[steps[0].id].pod == pod)
       || OvertakenWrite(y, Next(y, sys, steps[0]), steps[1..], Overtaken(sys, steps[0], overtaken), pod))
  }

  /** A call that will write holds an ETag of another record than the one it was computed from exactly if it has been
      overtaken. */
  ghost predicate Tracks(sys: System, overtaken: set<nat>) {
    forall id | id in sys.calls && sys.calls[id].todo != [] :: id in overtaken <==>
      sys.calls[id].tag.Some? && sys.calls[id].tag.value != sys.calls[id].base
  }

  lemma LostStep(y: Yaml, sys: System, step: Step, overtaken: set<nat>, pod: string)
    requires Tracks(sys, overtaken)
    ensures var sys' := Next(y, sys, step);
      && Tracks(sys', Overtaken(sys, step, overtaken))
      && (NothingLost(sys'.log, |sys.log|, pod) <==>
          !(step.Update? && Accepted(sys, step.id) && step.id in overtaken && sys.calls[step.id].pod == pod))
  {
    hide Encode, Decode, IsCRIProfile, Change;
    var sys' := Next(y, sys, step);
    if step.Update? && Accepted(sys, step.id) {
      assert sys'.log[|sys.log|].Changed?;
    }
  }

  lemma {:induction false} LostInRun(y: Yaml, sys: System, steps: seq<Step>, overtaken: set<nat>, pod: string)
    requires Tracks(sys, overtaken)
    ensures NothingLost(Run(y, sys, steps).log, |sys.log|, pod) <==> !OvertakenWrite(y, sys, steps, overtaken, pod)
    decreases |steps|
  {
    hide Next, Overtaken;
    if steps != [] {
      var sys' := Next(y, sys, steps[0]);
      var log := Run(y, sys', steps[1..]).log;
      LostStep(y, sys, steps[0], overtaken, pod);
      LostInRun(y, sys', steps[1..], Overtaken(sys, steps[0], overtaken), pod);
      LogGrows(y, sys, [steps[0]]);
      assert Run(y, sys', []) == sys' && [steps[0]][1..] == [];
      LogGrows(y, sys', steps[1..]);
      assert forall k | |sys.log| <= k < |sys'.log| :: sys'.log[k] == log[k];
      assert NothingLost(log, |sys.log|, pod) <==>
        NothingLost(sys'.log, |sys.log|, pod) && NothingLost(log, |sys'.log|, pod);
    }
  }

  /** In any run of any calls, an update of a pod is lost exactly if a call that has been overtaken gets a
      write to that pod accepted: one whose refresh found another record than its own last write. */
  lemma LostExactly(y: Yaml, profiles: map<string, Profile>, steps: seq<Step>, pod: string)
    ensures NothingLost(Run(y, Initial(profiles), steps).log, 0, pod) <==>
      !OvertakenWrite(y, Initial(profiles), steps, {}, pod)
  {
    LostInRun(y, Initial(profiles), steps, {}, pod);
  }

  // ---------- Calls that load the pod ----------

  /** The call has nothing left to write, or one write, computed from the record whose ETag it holds: true of
      StopPodSandbox, CreateContainer and ContainerStarted, which load the pod before their one write. */
  predicate HoldsTag(y: Yaml, call: Call) {
    call.todo == [] || (|call.todo| == 1 && call.tag == Some(call.base) && Decode(y, call.base) == Ok(call.s))
  }

  /** The pod exists, or has existed, and all calls on it but one hold such an ETag. */
  ghost predicate OthersHoldTags(y: Yaml, sys: System, pod: string, except: set<nat>) {
    && pod in sys.used
    && forall id | id in sys.calls && id !in except && sys.calls[id].pod == pod :: HoldsTag(y, sys.calls[id])
  }

  /** No step of any call, on this pod or another, changes that. */
  lemma OthersHoldTagsNext(y: Yaml, sys: System, step: Step, pod: string, except: set<nat>)
    requires OthersHoldTags(y, sys, pod, except)
    ensures OthersHoldTags(y, Next(y, sys, step), pod, except)
  {
    hide Encode, Decode, IsCRIProfile, Change;
    var sys' := Next(y, sys, step);
    forall id | id in sys'.calls && id !in except && sys'.calls[id].pod == pod
      ensures HoldsTag(y, sys'.calls[id])
    {
      if id in sys.calls {
        assert sys.calls[id].pod == pod;
      }
    }
  }

  lemma {:induction false} OthersHoldTagsRun(y: Yaml, sys: System, steps: seq<Step>, pod: string, except: set<nat>)
    requires OthersHoldTags(y, sys, pod, except)
    ensures OthersHoldTags(y, Run(y, sys, steps), pod, except)
    decreases |steps|
  {
    if steps != [] {
      OthersHoldTagsNext(y, sys, steps[0], pod, except);
      OthersHoldTagsRun(y, Next(y, sys, steps[0]), steps[1..], pod, except);
    }
  }

  /** Only the call that created a pod is ever without such an ETag. */
  lemma OnlyCreatorLacksTag(y: Yaml, sys: System, id: nat, pod: string, s: SandboxData, saves: seq<Write>,
                            steps: seq<Step>)
    requires Consistent(y, sys) && id !in sys.calls && pod !in sys.used
    ensures OthersHoldTags(y, Run(y, Next(y, sys, Create(id, pod, s, saves)), steps), pod, {id})
  {
    hide Encode, Decode;
    OthersHoldTagsRun(y, Next(y, sys, Create(id, pod, s, saves)), steps, pod, {id});
  }

  // ---------- Existing pods ----------

  function RecordOf(profiles: map<string, Profile>, pod: string): Option<Profile> {
    if pod in profiles then Some(profiles[pod]) else None
  }

  /** What becomes of a pod when the accepted requests are carried out one after the other, each call loading
      the pod and saving it before the next one begins.  Of a write only its kind is taken from the log. */
  function Serial(y: Yaml, start: Option<Profile>, pod: string, log: seq<Entry>): Option<Profile> {
    if log == [] then start
    else
      var before, e := Serial(y, start, pod, log[..|log| - 1]), log[|log| - 1];
      if e.pod != pod then before
      else
        match e
        case Created(_, record) => Some(record)
        case Deleted(_) => None
        case Changed(_, write, _, _, _) =>
          if before.None? || Decode(y, before.value).Err? then before
          else Some(Encode(y, Change(write, Decode(y, before.value).value)))
  }

  lemma SerialNext(y: Yaml, start: Option<Profile>, sys: System, step: Step, pod: string)
    requires OthersHoldTags(y, sys, pod, {}) && RecordOf(sys.profiles, pod) == Serial(y, start, pod, sys.log)
    ensures var sys' := Next(y, sys, step);
      && RecordOf(sys'.profiles, pod) == Serial(y, start, pod, sys'.log)
      && NothingLost(sys'.log, |sys.log|, pod)
  {
    hide Encode, Decode, IsCRIProfile, Change;
    var sys' := Next(y, sys, step);
    if sys'.log != sys.log {
      assert sys'.log[..|sys.log|] == sys.log && |sys'.log| == |sys.log| + 1;
    }
  }

  lemma {:induction false} SerialRun(y: Yaml, start: Option<Profile>, sys: System, steps: seq<Step>, pod: string)
    requires OthersHoldTags(y, sys, pod, {}) && RecordOf(sys.profiles, pod) == Serial(y, start, pod, sys.log)
    ensures var sys' := Run(y, sys, steps);
      && RecordOf(sys'.profiles, pod) == Serial(y, start, pod, sys'.log)
      && NothingLost(sys'.log, |sys.log|, pod)
    decreases |steps|
  {
    hide Next, Serial;
    if steps != [] {
      var sys' := Next(y, sys, steps[0]);
      SerialNext(y, start, sys, steps[0], pod);
      OthersHoldTagsNext(y, sys, steps[0], pod, {});
      SerialRun(y, start, sys', steps[1..], pod);
      LogGrows(y, sys', steps[1..]);
    }
  }

  /** In every interleaving of any calls on any pods, nothing that happens to a pod that is there from the start is
      lost: it ends as if the accepted requests had been carried out one after the other, each on the record it
      found. */
  lemma ExistingPodsLoseNothing(y: Yaml, profiles: map<string, Profile>, steps: seq<Step>, pod: string)
    requires pod in profiles
    ensures var sys := Run(y, Initial(profiles), steps);
      && NothingLost(sys.log, 0, pod)
      && RecordOf(sys.profiles, pod) == Serial(y, Some(profiles[pod]), pod, sys.log)
  {
    SerialRun(y, Some(profiles[pod]), Initial(profiles), steps, pod);
  }

  /** The same from any state in which all calls on the pod hold the ETag of what they loaded */
  lemma NothingLostFrom(y: Yaml, sys: System, steps: seq<Step>, pod: string)
    requires OthersHoldTags(y, sys, pod, {})
    ensures NothingLost(Run(y, sys, steps).log, |sys.log|, pod)
    decreases |steps|
  {
    hide Next, HoldsTag;
    if steps != [] {
      var sys' := Next(y, sys, steps[0]);
      AcceptedWritesMatch(y, sys, steps[0], pod);
      OthersHoldTagsNext(y, sys, steps[0], pod, {});
      NothingLostFrom(y, sys', steps[1..], pod);
      LogGrows(y, sys', steps[1..]);
    }
  }

  lemma AcceptedWritesMatch(y: Yaml, sys: System, step: Step, pod: string)
    requires OthersHoldTags(y, sys, pod, {})
    ensures NothingLost(Next(y, sys, step).log, |sys.log|, pod) && sys.log <= Next(y, sys, step).log
  {
    hide Encode, Decode, IsCRIProfile, Change;
  }

  // ---------- A stopped pod stays stopped ----------

  lemma ContentMatchesRecord(y: Yaml, s: SandboxData, base: Profile)
    requires y.Lawful() && StandsFor(y, s, base)
    ensures StateOf(base) == s.state && ModeDataOf(y, base) == Some(s.network.modeData)
    ensures ModeOf(base) == s.network.mode
  {
    if base == Encode(y, s) {
      EncodedStateAndModeData(y, s);
    }
  }

  /** What a write that loses nothing leaves of the state, the network mode and the mode data */
  lemma AcceptedWrite(y: Yaml, sys: System, id: nat)
    requires y.Lawful() && Consistent(y, sys) && Accepted(sys, id)
    requires NothingLost(Next(y, sys, Update(id)).log, |sys.log|, sys.calls[id].pod)
    ensures var call, after := sys.calls[id], Next(y, sys, Update(id)).profiles;
      && after.Keys == sys.profiles.Keys
      && (forall pod | pod in after && pod != call.pod :: after[pod] == sys.profiles[pod])
      && ModeOf(after[call.pod]) == ModeOf(sys.profiles[call.pod])
      && StateOf(after[call.pod]) == (if call.todo[0].Stop? then NotReady else StateOf(sys.profiles[call.pod]))
      && ModeDataOf(y, after[call.pod]) ==
         (if call.todo[0].Stop? || call.todo[0].result.data == map[] then ModeDataOf(y, sys.profiles[call.pod])
          else Some(call.todo[0].result.data))
  {
    hide Encode, Decode;
    var call := sys.calls[id];
    assert Next(y, sys, Update(id)).log[|sys.log|].pod == call.pod;
    ContentMatchesRecord(y, call.s, call.base);
    EncodedStateAndModeData(y, Change(call.todo[0], call.s));
  }

  /** What a step that loses nothing of a pod can do to it */
  lemma StepOnPod(y: Yaml, sys: System, step: Step, pod: string)
    requires y.Lawful() && Consistent(y, sys) && pod in sys.used
    requires NothingLost(Next(y, sys, step).log, |sys.log|, pod)
    ensures var sys' := Next(y, sys, step);
      && pod in sys'.used
      && (pod in sys'.profiles ==> pod in sys.profiles)
      && (pod in sys'.profiles && sys'.profiles[pod] != sys.profiles[pod] ==>
          && step.Update? && Accepted(sys, step.id) && sys.calls[step.id].pod == pod
          && var write := sys.calls[step.id].todo[0];
          && ModeOf(sys'.profiles[pod]) == ModeOf(sys.profiles[pod])
          && StateOf(sys'.profiles[pod]) == (if write.Stop? then NotReady else StateOf(sys.profiles[pod]))
          && ModeDataOf(y, sys'.profiles[pod]) ==
             (if write.Stop? || write.result.data == map[] then ModeDataOf(y, sys.profiles[pod])
               else Some(write.result.data)))
  {
    hide Encode, Decode, IsCRIProfile, StateOf, ModeOf, ModeDataOf, Change, StandsFor;
    if step.Update? && Accepted(sys, step.id) && sys.calls[step.id].pod == pod {
      AcceptedWrite(y, sys, step.id);
    }
  }

  lemma LostSplitsExactly(y: Yaml, sys: System, steps: seq<Step>, pod: string)
    requires steps != []
    ensures var sys' := Next(y, sys, steps[0]);
      NothingLost(Run(y, sys, steps).log, |sys.log|, pod) <==>
        NothingLost(sys'.log, |sys.log|, pod) && NothingLost(Run(y, sys', steps[1..]).log, |sys'.log|, pod)
  {
    var sys' := Next(y, sys, steps[0]);
    LogGrows(y, sys, [steps[0]]);
    assert [steps[0]][1..] == [] && Run(y, sys', []) == sys';
    hide Next;
    LogGrows(y, sys', steps[1..]);
    var log := Run(y, sys', steps[1..]).log;
    assert forall k | |sys.log| <= k < |sys'.log| :: sys'.log[k] == log[k];
  }

  /** Once a pod is stored as not ready, no later step of any call makes it ready again, unless an update of the
      pod is lost on the way. */
  lemma {:induction false} NotReadyIsFinal(y: Yaml, sys: System, steps: seq<Step>, pod: string)
    requires y.Lawful() && Consistent(y, sys) && NothingLost(Run(y, sys, steps).log, |sys.log|, pod)
    requires pod in sys.used && (pod in sys.profiles ==> StateOf(sys.profiles[pod]) == NotReady)
    ensures pod in Run(y, sys, steps).profiles ==> StateOf(Run(y, sys, steps).profiles[pod]) == NotReady
    decreases |steps|
  {
    hide Next, StateOf, Consistent;
    if steps != [] {
      var sys' := Next(y, sys, steps[0]);
      LostSplitsExactly(y, sys, steps, pod);
      StepOnPod(y, sys, steps[0], pod);
      NextConsistent(y, sys, steps[0]);
      NotReadyIsFinal(y, sys', steps[1..], pod);
    }
  }

  /** For a pod that is there from the start this needs no condition: stored as not ready once, it is never ready
      again, whatever calls interleave on whatever pods. */
  lemma StoppedPodStaysStopped(y: Yaml, profiles: map<string, Profile>, steps: seq<Step>, more: seq<Step>, pod: string)
    requires y.Lawful() && pod in profiles
    requires var sys := Run(y, Initial(profiles), steps); pod in sys.profiles && StateOf(sys.profiles[pod]) == NotReady
    ensures var sys := Run(y, Run(y, Initial(profiles), steps), more);
      pod in sys.profiles ==> StateOf(sys.profiles[pod]) == NotReady
  {
    hide Next, StateOf, HoldsTag;
    var sys := Run(y, Initial(profiles), steps);
    RunConsistent(y, Initial(profiles), steps);
    OthersHoldTagsRun(y, Initial(profiles), steps, pod, {});
    NothingLostFrom(y, sys, more, pod);
    NotReadyIsFinal(y, sys, more, pod);
  }

  // ---------- When a stopped pod is ready again ----------

  /** The creator of a pod writes nothing but network results. */
  predicate OnlySaves(writes: seq<Write>) {
    forall w | w in writes :: w.Save?
  }

  predicate CreatesOnlySave(steps: seq<Step>) {
    forall step | step in steps && step.Create? :: OnlySaves(step.saves)
  }

  /** Every call has loaded the pod it writes to, or has created it, holds it as ready, and will only save network
      results. */
  ghost predicate LoadsOrCreates(y: Yaml, sys: System) {
    forall id | id in sys.calls ::
      HoldsTag(y, sys.calls[id]) || (sys.calls[id].s.state == Ready && OnlySaves(sys.calls[id].todo))
  }

  lemma LoadsOrCreatesNext(y: Yaml, sys: System, step: Step)
    requires LoadsOrCreates(y, sys) && (step.Create? ==> OnlySaves(step.saves))
    ensures LoadsOrCreates(y, Next(y, sys, step))
  {
    hide Encode, Decode, IsCRIProfile;
    var sys' := Next(y, sys, step);
    forall id | id in sys'.calls
      ensures HoldsTag(y, sys'.calls[id]) || (sys'.calls[id].s.state == Ready && OnlySaves(sys'.calls[id].todo))
    {
      if step.Update? && step.id == id && Accepted(sys, id) && OnlySaves(sys.calls[id].todo) {
        assert sys.calls[id].todo[0] in sys.calls[id].todo;
        assert forall w | w in sys.calls[id].todo[1..] :: w in sys.calls[id].todo;
      }
    }
  }

  lemma {:induction false} LoadsOrCreatesRun(y: Yaml, sys: System, steps: seq<Step>)
    requires LoadsOrCreates(y, sys) && CreatesOnlySave(steps)
    ensures LoadsOrCreates(y, Run(y, sys, steps))
    decreases |steps|
  {
    hide Next, LoadsOrCreates, OnlySaves;
    if steps != [] {
      assert steps[0] in steps;
      LoadsOrCreatesNext(y, sys, steps[0]);
      LoadsOrCreatesRun(y, Next(y, sys, steps[0]), steps[1..]);
    }
  }

  predicate IsReady(sys: System, pod: string) {
    pod in sys.profiles && StateOf(sys.profiles[pod]) == Ready
  }

  /** The pod is stored as ready at some point of the run. */
  ghost predicate EverReady(y: Yaml, sys: System, steps: seq<Step>, pod: string)
    decreases |steps|
  {
    IsReady(sys, pod) || (steps != [] && EverReady(y, Next(y, sys, steps[0]), steps[1..], pod))
  }

  /** A step that loses an update of a pod that is not ready makes it ready; any other step leaves it not ready. */
  lemma ReadyStep(y: Yaml, sys: System, step: Step, pod: string)
    requires y.Lawful() && Consistent(y, sys) && LoadsOrCreates(y, sys) && pod in sys.used && !IsReady(sys, pod)
    ensures IsReady(Next(y, sys, step), pod) <==> !NothingLost(Next(y, sys, step).log, |sys.log|, pod)
  {
    hide Encode, Decode, StateOf, Change, Consistent, Next;
    var sys' := Next(y, sys, step);
    if NothingLost(sys'.log, |sys.log|, pod) {
      StepOnPod(y, sys, step, pod);
    } else {
      LossIsCreators(y, sys, step, pod);
    }
  }

  /** Only the creator of a pod overwrites what it has not seen, and it stores the pod as ready. */
  lemma LossIsCreators(y: Yaml, sys: System, step: Step, pod: string)
    requires y.Lawful() && LoadsOrCreates(y, sys) && !NothingLost(Next(y, sys, step).log, |sys.log|, pod)
    ensures IsReady(Next(y, sys, step), pod)
  {
    hide Encode, Decode, IsCRIProfile, StateOf;
    var call := sys.calls[step.id];
    assert !HoldsTag(y, call);
    assert call.todo[0] in call.todo;
    EncodedStateAndModeData(y, Change(call.todo[0], call.s));
  }

  lemma {:induction false} ReadyInRun(y: Yaml, sys: System, steps: seq<Step>, pod: string)
    requires y.Lawful() && Consistent(y, sys) && LoadsOrCreates(y, sys) && CreatesOnlySave(steps)
    requires pod in sys.used && !IsReady(sys, pod)
    ensures EverReady(y, sys, steps, pod) <==> !NothingLost(Run(y, sys, steps).log, |sys.log|, pod)
    decreases |steps|
  {
    hide Next, IsReady, Consistent, LoadsOrCreates, OnlySaves;
    if steps != [] {
      var sys' := Next(y, sys, steps[0]);
      assert steps[0] in steps;
      ReadyStep(y, sys, steps[0], pod);
      NextConsistent(y, sys, steps[0]);
      LoadsOrCreatesNext(y, sys, steps[0]);
      LostSplitsExactly(y, sys, steps, pod);
      if NothingLost(sys'.log, |sys.log|, pod) {
        StaysUsed(y, sys, steps[0], pod);
        ReadyInRun(y, sys', steps[1..], pod);
      }
    }
  }

  lemma StaysUsed(y: Yaml, sys: System, step: Step, pod: string)
    requires pod in sys.used
    ensures pod in Next(y, sys, step).used
  {
    hide Encode, Decode, IsCRIProfile, Change;
  }

  /** The calls that have been overtaken after a run */
  function OvertakenAfter(y: Yaml, sys: System, steps: seq<Step>, overtaken: set<nat>): set<nat>
    decreases |steps|
  {
    if steps == [] then overtaken
    else OvertakenAfter(y, Next(y, sys, steps[0]), steps[1..], Overtaken(sys, steps[0], overtaken))
  }

  lemma {:induction false} TracksRun(y: Yaml, sys: System, steps: seq<Step>, overtaken: set<nat>)
    requires Tracks(sys, overtaken)
    ensures Tracks(Run(y, sys, steps), OvertakenAfter(y, sys, steps, overtaken))
    decreases |steps|
  {
    hide Next, Overtaken, Tracks;
    if steps != [] {
      LostStep(y, sys, steps[0], overtaken, "");
      TracksRun(y, Next(y, sys, steps[0]), steps[1..], Overtaken(sys, steps[0], overtaken));
    }
  }

  /** In any run of pod creations, stops and network saves: a pod that has been stored as not ready is ready again at
      some later point exactly if a call that has been overtaken gets a write to it accepted, that is, if RunPodSandbox
      saves a network result after a refresh that found another record than its own last write. */
  lemma ReadyAgainExactly(y: Yaml, profiles: map<string, Profile>, steps: seq<Step>, more: seq<Step>, pod: string)
    requires y.Lawful() && CreatesOnlySave(steps) && CreatesOnlySave(more)
    requires var sys := Run(y, Initial(profiles), steps);
      pod in sys.profiles && StateOf(sys.profiles[pod]) == NotReady
    ensures var sys := Run(y, Initial(profiles), steps);
      EverReady(y, sys, more, pod) <==>
        OvertakenWrite(y, sys, more, OvertakenAfter(y, Initial(profiles), steps, {}), pod)
  {
    hide Next, StateOf, HoldsTag;
    var sys := Run(y, Initial(profiles), steps);
    RunConsistent(y, Initial(profiles), steps);
    LoadsOrCreatesRun(y, Initial(profiles), steps);
    TracksRun(y, Initial(profiles), steps, {});
    hide LoadsOrCreates, Tracks, OnlySaves;
    ReadyInRun(y, sys, more, pod);
    LostInRun(y, sys, more, OvertakenAfter(y, Initial(profiles), steps, {}), pod);
  }

  // ---------- Mode data ----------

  predicate KeepsModeData(w: Write) {
    w.Save? ==> w.result.data == map[]
  }

  /** No call on this pod, running or still to come, carries mode data. */
  ghost predicate OnlyKeepers(sys: System, steps: seq<Step>, pod: string) {
    && (forall id | id in sys.calls && sys.calls[id].pod == pod ::
          forall w | w in sys.calls[id].todo :: KeepsModeData(w))
    && (forall step | step in steps && step.Load? && step.pod == pod :: KeepsModeData(step.write))
  }

  lemma OnlyKeepersNext(y: Yaml, sys: System, steps: seq<Step>, pod: string)
    requires steps != [] && pod in sys.used && OnlyKeepers(sys, steps, pod)
    ensures OnlyKeepers(Next(y, sys, steps[0]), steps[1..], pod)
  {
    hide Encode, Decode, IsCRIProfile, Change;
    var step := steps[0];
    var sys' := Next(y, sys, step);
    assert step in steps;
    forall id | id in sys'.calls && sys'.calls[id].pod == pod
      ensures forall w | w in sys'.calls[id].todo :: KeepsModeData(w)
    {
      if id in sys.calls {
        assert forall w | w in sys'.calls[id].todo :: w in sys.calls[id].todo;
      }
    }
  }

  /** Whatever calls interleave, the mode and the mode data of a pod stay what they were as long as no network
      result for the pod brings new data and no update of the pod is lost. */
  lemma {:induction false} ModeDataIsKept(y: Yaml, sys: System, steps: seq<Step>, pod: string)
    requires y.Lawful() && Consistent(y, sys) && NothingLost(Run(y, sys, steps).log, |sys.log|, pod)
    requires pod in sys.used && OnlyKeepers(sys, steps, pod)
    ensures pod in Run(y, sys, steps).profiles ==>
      pod in sys.profiles && ModeOf(Run(y, sys, steps).profiles[pod]) == ModeOf(sys.profiles[pod])
      && ModeDataOf(y, Run(y, sys, steps).profiles[pod]) == ModeDataOf(y, sys.profiles[pod])
    decreases |steps|
  {
    hide Next, ModeOf, ModeDataOf, Consistent;
    if steps != [] {
      LostSplitsExactly(y, sys, steps, pod);
      StepOnPod(y, sys, steps[0], pod);
      if steps[0].Update? && Accepted(sys, steps[0].id) && sys.calls[steps[0].id].pod == pod {
        assert sys.calls[steps[0].id].todo[0] in sys.calls[steps[0].id].todo;
      }
      OnlyKeepersNext(y, sys, steps, pod);
      NextConsistent(y, sys, steps[0]);
      ModeDataIsKept(y, Next(y, sys, steps[0]), steps[1..], pod);
    }
  }

  // ---------- A creation that nothing interrupts ----------

  /** The steps of `n` saves of a call that has just written */
  function SaveSteps(id: nat, n: nat): seq<Step> {
    if n == 0 then [] else [Refresh(id), Update(id)] + SaveSteps(id, n - 1)
  }

  function Applied(s: SandboxData, writes: seq<Write>): SandboxData
    decreases |writes|
  {
    if writes == [] then s else Applied(Change(writes[0], s), writes[1..])
  }

  /** Every record that is refreshed before one of these writes belongs to the runtime and loads. */
  predicate Loadable(y: Yaml, s: SandboxData, writes: seq<Write>)
    decreases |writes|
  {
    writes != [] ==>
      && IsCRIProfile(Encode(y, s)) && Decode(y, Encode(y, s)).Ok?
      && Loadable(y, Change(writes[0], s), writes[1..])
  }

  lemma {:induction false} OneMoreSave(y: Yaml, s: SandboxData, writes: seq<Write>, w: Write)
    requires Loadable(y, s, writes)
    requires IsCRIProfile(Encode(y, Applied(s, writes))) && Decode(y, Encode(y, Applied(s, writes))).Ok?
    ensures Loadable(y, s, writes + [w]) && Applied(s, writes + [w]) == Change(w, Applied(s, writes))
    decreases |writes|
  {
    hide Encode, Decode, IsCRIProfile, Change;
    if writes == [] {
      assert (writes + [w])[1..] == [];
    } else {
      assert (writes + [w])[1..] == writes[1..] + [w];
      OneMoreSave(y, Change(writes[0], s), writes[1..], w);
    }
  }

  lemma {:induction false} SavesRun(y: Yaml, sys: System, id: nat)
    requires id in sys.calls && sys.calls[id].tag.None?
    requires sys.calls[id].pod in sys.profiles && sys.profiles[sys.calls[id].pod] == Encode(y, sys.calls[id].s)
    requires Loadable(y, sys.calls[id].s, sys.calls[id].todo)
    ensures var call := sys.calls[id];
      Run(y, sys, SaveSteps(id, |call.todo|)).profiles ==
        sys.profiles[call.pod := Encode(y, Applied(call.s, call.todo))]
    decreases |sys.calls[id].todo|
  {
    hide Encode, Decode, IsCRIProfile, Change;
    var call := sys.calls[id];
    if call.todo == [] {
      assert sys.profiles[call.pod := sys.profiles[call.pod]] == sys.profiles;
    } else {
      var rest := SaveSteps(id, |call.todo| - 1);
      var refreshed := Next(y, sys, Refresh(id));
      var updated := Next(y, refreshed, Update(id));
      assert SaveSteps(id, |call.todo|)[1..] == [Update(id)] + rest && ([Update(id)] + rest)[1..] == rest;
      assert Run(y, sys, SaveSteps(id, |call.todo|)) == Run(y, refreshed, [Update(id)] + rest) == Run(y, updated, rest);
      SavesRun(y, updated, id);
    }
  }

  /** A creation that nothing interrupts stores the pod as ready, with its writes applied in order. */
  lemma CreateThenSaves(y: Yaml, sys: System, id: nat, pod: string, s: SandboxData, saves: seq<Write>)
    requires id !in sys.calls && pod !in sys.used
    requires Loadable(y, WithoutDefaultNic(s.(state := Ready)), saves)
    ensures Run(y, sys, [Create(id, pod, s, saves)] + SaveSteps(id, |saves|)).profiles ==
      sys.profiles[pod := Encode(y, Applied(WithoutDefaultNic(s.(state := Ready)), saves))]
  {
    hide Encode, Decode, IsCRIProfile, Change, Loadable, Applied, WithoutDefaultNic;
    var create := Create(id, pod, s, saves);
    var created := Next(y, sys, create);
    assert ([create] + SaveSteps(id, |saves|))[1..] == SaveSteps(id, |saves|);
    SavesRun(y, created, id);
  }

  // ---------- Cloud-init entries ----------

  /** The cloud-init document that an accepted write of a call leaves which has loaded the pod: the nameserver entry and
      the write's own entries.  Whatever other entries the pod had are gone. */
  lemma NextDocument(y: Yaml, p: Profile, w: Write)
    requires Decode(y, p).Ok?
    ensures var s := Decode(y, p).value;
      ConfigStores.Get(Encode(y, Change(w, s)).config, "user.network-config") ==
        y.CloudInit([Nameserver(s.network.nameservers, s.network.searches)]
                    + (match w case Stop => [] case Save(r) => r.entries))
  {
    hide Encode;
    var s := Decode(y, p).value;
    CloudInitFormat(y, Change(w, s));
    assert s.cloudInit == [] && s.network.nameservers != [] && s.network.searches != [];
    hide Decode;
    var own: seq<CloudInitEntry> := match w case Stop => [] case Save(r) => r.entries;
    assert Change(w, s).cloudInit == own;
    assert CloudInitDocument(Change(w, s)) == [Nameserver(s.network.nameservers, s.network.searches)] + own;
  }

  // ---------- Where updates are lost ----------

  lemma EncodedIsLoadable(y: Yaml, s: SandboxData)
    requires y.Lawful() && StorableDevices(s)
    ensures IsCRIProfile(Encode(y, s)) && Decode(y, Encode(y, s)) == Ok(Reloaded(s))
    ensures StorableDevices(Reloaded(s))
    ensures StateOf(Encode(y, s)) == s.state
  {
    hide Encode, Decode;
    WireFormat(y, s);
    DecodeEncode(y, s);
    EncodedStateAndModeData(y, s);
  }

  /** A call that refreshes and updates next overwrites whatever record is there. */
  lemma RefreshedUpdate(y: Yaml, sys: System, id: nat, p: Profile)
    requires id in sys.calls && sys.calls[id].todo != [] && sys.calls[id].tag.None?
    requires sys.calls[id].pod in sys.profiles && sys.profiles[sys.calls[id].pod] == p
    requires IsCRIProfile(p) && Decode(y, p).Ok?
    ensures
      var call, after := sys.calls[id], Next(y, Next(y, sys, Refresh(id)), Update(id));
      && call.pod in after.profiles
      && after.profiles[call.pod] == Encode(y, Change(call.todo[0], call.s))
      && after.log == sys.log + [Changed(call.pod, call.todo[0], call.s, call.base, p)]
  {
    hide Encode, Decode, IsCRIProfile;
  }

  /** RunPodSandbox creates the profile, fetches the new ETag without the data, and saves again.  A
      StopPodSandbox between the two is undone: the pod is stored as ready again. */
  lemma StopDuringRunIsUndone(y: Yaml, pod: string, s: SandboxData, result: NetworkResult)
    requires y.Lawful() && StorableDevices(s)
    ensures
      var created := Next(y, Initial(map[]), Create(0, pod, s, [Save(result)]));
      var stopped := Next(y, Next(y, created, Load(1, pod, Stop)), Update(1));
      var saved := Next(y, Next(y, stopped, Refresh(0)), Update(0));
      && pod in stopped.profiles && StateOf(stopped.profiles[pod]) == NotReady
      && pod in saved.profiles && StateOf(saved.profiles[pod]) == Ready
      && !NothingLost(saved.log, 0, pod)
  {
    hide Encode, Decode, IsCRIProfile, StateOf;
    var s0 := WithoutDefaultNic(s.(state := Ready));
    var s1 := StoppedData(Reloaded(s0));
    var p0, p1 := Encode(y, s0), Encode(y, s1);
    assert IsCRIProfile(p0) && Decode(y, p0) == Ok(Reloaded(s0)) by { EncodedIsLoadable(y, s0); }
    var created := Next(y, Initial(map[]), Create(0, pod, s, [Save(result)]));
    assert created.profiles == map[pod := p0];
    assert created.calls == map[0 := Call(pod, s0, p0, None, [Save(result)])];
    var loaded := Next(y, created, Load(1, pod, Stop));
    assert loaded.calls[1] == Call(pod, Reloaded(s0), p0, Some(p0), [Stop]);
    var stopped := Next(y, loaded, Update(1));
    assert stopped.profiles[pod] == p1 && stopped.calls[0] == created.calls[0];
    EncodedIsLoadable(y, s0);
    EncodedIsLoadable(y, s1);
    RefreshedUpdate(y, stopped, 0, p1);
    EncodedStateAndModeData(y, Change(Save(result), s0));
    var saved := Next(y, Next(y, stopped, Refresh(0)), Update(0));
    assert saved.log[|saved.log| - 1] == Changed(pod, Save(result), s0, p0, p1);
  }
}
