/** Start and shutdown of the bundled process as interleaved steps of its threads: the owner that
    calls initialize/start/wait, one southbound thread per handler, the cleanup thread, and outside
    threads that may ask for a shutdown at any moment. */
module BundledRuntime {
  datatype Life = Stopped | Starting | Running | Stopping

  /** Where a thread is inside `requestShutdown`. */
  datatype Call = Outside | Won | InOrchestrator | InHandlers | Returned

  datatype Southbound = Absent | Serving | Failing(call: Call) | Ended
  datatype Cleaner = NoCleaner | Sleeping | Sweeping | Left

  datatype Owner =
    | Idle
    | Spawning(next: nat)
    | SpawningCleaner
    | Announcing
    | Waiting
    | Requesting(call: Call, finalise: bool)
    | Joining(next: nat)
    | Releasing
    | ReleasingHandlers
    | Closing

  /** `halted` and `told` say that the orchestrator, and then all handlers, have been stopped. */
  datatype State = State(life: Life, orchestrator: bool, handlers: bool, owner: Owner,
                         south: seq<Southbound>, cleaner: Cleaner, outside: seq<Call>, halted: bool, told: bool)

  datatype Step =
    | Initialize | Start | SpawnNext | StartOrchestrator | SpawnCleaner | Announce | Throw
    | Wait | Woken | Shutdown(finalise: bool) | OwnerCall | OwnerDone
    | JoinNext | JoinCleaner | Release | ReleaseHandlers | Close
    | Fail(i: nat) | SouthCall(i: nat) | SouthEnd(i: nat) | SouthQuit(i: nat)
    | Wake | SweepDone
    | OutsideCall(i: nat) | OutsideAgain(i: nat)

  predicate Over(life: Life) {
    life in {Stopping, Stopped}
  }

  /** The critical section of `requestShutdown`: the first caller claims the stop pass. */
  function Claim(life: Life): (Life, Call) {
    if Over(life) then (life, Returned) else (Stopping, Won)
  }

  /** One step of a thread inside `requestShutdown`. */
  function Advance(s: State, c: Call): (Life, Call) {
    match c
    case Outside => Claim(s.life)
    case Won => (s.life, if s.orchestrator then InOrchestrator else InHandlers)
    case InOrchestrator => (s.life, InHandlers)
    case _ => (s.life, Returned)
  }

  /** What that step does to the shared state. */
  function Progressed(s: State, c: Call): State {
    s.(life := Advance(s, c).0, halted := s.halted || c == InOrchestrator, told := s.told || c == InHandlers)
  }

  /** A handler returns from its start once it has been stopped (`SouthEnd`), or of its own accord. */
  predicate Enabled(s: State, step: Step) {
    match step
    case Initialize => s.owner == Idle
    case Start => s.owner == Idle
    case SpawnNext => s.owner.Spawning? && s.owner.next < |s.south|
    case StartOrchestrator => s.owner == Spawning(|s.south|)
    case SpawnCleaner => s.owner == SpawningCleaner
    case Announce => s.owner == Announcing
    case Throw => s.owner.Spawning? || s.owner.SpawningCleaner?
    case Wait => s.owner == Idle
    case Woken => s.owner == Waiting
    case Shutdown(_) => s.owner == Idle
    case OwnerCall => s.owner.Requesting? && s.owner.call != Returned
    case OwnerDone => s.owner.Requesting? && s.owner.call == Returned
    case JoinNext => s.owner.Joining? && s.owner.next < |s.south| && s.south[s.owner.next] in {Absent, Ended}
    case JoinCleaner => s.owner == Joining(|s.south|) && s.cleaner in {NoCleaner, Left}
    case Release => s.owner == Releasing
    case ReleaseHandlers => s.owner == ReleasingHandlers
    case Close => s.owner == Closing
    case Fail(i) => i < |s.south| && s.south[i] == Serving
    case SouthCall(i) => i < |s.south| && s.south[i].Failing? && s.south[i].call != Returned
    case SouthEnd(i) => i < |s.south| && (s.south[i] == Failing(Returned) || (s.south[i] == Serving && s.told))
    case SouthQuit(i) => i < |s.south| && s.south[i] == Serving
    case Wake => s.cleaner == Sleeping
    case SweepDone => s.cleaner == Sweeping
    case OutsideCall(i) => i < |s.outside| && s.outside[i] != Returned
    case OutsideAgain(i) => i < |s.outside| && s.outside[i] == Returned
  }

  /** `initialize` and `start` throw, changing nothing, outside the stopped state; `start` also
      without an orchestrator. */
  function Apply(s: State, step: Step): State
    requires Enabled(s, step)
  {
    match step
    case Initialize =>
      if s.life != Stopped then s else s.(orchestrator := true, handlers := true, halted := false, told := false)
    case Start =>
      if s.life != Stopped || !s.orchestrator then s else s.(life := Starting, owner := Spawning(0))
    case SpawnNext => s.(south := s.south[s.owner.next := Serving], owner := Spawning(s.owner.next + 1))
    case StartOrchestrator => s.(owner := SpawningCleaner)
    case SpawnCleaner => s.(cleaner := Sleeping, owner := Announcing)
    case Announce => s.(life := Announced(s.life), owner := Idle)
    case Throw => s.(owner := Requesting(Outside, true))
    case Wait => s.(owner := if s.orchestrator then Waiting else Requesting(Outside, true))
    case Woken => s.(owner := Requesting(Outside, true))
    case Shutdown(finalise) => s.(owner := Requesting(Outside, finalise))
    case OwnerCall =>
      Progressed(s, s.owner.call).(owner := Requesting(Advance(s, s.owner.call).1, s.owner.finalise))
    case OwnerDone => s.(owner := if s.owner.finalise then Joining(0) else Idle)
    case JoinNext => s.(south := s.south[s.owner.next := Absent], owner := Joining(s.owner.next + 1))
    case JoinCleaner => s.(cleaner := NoCleaner, owner := Releasing)
    case Release => s.(orchestrator := false, owner := ReleasingHandlers)
    case ReleaseHandlers => s.(handlers := false, owner := Closing)
    case Close => s.(life := Stopped, owner := Idle)
    case Fail(i) => s.(south := s.south[i := Failing(Outside)])
    case SouthCall(i) =>
      Progressed(s, s.south[i].call).(south := s.south[i := Failing(Advance(s, s.south[i].call).1)])
    case SouthEnd(i) => s.(south := s.south[i := Ended])
    case SouthQuit(i) => s.(south := s.south[i := Ended])
    case Wake => s.(cleaner := if Over(s.life) then Left else if s.orchestrator then Sweeping else Sleeping)
    case SweepDone => s.(cleaner := Sleeping)
    case OutsideCall(i) =>
      Progressed(s, s.outside[i]).(outside := s.outside[i := Advance(s, s.outside[i]).1])
    case OutsideAgain(i) => s.(outside := s.outside[i := Outside])
  }

  function Announced(life: Life): Life {
    if life == Starting then Running else life
  }

  function Initial(handlers: nat, outsiders: nat): State {
    State(Stopped, false, false, Idle, seq(handlers, _ => Absent), NoCleaner, seq(outsiders, _ => Outside), false, false)
  }

  predicate ValidRun(s: State, steps: seq<Step>)
    decreases steps
  {
    steps == [] || (Enabled(s, steps[0]) && ValidRun(Apply(s, steps[0]), steps[1..]))
  }

  function Run(s: State, steps: seq<Step>): State
    requires ValidRun(s, steps)
    decreases steps
  {
    if steps == [] then s else Run(Apply(s, steps[0]), steps[1..])
  }

  // === What goes wrong when something is released too early ===

  predicate InPass(c: Call) {
    c in {Won, InOrchestrator, InHandlers}
  }

  /** Some thread is executing a member function of the orchestrator. */
  ghost predicate OrchestratorInUse(s: State) {
    || s.owner.Spawning? || s.owner == Waiting
    || (s.owner.Requesting? && s.owner.call == InOrchestrator)
    || s.cleaner == Sweeping
    || (exists i :: 0 <= i < |s.south| && s.south[i] == Failing(InOrchestrator))
    || (exists i :: 0 <= i < |s.outside| && s.outside[i] == InOrchestrator)
  }

  /** Some thread is executing a member function of a southbound handler, or walking their list. */
  ghost predicate HandlersInUse(s: State) {
    || s.owner.Spawning?
    || (s.owner.Requesting? && s.owner.call == InHandlers)
    || (exists i :: 0 <= i < |s.south| && s.south[i] in {Serving, Failing(InHandlers)})
    || (exists i :: 0 <= i < |s.outside| && s.outside[i] == InHandlers)
  }

  ghost predicate Safe(s: State) {
    && (OrchestratorInUse(s) ==> s.orchestrator)
    && (HandlersInUse(s) ==> s.handlers)
  }

  ghost predicate SafeRun(s: State, steps: seq<Step>)
    requires ValidRun(s, steps)
    decreases steps
  {
    Safe(s) && (steps != [] ==> SafeRun(Apply(s, steps[0]), steps[1..]))
  }

  // === The invariant ===

  predicate OutsidersQuiet(s: State) {
    forall i :: 0 <= i < |s.outside| ==> !InPass(s.outside[i])
  }

  /** The owner releases the orchestrator only when no outside thread is inside a stop pass. */
  predicate Patient(s: State, steps: seq<Step>)
    requires ValidRun(s, steps)
    decreases steps
  {
    steps == [] || ((steps[0] == Release ==> OutsidersQuiet(s)) && Patient(Apply(s, steps[0]), steps[1..]))
  }

  predicate SouthQuiet(s: State) {
    forall i :: 0 <= i < |s.south| && s.south[i].Failing? ==> !InPass(s.south[i].call)
  }

  predicate Finalising(o: Owner) {
    o.Joining? || o.Releasing? || o.ReleasingHandlers? || o.Closing?
  }

  predicate Releasable(s: State) {
    s.cleaner == NoCleaner && forall j :: 0 <= j < |s.south| ==> s.south[j] == Absent
  }

  /** Whoever has returned from a shutdown request, or is past it, sees a runtime that is over. */
  predicate PastRequest(s: State) {
    Finalising(s.owner) || (s.owner.Requesting? && s.owner.call == Returned) ==> Over(s.life)
  }

  /** While the owner starts threads, those to come do not exist yet. */
  predicate SpawningOk(s: State) {
    && (s.owner.Spawning? || s.owner.SpawningCleaner? ==> s.cleaner == NoCleaner && s.life != Stopped)
    && (s.owner.Spawning? ==>
          s.owner.next <= |s.south| && forall j :: s.owner.next <= j < |s.south| ==> s.south[j] == Absent)
    && (s.owner.Announcing? ==> s.life != Stopped)
  }

  predicate JoiningOk(s: State) {
    s.owner.Joining? ==>
      s.owner.next <= |s.south| && forall j :: 0 <= j < s.owner.next ==> s.south[j] == Absent
  }

  /** All threads are joined before anything is released, and while the runtime is stopped. */
  predicate JoinedOk(s: State) {
    s.owner.Releasing? || s.owner.ReleasingHandlers? || s.owner.Closing? || s.life == Stopped ==> Releasable(s)
  }

  predicate OwnerCallOk(s: State) {
    && (s.owner.Waiting? ==> s.orchestrator)
    && (s.owner.Requesting? && InPass(s.owner.call) ==> s.life == Stopping)
  }

  predicate OwnerOk(s: State) {
    PastRequest(s) && SpawningOk(s) && JoiningOk(s) && JoinedOk(s) && OwnerCallOk(s)
  }

  /** A pass goes on only while the runtime is stopping and nothing has been released. */
  predicate ResourcesOk(s: State) {
    && (s.orchestrator ==> s.handlers)
    && (s.life != Stopped && !s.owner.ReleasingHandlers? && !s.owner.Closing? ==> s.orchestrator)
    && (s.owner.ReleasingHandlers? || s.owner.Closing? ==> !s.orchestrator && OutsidersQuiet(s))
    && (s.life != Stopping ==> OutsidersQuiet(s) && SouthQuiet(s))
  }

  predicate Inv(s: State) {
    OwnerOk(s) && ResourcesOk(s)
  }

  lemma InvInitial(handlers: nat, outsiders: nat)
    ensures Inv(Initial(handlers, outsiders))
  {
  }

  lemma InvIsSafe(s: State)
    requires Inv(s)
    ensures Safe(s)
  {
  }

  /** Steps of the owner itself. */
  predicate ByOwner(step: Step) {
    !(step.Fail? || step.SouthCall? || step.SouthEnd? || step.SouthQuit? || step.Wake? || step.SweepDone? || IsOutside(step))
  }

  lemma PastRequestStep(s: State, step: Step)
    requires PastRequest(s) && OwnerCallOk(s) && Enabled(s, step)
    ensures PastRequest(Apply(s, step))
  {
  }

  lemma SpawningOkStep(s: State, step: Step)
    requires SpawningOk(s) && JoinedOk(s) && Enabled(s, step)
    ensures SpawningOk(Apply(s, step))
  {
  }

  lemma JoiningOkStep(s: State, step: Step)
    requires JoiningOk(s) && Enabled(s, step)
    ensures JoiningOk(Apply(s, step))
  {
  }

  lemma JoinedOkStep(s: State, step: Step)
    requires JoinedOk(s) && JoiningOk(s) && SpawningOk(s) && Enabled(s, step)
    ensures JoinedOk(Apply(s, step))
  {
  }

  lemma OwnerCallOkStep(s: State, step: Step)
    requires OwnerCallOk(s) && Enabled(s, step)
    ensures OwnerCallOk(Apply(s, step))
  {
  }

  lemma OwnerOkStep(s: State, step: Step)
    requires OwnerOk(s) && Enabled(s, step)
    ensures OwnerOk(Apply(s, step))
  {
    PastRequestStep(s, step);
    SpawningOkStep(s, step);
    JoiningOkStep(s, step);
    JoinedOkStep(s, step);
    OwnerCallOkStep(s, step);
  }

  lemma ResourcesOkOwner(s: State, step: Step)
    requires Inv(s) && Enabled(s, step) && ByOwner(step) && (step == Release ==> OutsidersQuiet(s))
    ensures ResourcesOk(Apply(s, step))
  {
  }

  lemma ResourcesOkSouth(s: State, step: Step)
    requires Inv(s) && Enabled(s, step) && !ByOwner(step) && !IsOutside(step)
    ensures ResourcesOk(Apply(s, step))
  {
  }

  lemma ResourcesOkOutside(s: State, step: Step)
    requires Inv(s) && Enabled(s, step) && IsOutside(step)
    ensures ResourcesOk(Apply(s, step))
  {
  }

  lemma InvStep(s: State, step: Step)
    requires Inv(s) && Enabled(s, step) && (step == Release ==> OutsidersQuiet(s))
    ensures Inv(Apply(s, step))
  {
    OwnerOkStep(s, step);
    if ByOwner(step) {
      ResourcesOkOwner(s, step);
    } else {
      if IsOutside(step) {
        ResourcesOkOutside(s, step);
      } else {
        ResourcesOkSouth(s, step);
      }
    }
  }

  lemma {:induction false} InvRun(s: State, steps: seq<Step>)
    requires Inv(s) && ValidRun(s, steps) && Patient(s, steps)
    ensures SafeRun(s, steps) && Inv(Run(s, steps))
    decreases steps
  {
    InvIsSafe(s);
    if steps != [] {
      InvStep(s, steps[0]);
      InvRun(Apply(s, steps[0]), steps[1..]);
    }
  }

  /** Nothing is used after its release as long as the owner is patient with outside stop passes. */
  lemma PatientRunsAreSafe(handlers: nat, outsiders: nat, steps: seq<Step>)
    requires ValidRun(Initial(handlers, outsiders), steps) && Patient(Initial(handlers, outsiders), steps)
    ensures SafeRun(Initial(handlers, outsiders), steps)
  {
    InvInitial(handlers, outsiders);
    InvRun(Initial(handlers, outsiders), steps);
  }

  // === With and without outside threads ===

  lemma {:induction false} AloneIsPatient(s: State, steps: seq<Step>)
    requires ValidRun(s, steps) && s.outside == []
    ensures Patient(s, steps)
    decreases steps
  {
    if steps != [] {
      assert Apply(s, steps[0]).outside == [];
      AloneIsPatient(Apply(s, steps[0]), steps[1..]);
    }
  }

  ghost predicate AlwaysSafe(handlers: nat, outsiders: nat) {
    forall steps :: ValidRun(Initial(handlers, outsiders), steps) ==> SafeRun(Initial(handlers, outsiders), steps)
  }

  ghost predicate Reaches(s: State, t: State) {
    exists steps :: ValidRun(s, steps) && Run(s, steps) == t
  }

  lemma ReachesBefore(s: State, step: Step, t: State)
    requires Enabled(s, step) && Reaches(Apply(s, step), t)
    ensures Reaches(s, t)
  {
    var rest :| ValidRun(Apply(s, step), rest) && Run(Apply(s, step), rest) == t;
    var steps := [step] + rest;
    assert steps[0] == step && steps[1..] == rest;
    assert ValidRun(s, steps) && Run(s, steps) == t;
  }

  lemma {:induction false} SafeAtEnd(s: State, steps: seq<Step>)
    requires ValidRun(s, steps) && SafeRun(s, steps)
    ensures Safe(Run(s, steps))
    decreases steps
  {
    if steps != [] {
      SafeAtEnd(Apply(s, steps[0]), steps[1..]);
    }
  }

  /** With no thread to join, the owner goes straight on to the release. */
  lemma {:induction false} ReleaseReached(s: State, next: nat)
    requires s.owner == Joining(next) && next <= |s.south| && Releasable(s)
    ensures Reaches(s, s.(owner := ReleasingHandlers, orchestrator := false))
    decreases |s.south| - next
  {
    var last := s.(owner := ReleasingHandlers, orchestrator := false);
    if next < |s.south| {
      assert Apply(s, JoinNext) == s.(owner := Joining(next + 1));
      ReleaseReached(s.(owner := Joining(next + 1)), next + 1);
      ReachesBefore(s, JoinNext, last);
    } else {
      assert ValidRun(last, []) && Run(last, []) == last;
      ReachesBefore(s.(owner := Releasing), Release, last);
      assert Apply(s, JoinCleaner) == s.(owner := Releasing);
      ReachesBefore(s, JoinCleaner, last);
    }
  }

  /** The runtime has been started and an outside thread, having claimed the stop pass, is stopping the
      orchestrator. */
  function BeingStopped(handlers: nat, outsiders: nat): State
    requires outsiders > 0
  {
    var s := Initial(handlers, outsiders);
    s.(orchestrator := true, handlers := true, life := Stopping, owner := Spawning(0),
       outside := s.outside[0 := InOrchestrator])
  }

  lemma BeingStoppedReached(handlers: nat, outsiders: nat, t: State)
    requires outsiders > 0 && Reaches(BeingStopped(handlers, outsiders), t)
    ensures Reaches(Initial(handlers, outsiders), t)
  {
    var s := Initial(handlers, outsiders);
    var s1 := s.(orchestrator := true, handlers := true);
    var s2 := s1.(life := Starting, owner := Spawning(0));
    var s3 := s2.(life := Stopping, outside := s.outside[0 := Won]);
    assert s3.outside[0 := InOrchestrator] == s.outside[0 := InOrchestrator];
    ReachesBefore(s3, OutsideCall(0), t);
    ReachesBefore(s2, OutsideCall(0), t);
    ReachesBefore(s1, Start, t);
    ReachesBefore(s, Initialize, t);
  }

  /** `start` fails after an outside thread has claimed the stop pass: the owner finds nothing to
      join and releases the orchestrator while that thread is stopping it. */
  lemma UseAfterRelease(handlers: nat, outsiders: nat)
    requires outsiders > 0
    ensures exists t :: Reaches(Initial(handlers, outsiders), t) && !Safe(t)
  {
    var s := BeingStopped(handlers, outsiders);
    var s1 := s.(owner := Requesting(Outside, true));
    var s2 := s.(owner := Requesting(Returned, true));
    var s3 := s.(owner := Joining(0));
    var t := s.(owner := ReleasingHandlers, orchestrator := false);
    ReleaseReached(s3, 0);
    ReachesBefore(s2, OwnerDone, t);
    ReachesBefore(s1, OwnerCall, t);
    ReachesBefore(s, Throw, t);
    BeingStoppedReached(handlers, outsiders, t);
    assert t.outside[0] == InOrchestrator;
  }

  /** Every interleaving is safe exactly when only the owner and the threads it joins ask for
      shutdown. */
  lemma AlwaysSafeIff(handlers: nat, outsiders: nat)
    ensures AlwaysSafe(handlers, outsiders) <==> outsiders == 0
  {
    var s := Initial(handlers, outsiders);
    if outsiders == 0 {
      forall steps | ValidRun(s, steps)
        ensures SafeRun(s, steps)
      {
        AloneIsPatient(s, steps);
        PatientRunsAreSafe(handlers, outsiders, steps);
      }
    } else {
      UseAfterRelease(handlers, outsiders);
      var t :| Reaches(s, t) && !Safe(t);
      var steps :| ValidRun(s, steps) && Run(s, steps) == t;
      if SafeRun(s, steps) {
        SafeAtEnd(s, steps);
        assert false;
      }
    }
  }

  // === What holds in every run, whoever asks for shutdown ===

  /** The cleanup thread of a runtime that is not over goes on sweeping as long as there is an
      orchestrator, and leaves once it is over. */
  lemma CleanerGoesOn(s: State)
    requires Inv(s) && s.cleaner == Sleeping
    ensures Enabled(s, Wake)
    ensures Apply(s, Wake).cleaner == if s.life in {Starting, Running} then Sweeping else Left
    ensures Apply(s, Wake).cleaner == Sweeping ==>
              Enabled(Apply(s, Wake), SweepDone) && Apply(Apply(s, Wake), SweepDone) == s
  {
  }

  /** The owner's steps from `start` to its end when nothing goes wrong. */
  function Spawns(n: nat): seq<Step> {
    if n == 0 then [StartOrchestrator, SpawnCleaner, Announce] else [SpawnNext] + Spawns(n - 1)
  }

  lemma StepThen(s: State, step: Step, rest: seq<Step>)
    requires Enabled(s, step) && ValidRun(Apply(s, step), rest)
    ensures ValidRun(s, [step] + rest) && Run(s, [step] + rest) == Run(Apply(s, step), rest)
  {
    assert ([step] + rest)[1..] == rest;
  }

  lemma {:induction false} SpawnsRun(s: State, k: nat)
    requires s.owner == Spawning(k) && k <= |s.south|
    ensures ValidRun(s, Spawns(|s.south| - k))
    ensures Run(s, Spawns(|s.south| - k)) ==
            s.(life := Announced(s.life), owner := Idle, cleaner := Sleeping,
               south := s.south[..k] + seq(|s.south| - k, _ => Serving))
    decreases |s.south| - k
  {
    if k < |s.south| {
      var t := s.(south := s.south[k := Serving], owner := Spawning(k + 1));
      SpawnsRun(t, k + 1);
      StepThen(s, SpawnNext, Spawns(|s.south| - k - 1));
      assert t.south[..k + 1] == s.south[..k] + [Serving];
      assert [Serving] + seq(|s.south| - k - 1, _ => Serving) == seq(|s.south| - k, _ => Serving);
    } else {
      var s1 := s.(owner := SpawningCleaner);
      var s2 := s1.(cleaner := Sleeping, owner := Announcing);
      StepThen(s2, Announce, []);
      StepThen(s1, SpawnCleaner, [Announce]);
      StepThen(s, StartOrchestrator, [SpawnCleaner] + [Announce]);
      assert Spawns(0) == [StartOrchestrator] + ([SpawnCleaner] + [Announce]);
      assert s.south[..k] + [] == s.south;
    }
  }

  /** A start that nothing disturbs ends with the runtime running, every handler served by its thread and
      the cleanup thread at work. */
  lemma StartRuns(s: State)
    requires s.owner == Idle && s.life == Stopped && s.orchestrator
    ensures ValidRun(s, [Start] + Spawns(|s.south|))
    ensures Run(s, [Start] + Spawns(|s.south|)) ==
            s.(life := Running, cleaner := Sleeping, south := seq(|s.south|, _ => Serving))
  {
    var t := s.(life := Starting, owner := Spawning(0));
    SpawnsRun(t, 0);
    StepThen(s, Start, Spawns(|s.south|));
    assert t.south[..0] + seq(|s.south|, _ => Serving) == seq(|s.south|, _ => Serving);
  }

  /** A southbound thread whose handler fails requests a shutdown, and the first request stops it. */
  lemma FailureStops(s: State, i: nat)
    requires Enabled(s, Fail(i))
    ensures var t := Apply(s, Fail(i));
            && t.south[i] == Failing(Outside) && Enabled(t, SouthCall(i))
            && (s.life in {Starting, Running} ==>
                  Apply(t, SouthCall(i)).life == Stopping && Apply(t, SouthCall(i)).south[i] == Failing(Won))
  {
  }

  /** `wait` on a runtime with an orchestrator requests nothing before it is woken, and then finalises;
      a plain request by the owner never does. */
  lemma OwnerRequests(s: State)
    requires s.owner == Idle
    ensures s.orchestrator ==> Apply(s, Wait) == s.(owner := Waiting)
    ensures s.orchestrator ==> Apply(Apply(s, Wait), Woken).owner == Requesting(Outside, true)
    ensures !s.orchestrator ==> Apply(s, Wait).owner == Requesting(Outside, true)
    ensures var t := Apply(s, Shutdown(false)).(owner := Requesting(Returned, false)); Apply(t, OwnerDone).owner == Idle
    ensures var t := Apply(s, Shutdown(true)).(owner := Requesting(Returned, true)); Apply(t, OwnerDone).owner == Joining(0)
  {
  }

  predicate Forward(before: Life, after: Life) {
    before == after || (before, after) in
      {(Stopped, Starting), (Starting, Running), (Starting, Stopping), (Running, Stopping), (Stopping, Stopped)}
  }

  /** Every step of every run moves the lifecycle forward, and the orchestrator goes only when all
      southbound threads and the cleanup thread have been joined. */
  lemma {:induction false} LifecycleRun(s: State, steps: seq<Step>, i: nat)
    requires OwnerOk(s) && ValidRun(s, steps) && i < |steps|
    ensures ValidRun(s, steps[..i]) && Enabled(Run(s, steps[..i]), steps[i])
    ensures var t := Run(s, steps[..i]);
            && Forward(t.life, Apply(t, steps[i]).life)
            && (t.orchestrator && !Apply(t, steps[i]).orchestrator ==> Releasable(t) && Over(t.life))
    decreases steps
  {
    if i > 0 {
      OwnerOkStep(s, steps[0]);
      LifecycleRun(Apply(s, steps[0]), steps[1..], i - 1);
      assert steps[..i][1..] == steps[1..][..i - 1];
    } else {
      LifecycleStep(s, steps[0]);
    }
  }

  lemma LifecycleStep(s: State, step: Step)
    requires OwnerOk(s) && Enabled(s, step)
    ensures Forward(s.life, Apply(s, step).life)
    ensures s.orchestrator && !Apply(s, step).orchestrator ==> Releasable(s) && Over(s.life)
  {
    if ByOwner(step) {
      LifecycleOwner(s, step);
    } else {
      LifecycleOthers(s, step);
    }
  }

  lemma LifecycleOwner(s: State, step: Step)
    requires OwnerOk(s) && Enabled(s, step) && ByOwner(step)
    ensures Forward(s.life, Apply(s, step).life)
    ensures s.orchestrator && !Apply(s, step).orchestrator ==> Releasable(s) && Over(s.life)
  {
  }

  lemma LifecycleOthers(s: State, step: Step)
    requires Enabled(s, step) && !ByOwner(step)
    ensures Forward(s.life, Apply(s, step).life)
    ensures Apply(s, step).orchestrator == s.orchestrator
  {
    if step.SouthCall? {
      ClaimForward(s, s.south[step.i].call);
    } else if step.OutsideCall? {
      ClaimForward(s, s.outside[step.i]);
    }
  }

  lemma ClaimForward(s: State, c: Call)
    ensures Forward(s.life, Progressed(s, c).life) && Progressed(s, c).orchestrator == s.orchestrator
  {
  }

  /** The step by which a thread claims the stop pass. */
  predicate Claims(s: State, step: Step)
    requires Enabled(s, step)
  {
    s.life in {Starting, Running} && Apply(s, step).life == Stopping
  }

  /** After a claim nothing claims the stop pass again until `start` has run. */
  lemma {:induction false} NoSecondPass(s: State, steps: seq<Step>)
    requires Over(s.life) && ValidRun(s, steps)
    requires forall i :: 0 <= i < |steps| ==> steps[i] != Start
    ensures Over(Run(s, steps).life)
    ensures forall step | Enabled(Run(s, steps), step) :: !Claims(Run(s, steps), step)
    decreases steps
  {
    if steps != [] {
      assert steps[0] != Start;
      NoSecondPass(Apply(s, steps[0]), steps[1..]);
    }
  }

  // === The stop pass stops everything ===

  /** No thread is inside a stop pass. */
  predicate AllQuiet(s: State) {
    !(s.owner.Requesting? && InPass(s.owner.call)) && SouthQuiet(s) && OutsidersQuiet(s)
  }

  /** A stop pass that nobody is in any more has stopped the handlers. */
  predicate ToldOk(s: State) {
    s.life == Stopping && AllQuiet(s) ==> s.told
  }

  lemma ToldOkStep(s: State, step: Step)
    requires ToldOk(s) && SpawningOk(s) && Enabled(s, step)
    ensures ToldOk(Apply(s, step))
  {
    if step.SouthCall? || step.SouthEnd? || step.SouthQuit? || step.Fail? || step.JoinNext? || step.SpawnNext? {
      ToldOkSouth(s, step);
    } else if step.OutsideCall? || step.OutsideAgain? {
      ToldOkOutside(s, step);
    }
  }

  lemma ToldOkSouth(s: State, step: Step)
    requires ToldOk(s) && SpawningOk(s) && Enabled(s, step)
    requires step.SouthCall? || step.SouthEnd? || step.SouthQuit? || step.Fail? || step.JoinNext? || step.SpawnNext?
    ensures ToldOk(Apply(s, step))
  {
    var t := Apply(s, step);
    var i := if step.JoinNext? || step.SpawnNext? then s.owner.next else step.i;
    assert t.south[i] == Apply(s, step).south[i];
    if AllQuiet(t) && t.life == Stopping && !t.told {
      forall j | 0 <= j < |s.south| && s.south[j].Failing?
        ensures !InPass(s.south[j].call)
      {
        assert j != i ==> t.south[j] == s.south[j];
      }
      assert AllQuiet(s);
      assert false;
    }
  }

  lemma ToldOkOutside(s: State, step: Step)
    requires ToldOk(s) && Enabled(s, step) && (step.OutsideCall? || step.OutsideAgain?)
    ensures ToldOk(Apply(s, step))
  {
    var t := Apply(s, step);
    assert t.outside[step.i] == Apply(s, step).outside[step.i];
    if AllQuiet(t) && t.life == Stopping && !t.told {
      forall j | 0 <= j < |s.outside|
        ensures !InPass(s.outside[j])
      {
        assert j != step.i ==> t.outside[j] == s.outside[j];
      }
      assert AllQuiet(s);
      assert false;
    }
  }

  /** In patient runs the orchestrator is there during a pass, so it has been stopped before the
      handlers are. */
  predicate HaltedOk(s: State) {
    HaltedFirst(s) && ToldFresh(s)
  }

  predicate HaltedFirst(s: State) {
    && (s.told && s.life == Stopping ==> s.halted)
    && (s.owner.Requesting? && s.owner.call == InHandlers ==> s.halted)
    && (forall i :: 0 <= i < |s.south| && s.south[i] == Failing(InHandlers) ==> s.halted)
    && (forall i :: 0 <= i < |s.outside| && s.outside[i] == InHandlers ==> s.halted)
  }

  /** A runtime that has not been asked to stop has handlers that have not been stopped. */
  predicate ToldFresh(s: State) {
    && (s.life in {Starting, Running} ==> !s.told)
    && (s.orchestrator && s.life == Stopped ==> !s.told)
  }

  lemma HaltedOwner(s: State, step: Step)
    requires HaltedOk(s) && Inv(s) && Enabled(s, step) && ByOwner(step)
    ensures HaltedFirst(Apply(s, step))
  {
  }

  lemma HaltedOthers(s: State, step: Step)
    requires HaltedOk(s) && Inv(s) && Enabled(s, step) && !ByOwner(step)
    ensures HaltedFirst(Apply(s, step))
  {
  }

  lemma ToldFreshStep(s: State, step: Step)
    requires ToldFresh(s) && Inv(s) && Enabled(s, step)
    ensures ToldFresh(Apply(s, step))
  {
  }

  lemma HaltedOkStep(s: State, step: Step)
    requires HaltedOk(s) && Inv(s) && Enabled(s, step)
    ensures HaltedOk(Apply(s, step))
  {
    if ByOwner(step) {
      HaltedOwner(s, step);
    } else {
      HaltedOthers(s, step);
    }
    ToldFreshStep(s, step);
  }

  lemma {:induction false} StopRun(s: State, steps: seq<Step>)
    requires Inv(s) && HaltedOk(s) && ToldOk(s) && ValidRun(s, steps) && Patient(s, steps)
    ensures var t := Run(s, steps); Inv(t) && HaltedOk(t) && ToldOk(t)
    decreases steps
  {
    if steps != [] {
      InvStep(s, steps[0]);
      HaltedOkStep(s, steps[0]);
      ToldOkStep(s, steps[0]);
      StopRun(Apply(s, steps[0]), steps[1..]);
    }
  }

  /** Whenever a patient run of a started runtime comes to the release, or has no thread left in its
      stop pass, the orchestrator and all handlers have been stopped. */
  lemma StoppedBeforeRelease(handlers: nat, outsiders: nat, steps: seq<Step>)
    requires ValidRun(Initial(handlers, outsiders), steps) && Patient(Initial(handlers, outsiders), steps)
    ensures var t := Run(Initial(handlers, outsiders), steps);
            && (t.life == Stopping && AllQuiet(t) ==> t.halted && t.told)
            && (t.life == Stopping && t.owner == Releasing && OutsidersQuiet(t) ==> t.halted && t.told && Releasable(t))
  {
    InvInitial(handlers, outsiders);
    StopRun(Initial(handlers, outsiders), steps);
  }

  // === Shutdown completes ===

  function CallRank(c: Call): nat {
    match c case Outside => 4 case Won => 3 case InOrchestrator => 2 case InHandlers => 1 case Returned => 0
  }

  function SouthRank(x: Southbound): nat {
    match x case Absent => 0 case Ended => 0 case Failing(c) => 1 + CallRank(c) case Serving => 6
  }

  function OutsideRank(c: Call): nat {
    if InPass(c) then CallRank(c) else 0
  }

  function CleanerRank(c: Cleaner): nat {
    match c case NoCleaner => 0 case Left => 0 case Sleeping => 1 case Sweeping => 2
  }

  function OwnerRank(o: Owner, n: nat): int {
    match o case Joining(k) => n - k + 4 case Releasing => 3 case ReleasingHandlers => 2 case Closing => 1 case _ => 0
  }

  function SouthTotal(south: seq<Southbound>): (r: nat)
    decreases south
  {
    if south == [] then 0 else SouthRank(south[0]) + SouthTotal(south[1..])
  }

  lemma {:induction false} SouthTotalUpdate(south: seq<Southbound>, i: nat, x: Southbound)
    requires i < |south|
    ensures SouthTotal(south[i := x]) == SouthTotal(south) - SouthRank(south[i]) + SouthRank(x)
    decreases south
  {
    if i > 0 {
      assert south[i := x][1..] == south[1..][i - 1 := x];
      SouthTotalUpdate(south[1..], i - 1, x);
    } else {
      assert south[0 := x][1..] == south[1..];
    }
  }

  function OutsideTotal(outside: seq<Call>): (r: nat)
    decreases outside
  {
    if outside == [] then 0 else OutsideRank(outside[0]) + OutsideTotal(outside[1..])
  }

  lemma {:induction false} OutsideTotalUpdate(outside: seq<Call>, i: nat, x: Call)
    requires i < |outside|
    ensures OutsideTotal(outside[i := x]) == OutsideTotal(outside) - OutsideRank(outside[i]) + OutsideRank(x)
    decreases outside
  {
    if i > 0 {
      assert outside[i := x][1..] == outside[1..][i - 1 := x];
      OutsideTotalUpdate(outside[1..], i - 1, x);
    } else {
      assert outside[0 := x][1..] == outside[1..];
    }
  }

  /** Steps left before the shutdown is complete. */
  function Remaining(s: State): int {
    OwnerRank(s.owner, |s.south|) + SouthTotal(s.south) + OutsideTotal(s.outside) + CleanerRank(s.cleaner)
  }

  predicate IsOutside(step: Step) {
    step.OutsideCall? || step.OutsideAgain?
  }

  /** An outside thread that has nothing to do with the stop pass. */
  predicate Idling(s: State, step: Step)
    requires Enabled(s, step)
  {
    step.OutsideAgain? || (step.OutsideCall? && s.outside[step.i] == Outside)
  }

  /** The step needs nobody's good will: no handler fails or returns without having been stopped, and no
      outside thread starts a request. */
  predicate Forced(s: State, step: Step)
    requires Enabled(s, step)
  {
    !step.Fail? && !step.SouthQuit? && !Idling(s, step)
  }

  /** The steps of a run that are not idling. */
  function Moves(s: State, steps: seq<Step>): nat
    requires ValidRun(s, steps)
    decreases steps
  {
    if steps == [] then 0 else (if Idling(s, steps[0]) then 0 else 1) + Moves(Apply(s, steps[0]), steps[1..])
  }

  ghost predicate CanMove(s: State) {
    exists step :: Enabled(s, step) && Forced(s, step)
  }

  /** Somebody inside the stop pass can go on. */
  lemma PassGoesOn(s: State)
    requires Finalising(s.owner) && !AllQuiet(s)
    ensures CanMove(s)
  {
    if !SouthQuiet(s) {
      var i: nat :| i < |s.south| && s.south[i].Failing? && InPass(s.south[i].call);
      assert Enabled(s, SouthCall(i)) && Forced(s, SouthCall(i));
    } else {
      var i: nat :| i < |s.outside| && InPass(s.outside[i]);
      assert Enabled(s, OutsideCall(i)) && Forced(s, OutsideCall(i));
    }
  }

  /** Once the owner is finalising it, a thread it waits for or one inside the stop pass can always move,
      although handlers return only once they have been stopped. */
  lemma ShutdownNeverStuck(s: State)
    requires OwnerOk(s) && ToldOk(s) && Finalising(s.owner)
    ensures CanMove(s)
  {
    if s.owner.Joining? {
      var k := s.owner.next;
      if k < |s.south| {
        JoinNeverStuck(s, k);
      } else {
        var step := if s.cleaner in {NoCleaner, Left} then JoinCleaner
                    else if s.cleaner == Sleeping then Wake else SweepDone;
        assert Enabled(s, step) && Forced(s, step);
      }
    } else {
      var step := if s.owner.Releasing? then Release else if s.owner.Closing? then Close else ReleaseHandlers;
      assert Enabled(s, step) && Forced(s, step);
    }
  }

  lemma JoinNeverStuck(s: State, k: nat)
    requires OwnerOk(s) && ToldOk(s) && s.owner == Joining(k) && k < |s.south|
    ensures CanMove(s)
  {
    var x := s.south[k];
    if x in {Absent, Ended} {
      assert Enabled(s, JoinNext) && Forced(s, JoinNext);
    } else if x == Failing(Returned) || (x == Serving && s.told) {
      assert Enabled(s, SouthEnd(k)) && Forced(s, SouthEnd(k));
    } else if x.Failing? {
      assert Enabled(s, SouthCall(k)) && Forced(s, SouthCall(k));
    } else {
      assert s.life == Stopping;
      PassGoesOn(s);
    }
  }

  /** The step keeps the owner finalising and, unless it idles, uses up a step of the measure. */
  predicate Advances(s: State, step: Step)
    requires Enabled(s, step)
  {
    && Finalising(Apply(s, step).owner)
    && Remaining(Apply(s, step)) <= Remaining(s) - (if Idling(s, step) then 0 else 1)
  }

  lemma SouthAdvances(s: State, step: Step)
    requires Finalising(s.owner) && Enabled(s, step)
    requires step.Fail? || step.SouthEnd? || step.SouthQuit? || step.SouthCall?
    ensures Advances(s, step)
  {
    SouthTotalUpdate(s.south, step.i, Apply(s, step).south[step.i]);
  }

  lemma OutsideAdvances(s: State, step: Step)
    requires Finalising(s.owner) && Over(s.life) && Enabled(s, step) && IsOutside(step)
    ensures Advances(s, step)
  {
    OutsideTotalUpdate(s.outside, step.i, Apply(s, step).outside[step.i]);
  }

  lemma OwnerAdvances(s: State, step: Step)
    requires Finalising(s.owner) && Over(s.life) && Enabled(s, step) && step != Close
    requires ByOwner(step) || step.Wake? || step.SweepDone?
    ensures Advances(s, step)
  {
    if step.JoinNext? {
      SouthTotalUpdate(s.south, s.owner.next, Absent);
    }
  }

  lemma ShutdownAdvances(s: State, step: Step)
    requires OwnerOk(s) && Finalising(s.owner) && Enabled(s, step) && step != Close
    ensures Advances(s, step)
  {
    if step.Fail? || step.SouthEnd? || step.SouthQuit? || step.SouthCall? {
      SouthAdvances(s, step);
    } else if IsOutside(step) {
      OutsideAdvances(s, step);
    } else {
      OwnerAdvances(s, step);
    }
  }

  /** However the steps interleave, a shutdown that is not yet complete has taken fewer steps, idling
      apart, than `Remaining` promised. */
  lemma {:induction false} ShutdownCompletes(s: State, steps: seq<Step>)
    requires OwnerOk(s) && Finalising(s.owner) && ValidRun(s, steps) && Close !in steps
    ensures Finalising(Run(s, steps).owner) && Moves(s, steps) < Remaining(s)
    decreases steps
  {
    if steps == [] {
      assert Remaining(s) > 0;
    } else {
      assert steps[0] != Close;
      OwnerOkStep(s, steps[0]);
      ShutdownAdvances(s, steps[0]);
      ShutdownCompletes(Apply(s, steps[0]), steps[1..]);
    }
  }
}
