/** The runtime object whose critical sections and finalisation are the owner's steps. */
module BundledAfRuntimes {
  import opened BundledRuntime

  /** `finalizeShutdown` from its first join to its last statement, as steps of the owner. */
  function Finalisation(joins: nat): seq<Step>
    decreases joins
  {
    if joins == 0 then [JoinCleaner, Release, ReleaseHandlers, Close] else [JoinNext] + Finalisation(joins - 1)
  }

  function Finalised(s: State): State {
    s.(life := Stopped, orchestrator := false, handlers := false, owner := Idle,
       south := seq(|s.south|, _ => Absent), cleaner := NoCleaner)
  }

  lemma CloseRuns(s: State)
    requires s.owner == ReleasingHandlers
    ensures ValidRun(s, [ReleaseHandlers, Close])
    ensures Run(s, [ReleaseHandlers, Close]) == s.(life := Stopped, handlers := false, owner := Idle)
  {
    StepThen(s.(handlers := false, owner := Closing), Close, []);
    StepThen(s, ReleaseHandlers, [Close]);
    assert [ReleaseHandlers] + [Close] == [ReleaseHandlers, Close];
  }

  lemma ReleasesRun(s: State)
    requires s.owner == Joining(|s.south|) && s.cleaner in {NoCleaner, Left}
    ensures ValidRun(s, Finalisation(0))
    ensures Run(s, Finalisation(0)) ==
            s.(life := Stopped, orchestrator := false, handlers := false, owner := Idle, cleaner := NoCleaner)
  {
    var s1 := s.(cleaner := NoCleaner, owner := Releasing);
    CloseRuns(s1.(orchestrator := false, owner := ReleasingHandlers));
    StepThen(s1, Release, [ReleaseHandlers, Close]);
    StepThen(s, JoinCleaner, [Release] + [ReleaseHandlers, Close]);
    assert Finalisation(0) == [JoinCleaner] + ([Release] + [ReleaseHandlers, Close]);
  }

  /** Once all threads have ended, finalisation runs through and leaves the runtime as it was built. */
  lemma {:induction false} FinalisationRuns(s: State, next: nat)
    requires s.owner == Joining(next) && next <= |s.south| && s.cleaner in {NoCleaner, Left}
    requires forall j :: 0 <= j < |s.south| ==> s.south[j] in (if j < next then {Absent} else {Absent, Ended})
    ensures ValidRun(s, Finalisation(|s.south| - next))
    ensures Run(s, Finalisation(|s.south| - next)) == Finalised(s)
    decreases |s.south| - next
  {
    if next < |s.south| {
      var t := s.(south := s.south[next := Absent], owner := Joining(next + 1));
      FinalisationRuns(t, next + 1);
      StepThen(s, JoinNext, Finalisation(|s.south| - next - 1));
      assert Finalised(t) == Finalised(s);
    } else {
      assert Finalised(s).south == s.south;
      ReleasesRun(s);
    }
  }

  /** The owner's own steps through a whole request. */
  function Passing(life: Life, orchestrator: bool): seq<Step> {
    if Over(life) then [OwnerCall]
    else if orchestrator then [OwnerCall, OwnerCall, OwnerCall, OwnerCall]
    else [OwnerCall, OwnerCall, OwnerCall]
  }

  /** Where a whole request leaves the runtime. */
  function Passed(s: State): State {
    if Over(s.life) then s else s.(life := Stopping, halted := s.halted || s.orchestrator, told := true)
  }

  /** From inside the orchestrator the pass takes two more steps. */
  lemma PassEnds(s: State)
    requires s.owner.Requesting? && s.owner.call == InHandlers
    ensures ValidRun(s, [OwnerCall])
    ensures Run(s, [OwnerCall]) == s.(owner := Requesting(Returned, s.owner.finalise), told := true)
  {
    StepThen(s, OwnerCall, []);
  }

  lemma PassHalts(s: State)
    requires s.owner.Requesting? && s.owner.call == InOrchestrator
    ensures ValidRun(s, [OwnerCall, OwnerCall])
    ensures Run(s, [OwnerCall, OwnerCall]) ==
            s.(owner := Requesting(Returned, s.owner.finalise), halted := true, told := true)
  {
    var t := s.(owner := Requesting(InHandlers, s.owner.finalise), halted := true);
    PassEnds(t);
    StepThen(s, OwnerCall, [OwnerCall]);
  }

  lemma PassWon(s: State)
    requires s.owner.Requesting? && s.owner.call == Won
    ensures ValidRun(s, if s.orchestrator then [OwnerCall, OwnerCall, OwnerCall] else [OwnerCall, OwnerCall])
    ensures Run(s, if s.orchestrator then [OwnerCall, OwnerCall, OwnerCall] else [OwnerCall, OwnerCall]) ==
            s.(owner := Requesting(Returned, s.owner.finalise), halted := s.halted || s.orchestrator, told := true)
  {
    if s.orchestrator {
      PassHalts(s.(owner := Requesting(InOrchestrator, s.owner.finalise)));
      StepThen(s, OwnerCall, [OwnerCall, OwnerCall]);
      assert [OwnerCall] + [OwnerCall, OwnerCall] == [OwnerCall, OwnerCall, OwnerCall];
    } else {
      PassEnds(s.(owner := Requesting(InHandlers, s.owner.finalise)));
      StepThen(s, OwnerCall, [OwnerCall]);
    }
  }

  lemma PassRuns(s: State)
    requires s.owner.Requesting? && s.owner.call == Outside
    ensures ValidRun(s, Passing(s.life, s.orchestrator))
    ensures Run(s, Passing(s.life, s.orchestrator)) == Passed(s).(owner := Requesting(Returned, s.owner.finalise))
  {
    if Over(s.life) {
      StepThen(s, OwnerCall, []);
    } else {
      PassWon(s.(life := Stopping, owner := Requesting(Won, s.owner.finalise)));
      StepThen(s, OwnerCall, if s.orchestrator then [OwnerCall, OwnerCall, OwnerCall] else [OwnerCall, OwnerCall]);
    }
  }

  class BundledAfRuntime {
    var state: Life
    var orchestrator: bool
    var handlers: bool
    var southboundThreads: seq<Southbound>
    var cleanupThread: Cleaner
    var orchestratorStopped: bool
    var handlersStopped: bool

    constructor (handlerCount: nat)
      ensures View(Idle, []) == Initial(handlerCount, 0)
    {
      state, orchestrator, handlers := Stopped, false, false;
      southboundThreads, cleanupThread := seq(handlerCount, _ => Absent), NoCleaner;
      orchestratorStopped, handlersStopped := false, false;
    }

    /** The runtime as the step model sees it, given where the owner and the outside threads are. */
    ghost function View(owner: Owner, outside: seq<Call>): State
      reads this
    {
      State(state, orchestrator, handlers, owner, southboundThreads, cleanupThread, outside, orchestratorStopped, handlersStopped)
    }

    method Initialize() returns (ok: bool)
      modifies this
      ensures ok <==> old(state) == Stopped
      ensures View(Idle, []) == Apply(old(View(Idle, [])), BundledRuntime.Initialize)
    {
      if state != Stopped {
        return false;
      }
      handlers, handlersStopped := true, false;
      orchestrator, orchestratorStopped := true, false;
      ok := true;
    }

    /** The guarded opening of `start`. */
    method BeginStart() returns (ok: bool)
      modifies this`state
      ensures ok <==> old(state) == Stopped && orchestrator
      ensures View(if ok then Spawning(0) else Idle, []) == Apply(old(View(Idle, [])), Start)
    {
      if state != Stopped || !orchestrator {
        return false;
      }
      state := Starting;
      ok := true;
    }

    method MarkRunning()
      modifies this`state
      ensures View(Idle, []) == Apply(old(View(Announcing, [])), Announce)
    {
      if state == Starting {
        state := Running;
      }
    }

    /** `requestShutdown` by a caller that nobody disturbs: the first one stops the orchestrator and then
        every handler, the last one first; all others do nothing. */
    method RequestShutdown(ghost finalise: bool) returns (stops: seq<nat>)
      modifies this`state, this`orchestratorStopped, this`handlersStopped
      ensures old(state) in {Stopping, Stopped} ==> stops == [] && View(Idle, []) == old(View(Idle, []))
      ensures old(state) in {Starting, Running} ==>
                && state == Stopping && handlersStopped && (orchestrator ==> orchestratorStopped)
                && |stops| == |southboundThreads|
                && forall i :: 0 <= i < |stops| ==> stops[i] == |stops| - 1 - i
      ensures ValidRun(old(View(Requesting(Outside, finalise), [])), Passing(old(state), orchestrator))
      ensures View(Requesting(Returned, finalise), []) ==
              Run(old(View(Requesting(Outside, finalise), [])), Passing(old(state), orchestrator))
    {
      PassRuns(View(Requesting(Outside, finalise), []));
      stops := [];
      if state == Stopping || state == Stopped {
        return;
      }
      state := Stopping;
      if orchestrator {
        orchestratorStopped := true;
      }
      for i := |southboundThreads| downto 0
        invariant |stops| == |southboundThreads| - i
        invariant forall j :: 0 <= j < |stops| ==> stops[j] == |southboundThreads| - 1 - j
      {
        stops := stops + [i];
      }
      handlersStopped := true;
    }

    /** A join waits for its thread, so all threads have ended by the time the joins are through. */
    method FinalizeShutdown(ghost outside: seq<Call>)
      requires cleanupThread in {NoCleaner, Left}
      requires forall j :: 0 <= j < |southboundThreads| ==> southboundThreads[j] in {Absent, Ended}
      modifies this
      ensures ValidRun(old(View(Joining(0), outside)), Finalisation(|old(southboundThreads)|))
      ensures View(Idle, outside) == Run(old(View(Joining(0), outside)), Finalisation(|old(southboundThreads)|))
    {
      FinalisationRuns(View(Joining(0), outside), 0);
      for i := 0 to |southboundThreads|
        invariant |southboundThreads| == |old(southboundThreads)|
        invariant forall j :: 0 <= j < i ==> southboundThreads[j] == Absent
        invariant cleanupThread == old(cleanupThread) && state == old(state)
        invariant orchestratorStopped == old(orchestratorStopped) && handlersStopped == old(handlersStopped)
      {
        southboundThreads := southboundThreads[i := Absent];
      }
      cleanupThread := NoCleaner;
      orchestrator := false;
      handlers := false;
      state := Stopped;
      assert southboundThreads == seq(|old(southboundThreads)|, _ => Absent);
    }
  }
}
