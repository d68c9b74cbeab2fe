/** What the outcomes of the pipeline mean, told from the steps of a run: which answers decided them,
    in which order and at which times notifications are taken, and what a stop does. */
module NotificationOutcomes {
  import opened Notifications
  import opened NotificationSafety

  // === Outcomes are the answers ===

  /** The step sends the notification. */
  predicate SendOf(c: Config, s: State, step: Step, id: nat)
    requires Enabled(c, s, step)
  {
    step.Send? && s.workers[step.w].task.id == id
  }

  /** How often the steps send the notification. */
  function Sends(c: Config, s: State, steps: seq<Step>, id: nat): nat
    requires ValidRun(c, s, steps)
    decreases steps
  {
    if steps == [] then 0
    else (if SendOf(c, s, steps[0], id) then 1 else 0) + Sends(c, Apply(c, s, steps[0]), steps[1..], id)
  }

  /** How often it is sent and answered with success. */
  function Successes(c: Config, s: State, steps: seq<Step>, id: nat): nat
    requires ValidRun(c, s, steps)
    decreases steps
  {
    if steps == [] then 0
    else (if SendOf(c, s, steps[0], id) && steps[0].ok then 1 else 0) + Successes(c, Apply(c, s, steps[0]), steps[1..], id)
  }

  lemma CountStep(c: Config, s: State, step: Step, id: nat)
    requires Enabled(c, s, step)
    ensures var t := Apply(c, s, step);
            && t.sends[id] == s.sends[id] + (if SendOf(c, s, step, id) then 1 else 0)
            && t.delivered[id] == s.delivered[id] + (if SendOf(c, s, step, id) && step.ok then 1 else 0)
  {
  }

  lemma {:induction false} CountersAreTheSteps(c: Config, s: State, steps: seq<Step>, id: nat)
    requires ValidRun(c, s, steps)
    ensures Run(c, s, steps).sends[id] == s.sends[id] + Sends(c, s, steps, id)
    ensures Run(c, s, steps).delivered[id] == s.delivered[id] + Successes(c, s, steps, id)
    decreases steps
  {
    if steps != [] {
      CountStep(c, s, steps[0], id);
      CountersAreTheSteps(c, Apply(c, s, steps[0]), steps[1..], id);
    }
  }

  /** An outcome is a success exactly when the run holds a send of that notification answered with
      success, and then just one; a failure means that every permitted attempt was made and failed. The
      callback is told the same. */
  ghost predicate Deserved(c: Config, t: State, o: Outcome, sends: nat, successes: nat) {
    && (o.ok <==> successes > 0) && successes <= 1
    && (!o.ok ==> sends == MaxRetries(c) + 1)
    && Called(t, o.task, o.ok)
  }

  ghost predicate AllDeserved(c: Config, s: State, steps: seq<Step>)
    requires ValidRun(c, s, steps)
  {
    var t := Run(c, s, steps);
    forall i :: 0 <= i < |t.finalised| ==>
      Deserved(c, t, t.finalised[i], Sends(c, s, steps, t.finalised[i].task.id), Successes(c, s, steps, t.finalised[i].task.id))
  }

  predicate NothingSent(s: State) {
    s.sends == multiset{} && s.delivered == multiset{}
  }

  lemma OutcomesAreAnswers(c: Config, s: State, steps: seq<Step>)
    requires Inv(c, s) && NothingSent(s) && ValidRun(c, s, steps)
    ensures AllDeserved(c, s, steps)
  {
    InvRun(c, s, steps);
    var t := Run(c, s, steps);
    forall i | 0 <= i < |t.finalised|
      ensures Deserved(c, t, t.finalised[i], Sends(c, s, steps, t.finalised[i].task.id), Successes(c, s, steps, t.finalised[i].task.id))
    {
      CountersAreTheSteps(c, s, steps, t.finalised[i].task.id);
      assert OutcomeBooked(c, t, t.finalised[i]);
    }
  }

  lemma InitialSent()
    ensures NothingSent(INITIAL)
  {
  }

  /** Every outcome of every run from the start. */
  lemma EveryOutcome(c: Config, steps: seq<Step>)
    requires ValidRun(c, INITIAL, steps)
    ensures AllDeserved(c, INITIAL, steps)
  {
    InvInitial(c);
    InitialSent();
    OutcomesAreAnswers(c, INITIAL, steps);
  }

  // === First come, first served ===

  /** The task queue holds the notifications accepted last, oldest first, none of them sent yet; what
      a stop has discarded was never sent either. */
  predicate InOrder(s: State) {
    && |s.sh.queue| <= s.accepted
    && (forall i :: 0 <= i < |s.sh.queue| ==>
          s.sh.queue[i].id == s.accepted - |s.sh.queue| + i && s.sh.queue[i].retries == 0)
    && (forall i :: 0 <= i < |s.discarded| ==> s.discarded[i].retries == 0)
  }

  lemma InOrderStep(c: Config, s: State, step: Step)
    requires Enabled(c, s, step) && InOrder(s)
    ensures InOrder(Apply(c, s, step))
  {
  }

  lemma {:induction false} InOrderRun(c: Config, s: State, steps: seq<Step>)
    requires ValidRun(c, s, steps) && InOrder(s)
    ensures InOrder(Run(c, s, steps))
    decreases steps
  {
    if steps != [] {
      InOrderStep(c, s, steps[0]);
      InOrderRun(c, Apply(c, s, steps[0]), steps[1..]);
    }
  }

  /** New notifications are taken in the order of their acceptance: the one taken is the oldest not
      taken or discarded before, and all newer ones are still queued. */
  lemma TakenInOrder(c: Config, s: State, w: nat, id: nat)
    requires InOrder(s) && Enabled(c, s, TakeNew(w))
    ensures var first := s.sh.queue[0].id;
            && Apply(c, s, TakeNew(w)).workers[w].task.id == first
            && (first <= id < s.accepted <==> exists i :: 0 <= i < |s.sh.queue| && s.sh.queue[i].id == id)
  {
    var first := s.sh.queue[0].id;
    if first <= id < s.accepted {
      assert s.sh.queue[id - first].id == id;
    }
  }

  /** A discarded notification was never sent. */
  lemma DiscardedUnsent(c: Config, s: State, i: nat)
    requires Inv(c, s) && InOrder(s) && i < |s.discarded|
    ensures s.sends[s.discarded[i].id] == 0
  {
    assert Waiting(c, s, s.discarded[i]);
  }

  // === Retries wait ===

  /** Wherever the notification waits for a retry, it waits until the given time. */
  predicate DueAt(s: State, id: nat, at: int) {
    && (forall i :: 0 <= i < |s.sh.queue| ==> s.sh.queue[i].id != id)
    && (forall i :: 0 <= i < |s.sh.retry| && s.sh.retry[i].id == id ==> s.sh.retry[i].nextRetry == at)
    && (forall w :: 0 <= w < |s.workers| && s.workers[w].Rescheduling? && s.workers[w].task.id == id ==>
          s.workers[w].task.nextRetry == at)
  }

  /** A failed attempt that is not the last leaves the notification waiting for the time set then, with
      one retry more on its account. */
  lemma FailureSchedules(c: Config, s: State, w: nat, at: int)
    requires OnePlace(s) && Enabled(c, s, Send(w, false, at)) && s.workers[w].task.retries < c.maxRetryAttempts
    ensures var t := Apply(c, s, Send(w, false, at));
            && t.workers[w].Rescheduling?
            && t.workers[w].task == s.workers[w].task.(retries := s.workers[w].task.retries + 1, nextRetry := at)
            && DueAt(t, s.workers[w].task.id, at)
  {
    HeldOnce(s, w);
  }

  lemma DueAtStep(c: Config, s: State, step: Step, id: nat, at: int)
    requires Enabled(c, s, step) && DueAt(s, id, at) && id < s.accepted && !SendOf(c, s, step, id)
    ensures DueAt(Apply(c, s, step), id, at) && id < Apply(c, s, step).accepted
  {
  }

  /** No send of the notification among the steps. */
  predicate Unsent(c: Config, s: State, steps: seq<Step>, id: nat)
    requires ValidRun(c, s, steps)
    decreases steps
  {
    steps != [] ==> !SendOf(c, s, steps[0], id) && Unsent(c, Apply(c, s, steps[0]), steps[1..], id)
  }

  /** However the run goes on, the notification is not taken for its next attempt before that time. */
  lemma {:induction false} NotBeforeDue(c: Config, s: State, steps: seq<Step>, id: nat, at: int, w: nat, i: nat)
    requires ValidRun(c, s, steps) && DueAt(s, id, at) && id < s.accepted && Unsent(c, s, steps, id)
    requires Enabled(c, Run(c, s, steps), TakeRetry(w, i)) && Run(c, s, steps).sh.retry[i].id == id
    ensures Run(c, s, steps).now >= at
    decreases steps
  {
    if steps != [] {
      DueAtStep(c, s, steps[0], id, at);
      NotBeforeDue(c, Apply(c, s, steps[0]), steps[1..], id, at, w, i);
    }
  }

  /** A retry that is due goes before any new notification, and the earliest one first. */
  lemma RetriesGoFirst(c: Config, s: State, w: nat, i: nat)
    ensures Enabled(c, s, TakeNew(w)) ==> forall j :: 0 <= j < |s.sh.retry| ==> s.sh.retry[j].nextRetry > s.now
    ensures Enabled(c, s, TakeRetry(w, i)) ==>
              forall j :: 0 <= j < |s.sh.retry| ==> s.sh.retry[i].nextRetry <= s.sh.retry[j].nextRetry
  {
  }

  // === Stopping ===

  predicate Takes(step: Step) {
    step.TakeRetry? || step.TakeNew?
  }

  /** Once a stop has been requested nothing is taken off the queues until the next start. */
  lemma {:induction false} NothingTakenWhenStopped(c: Config, s: State, steps: seq<Step>)
    requires ValidRun(c, s, steps) && !s.sh.running
    requires forall i :: 0 <= i < |steps| ==> !steps[i].Start?
    ensures forall i :: 0 <= i < |steps| ==> !Takes(steps[i])
    ensures !Run(c, s, steps).sh.running
    decreases steps
  {
    if steps != [] {
      assert !steps[0].Start?;
      NothingTakenWhenStopped(c, Apply(c, s, steps[0]), steps[1..]);
      forall i | 0 <= i < |steps|
        ensures !Takes(steps[i])
      {
        assert i > 0 ==> steps[i] == steps[1..][i - 1];
      }
    }
  }

  lemma StopRequested(c: Config, s: State, steps: seq<Step>)
    requires ValidRun(c, s, [StopRequest] + steps)
    requires forall i :: 0 <= i < |steps| ==> !steps[i].Start?
    ensures forall i :: 0 <= i < |steps| ==> !Takes(steps[i])
  {
    assert ([StopRequest] + steps)[1..] == steps;
    NothingTakenWhenStopped(c, Apply(c, s, StopRequest), steps);
  }
}
