/** Without new arrivals the pipeline drains: every completed send and every worker step uses up part
    of a fixed budget, and while anything is left some worker can move. */
module NotificationDrain {
  import opened Notifications
  import opened NotificationSafety

  /** Attempts a task has left. */
  function Left(c: Config, t: Task): nat {
    if t.retries <= MaxRetries(c) then MaxRetries(c) + 1 - t.retries else 0
  }

  function LeftOf(c: Config): Weight {
    (t: Task) => Left(c, t)
  }

  function LeftInPhase(c: Config): Phase -> nat {
    (p: Phase) => if p.Sending? || p.Rescheduling? then Left(c, p.task) else 0
  }

  /** Remaining attempts over all queued, retrying and in-flight tasks. */
  ghost function Attempts(c: Config, s: State): nat {
    InPipe(s, LeftOf(c), LeftInPhase(c))
  }

  function Effort(c: Config, t: Task): nat {
    4 * Left(c, t)
  }

  function EffortOf(c: Config): Weight {
    (t: Task) => Effort(c, t)
  }

  function PhaseEffort(c: Config, p: Phase): nat {
    match p
    case Idle => 0
    case Sending(t) => if Left(c, t) == 0 then 0 else Effort(c, t) - 1
    case Rescheduling(t) => Effort(c, t) + 1
    case Delivering(_, _) => 2
    case Recording(_, _) => 1
    case Gone => 0
  }

  function EffortInPhase(c: Config): Phase -> nat {
    (p: Phase) => PhaseEffort(c, p)
  }

  /** Worker steps left before everything is decided, at most. */
  ghost function Work(c: Config, s: State): nat {
    InPipe(s, EffortOf(c), EffortInPhase(c))
  }

  predicate IsWork(step: Step) {
    step.TakeRetry? || step.TakeNew? || step.Send? || step.PushRetry? || step.Call? || step.Record?
  }

  /** The budget after a step, with what the step itself spends, is within the budget before it. */
  ghost predicate Spends(c: Config, s: State, step: Step)
    requires Enabled(c, s, step)
  {
    && Attempts(c, Apply(c, s, step)) + (if step.Send? then 1 else 0) <= Attempts(c, s)
    && Work(c, Apply(c, s, step)) + (if IsWork(step) then 1 else 0) <= Work(c, s)
  }

  lemma TakeSpends(c: Config, s: State, step: Step)
    requires Booked(c, s) && Enabled(c, s, step) && (step.TakeRetry? || step.TakeNew?)
    ensures Spends(c, s, step)
  {
    TakeShift(c, s, step, LeftOf(c), LeftInPhase(c));
    TakeShift(c, s, step, EffortOf(c), EffortInPhase(c));
    assert Waiting(c, s, Apply(c, s, step).workers[step.w].task);
  }

  lemma SendSpends(c: Config, s: State, step: Step)
    requires Booked(c, s) && Enabled(c, s, step) && step.Send?
    ensures Spends(c, s, step)
  {
    HandShift(c, s, step, LeftOf(c), LeftInPhase(c));
    HandShift(c, s, step, EffortOf(c), EffortInPhase(c));
    assert PhaseBooked(c, s, s.workers[step.w]);
  }

  lemma PushSpends(c: Config, s: State, step: Step)
    requires Booked(c, s) && Enabled(c, s, step) && step.PushRetry?
    ensures Spends(c, s, step)
  {
    PushShift(c, s, step, LeftOf(c), LeftInPhase(c));
    PushShift(c, s, step, EffortOf(c), EffortInPhase(c));
    assert PhaseBooked(c, s, s.workers[step.w]);
  }

  lemma DecideSpends(c: Config, s: State, step: Step)
    requires Enabled(c, s, step) && (step.Call? || step.Record? || step.Exit?)
    ensures Spends(c, s, step)
  {
    HandShift(c, s, step, LeftOf(c), LeftInPhase(c));
    HandShift(c, s, step, EffortOf(c), EffortInPhase(c));
  }

  lemma ControlSpends(c: Config, s: State, step: Step)
    requires Enabled(c, s, step) && (step.Tick? || step.StopRequest? || step.StopClear? || step.Start?)
    ensures Spends(c, s, step)
  {
    ControlShift(c, s, step, LeftOf(c), LeftInPhase(c));
    ControlShift(c, s, step, EffortOf(c), EffortInPhase(c));
  }

  lemma BudgetStep(c: Config, s: State, step: Step)
    requires Inv(c, s) && Enabled(c, s, step) && !step.Enqueue?
    ensures Spends(c, s, step)
  {
    match step
    case TakeRetry(_, _) => TakeSpends(c, s, step);
    case TakeNew(_) => TakeSpends(c, s, step);
    case Send(_, _, _) => SendSpends(c, s, step);
    case PushRetry(_) => PushSpends(c, s, step);
    case Call(_) => DecideSpends(c, s, step);
    case Record(_) => DecideSpends(c, s, step);
    case Exit(_) => DecideSpends(c, s, step);
    case _ => ControlSpends(c, s, step);
  }

  function CountSends(steps: seq<Step>): nat {
    if steps == [] then 0 else (if steps[0].Send? then 1 else 0) + CountSends(steps[1..])
  }

  function CountWork(steps: seq<Step>): nat {
    if steps == [] then 0 else (if IsWork(steps[0]) then 1 else 0) + CountWork(steps[1..])
  }

  predicate NoArrivals(steps: seq<Step>) {
    forall i :: 0 <= i < |steps| ==> !steps[i].Enqueue?
  }

  /** In any run without arrivals, sends and worker steps are bounded by what is left at the start. */
  lemma {:induction false} BudgetRun(c: Config, s: State, steps: seq<Step>)
    requires Inv(c, s) && ValidRun(c, s, steps) && NoArrivals(steps)
    ensures CountSends(steps) + Attempts(c, Run(c, s, steps)) <= Attempts(c, s)
    ensures CountWork(steps) + Work(c, Run(c, s, steps)) <= Work(c, s)
    decreases steps
  {
    if steps != [] {
      BudgetStep(c, s, steps[0]);
      InvStep(c, s, steps[0]);
      BudgetRun(c, Apply(c, s, steps[0]), steps[1..]);
    }
  }

  ghost predicate Drained(s: State) {
    s.sh.queue == [] && s.sh.retry == [] && forall w :: 0 <= w < |s.workers| ==> s.workers[w].Idle? || s.workers[w].Gone?
  }

  /** No work left means nothing queued, retrying or in flight, and the other way round. */
  lemma DrainedIff(c: Config, s: State)
    requires Inv(c, s)
    ensures Work(c, s) == 0 <==> Drained(s)
  {
    if Drained(s) {
      SumPhasesZero(s.workers, EffortInPhase(c));
    } else if s.sh.queue != [] {
      SumTasksMember(s.sh.queue, 0, EffortOf(c));
      assert Waiting(c, s, s.sh.queue[0]);
    } else if s.sh.retry != [] {
      SumTasksMember(s.sh.retry, 0, EffortOf(c));
      assert Waiting(c, s, s.sh.retry[0]);
    } else {
      var w :| 0 <= w < |s.workers| && !s.workers[w].Idle? && !s.workers[w].Gone?;
      SumPhasesUpdate(s.workers, w, Idle, EffortInPhase(c));
      assert PhaseBooked(c, s, s.workers[w]);
    }
  }

  /** A retry queue entry with the earliest time. */
  lemma {:induction false} TopExists(retry: seq<Task>)
    requires retry != []
    ensures exists i: nat :: IsTop(retry, i)
  {
    if |retry| == 1 {
      assert IsTop(retry, 0);
    } else {
      var front := retry[..|retry| - 1];
      TopExists(front);
      var i: nat :| IsTop(front, i);
      var last := |retry| - 1;
      assert forall j :: 0 <= j < last ==> retry[j] == front[j];
      assert IsTop(retry, if retry[i].nextRetry <= retry[last].nextRetry then i else last);
    }
  }

  /** A start makes the manager run again: with at least one worker hired, whatever an earlier stop left
      behind can go on. */
  lemma RestartGoesOn(c: Config, s: State, n: nat)
    requires Inv(c, s) && Enabled(c, s, Start(n)) && n > 0 && Work(c, Apply(c, s, Start(n))) > 0
    ensures Apply(c, s, Start(n)).sh.running
    ensures exists wait: nat, step ::
              IsWork(step) && Enabled(c, Apply(c, Apply(c, s, Start(n)), Tick(wait)), step)
  {
    InvStep(c, s, Start(n));
    NeverStuck(c, Apply(c, s, Start(n)), |s.workers|);
  }

  /** While the manager runs and anything is left, a worker step is possible, at the latest once the
      clock has reached the earliest retry time. */
  lemma NeverStuck(c: Config, s: State, idle: nat)
    requires Inv(c, s) && s.sh.running && Work(c, s) > 0
    requires idle < |s.workers| && !s.workers[idle].Gone?
    ensures exists wait: nat, step :: IsWork(step) && Enabled(c, Apply(c, s, Tick(wait)), step)
  {
    DrainedIff(c, s);
    if w: nat :| w < |s.workers| && !s.workers[w].Idle? && !s.workers[w].Gone? {
      var p := s.workers[w];
      var step :=
        if p.Sending? then Send(w, true, 0) else if p.Rescheduling? then PushRetry(w)
        else if p.Delivering? then Call(w) else Record(w);
      assert IsWork(step) && Enabled(c, Apply(c, s, Tick(0)), step);
    } else if s.sh.retry != [] {
      TopExists(s.sh.retry);
      var i: nat :| IsTop(s.sh.retry, i);
      var wait: nat := if s.sh.retry[i].nextRetry > s.now then s.sh.retry[i].nextRetry - s.now else 0;
      assert IsWork(TakeRetry(idle, i)) && Enabled(c, Apply(c, s, Tick(wait)), TakeRetry(idle, i));
    } else {
      assert IsWork(TakeNew(idle)) && Enabled(c, Apply(c, s, Tick(0)), TakeNew(idle));
    }
  }
}
