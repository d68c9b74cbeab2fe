/** What holds in every reachable state of the notification pipeline, whatever the interleaving. */
module NotificationSafety {
  import opened Notifications

  /** The retries a task may use: a negative setting acts as zero. */
  function MaxRetries(c: Config): nat {
    if c.maxRetryAttempts < 0 then 0 else c.maxRetryAttempts
  }

  function ById(id: nat): Weight {
    (t: Task) => if t.id == id then 1 else 0
  }

  function BySession(session: string): Weight {
    (t: Task) => if t.session == session then 1 else 0
  }

  /** Every accepted notification is in exactly one place, and nothing else is anywhere. */
  ghost predicate OnePlace(s: State) {
    forall id: nat :: Total(s, ById(id)) == if id < s.accepted then 1 else 0
  }

  predicate NotCalled(s: State, id: nat) {
    s.calls[(id, true)] == 0 && s.calls[(id, false)] == 0
  }

  /** A task still to be sent: one failed attempt made per retry booked, callback not run. */
  predicate Waiting(c: Config, s: State, t: Task) {
    s.sends[t.id] == t.retries <= MaxRetries(c) && s.delivered[t.id] == 0 && NotCalled(s, t.id)
  }

  /** A task whose last attempt is over: that one was answered with success, or all of them failed. */
  predicate Decided(c: Config, s: State, t: Task, ok: bool) {
    && s.sends[t.id] == t.retries + 1 && t.retries <= MaxRetries(c)
    && s.delivered[t.id] == (if ok then 1 else 0)
    && (!ok ==> t.retries == MaxRetries(c))
  }

  function CallsDue(t: Task): nat {
    if t.hasCallback then 1 else 0
  }

  /** The callback, if there is one, has run once, and with this result. */
  predicate Called(s: State, t: Task, ok: bool) {
    s.calls[(t.id, ok)] == CallsDue(t) && s.calls[(t.id, !ok)] == 0
  }

  predicate PhaseBooked(c: Config, s: State, p: Phase) {
    match p
    case Idle => true
    case Gone => true
    case Sending(t) => Waiting(c, s, t)
    case Rescheduling(t) => Waiting(c, s, t)
    case Delivering(t, ok) => Decided(c, s, t, ok) && NotCalled(s, t.id)
    case Recording(t, ok) => Decided(c, s, t, ok) && Called(s, t, ok)
  }

  predicate OutcomeBooked(c: Config, s: State, o: Outcome) {
    Decided(c, s, o.task, o.ok) && Called(s, o.task, o.ok)
  }

  ghost predicate Booked(c: Config, s: State) {
    && (forall i :: 0 <= i < |s.sh.queue| ==> Waiting(c, s, s.sh.queue[i]))
    && (forall i :: 0 <= i < |s.sh.retry| ==> Waiting(c, s, s.sh.retry[i]))
    && (forall i :: 0 <= i < |s.discarded| ==> Waiting(c, s, s.discarded[i]))
    && (forall w :: 0 <= w < |s.workers| ==> PhaseBooked(c, s, s.workers[w]))
    && (forall i :: 0 <= i < |s.finalised| ==> OutcomeBooked(c, s, s.finalised[i]))
    && (forall id: nat :: id >= s.accepted ==> s.sends[id] == 0 && s.delivered[id] == 0 && NotCalled(s, id))
  }

  // === Exactly one place ===

  lemma OnePlaceStep(c: Config, s: State, step: Step)
    requires Enabled(c, s, step) && OnePlace(s)
    ensures OnePlace(Apply(c, s, step))
  {
    forall id: nat
      ensures Total(Apply(c, s, step), ById(id)) == if id < Apply(c, s, step).accepted then 1 else 0
    {
      StepTotal(c, s, step, ById(id));
    }
  }

  /** A task in a worker's hands is nowhere else. */
  lemma HeldOnce(s: State, w: nat)
    requires OnePlace(s) && w < |s.workers| && !s.workers[w].Idle? && !s.workers[w].Gone?
    ensures var x := s.workers[w].task.id;
            && x < s.accepted
            && (forall i :: 0 <= i < |s.sh.queue| ==> s.sh.queue[i].id != x)
            && (forall i :: 0 <= i < |s.sh.retry| ==> s.sh.retry[i].id != x)
            && (forall i :: 0 <= i < |s.discarded| ==> s.discarded[i].id != x)
            && (forall i :: 0 <= i < |s.finalised| ==> s.finalised[i].task.id != x)
            && (forall v :: 0 <= v < |s.workers| && v != w && !s.workers[v].Idle? && !s.workers[v].Gone? ==>
                  s.workers[v].task.id != x)
  {
    var x := s.workers[w].task.id;
    var f := ById(x);
    SumPhasesUpdate(s.workers, w, Idle, InHand(f));
    assert Total(s, f) <= 1;
    forall i | 0 <= i < |s.sh.queue|
      ensures s.sh.queue[i].id != x
    {
      SumTasksMember(s.sh.queue, i, f);
    }
    forall i | 0 <= i < |s.sh.retry|
      ensures s.sh.retry[i].id != x
    {
      SumTasksMember(s.sh.retry, i, f);
    }
    forall i | 0 <= i < |s.discarded|
      ensures s.discarded[i].id != x
    {
      SumTasksMember(s.discarded, i, f);
    }
    forall i | 0 <= i < |s.finalised|
      ensures s.finalised[i].task.id != x
    {
      SumOutcomesMember(s.finalised, i, InOutcome(f));
    }
    forall v | 0 <= v < |s.workers| && v != w && !s.workers[v].Idle? && !s.workers[v].Gone?
      ensures s.workers[v].task.id != x
    {
      var rest := s.workers[w := Idle];
      SumPhasesUpdate(rest, v, Idle, InHand(f));
      assert rest[v] == s.workers[v];
    }
  }

  // === Attempts and callbacks ===

  /** The counters agree about one task. */
  predicate SameCounts(s: State, t: State, id: nat) {
    && t.sends[id] == s.sends[id] && t.delivered[id] == s.delivered[id]
    && t.calls[(id, true)] == s.calls[(id, true)] && t.calls[(id, false)] == s.calls[(id, false)]
  }

  lemma SameWaiting(c: Config, s: State, t: State, task: Task)
    requires SameCounts(s, t, task.id)
    ensures Waiting(c, t, task) == Waiting(c, s, task)
  {
  }

  /** Counters that differ at most for one id leave the books of all other tasks alone. */
  lemma OthersStayBooked(c: Config, s: State, t: State, w: nat, p: Phase)
    requires OnePlace(s) && Booked(c, s) && w < |s.workers| && !s.workers[w].Idle? && !s.workers[w].Gone?
    requires t == s.(workers := s.workers[w := p], sends := t.sends, delivered := t.delivered, calls := t.calls)
    requires forall id: nat :: id != s.workers[w].task.id ==> SameCounts(s, t, id)
    requires PhaseBooked(c, t, p)
    ensures Booked(c, t)
  {
    HeldOnce(s, w);
    forall i | 0 <= i < |t.sh.queue|
      ensures Waiting(c, t, t.sh.queue[i])
    {
      SameWaiting(c, s, t, s.sh.queue[i]);
    }
    forall i | 0 <= i < |t.sh.retry|
      ensures Waiting(c, t, t.sh.retry[i])
    {
      SameWaiting(c, s, t, s.sh.retry[i]);
    }
    forall i | 0 <= i < |t.discarded|
      ensures Waiting(c, t, t.discarded[i])
    {
      SameWaiting(c, s, t, s.discarded[i]);
    }
    forall v | 0 <= v < |t.workers|
      ensures PhaseBooked(c, t, t.workers[v])
    {
      if v != w {
        assert PhaseBooked(c, s, s.workers[v]);
        if !s.workers[v].Idle? && !s.workers[v].Gone? {
          assert SameCounts(s, t, s.workers[v].task.id);
        }
      }
    }
    forall i | 0 <= i < |t.finalised|
      ensures OutcomeBooked(c, t, t.finalised[i])
    {
      assert OutcomeBooked(c, s, s.finalised[i]) && SameCounts(s, t, s.finalised[i].task.id);
    }
    forall id: nat | id >= t.accepted
      ensures t.sends[id] == 0 && t.delivered[id] == 0 && NotCalled(t, id)
    {
      assert SameCounts(s, t, id);
    }
  }

  /** Steps that move tasks without touching the counters. */
  lemma SameCounters(c: Config, s: State, t: State, p: Phase)
    requires t.sends == s.sends && t.delivered == s.delivered && t.calls == s.calls
    ensures PhaseBooked(c, t, p) == PhaseBooked(c, s, p)
    ensures !p.Idle? && !p.Gone? ==> Waiting(c, t, p.task) == Waiting(c, s, p.task)
  {
  }

  lemma MovesStayBooked(c: Config, s: State, t: State)
    requires Booked(c, s) && t.accepted >= s.accepted
    requires t.sends == s.sends && t.delivered == s.delivered && t.calls == s.calls
    requires forall x :: x in t.sh.queue ==> Waiting(c, s, x)
    requires forall x :: x in t.sh.retry ==> Waiting(c, s, x)
    requires forall x :: x in t.discarded ==> Waiting(c, s, x)
    requires forall p :: p in t.workers ==> PhaseBooked(c, s, p)
    requires forall o :: o in t.finalised ==> OutcomeBooked(c, s, o)
    ensures Booked(c, t)
  {
    assert forall i :: 0 <= i < |t.sh.queue| ==> t.sh.queue[i] in t.sh.queue;
    assert forall i :: 0 <= i < |t.sh.retry| ==> t.sh.retry[i] in t.sh.retry;
    assert forall i :: 0 <= i < |t.discarded| ==> t.discarded[i] in t.discarded;
    forall w | 0 <= w < |t.workers|
      ensures PhaseBooked(c, t, t.workers[w])
    {
      assert t.workers[w] in t.workers;
      SameCounters(c, s, t, t.workers[w]);
    }
    forall i | 0 <= i < |t.finalised|
      ensures OutcomeBooked(c, t, t.finalised[i])
    {
      assert t.finalised[i] in t.finalised;
    }
  }

  lemma CountedBooked(c: Config, s: State, step: Step)
    requires Enabled(c, s, step) && OnePlace(s) && Booked(c, s) && (step.Send? || step.Call?)
    ensures Booked(c, Apply(c, s, step))
  {
    var t := Apply(c, s, step);
    assert PhaseBooked(c, s, s.workers[step.w]);
    OthersStayBooked(c, s, t, step.w, t.workers[step.w]);
  }

  lemma WorkerMoveBooked(c: Config, s: State, step: Step)
    requires Enabled(c, s, step) && Booked(c, s)
    requires step.TakeRetry? || step.TakeNew? || step.PushRetry? || step.Record? || step.Exit?
    ensures Booked(c, Apply(c, s, step))
  {
    if step.PushRetry? || step.Record? {
      assert PhaseBooked(c, s, s.workers[step.w]);
    }
    if step.TakeRetry? {
      assert Waiting(c, s, s.sh.retry[step.i]);
    }
    MovesStayBooked(c, s, Apply(c, s, step));
  }

  lemma OtherMoveBooked(c: Config, s: State, step: Step)
    requires Enabled(c, s, step) && Booked(c, s)
    requires step.Enqueue? || step.Tick? || step.StopRequest? || step.StopClear? || step.Start?
    ensures Booked(c, Apply(c, s, step))
  {
    MovesStayBooked(c, s, Apply(c, s, step));
  }

  lemma BookedStep(c: Config, s: State, step: Step)
    requires Enabled(c, s, step) && OnePlace(s) && Booked(c, s)
    ensures Booked(c, Apply(c, s, step))
  {
    if step.Send? || step.Call? {
      CountedBooked(c, s, step);
    } else if step.TakeRetry? || step.TakeNew? || step.PushRetry? || step.Record? || step.Exit? {
      WorkerMoveBooked(c, s, step);
    } else {
      OtherMoveBooked(c, s, step);
    }
  }

  // === Statistics ===

  function WeightIf(b: bool, f: Weight, t: Task): nat {
    if b then f(t) else 0
  }

  function Won(f: Weight): Outcome -> nat {
    (o: Outcome) => WeightIf(o.ok, f, o.task)
  }

  function Lost(f: Weight): Outcome -> nat {
    (o: Outcome) => WeightIf(!o.ok, f, o.task)
  }

  lemma {:induction false} WonAndLost(s: seq<Outcome>, f: Weight)
    ensures SumOutcomes(s, InOutcome(f)) == SumOutcomes(s, Won(f)) + SumOutcomes(s, Lost(f))
  {
    if s != [] {
      WonAndLost(s[1..], f);
    }
  }

  ghost function Succeeded(s: State, session: string): nat {
    SumOutcomes(s.finalised, Won(BySession(session)))
  }

  ghost function Failed(s: State, session: string): nat {
    SumOutcomes(s.finalised, Lost(BySession(session)))
  }

  /** The statistics of a session: what was delivered, and as pending everything accepted that was
      not delivered, with every final failure counted once more. */
  ghost predicate LedgerOf(s: State, session: string) {
    StatsOf(s.sh.stats, session) ==
    Stats(Succeeded(s, session), Succeeded(s, session), 0,
          Total(s, BySession(session)) - Succeeded(s, session) + Failed(s, session))
  }

  ghost predicate Ledger(s: State) {
    "" !in s.sh.stats && forall session :: session != "" ==> LedgerOf(s, session)
  }

  /** When a success is about to be recorded the pending count is positive, so the guard in the
      source never skips the decrement. */
  lemma PendingPositive(s: State, w: nat)
    requires Ledger(s) && w < |s.workers| && s.workers[w].Recording? && s.workers[w].task.session != ""
    ensures StatsOf(s.sh.stats, s.workers[w].task.session).pending > 0
  {
    var session := s.workers[w].task.session;
    var f := BySession(session);
    assert LedgerOf(s, session);
    WonAndLost(s.finalised, f);
    SumPhasesUpdate(s.workers, w, Idle, InHand(f));
  }

  lemma LedgerRecord(c: Config, s: State, step: Step, session: string)
    requires Enabled(c, s, step) && step.Record? && Ledger(s) && session != ""
    ensures LedgerOf(Apply(c, s, step), session)
  {
    var f := BySession(session);
    var o := Outcome(s.workers[step.w].task, s.workers[step.w].ok);
    assert LedgerOf(s, session);
    StepTotal(c, s, step, f);
    SumOutcomesAppend(s.finalised, o, Won(f));
    SumOutcomesAppend(s.finalised, o, Lost(f));
    if o.task.session == session {
      PendingPositive(s, step.w);
    }
  }

  lemma LedgerOther(c: Config, s: State, step: Step, session: string)
    requires Enabled(c, s, step) && !step.Record? && Ledger(s) && session != ""
    ensures LedgerOf(Apply(c, s, step), session)
  {
    assert LedgerOf(s, session);
    StepTotal(c, s, step, BySession(session));
  }

  lemma LedgerStep(c: Config, s: State, step: Step)
    requires Enabled(c, s, step) && Ledger(s)
    ensures Ledger(Apply(c, s, step))
  {
    forall session | session != ""
      ensures LedgerOf(Apply(c, s, step), session)
    {
      if step.Record? {
        LedgerRecord(c, s, step, session);
      } else {
        LedgerOther(c, s, step, session);
      }
    }
  }

  /** Still to be decided: queued, waiting for a retry, or in a worker's hands. */
  ghost function Outstanding(s: State, session: string): nat {
    InPipe(s, BySession(session), InHand(BySession(session)))
  }

  /** The pending count is the number of outstanding notifications exactly when none of the
      session's notifications has finally failed or been discarded by a stop. */
  lemma PendingIsOutstandingIff(s: State, session: string)
    requires Ledger(s) && session != ""
    ensures StatsOf(s.sh.stats, session).pending ==
            Outstanding(s, session) + 2 * Failed(s, session) + SumTasks(s.discarded, BySession(session))
    ensures StatsOf(s.sh.stats, session).pending == Outstanding(s, session) <==>
            Failed(s, session) == 0 && SumTasks(s.discarded, BySession(session)) == 0
  {
    assert LedgerOf(s, session);
    WonAndLost(s.finalised, BySession(session));
  }

  // === Counting ===

  function One(): Weight {
    (t: Task) => 1
  }

  /** The number of tasks in all places together is the number accepted. */
  ghost predicate Counted(s: State) {
    Total(s, One()) == s.accepted
  }

  lemma {:induction false} CountTasks(s: seq<Task>)
    ensures SumTasks(s, One()) == |s|
  {
    if s != [] {
      CountTasks(s[1..]);
    }
  }

  lemma {:induction false} CountOutcomes(s: seq<Outcome>)
    ensures SumOutcomes(s, InOutcome(One())) == |s|
  {
    if s != [] {
      CountOutcomes(s[1..]);
    }
  }

  /** The number of workers with a task in their hands. */
  ghost function Busy(s: State): nat {
    SumPhases(s.workers, InHand(One()))
  }

  /** What `get_pending_count` reports misses exactly the tasks in workers' hands: with them it is the
      number accepted but neither finalised nor discarded. */
  lemma PendingCountIff(s: State)
    requires Counted(s)
    ensures PendingOf(s.sh) + Busy(s) == s.accepted - |s.finalised| - |s.discarded|
    ensures PendingOf(s.sh) == s.accepted - |s.finalised| - |s.discarded| <==>
            forall w :: 0 <= w < |s.workers| ==> s.workers[w].Idle? || s.workers[w].Gone?
  {
    CountTasks(s.sh.queue);
    CountTasks(s.sh.retry);
    CountTasks(s.discarded);
    CountOutcomes(s.finalised);
    if forall w :: 0 <= w < |s.workers| ==> s.workers[w].Idle? || s.workers[w].Gone? {
      SumPhasesZero(s.workers, InHand(One()));
    } else {
      var w :| 0 <= w < |s.workers| && !s.workers[w].Idle? && !s.workers[w].Gone?;
      SumPhasesUpdate(s.workers, w, Idle, InHand(One()));
    }
  }

  // === Every reachable state ===

  ghost predicate Inv(c: Config, s: State) {
    && OnePlace(s)
    && Booked(c, s)
    && Ledger(s)
    && Counted(s)
    && |s.sh.queue| <= c.maxQueueSize
  }

  lemma InvInitial(c: Config)
    ensures Inv(c, INITIAL)
  {
    forall session | session != ""
      ensures LedgerOf(INITIAL, session)
    {
    }
  }

  lemma InvStep(c: Config, s: State, step: Step)
    requires Enabled(c, s, step) && Inv(c, s)
    ensures Inv(c, Apply(c, s, step))
  {
    OnePlaceStep(c, s, step);
    BookedStep(c, s, step);
    LedgerStep(c, s, step);
    StepTotal(c, s, step, One());
  }

  predicate ValidRun(c: Config, s: State, steps: seq<Step>)
    decreases steps
  {
    steps != [] ==> Enabled(c, s, steps[0]) && ValidRun(c, Apply(c, s, steps[0]), steps[1..])
  }

  function Run(c: Config, s: State, steps: seq<Step>): State
    requires ValidRun(c, s, steps)
    decreases steps
  {
    if steps == [] then s else Run(c, Apply(c, s, steps[0]), steps[1..])
  }

  lemma {:induction false} InvRun(c: Config, s: State, steps: seq<Step>)
    requires Inv(c, s) && ValidRun(c, s, steps)
    ensures Inv(c, Run(c, s, steps))
    decreases steps
  {
    if steps != [] {
      InvStep(c, s, steps[0]);
      InvRun(c, Apply(c, s, steps[0]), steps[1..]);
    }
  }

  /** Read off the invariant: no notification is sent more than the allowed number of times, a
      finally failed one exactly that often, and no callback runs twice. */
  lemma AttemptsAndCallbacks(c: Config, s: State, id: nat)
    requires Inv(c, s)
    ensures s.sends[id] <= MaxRetries(c) + 1 && s.calls[(id, true)] + s.calls[(id, false)] <= 1
    ensures forall i :: 0 <= i < |s.finalised| && s.finalised[i].task.id == id ==>
              && s.delivered[id] == (if s.finalised[i].ok then 1 else 0)
              && (!s.finalised[i].ok ==> s.sends[id] == MaxRetries(c) + 1)
              && Called(s, s.finalised[i].task, s.finalised[i].ok)
  {
    if id < s.accepted {
      Whereabouts(s, id);
    }
  }

  ghost predicate Accounted(c: Config, s: State, id: nat) {
    && |s.sh.queue| <= c.maxQueueSize
    && Total(s, ById(id)) == (if id < s.accepted then 1 else 0)
    && s.sends[id] <= MaxRetries(c) + 1 && s.calls[(id, true)] + s.calls[(id, false)] <= 1
  }

  lemma InvAccounts(c: Config, s: State, id: nat)
    requires Inv(c, s)
    ensures Accounted(c, s, id)
  {
    assert OnePlace(s);
    AttemptsAndCallbacks(c, s, id);
  }

  lemma {:induction false} AccountedRun(c: Config, s: State, steps: seq<Step>, id: nat)
    requires Inv(c, s) && ValidRun(c, s, steps)
    ensures Accounted(c, Run(c, s, steps), id)
    decreases steps
  {
    if steps == [] {
      InvAccounts(c, s, id);
    } else {
      InvStep(c, s, steps[0]);
      AccountedRun(c, Apply(c, s, steps[0]), steps[1..], id);
    }
  }

  /** Every interleaving: the queue is bounded, each accepted notification is in exactly one place,
      attempts are bounded and the callback runs at most once. */
  lemma {:induction false} EveryRun(c: Config, steps: seq<Step>, id: nat)
    requires ValidRun(c, INITIAL, steps)
    ensures Accounted(c, Run(c, INITIAL, steps), id)
  {
    InvInitial(c);
    AccountedRun(c, INITIAL, steps, id);
  }

  /** An accepted notification can be pointed at. */
  lemma Whereabouts(s: State, id: nat)
    requires OnePlace(s) && id < s.accepted
    ensures
      || (exists i :: 0 <= i < |s.sh.queue| && s.sh.queue[i].id == id)
      || (exists i :: 0 <= i < |s.sh.retry| && s.sh.retry[i].id == id)
      || (exists w :: 0 <= w < |s.workers| && !s.workers[w].Idle? && !s.workers[w].Gone? && s.workers[w].task.id == id)
      || (exists i :: 0 <= i < |s.finalised| && s.finalised[i].task.id == id)
      || (exists i :: 0 <= i < |s.discarded| && s.discarded[i].id == id)
  {
    var f := ById(id);
    assert Total(s, f) == 1;
    SumTasksFind(s.sh.queue, f);
    SumTasksFind(s.sh.retry, f);
    SumTasksFind(s.discarded, f);
    SumPhasesFind(s.workers, InHand(f));
    SumOutcomesFind(s.finalised, InOutcome(f));
  }

  lemma {:induction false} SumTasksFind(s: seq<Task>, f: Weight)
    ensures SumTasks(s, f) > 0 ==> exists i :: 0 <= i < |s| && f(s[i]) > 0
  {
    if s != [] && f(s[0]) == 0 {
      SumTasksFind(s[1..], f);
      if SumTasks(s, f) > 0 {
        var i :| 0 <= i < |s[1..]| && f(s[1..][i]) > 0;
        assert f(s[i + 1]) > 0;
      }
    }
  }

  lemma {:induction false} SumPhasesFind(s: seq<Phase>, f: Phase -> nat)
    ensures SumPhases(s, f) > 0 ==> exists i :: 0 <= i < |s| && f(s[i]) > 0
  {
    if s != [] && f(s[0]) == 0 {
      SumPhasesFind(s[1..], f);
      if SumPhases(s, f) > 0 {
        var i :| 0 <= i < |s[1..]| && f(s[1..][i]) > 0;
        assert f(s[i + 1]) > 0;
      }
    }
  }

  lemma {:induction false} SumOutcomesFind(s: seq<Outcome>, f: Outcome -> nat)
    ensures SumOutcomes(s, f) > 0 ==> exists i :: 0 <= i < |s| && f(s[i]) > 0
  {
    if s != [] && f(s[0]) == 0 {
      SumOutcomesFind(s[1..], f);
      if SumOutcomes(s, f) > 0 {
        var i :| 0 <= i < |s[1..]| && f(s[1..][i]) > 0;
        assert f(s[i + 1]) > 0;
      }
    }
  }
}
