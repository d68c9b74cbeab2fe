/** The notification pipeline as interleaved steps of producers, workers, the clock and stop. */
module Notifications {
  datatype Config = Config(maxRetryAttempts: int, maxQueueSize: nat)

  /** A task; the id is its position in the order of acceptance and stands for its content. */
  datatype Task = Task(id: nat, session: string, hasCallback: bool, retries: nat, nextRetry: int)

  datatype Stats = Stats(totalSent: int, successful: int, failed: int, pending: int)

  /** The fields several threads share: guarded by the queue lock, the statistics lock, or atomic. */
  datatype Shared = Shared(running: bool, queue: seq<Task>, retry: seq<Task>, stats: map<string, Stats>)

  /** What a worker is doing between two of its atomic steps. */
  datatype Phase =
    | Idle
    | Sending(task: Task)
    | Rescheduling(task: Task)
    | Delivering(task: Task, ok: bool)
    | Recording(task: Task, ok: bool)
    | Gone

  datatype Outcome = Outcome(task: Task, ok: bool)

  /** The whole system. `sends` counts the HTTP attempts per task, `delivered` those answered with
      success, and `calls` the runs of a task's callback with either result. */
  datatype State = State(
    sh: Shared,
    workers: seq<Phase>,
    now: int,
    accepted: nat,
    finalised: seq<Outcome>,
    discarded: seq<Task>,
    stopping: bool,
    sends: multiset<nat>,
    delivered: multiset<nat>,
    calls: multiset<(nat, bool)>)

  // === The critical sections ===

  function StatsOf(m: map<string, Stats>, session: string): Stats {
    if session in m then m[session] else Stats(0, 0, 0, 0)
  }

  /** `update_stats`: a failure is booked as one more pending notification. */
  function UpdateStats(m: map<string, Stats>, session: string, success: bool): map<string, Stats> {
    if session == "" then m
    else
      var st := StatsOf(m, session);
      var next :=
        if success then st.(successful := st.successful + 1, pending := if st.pending > 0 then st.pending - 1 else st.pending)
        else st.(pending := st.pending + 1);
      m[session := next.(totalSent := next.successful + next.failed)]
  }

  /** `queue_notification` past the size check. */
  function Enqueued(sh: Shared, t: Task): Shared {
    sh.(queue := sh.queue + [t], stats := UpdateStats(sh.stats, t.session, false))
  }

  /** What `get_pending_count` reports. */
  function PendingOf(sh: Shared): nat {
    |sh.queue| + |sh.retry|
  }

  /** The retry queue yields some task with the earliest retry time. */
  predicate IsTop(retry: seq<Task>, i: nat) {
    i < |retry| && forall j :: 0 <= j < |retry| ==> retry[i].nextRetry <= retry[j].nextRetry
  }

  predicate RetryDue(sh: Shared, now: int) {
    exists i :: 0 <= i < |sh.retry| && sh.retry[i].nextRetry <= now
  }

  function Without(s: seq<Task>, i: nat): seq<Task>
    requires i < |s|
  {
    s[..i] + s[i + 1..]
  }

  // === Steps ===

  datatype Step =
    | Enqueue(session: string, hasCallback: bool)
    | Tick(seconds: nat)
    | TakeRetry(w: nat, i: nat)
    | TakeNew(w: nat)
    | Send(w: nat, ok: bool, nextRetry: int)
    | PushRetry(w: nat)
    | Call(w: nat)
    | Record(w: nat)
    | Exit(w: nat)
    | StopRequest
    | StopClear
    | Start(n: nat)

  predicate Enabled(c: Config, s: State, step: Step) {
    match step
    case Enqueue(_, _) => |s.sh.queue| < c.maxQueueSize
    case Tick(_) => true
    case TakeRetry(w, i) =>
      && w < |s.workers| && s.workers[w].Idle? && s.sh.running
      && IsTop(s.sh.retry, i) && s.sh.retry[i].nextRetry <= s.now
    case TakeNew(w) =>
      w < |s.workers| && s.workers[w].Idle? && s.sh.running && !RetryDue(s.sh, s.now) && s.sh.queue != []
    case Send(w, _, _) => w < |s.workers| && s.workers[w].Sending?
    case PushRetry(w) => w < |s.workers| && s.workers[w].Rescheduling?
    case Call(w) => w < |s.workers| && s.workers[w].Delivering?
    case Record(w) => w < |s.workers| && s.workers[w].Recording?
    case Exit(w) => w < |s.workers| && s.workers[w].Idle? && !s.sh.running
    case StopRequest => !s.stopping
    case StopClear => s.stopping && forall w :: 0 <= w < |s.workers| ==> s.workers[w].Gone?
    case Start(_) => !s.stopping
  }

  function Apply(c: Config, s: State, step: Step): State
    requires Enabled(c, s, step)
  {
    match step
    case Enqueue(session, hasCallback) =>
      s.(sh := Enqueued(s.sh, Task(s.accepted, session, hasCallback, 0, s.now)), accepted := s.accepted + 1)
    case Tick(seconds) => s.(now := s.now + seconds)
    case TakeRetry(w, i) =>
      s.(sh := s.sh.(retry := Without(s.sh.retry, i)), workers := s.workers[w := Sending(s.sh.retry[i])])
    case TakeNew(w) =>
      s.(sh := s.sh.(queue := s.sh.queue[1..]), workers := s.workers[w := Sending(s.sh.queue[0])])
    case Send(w, ok, at) =>
      var t := s.workers[w].task;
      var phase :=
        if !ok && t.retries < c.maxRetryAttempts then Rescheduling(t.(retries := t.retries + 1, nextRetry := at))
        else Delivering(t, ok);
      s.(workers := s.workers[w := phase], sends := s.sends + multiset{t.id},
         delivered := if ok then s.delivered + multiset{t.id} else s.delivered)
    case PushRetry(w) =>
      s.(sh := s.sh.(retry := s.sh.retry + [s.workers[w].task]), workers := s.workers[w := Idle])
    case Call(w) =>
      var t := s.workers[w].task;
      s.(workers := s.workers[w := Recording(t, s.workers[w].ok)],
         calls := if t.hasCallback then s.calls + multiset{(t.id, s.workers[w].ok)} else s.calls)
    case Record(w) =>
      var Recording(t, ok) := s.workers[w];
      s.(sh := s.sh.(stats := UpdateStats(s.sh.stats, t.session, ok)), workers := s.workers[w := Idle],
         finalised := s.finalised + [Outcome(t, ok)])
    case Exit(w) => s.(workers := s.workers[w := Gone])
    case StopRequest => s.(sh := s.sh.(running := false), stopping := true)
    case StopClear =>
      s.(sh := s.sh.(queue := []), workers := [], discarded := s.discarded + s.sh.queue, stopping := false)
    case Start(n) => s.(sh := s.sh.(running := true), workers := s.workers + seq(n, _ => Idle))
  }

  const INITIAL: State :=
    State(Shared(false, [], [], map[]), [], 0, 0, [], [], false, multiset{}, multiset{}, multiset{})

  // === Sums over the places a task can be in ===

  type Weight = Task -> nat

  ghost function SumTasks(s: seq<Task>, f: Weight): nat {
    if s == [] then 0 else f(s[0]) + SumTasks(s[1..], f)
  }

  ghost function SumPhases(ws: seq<Phase>, g: Phase -> nat): nat {
    if ws == [] then 0 else g(ws[0]) + SumPhases(ws[1..], g)
  }

  ghost function SumOutcomes(s: seq<Outcome>, f: Outcome -> nat): nat {
    if s == [] then 0 else f(s[0]) + SumOutcomes(s[1..], f)
  }

  lemma {:induction false} SumTasksConcat(a: seq<Task>, b: seq<Task>, f: Weight)
    ensures SumTasks(a + b, f) == SumTasks(a, f) + SumTasks(b, f)
  {
    if a == [] {
      assert a + b == b;
    } else {
      assert (a + b)[1..] == a[1..] + b;
      SumTasksConcat(a[1..], b, f);
    }
  }

  lemma SumTasksOne(t: Task, f: Weight)
    ensures SumTasks([t], f) == f(t)
  {
    assert [t][1..] == [];
  }

  lemma {:induction false} SumTasksWithout(s: seq<Task>, i: nat, f: Weight)
    requires i < |s|
    ensures SumTasks(s, f) == SumTasks(Without(s, i), f) + f(s[i])
    decreases s
  {
    var rest := Without(s, i);
    if i == 0 {
      assert rest == s[1..];
    } else {
      assert rest[0] == s[0] && rest[1..] == Without(s[1..], i - 1);
      SumTasksWithout(s[1..], i - 1, f);
    }
  }

  lemma {:induction false} SumTasksMember(s: seq<Task>, i: nat, f: Weight)
    requires i < |s|
    ensures f(s[i]) <= SumTasks(s, f)
  {
    SumTasksWithout(s, i, f);
  }

  lemma {:induction false} SumPhasesUpdate(ws: seq<Phase>, w: nat, p: Phase, g: Phase -> nat)
    requires w < |ws|
    ensures SumPhases(ws[w := p], g) + g(ws[w]) == SumPhases(ws, g) + g(p)
    ensures g(ws[w]) <= SumPhases(ws, g)
  {
    if w > 0 {
      assert ws[w := p][1..] == ws[1..][w - 1 := p];
      SumPhasesUpdate(ws[1..], w - 1, p, g);
    } else {
      assert ws[0 := p][1..] == ws[1..];
    }
  }

  lemma {:induction false} SumPhasesConcat(a: seq<Phase>, b: seq<Phase>, g: Phase -> nat)
    ensures SumPhases(a + b, g) == SumPhases(a, g) + SumPhases(b, g)
  {
    if a == [] {
      assert a + b == b;
    } else {
      assert (a + b)[1..] == a[1..] + b;
      SumPhasesConcat(a[1..], b, g);
    }
  }

  lemma {:induction false} SumPhasesZero(ws: seq<Phase>, g: Phase -> nat)
    requires forall w :: 0 <= w < |ws| ==> g(ws[w]) == 0
    ensures SumPhases(ws, g) == 0
  {
    if ws != [] {
      SumPhasesZero(ws[1..], g);
    }
  }

  lemma {:induction false} SumOutcomesAppend(s: seq<Outcome>, o: Outcome, f: Outcome -> nat)
    ensures SumOutcomes(s + [o], f) == SumOutcomes(s, f) + f(o)
  {
    if s == [] {
      assert (s + [o])[1..] == [];
    } else {
      assert (s + [o])[1..] == s[1..] + [o];
      SumOutcomesAppend(s[1..], o, f);
    }
  }

  lemma {:induction false} SumOutcomesMember(s: seq<Outcome>, i: nat, f: Outcome -> nat)
    requires i < |s|
    ensures f(s[i]) <= SumOutcomes(s, f)
  {
    if i > 0 {
      SumOutcomesMember(s[1..], i - 1, f);
    }
  }

  /** The weight of the task a worker holds. */
  function InHand(f: Weight): Phase -> nat {
    (p: Phase) => if p.Idle? || p.Gone? then 0 else f(p.task)
  }

  function InOutcome(f: Weight): Outcome -> nat {
    (o: Outcome) => f(o.task)
  }

  /** Weights that do not look at retry bookkeeping. */
  ghost predicate Steady(f: Weight) {
    forall t: Task, r: nat, n: int :: f(t.(retries := r, nextRetry := n)) == f(t)
  }

  /** A sum over the tasks queued, waiting for a retry and in the workers' hands. */
  ghost function InPipe(s: State, f: Weight, g: Phase -> nat): nat {
    SumTasks(s.sh.queue, f) + SumTasks(s.sh.retry, f) + SumPhases(s.workers, g)
  }

  /** The weight of all tasks, wherever they are. */
  ghost function Total(s: State, f: Weight): nat {
    InPipe(s, f, InHand(f)) + SumOutcomes(s.finalised, InOutcome(f)) + SumTasks(s.discarded, f)
  }

  // === How one step shifts a sum ===

  ghost predicate Neutral(g: Phase -> nat) {
    g(Idle) == 0 && g(Gone) == 0
  }

  function Accepted(s: State, step: Step): Task
    requires step.Enqueue?
  {
    Task(s.accepted, step.session, step.hasCallback, 0, s.now)
  }

  lemma EnqueueShift(c: Config, s: State, step: Step, f: Weight, g: Phase -> nat)
    requires Enabled(c, s, step) && step.Enqueue?
    ensures InPipe(Apply(c, s, step), f, g) == InPipe(s, f, g) + f(Accepted(s, step))
  {
    SumTasksConcat(s.sh.queue, [Accepted(s, step)], f);
    SumTasksOne(Accepted(s, step), f);
  }

  /** A worker takes a task off one of the queues. */
  lemma TakeShift(c: Config, s: State, step: Step, f: Weight, g: Phase -> nat)
    requires Enabled(c, s, step) && (step.TakeRetry? || step.TakeNew?) && Neutral(g)
    ensures var task := Apply(c, s, step).workers[step.w].task;
            && (task in s.sh.queue || task in s.sh.retry)
            && Apply(c, s, step).workers[step.w] == Sending(task)
            && InPipe(Apply(c, s, step), f, g) + f(task) == InPipe(s, f, g) + g(Sending(task))
  {
    if step.TakeRetry? {
      SumTasksWithout(s.sh.retry, step.i, f);
      SumPhasesUpdate(s.workers, step.w, Sending(s.sh.retry[step.i]), g);
    } else {
      SumPhasesUpdate(s.workers, step.w, Sending(s.sh.queue[0]), g);
    }
  }

  /** A worker goes on with the task it holds, or leaves. */
  lemma HandShift(c: Config, s: State, step: Step, f: Weight, g: Phase -> nat)
    requires Enabled(c, s, step) && (step.Send? || step.Call? || step.Record? || step.Exit?)
    ensures InPipe(Apply(c, s, step), f, g) + g(s.workers[step.w]) ==
            InPipe(s, f, g) + g(Apply(c, s, step).workers[step.w])
  {
    SumPhasesUpdate(s.workers, step.w, Apply(c, s, step).workers[step.w], g);
  }

  lemma PushShift(c: Config, s: State, step: Step, f: Weight, g: Phase -> nat)
    requires Enabled(c, s, step) && step.PushRetry? && Neutral(g)
    ensures InPipe(Apply(c, s, step), f, g) + g(s.workers[step.w]) == InPipe(s, f, g) + f(s.workers[step.w].task)
  {
    var task := s.workers[step.w].task;
    SumTasksConcat(s.sh.retry, [task], f);
    SumTasksOne(task, f);
    SumPhasesUpdate(s.workers, step.w, Idle, g);
  }

  /** Steps of the clock, and of starting and stopping. */
  lemma ControlShift(c: Config, s: State, step: Step, f: Weight, g: Phase -> nat)
    requires Enabled(c, s, step) && (step.Tick? || step.StopRequest? || step.StopClear? || step.Start?) && Neutral(g)
    ensures InPipe(Apply(c, s, step), f, g) + (if step.StopClear? then SumTasks(s.sh.queue, f) else 0) == InPipe(s, f, g)
  {
    if step.StopClear? {
      SumPhasesZero(s.workers, g);
    } else if step.Start? {
      var hired := seq(step.n, _ => Idle);
      SumPhasesConcat(s.workers, hired, g);
      SumPhasesZero(hired, g);
    }
  }

  lemma RecordTotal(c: Config, s: State, step: Step, f: Weight)
    requires Enabled(c, s, step) && step.Record?
    ensures Total(Apply(c, s, step), f) == Total(s, f)
  {
    HandShift(c, s, step, f, InHand(f));
    SumOutcomesAppend(s.finalised, Outcome(s.workers[step.w].task, s.workers[step.w].ok), InOutcome(f));
  }

  lemma ControlTotal(c: Config, s: State, step: Step, f: Weight)
    requires Enabled(c, s, step) && (step.Tick? || step.StopRequest? || step.StopClear? || step.Start?)
    ensures Total(Apply(c, s, step), f) == Total(s, f)
  {
    ControlShift(c, s, step, f, InHand(f));
    if step.StopClear? {
      SumTasksConcat(s.discarded, s.sh.queue, f);
    }
  }

  lemma TakeTotal(c: Config, s: State, step: Step, f: Weight)
    requires Enabled(c, s, step) && (step.TakeRetry? || step.TakeNew?)
    ensures Total(Apply(c, s, step), f) == Total(s, f)
  {
    TakeShift(c, s, step, f, InHand(f));
  }

  lemma PushTotal(c: Config, s: State, step: Step, f: Weight)
    requires Enabled(c, s, step) && step.PushRetry?
    ensures Total(Apply(c, s, step), f) == Total(s, f)
  {
    PushShift(c, s, step, f, InHand(f));
  }

  lemma HandTotal(c: Config, s: State, step: Step, f: Weight)
    requires Enabled(c, s, step) && (step.Send? || step.Call? || step.Exit?) && Steady(f)
    ensures Total(Apply(c, s, step), f) == Total(s, f)
  {
    HandShift(c, s, step, f, InHand(f));
  }

  lemma EnqueueTotal(c: Config, s: State, step: Step, f: Weight)
    requires Enabled(c, s, step) && step.Enqueue?
    ensures Total(Apply(c, s, step), f) == Total(s, f) + f(Accepted(s, step))
  {
    EnqueueShift(c, s, step, f, InHand(f));
  }

  /** No step loses, duplicates or invents a task; only acceptance adds one. */
  lemma StepTotal(c: Config, s: State, step: Step, f: Weight)
    requires Enabled(c, s, step) && Steady(f)
    ensures Total(Apply(c, s, step), f) == Total(s, f) + if step.Enqueue? then f(Accepted(s, step)) else 0
  {
    match step
    case Enqueue(_, _) => EnqueueTotal(c, s, step, f);
    case TakeRetry(_, _) => TakeTotal(c, s, step, f);
    case TakeNew(_) => TakeTotal(c, s, step, f);
    case Send(_, _, _) => HandTotal(c, s, step, f);
    case PushRetry(_) => PushTotal(c, s, step, f);
    case Call(_) => HandTotal(c, s, step, f);
    case Record(_) => RecordTotal(c, s, step, f);
    case Exit(_) => HandTotal(c, s, step, f);
    case _ => ControlTotal(c, s, step, f);
  }
}
