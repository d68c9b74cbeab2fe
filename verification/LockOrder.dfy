/** The notification manager's locks: every call takes nested locks in one order, so no set of
    threads calling it can deadlock on them. */
module LockOrder {
  datatype Lock = QueueLock | SessionLock | StatsLock | ClientsLock

  /** `Use` reads or writes the data that the lock guards. */
  datatype Action = Acquire(lock: Lock) | Use(lock: Lock) | Release(lock: Lock)

  /** What a thread still has to do in its current call, and the locks it holds. */
  datatype Thread = Thread(rest: seq<Action>, held: set<Lock>)

  /** The locking behaviour of each call, from any thread. */
  datatype ClientCall =
    | QueueNotification(full: bool, named: bool)
    | CancelSession
    | PendingCount
    | SessionStatistics

  /** A worker is a call that never nests; its wait on the condition variable gives the queue lock up
      and takes it again. Recording an outcome first runs the callback, which is client code and may
      call the manager any number of times. */
  datatype Call =
    | FromClient(call: ClientCall)
    | WorkerBorrowsClient
    | WorkerWaits
    | WorkerTakes
    | WorkerPushesRetry
    | WorkerRecords(callback: seq<ClientCall>, named: bool)
    | WorkerReturnsClient
    | StopClearsQueue

  function Section(l: Lock): seq<Action> {
    [Acquire(l), Use(l), Release(l)]
  }

  function ClientProgram(call: ClientCall): seq<Action> {
    match call
    case QueueNotification(full, named) =>
      [Acquire(QueueLock), Use(QueueLock)] + (if full || !named then [] else Section(SessionLock) + Section(StatsLock)) + [Release(QueueLock)]
    case CancelSession => Section(SessionLock)
    case PendingCount => Section(QueueLock)
    case SessionStatistics => Section(StatsLock)
  }

  function CallbackProgram(calls: seq<ClientCall>): seq<Action> {
    if calls == [] then [] else ClientProgram(calls[0]) + CallbackProgram(calls[1..])
  }

  function Program(call: Call): seq<Action> {
    match call
    case FromClient(c) => ClientProgram(c)
    case WorkerBorrowsClient => Section(ClientsLock)
    case WorkerWaits => Section(QueueLock) + Section(QueueLock)
    case WorkerTakes => Section(QueueLock)
    case WorkerPushesRetry => Section(QueueLock)
    case WorkerRecords(callback, named) => CallbackProgram(callback) + if named then Section(StatsLock) else []
    case WorkerReturnsClient => Section(ClientsLock)
    case StopClearsQueue => Section(QueueLock)
  }

  function Rank(l: Lock): nat {
    if l == QueueLock then 0 else 1
  }

  /** A thread acquires only locks ranked above all it holds, uses and releases only what it holds, and
      has released everything when its call ends. */
  predicate Ordered(rest: seq<Action>, held: set<Lock>)
    decreases rest
  {
    if rest == [] then held == {}
    else
      match rest[0]
      case Acquire(l) => (forall h :: h in held ==> Rank(h) < Rank(l)) && Ordered(rest[1..], held + {l})
      case Use(l) => l in held && Ordered(rest[1..], held)
      case Release(l) => l in held && Ordered(rest[1..], held - {l})
  }

  lemma {:induction false} OrderedConcat(a: seq<Action>, b: seq<Action>, held: set<Lock>)
    requires Ordered(a, held) && Ordered(b, {})
    ensures Ordered(a + b, held)
    decreases a
  {
    if a == [] {
      assert a + b == b;
    } else {
      assert (a + b)[1..] == a[1..] + b;
      OrderedConcat(a[1..], b, if a[0].Acquire? then held + {a[0].lock} else if a[0].Use? then held else held - {a[0].lock});
    }
  }

  lemma ClientsOrdered(call: ClientCall)
    ensures Ordered(ClientProgram(call), {})
  {
    match call
    case QueueNotification(full, named) => NestedOrdered(if full || !named then [] else Section(SessionLock) + Section(StatsLock));
    case CancelSession => SectionOrdered(SessionLock);
    case PendingCount => SectionOrdered(QueueLock);
    case SessionStatistics => SectionOrdered(StatsLock);
  }

  lemma {:induction false} CallbacksOrdered(calls: seq<ClientCall>)
    ensures Ordered(CallbackProgram(calls), {})
  {
    if calls != [] {
      ClientsOrdered(calls[0]);
      CallbacksOrdered(calls[1..]);
      OrderedConcat(ClientProgram(calls[0]), CallbackProgram(calls[1..]), {});
    }
  }

  lemma ProgramsOrdered(call: Call)
    ensures Ordered(Program(call), {})
  {
    match call
    case FromClient(c) => ClientsOrdered(c);
    case WorkerWaits =>
      SectionOrdered(QueueLock);
      OrderedConcat(Section(QueueLock), Section(QueueLock), {});
    case WorkerBorrowsClient => SectionOrdered(ClientsLock);
    case WorkerTakes => SectionOrdered(QueueLock);
    case WorkerPushesRetry => SectionOrdered(QueueLock);
    case WorkerRecords(callback, named) =>
      CallbacksOrdered(callback);
      SectionOrdered(StatsLock);
      assert Ordered([], {});
      OrderedConcat(CallbackProgram(callback), if named then Section(StatsLock) else [], {});
    case WorkerReturnsClient => SectionOrdered(ClientsLock);
    case StopClearsQueue => SectionOrdered(QueueLock);
  }

  lemma SectionOrdered(l: Lock)
    ensures Ordered(Section(l), {})
  {
    assert Ordered([], {});
    InnerSection(l, [], {});
    assert Section(l) + [] == Section(l);
  }

  /** Sections of two higher locks, one after the other or none, inside a section of the queue lock. */
  lemma NestedOrdered(inner: seq<Action>)
    requires inner in {[], Section(SessionLock) + Section(StatsLock)}
    ensures Ordered([Acquire(QueueLock), Use(QueueLock)] + inner + [Release(QueueLock)], {})
  {
    var q: set<Lock> := {QueueLock};
    var end := [Release(QueueLock)];
    assert end[1..] == [] && q - {QueueLock} == {};
    assert Ordered(end, q);
    if inner != [] {
      InnerSection(StatsLock, end, q);
      InnerSection(SessionLock, Section(StatsLock) + end, q);
      assert inner + end == Section(SessionLock) + (Section(StatsLock) + end);
    } else {
      assert inner + end == end;
    }
    var p := [Acquire(QueueLock), Use(QueueLock)] + inner + end;
    assert p[1..][1..] == inner + end && {} + {QueueLock} == q;
    assert Ordered(p[1..], q);
  }

  lemma InnerSection(l: Lock, rest: seq<Action>, held: set<Lock>)
    requires l !in held && (forall h :: h in held ==> Rank(h) < Rank(l)) && Ordered(rest, held)
    ensures Ordered(Section(l) + rest, held)
  {
    var p := Section(l) + rest;
    assert p[1..] == [Use(l), Release(l)] + rest && p[1..][1..] == [Release(l)] + rest && p[1..][1..][1..] == rest;
    assert held + {l} - {l} == held;
    assert Ordered(p[1..][1..], held + {l});
    assert Ordered(p[1..], held + {l});
  }

  // === Threads together ===

  predicate Blocked(ts: seq<Thread>, i: nat)
    requires i < |ts|
  {
    ts[i].rest != [] && ts[i].rest[0].Acquire? && exists j :: 0 <= j < |ts| && ts[i].rest[0].lock in ts[j].held
  }

  /** Every thread is inside ordered code, and no lock has two holders. */
  ghost predicate Sane(ts: seq<Thread>) {
    && (forall i :: 0 <= i < |ts| ==> Ordered(ts[i].rest, ts[i].held))
    && (forall i, j, l :: 0 <= i < j < |ts| && l in ts[i].held ==> l !in ts[j].held)
  }

  /** One thread starts a call when it is between calls, or does its next action. */
  predicate CanStart(ts: seq<Thread>, i: nat) {
    i < |ts| && ts[i].rest == []
  }

  predicate CanAct(ts: seq<Thread>, i: nat) {
    i < |ts| && ts[i].rest != [] && !Blocked(ts, i)
  }

  function Begin(ts: seq<Thread>, i: nat, call: Call): seq<Thread>
    requires CanStart(ts, i)
  {
    ts[i := ts[i].(rest := Program(call))]
  }

  function Act(ts: seq<Thread>, i: nat): seq<Thread>
    requires CanAct(ts, i)
  {
    var t := ts[i];
    ts[i := Thread(t.rest[1..], if t.rest[0].Acquire? then t.held + {t.rest[0].lock}
                                  else if t.rest[0].Use? then t.held else t.held - {t.rest[0].lock})]
  }

  lemma SaneStep(ts: seq<Thread>, i: nat, call: Call)
    requires Sane(ts)
    ensures CanStart(ts, i) ==> Sane(Begin(ts, i, call))
    ensures CanAct(ts, i) ==> Sane(Act(ts, i))
  {
    ProgramsOrdered(call);
    if CanAct(ts, i) {
      assert Ordered(ts[i].rest, ts[i].held);
    }
  }

  /** Following the holder of the lock one waits for leads to a thread that can act. */
  lemma {:induction false} SomeoneActs(ts: seq<Thread>, i: nat, top: nat)
    requires Sane(ts) && i < |ts| && ts[i].rest != []
    requires Blocked(ts, i) ==> top + Rank(ts[i].rest[0].lock) > 1
    ensures exists j: nat :: CanAct(ts, j)
    decreases top
  {
    if Blocked(ts, i) {
      var j: nat :| j < |ts| && ts[i].rest[0].lock in ts[j].held;
      assert Ordered(ts[j].rest, ts[j].held);
      assert ts[j].rest != [];
      if Blocked(ts, j) {
        assert Rank(ts[i].rest[0].lock) < Rank(ts[j].rest[0].lock);
        SomeoneActs(ts, j, top - 1);
      } else {
        assert CanAct(ts, j);
      }
    } else {
      assert CanAct(ts, i);
    }
  }

  datatype Move = Starts(i: nat, call: Call) | Acts(i: nat)

  predicate Possible(ts: seq<Thread>, m: Move) {
    match m
    case Starts(i, _) => CanStart(ts, i)
    case Acts(i) => CanAct(ts, i)
  }

  function Next(ts: seq<Thread>, m: Move): seq<Thread>
    requires Possible(ts, m)
  {
    match m
    case Starts(i, call) => Begin(ts, i, call)
    case Acts(i) => Act(ts, i)
  }

  predicate ValidMoves(ts: seq<Thread>, moves: seq<Move>)
    decreases moves
  {
    moves != [] ==> Possible(ts, moves[0]) && ValidMoves(Next(ts, moves[0]), moves[1..])
  }

  function After(ts: seq<Thread>, moves: seq<Move>): seq<Thread>
    requires ValidMoves(ts, moves)
    decreases moves
  {
    if moves == [] then ts else After(Next(ts, moves[0]), moves[1..])
  }

  lemma {:induction false} SaneMoves(ts: seq<Thread>, moves: seq<Move>)
    requires Sane(ts) && ValidMoves(ts, moves)
    ensures Sane(After(ts, moves))
    decreases moves
  {
    if moves != [] {
      SaneStep(ts, moves[0].i, if moves[0].Starts? then moves[0].call else StopClearsQueue);
      SaneMoves(Next(ts, moves[0]), moves[1..]);
    }
  }

  /** No deadlock: any number of threads, starting outside the manager and making any calls in any
      interleaving, never reach a point where one is inside a call and none can act. */
  lemma NoDeadlock(start: seq<Thread>, moves: seq<Move>, i: nat)
    requires forall k :: 0 <= k < |start| ==> start[k] == Thread([], {})
    requires ValidMoves(start, moves) && i < |After(start, moves)| && After(start, moves)[i].rest != []
    ensures var ts := After(start, moves); exists j: nat :: CanAct(ts, j)
  {
    SaneMoves(start, moves);
    SomeoneActs(After(start, moves), i, 2);
  }

  /** No race: two threads are never both about to use what the same lock guards. */
  lemma NoRace(start: seq<Thread>, moves: seq<Move>, i: nat, j: nat)
    requires forall k :: 0 <= k < |start| ==> start[k] == Thread([], {})
    requires ValidMoves(start, moves) && i < j < |After(start, moves)|
    requires After(start, moves)[i].rest != [] && After(start, moves)[j].rest != []
    ensures var a, b := After(start, moves)[i].rest[0], After(start, moves)[j].rest[0];
            !(a.Use? && b.Use? && a.lock == b.lock)
  {
    SaneMoves(start, moves);
    var ts := After(start, moves);
    assert Ordered(ts[i].rest, ts[i].held) && Ordered(ts[j].rest, ts[j].held);
  }
}
