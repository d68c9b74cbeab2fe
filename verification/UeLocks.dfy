/** The one reader-writer lock of the UE state manager. Most calls take it once; some take it again
    while they hold it, and a thread may then wait for itself, or for a writer that waits
    for it. */
module UeLocks {
  import opened UeKeys
  import opened UeStores
  import opened UeRuns
  import opened UeStates

  datatype Mode = Shared | Exclusive
  datatype Access = Lock(mode: Mode) | Unlock

  /** A call. Lookups by GPSI or address make a key of the name they are given, and the constructor
      throws when that is not well formed. */
  datatype Call =
    | Change(op: Op)
    | ByKey
    | BySupiName
    | ByGpsiName(name: string)
    | ByAddress(kind: Address, name: string)
    | Search
    | ReadAll
    | AttachQodSession(toPduSession: bool)

  datatype Address = V4 | V6 | V6Prefix

  function IndexOf(a: Address): Attr {
    match a case V4 => ByIpv4 case V6 => ByIpv6 case V6Prefix => ByIpv6Prefix
  }

  function KindOf(a: Address): KeyType {
    match a case V4 => Ipv4Based case V6 => Ipv6Based case V6Prefix => Ipv6PrefixBased
  }

  /** The lookup finds its name in the index and can make a key of it. */
  ghost predicate Finds(s: Store, call: Call) {
    match call
    case ByGpsiName(name) => name in s.index.gpsi && WellFormed(GpsiBased, name)
    case ByAddress(kind, name) => name in s.index.Of(IndexOf(kind)) && WellFormed(KindOf(kind), name)
    case _ => false
  }

  function Holding(mode: Mode, inner: seq<Access>): seq<Access> {
    [Lock(mode)] + inner + [Unlock]
  }

  /** The accesses of one call to the lock. */
  ghost function Trace(s: Store, call: Call): seq<Access> {
    match call
    case Change(op) =>
      Holding(Exclusive, if op.DoPromote? && PromotionOf(s, op.k, op.supi) == Blocked then Holding(Exclusive, []) else [])
    case ByKey => Holding(Shared, [])
    case BySupiName => Holding(Shared, [])
    case ByGpsiName(name) => Holding(Shared, if Finds(s, call) then Holding(Shared, []) else [])
    case ByAddress(kind, name) => Holding(Exclusive, if Finds(s, call) then Holding(Shared, []) else [])
    case Search => Holding(Exclusive, [])
    case ReadAll => Holding(Shared, [])
    case AttachQodSession(toPduSession) => Holding(Exclusive, []) + if toPduSession then Holding(Exclusive, []) else []
  }

  /** Some access locks what the call already holds. */
  predicate Reenters(rest: seq<Access>, held: bool)
    decreases rest
  {
    rest != [] &&
      match rest[0]
      case Lock(_) => held || Reenters(rest[1..], true)
      case Unlock => Reenters(rest[1..], false)
  }

  lemma PlainTrace(mode: Mode)
    ensures Holding(mode, []) == [Lock(mode), Unlock]
    ensures !Reenters(Holding(mode, []), false) && Flat(Holding(mode, []), 0)
  {
    var t := Holding(mode, []);
    assert t == [Lock(mode), Unlock] && t[1..] == [Unlock] && t[1..][1..] == [];
    assert !Reenters(t[1..], true) && Flat(t[1..], 1);
  }

  lemma NestedTrace(outer: Mode, inner: Mode)
    ensures Holding(outer, Holding(inner, [])) == [Lock(outer), Lock(inner), Unlock, Unlock]
    ensures Reenters(Holding(outer, Holding(inner, [])), false)
  {
    var t := Holding(outer, Holding(inner, []));
    assert t == [Lock(outer), Lock(inner), Unlock, Unlock];
    assert t[1..] == [Lock(inner), Unlock, Unlock];
    assert Reenters(t[1..], true);
  }

  lemma TwoPlainTraces(mode: Mode)
    ensures !Reenters(Holding(mode, []) + Holding(mode, []), false)
    ensures Flat(Holding(mode, []) + Holding(mode, []), 0)
  {
    PlainTrace(mode);
    var t := Holding(mode, []) + Holding(mode, []);
    assert t[1..] == [Unlock, Lock(mode), Unlock] && t[1..][1..] == Holding(mode, []);
    assert !Reenters(t[1..], true) && Flat(t[1..], 1);
  }

  /** The calls that lock twice, and how: the guard is on the store and the arguments. */
  ghost function Relock(s: Store, call: Call): seq<Mode> {
    match call
    case Change(op) => if op.DoPromote? && PromotionOf(s, op.k, op.supi) == Blocked then [Exclusive, Exclusive] else []
    case ByGpsiName(_) => if Finds(s, call) then [Shared, Shared] else []
    case ByAddress(_, _) => if Finds(s, call) then [Exclusive, Shared] else []
    case _ => []
  }

  lemma TraceOf(s: Store, call: Call)
    ensures Relock(s, call) == [] ==> Flat(Trace(s, call), 0) && !Reenters(Trace(s, call), false)
    ensures Relock(s, call) != [] ==>
              |Relock(s, call)| == 2
              && Trace(s, call) == [Lock(Relock(s, call)[0]), Lock(Relock(s, call)[1]), Unlock, Unlock]
              && Reenters(Trace(s, call), false)
  {
    PlainTrace(Shared);
    PlainTrace(Exclusive);
    TwoPlainTraces(Exclusive);
    NestedTrace(Shared, Shared);
    NestedTrace(Exclusive, Shared);
    NestedTrace(Exclusive, Exclusive);
    assert Holding(Exclusive, []) + [] == Holding(Exclusive, []);
  }

  /** A call takes the lock again while holding it exactly when it promotes a stored UE onto a taken
      SUPI key, or looks up a well-formed GPSI or address that is indexed. */
  lemma ReentersIff(s: Store, call: Call)
    ensures Reenters(Trace(s, call), false) <==>
            (call.Change? && !Returns(s, call.op)) || Finds(s, call)
  {
    TraceOf(s, call);
  }

  // === Threads on the lock ===

  /** A thread that has started its call is at the first of the accesses that are left. */
  datatype Thread = Thread(started: bool, rest: seq<Access>, held: seq<Mode>)

  /** Lock and unlock alternate, starting from the given depth of zero or one. */
  predicate Flat(rest: seq<Access>, depth: nat)
    decreases rest
  {
    depth <= 1 &&
    if rest == [] then depth == 0
    else if rest[0].Lock? then depth == 0 && Flat(rest[1..], 1)
    else depth == 1 && Flat(rest[1..], 0)
  }

  /** Somebody waits to lock exclusively: the lock lets no new reader pass. */
  predicate WriterWaits(ts: seq<Thread>, except: nat) {
    exists j :: 0 <= j < |ts| && j != except && ts[j].started && ts[j].rest != [] && ts[j].rest[0] == Lock(Exclusive)
  }

  /** A writer needs the lock free, a reader no writer, neither inside nor waiting. */
  predicate CanAct(ts: seq<Thread>, i: nat) {
    i < |ts| && ts[i].rest != [] &&
    (!ts[i].started ||
     match ts[i].rest[0]
     case Unlock => ts[i].held != []
     case Lock(Exclusive) => forall j :: 0 <= j < |ts| ==> ts[j].held == []
     case Lock(Shared) => (forall j :: 0 <= j < |ts| ==> Exclusive !in ts[j].held) && !WriterWaits(ts, i))
  }

  function Act(ts: seq<Thread>, i: nat): seq<Thread>
    requires CanAct(ts, i)
  {
    var t := ts[i];
    var next :=
      if !t.started then t.(started := true)
      else if t.rest[0].Lock? then Thread(true, t.rest[1..], t.held + [t.rest[0].mode])
      else Thread(true, t.rest[1..], t.held[..|t.held| - 1]);
    ts[i := next]
  }

  predicate ValidMoves(ts: seq<Thread>, moves: seq<nat>)
    decreases moves
  {
    moves != [] ==> CanAct(ts, moves[0]) && ValidMoves(Act(ts, moves[0]), moves[1..])
  }

  function After(ts: seq<Thread>, moves: seq<nat>): seq<Thread>
    requires ValidMoves(ts, moves)
    decreases moves
  {
    if moves == [] then ts else After(Act(ts, moves[0]), moves[1..])
  }

  /** Somebody is inside a call and nobody can go on. */
  ghost predicate Stuck(ts: seq<Thread>) {
    && (exists i :: 0 <= i < |ts| && ts[i].rest != [])
    && forall i :: !CanAct(ts, i)
  }

  ghost predicate MayGetStuck(ts: seq<Thread>) {
    exists moves :: ValidMoves(ts, moves) && Stuck(After(ts, moves))
  }

  lemma StuckNow(ts: seq<Thread>)
    requires Stuck(ts)
    ensures MayGetStuck(ts)
  {
    assert ValidMoves(ts, []) && After(ts, []) == ts;
  }

  lemma StuckLater(ts: seq<Thread>, i: nat)
    requires CanAct(ts, i) && MayGetStuck(Act(ts, i))
    ensures MayGetStuck(ts)
  {
    var rest :| ValidMoves(Act(ts, i), rest) && Stuck(After(Act(ts, i), rest));
    var moves := [i] + rest;
    assert moves[0] == i && moves[1..] == rest;
    assert ValidMoves(ts, moves) && Stuck(After(ts, moves));
  }

  predicate AllFlat(ts: seq<Thread>) {
    forall i :: 0 <= i < |ts| ==> Flat(ts[i].rest, |ts[i].held|) && (!ts[i].started ==> ts[i].held == [])
  }

  /** With flat calls only, a holder can always unlock, and with no holder somebody can lock. */
  lemma FlatNotStuck(ts: seq<Thread>)
    requires AllFlat(ts)
    ensures !Stuck(ts)
  {
    if i: nat :| i < |ts| && ts[i].rest != [] {
      if h: nat :| h < |ts| && ts[h].held != [] {
        assert Flat(ts[h].rest, |ts[h].held|);
        assert CanAct(ts, h);
      } else if w: nat :| w < |ts| && ts[w].rest != [] && ts[w].rest[0] == Lock(Exclusive) {
        assert CanAct(ts, w);
      } else {
        assert Flat(ts[i].rest, 0);
        assert CanAct(ts, i);
      }
    }
  }

  lemma {:induction false} FlatMoves(ts: seq<Thread>, moves: seq<nat>)
    requires AllFlat(ts) && ValidMoves(ts, moves)
    ensures AllFlat(After(ts, moves))
    decreases moves
  {
    if moves != [] {
      assert Flat(ts[moves[0]].rest, |ts[moves[0]].held|);
      FlatMoves(Act(ts, moves[0]), moves[1..]);
    }
  }

  /** One thread for each call, none of them started. */
  ghost function Begins(s: Store, calls: seq<Call>): seq<Thread> {
    seq(|calls|, i requires 0 <= i < |calls| => Thread(false, Trace(s, calls[i]), []))
  }

  /** Any number of calls that do not re-enter never block each other for good. */
  lemma NoDeadlock(s: Store, calls: seq<Call>)
    requires forall i :: 0 <= i < |calls| ==> !Reenters(Trace(s, calls[i]), false)
    ensures !MayGetStuck(Begins(s, calls))
  {
    var ts := Begins(s, calls);
    forall i | 0 <= i < |ts|
      ensures Flat(ts[i].rest, |ts[i].held|)
    {
      TraceOf(s, calls[i]);
    }
    forall moves | ValidMoves(ts, moves)
      ensures !Stuck(After(ts, moves))
    {
      FlatMoves(ts, moves);
      FlatNotStuck(After(ts, moves));
    }
  }

  lemma LockOnce(mode: Mode)
    ensures var none: seq<Mode> := []; none + [mode] == [mode]
  {
  }

  // === The lock excludes ===

  /** A thread holding the lock exclusively is the only one holding it. */
  predicate Excludes(ts: seq<Thread>) {
    forall i, j :: 0 <= i < |ts| && 0 <= j < |ts| && i != j && Exclusive in ts[i].held ==> ts[j].held == []
  }

  lemma ExcludesStep(ts: seq<Thread>, i: nat)
    requires Excludes(ts) && CanAct(ts, i)
    ensures Excludes(Act(ts, i))
  {
    var us := Act(ts, i);
    forall a, b | 0 <= a < |us| && 0 <= b < |us| && a != b && Exclusive in us[a].held
      ensures us[b].held == []
    {
      assert a != i ==> us[a] == ts[a];
      assert b != i ==> us[b] == ts[b];
    }
  }

  lemma {:induction false} ExcludesMoves(ts: seq<Thread>, moves: seq<nat>)
    requires Excludes(ts) && ValidMoves(ts, moves)
    ensures Excludes(After(ts, moves))
    decreases moves
  {
    if moves != [] {
      ExcludesStep(ts, moves[0]);
      ExcludesMoves(Act(ts, moves[0]), moves[1..]);
    }
  }

  /** The calls that change the store. */
  predicate Writes(call: Call) {
    call.Change? || call.AttachQodSession?
  }

  /** Every call works inside the lock, a changing one inside an exclusive lock. */
  lemma WorksInside(s: Store, call: Call)
    ensures var t := Trace(s, call);
            && t != [] && t[0].Lock? && t[|t| - 1] == Unlock
            && (Writes(call) ==> forall i :: 0 <= i < |t| && t[i].Lock? ==> t[i].mode == Exclusive)
  {
    TraceOf(s, call);
    PlainTrace(Shared);
    PlainTrace(Exclusive);
  }

  /** So while one thread is inside a call that changes the store, no other is inside any call. */
  lemma NoRace(s: Store, calls: seq<Call>, moves: seq<nat>, i: nat, j: nat)
    requires ValidMoves(Begins(s, calls), moves) && i < |After(Begins(s, calls), moves)| && j < |After(Begins(s, calls), moves)|
    requires i != j && Exclusive in After(Begins(s, calls), moves)[i].held
    ensures After(Begins(s, calls), moves)[j].held == []
  {
    ExcludesMoves(Begins(s, calls), moves);
  }

  // === One call alone ===

  /** A call alone gets stuck exactly when it is a promotion onto a taken SUPI key or an address
      lookup that finds its address: it then waits for itself. */
  lemma StuckAloneIff(s: Store, call: Call)
    ensures MayGetStuck(Begins(s, [call])) <==> Reenters(Trace(s, call), false) && !call.ByGpsiName?
  {
    TraceOf(s, call);
    if Relock(s, call) == [] {
      NoDeadlock(s, [call]);
    } else if call.ByGpsiName? {
      GpsiAlone(s, call);
    } else {
      var rest := Trace(s, call);
      var ts1 := [Thread(true, rest, [])];
      var ts2 := [Thread(true, rest[1..], [Exclusive])];
      assert ts2[0].rest != [] && !CanAct(ts2, 0);
      LockOnce(Exclusive);
      StuckNow(ts2);
      assert CanAct(ts1, 0) && Act(ts1, 0) == ts2;
      StuckLater(ts1, 0);
      var ts := Begins(s, [call]);
      assert CanAct(ts, 0) && Act(ts, 0) == ts1;
      StuckLater(ts, 0);
    }
  }

  /** A lone thread that has taken n steps of a trace that locks twice for reading. */
  predicate Reading(ts: seq<Thread>, n: nat) {
    && |ts| == 1 && n <= 4
    && ts[0].rest == [Lock(Shared), Lock(Shared), Unlock, Unlock][n..]
    && ts[0].held == if n == 2 then [Shared, Shared] else if n == 1 || n == 3 then [Shared] else []
  }

  lemma ReadingGoesOn(ts: seq<Thread>, n: nat)
    requires Reading(ts, n)
    ensures !Stuck(ts)
    ensures forall i :: CanAct(ts, i) ==>
              i == 0 && if ts[0].started then n < 4 && Reading(Act(ts, i), n + 1) else Reading(Act(ts, i), n)
  {
    assert n < 4 ==> CanAct(ts, 0);
  }

  lemma {:induction false} ReadingMoves(ts: seq<Thread>, n: nat, moves: seq<nat>)
    requires Reading(ts, n) && ValidMoves(ts, moves)
    ensures !Stuck(After(ts, moves))
    decreases moves
  {
    ReadingGoesOn(ts, n);
    if moves != [] {
      ReadingMoves(Act(ts, moves[0]), if ts[0].started then n + 1 else n, moves[1..]);
    }
  }

  lemma GpsiAlone(s: Store, call: Call)
    requires call.ByGpsiName? && Relock(s, call) != []
    ensures !MayGetStuck(Begins(s, [call]))
  {
    var ts := Begins(s, [call]);
    TraceOf(s, call);
    assert Reading(ts, 0);
    forall moves | ValidMoves(ts, moves)
      ensures !Stuck(After(ts, moves))
    {
      ReadingMoves(ts, 0, moves);
    }
  }

  // === Beside a writer ===

  /** Beside a thread that changes the store, a call may get stuck exactly when it re-enters: even a
      GPSI lookup, which then waits for the writer that waits for it. */
  lemma StuckWithWriterIff(s: Store, call: Call, op: Op)
    requires Returns(s, op)
    ensures MayGetStuck(Begins(s, [call, Change(op)])) <==> Reenters(Trace(s, call), false)
  {
    TraceOf(s, call);
    TraceOf(s, Change(op));
    if Relock(s, call) == [] {
      NoDeadlock(s, [call, Change(op)]);
    } else {
      PlainTrace(Exclusive);
      assert Begins(s, [call, Change(op)])[1].rest == [Lock(Exclusive), Unlock];
      WaitForEachOther(Relock(s, call)[0], Relock(s, call)[1], Begins(s, [call, Change(op)]));
    }
  }

  /** The first thread locks, the second arrives to write, and neither can go on. */
  lemma WaitForEachOther(outer: Mode, inner: Mode, ts: seq<Thread>)
    requires ts == [Thread(false, [Lock(outer), Lock(inner), Unlock, Unlock], []), Thread(false, [Lock(Exclusive), Unlock], [])]
    ensures MayGetStuck(ts)
  {
    var inside := Thread(true, [Lock(inner), Unlock, Unlock], [outer]);
    var ts1 := [ts[0].(started := true), ts[1]];
    var ts2 := [inside, ts[1]];
    var ts3 := [inside, ts[1].(started := true)];
    assert ts3[1].rest[0] == Lock(Exclusive) && ts3[1].started;
    assert WriterWaits(ts3, 0);
    LockOnce(outer);
    assert ts3[0].rest != [] && !CanAct(ts3, 0) && !CanAct(ts3, 1);
    StuckNow(ts3);
    assert CanAct(ts2, 1) && Act(ts2, 1) == ts3;
    StuckLater(ts2, 1);
    assert ts1[0].rest[1..] == inside.rest;
    assert CanAct(ts1, 0) && Act(ts1, 0) == ts2;
    StuckLater(ts1, 0);
    assert CanAct(ts, 0) && Act(ts, 0) == ts1;
    StuckLater(ts, 0);
  }
}
