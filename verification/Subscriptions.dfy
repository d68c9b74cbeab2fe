/** Event subscriptions: matching, expiry, and the collector that must not be visible in matching. */
module Subscriptions {
  import opened Options
  import Decimal

  // === JSON scalars as text ===

  datatype Scalar = Text(s: string) | Number(n: int) | Flag(b: bool)

  const HEX := "0123456789abcdef"

  function EscapeChar(c: char): (r: string)
    ensures |r| >= 1
  {
    if c == '\"' then "\\\""
    else if c == '\\' then "\\\\"
    else if c == '\n' then "\\n"
    else if c == '\r' then "\\r"
    else if c == '\t' then "\\t"
    else if c as int == 8 then "\\b"
    else if c as int == 12 then "\\f"
    else if (c as int) < 32 then "\\u00" + [HEX[c as int / 16], HEX[c as int % 16]]
    else [c]
  }

  function Escape(s: string): (r: string)
    ensures |r| >= |s|
    decreases s
  {
    if s == "" then "" else EscapeChar(s[0]) + Escape(s[1..])
  }

  function Dump(v: Scalar): string {
    match v
    case Text(s) => "\"" + Escape(s) + "\""
    case Number(n) => Decimal.PrintInt(n)
    case Flag(b) => if b then "true" else "false"
  }

  /** What `create_subscription` keeps of a filter value: strings bare, everything else dumped. */
  function Stored(v: Scalar): string {
    if v.Text? then v.s else Dump(v)
  }

  lemma DumpIsStoredIff(v: Scalar)
    ensures Dump(v) == Stored(v) <==> !v.Text?
  {
    if v.Text? {
      assert |Dump(v)| == |Escape(v.s)| + 2;
    }
  }

  // === Matching ===

  datatype Subscription = Subscription(
    id: string, clientId: string, eventType: string, url: string, callback: string,
    filters: map<string, string>, expiry: int, active: bool)

  type Store = map<string, Subscription>
  type Event = map<string, Scalar>

  predicate Expired(sub: Subscription, now: int) {
    now > sub.expiry
  }

  predicate Admits(filters: map<string, string>, data: Event) {
    forall k <- filters :: k in data && Dump(data[k]) == filters[k]
  }

  predicate Wants(sub: Subscription, eventType: string, data: Event) {
    sub.active && sub.eventType == eventType && Admits(sub.filters, data)
  }

  function Selected(s: Store, eventType: string, data: Event, now: int): Store {
    map id | id in s && Wants(s[id], eventType, data) && !Expired(s[id], now) :: s[id]
  }

  function Swept(s: Store, now: int): Store {
    map id | id in s && !Expired(s[id], now) :: s[id]
  }

  function ExpiredIds(s: Store, now: int): set<string> {
    set id | id in s && Expired(s[id], now)
  }

  // === Operations ===

  datatype Request = Request(
    clientId: Option<string>, source: Option<string>, eventType: Option<string>,
    url: Option<string>, callback: Option<string>, filters: map<string, Scalar>,
    expirySeconds: Option<int>)

  datatype Reply =
    | Created(sub: Subscription) | Deleted | NotFound | Unauthorized | BadRequest
    | Removed(count: nat) | Notified(subs: Store)

  datatype Op =
    | Create(request: Request, freshId: string)
    | Delete(id: Option<string>, clientId: string)
    | Notify(eventType: string, data: Event)
    | Cleanup

  datatype Timed = Timed(now: int, op: Op)

  function Or<T>(o: Option<T>, default: T): T {
    if o.Some? then o.value else default
  }

  const DEFAULT_EXPIRY := 3600

  predicate Acceptable(r: Request) {
    && r.eventType.Some? && r.eventType.value != ""
    && (Or(r.url, "") != "" || Or(r.callback, "") != "")
  }

  function Build(r: Request, freshId: string, now: int): Subscription {
    Subscription(freshId, Or(r.clientId, Or(r.source, "unknown")), Or(r.eventType, ""), Or(r.url, ""),
                 Or(r.callback, ""), map k | k in r.filters :: Stored(r.filters[k]),
                 now + Or(r.expirySeconds, DEFAULT_EXPIRY), true)
  }

  /** A subscription admits an event that carries the very values its filters were created from
      exactly when none of them is a string: the event side is dumped with its quotes. */
  lemma FilterAdmitsItselfIff(r: Request, freshId: string, now: int, data: Event)
    requires forall k <- r.filters :: k in data && data[k] == r.filters[k]
    ensures Admits(Build(r, freshId, now).filters, data) <==> forall k <- r.filters :: !r.filters[k].Text?
  {
    var filters := Build(r, freshId, now).filters;
    forall k <- r.filters
      ensures Dump(data[k]) == filters[k] <==> !r.filters[k].Text?
    {
      DumpIsStoredIff(r.filters[k]);
    }
    if k :| k in r.filters && r.filters[k].Text? {
      assert k in filters && Dump(data[k]) != filters[k];
    }
  }

  /** An empty client id is not checked. */
  predicate MayDelete(sub: Subscription, clientId: string) {
    clientId == "" || sub.clientId == clientId
  }

  function Step(s: Store, t: Timed): (Store, Reply) {
    match t.op
    case Create(r, id) =>
      if Acceptable(r) then (s[id := Build(r, id, t.now)], Created(Build(r, id, t.now))) else (s, BadRequest)
    case Delete(id, client) =>
      if id.None? then (s, BadRequest)
      else if id.value !in s then (s, NotFound)
      else if !MayDelete(s[id.value], client) then (s, Unauthorized)
      else (s - {id.value}, Deleted)
    case Notify(eventType, data) => (s, Notified(Selected(s, eventType, data, t.now)))
    case Cleanup => (Swept(s, t.now), Removed(|ExpiredIds(s, t.now)|))
  }

  function Run(s: Store, ops: seq<Timed>): Store
    decreases ops
  {
    if ops == [] then s else Run(Step(s, ops[0]).0, ops[1..])
  }

  /** What each `notify_event` of a run selects. */
  function Selections(s: Store, ops: seq<Timed>): seq<Store>
    decreases ops
  {
    if ops == [] then []
    else
      var (next, reply) := Step(s, ops[0]);
      (if reply.Notified? then [reply.subs] else []) + Selections(next, ops[1..])
  }

  function WithoutCleanups(ops: seq<Timed>): seq<Timed>
    decreases ops
  {
    if ops == [] then [] else (if ops[0].op.Cleanup? then [] else [ops[0]]) + WithoutCleanups(ops[1..])
  }

  /** The clock never goes back. */
  predicate Rising(from: int, ops: seq<Timed>)
    decreases ops
  {
    ops == [] || (from <= ops[0].now && Rising(ops[0].now, ops[1..]))
  }

  /** Every subscription is stored under its own id. */
  predicate Keyed(s: Store) {
    forall id <- s :: s[id].id == id
  }

  lemma KeyedStep(s: Store, t: Timed)
    ensures Keyed(s) ==> Keyed(Step(s, t).0)
  {
  }

  // === The collector is invisible ===

  /** The two stores agree on everything that has not expired. */
  ghost predicate SameLive(a: Store, b: Store, now: int) {
    Swept(a, now) == Swept(b, now)
  }

  lemma SameLivePointwise(a: Store, b: Store, now: int)
    ensures SameLive(a, b, now) <==>
            forall id :: (id in a && !Expired(a[id], now)) == (id in b && !Expired(b[id], now))
                         && (id in a && !Expired(a[id], now) ==> a[id] == b[id])
  {
    if SameLive(a, b, now) {
      forall id
        ensures (id in a && !Expired(a[id], now)) == (id in b && !Expired(b[id], now))
        ensures id in a && !Expired(a[id], now) ==> a[id] == b[id]
      {
        assert (id in Swept(a, now)) == (id in Swept(b, now));
      }
    }
  }

  lemma SameLiveLater(a: Store, b: Store, now: int, later: int)
    requires SameLive(a, b, now) && now <= later
    ensures SameLive(a, b, later)
  {
    SameLivePointwise(a, b, now);
    SameLivePointwise(a, b, later);
  }

  lemma SameSelection(a: Store, b: Store, eventType: string, data: Event, now: int)
    requires SameLive(a, b, now)
    ensures Selected(a, eventType, data, now) == Selected(b, eventType, data, now)
  {
    SameLivePointwise(a, b, now);
  }

  lemma SweptStaysLive(a: Store, now: int)
    ensures SameLive(Swept(a, now), a, now)
  {
    SameLivePointwise(Swept(a, now), a, now);
  }

  lemma SameLiveCreate(a: Store, b: Store, id: string, sub: Subscription, now: int)
    requires SameLive(a, b, now)
    ensures SameLive(a[id := sub], b[id := sub], now)
  {
    SameLivePointwise(a, b, now);
    SameLivePointwise(a[id := sub], b[id := sub], now);
  }

  /** Removing a subscription from one store only is harmless once it has expired. */
  lemma SameLiveDelete(a: Store, b: Store, id: string, now: int)
    requires SameLive(a, b, now)
    ensures SameLive(a - {id}, b - {id}, now)
    ensures (id in a ==> Expired(a[id], now)) ==> SameLive(a, b - {id}, now)
    ensures (id in b ==> Expired(b[id], now)) ==> SameLive(a - {id}, b, now)
    ensures id in a && !Expired(a[id], now) ==> id in b && a[id] == b[id]
    ensures id in b && !Expired(b[id], now) ==> id in a && a[id] == b[id]
  {
    SameLivePointwise(a, b, now);
    SameLivePointwise(a - {id}, b - {id}, now);
    SameLivePointwise(a, b - {id}, now);
    SameLivePointwise(a - {id}, b, now);
  }

  lemma SameLiveSweep(a: Store, b: Store, now: int)
    requires SameLive(a, b, now)
    ensures SameLive(Swept(a, now), Swept(b, now), now)
  {
  }

  lemma SameLiveStep(a: Store, b: Store, t: Timed)
    requires SameLive(a, b, t.now)
    ensures SameLive(Step(a, t).0, Step(b, t).0, t.now)
    ensures t.op.Notify? ==> Step(a, t).1 == Step(b, t).1
  {
    match t.op {
      case Create(r, id) => SameLiveCreate(a, b, id, Build(r, id, t.now), t.now);
      case Delete(id, _) =>
        if id.Some? {
          SameLiveDelete(a, b, id.value, t.now);
        }
      case Notify(eventType, data) => SameSelection(a, b, eventType, data, t.now);
      case Cleanup => SameLiveSweep(a, b, t.now);
    }
  }

  /** Cleanups at any points of a run never change what a later event selects. */
  lemma {:induction false} CleanupInvisible(a: Store, b: Store, ops: seq<Timed>, from: int)
    requires SameLive(a, b, from) && Rising(from, ops)
    ensures Selections(a, ops) == Selections(b, WithoutCleanups(ops))
    decreases ops
  {
    if ops != [] {
      var t, rest := ops[0], WithoutCleanups(ops[1..]);
      SameLiveLater(a, b, from, t.now);
      if t.op.Cleanup? {
        SweptStaysLive(a, t.now);
        assert WithoutCleanups(ops) == rest;
        CleanupInvisible(Swept(a, t.now), b, ops[1..], t.now);
      } else {
        SameLiveStep(a, b, t);
        assert WithoutCleanups(ops)[0] == t && WithoutCleanups(ops)[1..] == rest;
        CleanupInvisible(Step(a, t).0, Step(b, t).0, ops[1..], t.now);
      }
    }
  }

  /** Two histories that differ only in when the collector ran select the same subscriptions. */
  lemma AnyCleanupSchedule(s: Store, ops: seq<Timed>, others: seq<Timed>, from: int)
    requires Rising(from, ops) && Rising(from, others) && WithoutCleanups(ops) == WithoutCleanups(others)
    ensures Selections(s, ops) == Selections(s, others)
  {
    CleanupInvisible(s, s, ops, from);
    CleanupInvisible(s, s, others, from);
  }

  predicate Lost(sub: Subscription, eventType: string, data: Event, swept: int, now: int) {
    Wants(sub, eventType, data) && !Expired(sub, now) && Expired(sub, swept)
  }

  /** If the clock does go back, a cleanup changes a selection exactly when it removed a wanted
      subscription that counts as live again. */
  lemma CleanupHarmlessIff(s: Store, eventType: string, data: Event, swept: int, now: int)
    ensures Selected(Swept(s, swept), eventType, data, now) == Selected(s, eventType, data, now)
            <==> forall id <- s :: !Lost(s[id], eventType, data, swept, now)
  {
    var less, all := Selected(Swept(s, swept), eventType, data, now), Selected(s, eventType, data, now);
    assert less.Keys <= all.Keys;
    forall id <- s
      ensures Lost(s[id], eventType, data, swept, now) <==> id in all && id !in less
    {
    }
  }

  lemma SweepCount(s: Store, now: int)
    ensures |s| == |Swept(s, now)| + |ExpiredIds(s, now)|
  {
    assert s.Keys == Swept(s, now).Keys + ExpiredIds(s, now);
    assert |Swept(s, now)| == |Swept(s, now).Keys|;
  }

  /** The store when only the ids in todo have not been visited yet. */
  ghost function SweptBut(s: Store, now: int, todo: set<string>): Store {
    s - (ExpiredIds(s, now) - todo)
  }

  lemma SweepNone(s: Store, now: int)
    ensures SweptBut(s, now, s.Keys) == s && ExpiredIds(s, now) - s.Keys == {}
  {
    assert ExpiredIds(s, now) - s.Keys == {};
  }

  lemma SweepNext(s: Store, now: int, todo: set<string>, id: string)
    requires id in todo && todo <= s.Keys
    ensures id in SweptBut(s, now, todo) && SweptBut(s, now, todo)[id] == s[id]
    ensures SweptBut(s, now, todo - {id}) ==
            if Expired(s[id], now) then SweptBut(s, now, todo) - {id} else SweptBut(s, now, todo)
    ensures |ExpiredIds(s, now) - (todo - {id})| ==
            |ExpiredIds(s, now) - todo| + if Expired(s[id], now) then 1 else 0
  {
    var gone := ExpiredIds(s, now) - todo;
    assert ExpiredIds(s, now) - (todo - {id}) == if Expired(s[id], now) then gone + {id} else gone;
  }

  lemma SweepAll(s: Store, now: int)
    ensures SweptBut(s, now, {}) == Swept(s, now)
    ensures |ExpiredIds(s, now) - {}| == |ExpiredIds(s, now)| == |s| - |Swept(s, now)|
  {
    assert ExpiredIds(s, now) - {} == ExpiredIds(s, now);
    SweepCount(s, now);
  }

  // === Bookkeeping of a run ===

  /** How one reply changes the number of stored subscriptions. */
  function Change(r: Reply): int {
    match r case Created(_) => 1 case Deleted => -1 case Removed(n) => -(n as int) case _ => 0
  }

  function TotalChange(s: Store, ops: seq<Timed>): int
    decreases ops
  {
    if ops == [] then 0 else Change(Step(s, ops[0]).1) + TotalChange(Step(s, ops[0]).0, ops[1..])
  }

  /** Generated ids are new when they are used. */
  predicate FreshIds(s: Store, ops: seq<Timed>)
    decreases ops
  {
    ops == [] || ((ops[0].op.Create? ==> ops[0].op.freshId !in s) && FreshIds(Step(s, ops[0]).0, ops[1..]))
  }

  lemma DropSize(s: Store, id: string)
    requires id in s
    ensures |s - {id}| == |s| - 1
  {
    assert (s - {id}).Keys == s.Keys - {id};
    assert |s - {id}| == |(s - {id}).Keys|;
  }

  lemma AddSize(s: Store, id: string, sub: Subscription)
    requires id !in s
    ensures |s[id := sub]| == |s| + 1
  {
    assert s[id := sub].Keys == s.Keys + {id};
  }

  lemma DeleteStepSize(s: Store, now: int, id: Option<string>, client: string)
    ensures var r := Step(s, Timed(now, Delete(id, client))); |r.0| == |s| + Change(r.1)
  {
    if id.Some? && id.value in s {
      DropSize(s, id.value);
    }
  }

  lemma StepSize(s: Store, t: Timed)
    requires t.op.Create? ==> t.op.freshId !in s
    ensures |Step(s, t).0| == |s| + Change(Step(s, t).1)
  {
    match t.op {
      case Create(r, id) => AddSize(s, id, Build(r, id, t.now));
      case Delete(id, client) =>
        DeleteStepSize(s, t.now, id, client);
        assert t == Timed(t.now, Delete(id, client));
      case Notify(_, _) =>
      case Cleanup => SweepCount(s, t.now);
    }
  }

  /** The replies of a run account for the number of stored subscriptions. */
  lemma {:induction false} RunSize(s: Store, ops: seq<Timed>)
    requires FreshIds(s, ops)
    ensures |Run(s, ops)| == |s| + TotalChange(s, ops)
    decreases ops
  {
    if ops != [] {
      StepSize(s, ops[0]);
      RunSize(Step(s, ops[0]).0, ops[1..]);
    }
  }
}
